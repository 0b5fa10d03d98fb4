/**
 Interrupted and partly refused both-way runs, over stores that keep what they
 are given, end where an undisturbed run would have ended.

 `Wanted` says, without reference to any plan, what a both-way run with deletes
 should make of each row; `Reconciled` says a world is exactly that, up to the
 names of the ids a store hands out for the copies it is asked to create.
 */
module SyncRecovery {
  import opened Wrappers
  import opened SyncState
  import opened SyncPlan
  import opened SyncPairing
  import opened SyncApply
  import opened SyncTable
  import opened SyncRows
  import opened SyncRun
  import opened SyncConvergence

  datatype Ending = Gone | Kept(local: Record, remote: Record)

  /** Both sides keep the preferred record. */
  function Preferred(local: Record, remote: Record, prefer: Prefer): Ending {
    if prefer.PreferRemote? then Kept(remote, remote) else Kept(local, local)
  }

  /** What a both-way run with deletes should leave of a row. */
  function Wanted(row: Row, prefer: Prefer): Ending {
    match (row.local, row.remote)
    case (None, None) => Gone
    case (Some(l), None) => if row.link.Some? then Gone else Kept(l, l)
    case (None, Some(r)) => if row.link.Some? then Gone else Kept(r, r)
    case (Some(l), Some(r)) =>
      if row.link.None? then
        if l.fingerprint == r.fingerprint then Kept(l, r) else Preferred(l, r, prefer)
      else
        var localChanged := l.fingerprint != row.link.value.local;
        var remoteChanged := r.fingerprint != row.link.value.remote;
        if localChanged == remoteChanged then
          if !localChanged || l.fingerprint == r.fingerprint then Kept(l, r) else Preferred(l, r, prefer)
        else if localChanged then Kept(l, l)
        else Kept(r, r)
  }

  /** A settled row holds its wanted ending, linked and hashed. */
  predicate Attained(end: Row, want: Ending) {
    match want
    case Gone => end.local.None? && end.remote.None? && end.link.None?
    case Kept(a, b) =>
      && end.local == Some(a) && end.remote == Some(b)
      && end.link == Some(Hashes(a.fingerprint, b.fingerprint))
  }

  /** `end` carries on `row`: its ids are kept, and an id it gained is new since `w`. */
  predicate CarriesOn(row: Row, end: Row, w: World) {
    && (row.localId.Some? ==> end.localId == row.localId)
    && (row.remoteId.Some? ==> end.remoteId == row.remoteId)
    && (row.localId.None? && end.localId.Some? ==> end.localId.value !in w.local.used)
    && (row.remoteId.None? && end.remoteId.Some? ==> end.remoteId.value !in w.remote.used)
  }

  predicate Mirror(options: Options) { options.direction.Both? && options.propagateDeletes }

  // ----- one row -----

  lemma {:induction false} RunRowShort(actions: seq<Action>, outs: seq<Reply>, row: Row)
    requires |outs| <= |actions| && |outs| <= 2
    ensures |outs| == 0 ==> RunRow(actions, outs, row) == row
    ensures |outs| == 1 ==> RunRow(actions, outs, row) == StepRow(actions[0], outs[0], row)
    ensures |outs| == 2 ==>
      RunRow(actions, outs, row) == StepRow(actions[1], outs[1], StepRow(actions[0], outs[0], row))
  {
    if |outs| == 2 {
      assert outs[..1][..0] == [];
      assert RunRow(actions, outs[..1], row) == StepRow(actions[0], outs[0], row);
    }
  }

  /** Undisturbed, a row ends as wanted. */
  lemma {:induction false} RowAttains(row: Row, options: Options, outs: seq<Reply>, w: World)
    requires IsPlanned(row) && Mirror(options)
    requires |outs| == |PlanRow(row, options)|
    requires Told(PlanRow(row, options), outs, w, []) && AllFaithful(PlanRow(row, options), outs)
    ensures var end := Settle(RunRow(PlanRow(row, options), outs, row));
      Attained(end, Wanted(row, options.prefer)) && CarriesOn(row, end, w)
  {
    var acts := PlanRow(row, options);
    RunRowShort(acts, outs, row);
    if |outs| > 0 {
      assert Went(acts[0], outs[0]) && Faithful(acts[0], outs[0]) && Unused(acts[0], outs[0], w);
    }
    if |outs| > 1 {
      assert Went(acts[1], outs[1]) && Faithful(acts[1], outs[1]) && Unused(acts[1], outs[1], w);
    }
  }

  /** The row as the next plan sees it when the run's own state was never saved. */
  function Unsaved(row: Row, now: Row): Row {
    now.(link := row.link, wroteLocal := false, wroteRemote := false)
  }

  /** Both records of a row, where it has both, have one match key. */
  predicate SameKeys(row: Row) {
    row.local.Some? && row.remote.Some? ==> row.local.value.matchKey == row.remote.value.matchKey
  }

  predicate HasKeyOnEitherSide(row: Row, key: string) {
    || (row.local.Some? && row.local.value.matchKey == key)
    || (row.remote.Some? && row.remote.value.matchKey == key)
  }

  /** The row of a crashed run: linked as before, and if unlinked then still one new row with its key. */
  predicate UnsavedOf(row: Row, mid: Row) {
    && mid.link == row.link && !mid.wroteLocal && !mid.wroteRemote
    && (row.link.None? ==> IsNewRow(mid))
    && (row.link.None? && SameKeys(row) ==>
          SameKeys(mid)
          && (row.local.Some? ==> HasKeyOnEitherSide(mid, row.local.value.matchKey))
          && (row.remote.Some? ==> HasKeyOnEitherSide(mid, row.remote.value.matchKey)))
  }

  /** Cut short anywhere, with any refusals, a row still wants the same ending under the old state. */
  lemma {:induction false} CrashKeepsWanted(row: Row, options: Options, outs: seq<Reply>, w: World,
                                            errors: seq<Action>)
    requires IsPlanned(row) && Mirror(options)
    requires |outs| <= |PlanRow(row, options)|
    requires Told(PlanRow(row, options), outs, w, errors) && AllFaithful(PlanRow(row, options), outs)
    ensures var now := Unsaved(row, RunRow(PlanRow(row, options), outs, row));
      && Wanted(now, options.prefer) == Wanted(row, options.prefer)
      && CarriesOn(row, now, w)
      && (row.link.None? ==> IsNewRow(now))
      && UnsavedOf(row, now)
  {
    var acts := PlanRow(row, options);
    RunRowShort(acts, outs, row);
    if |outs| > 0 {
      assert Faithful(acts[0], outs[0]) && Unused(acts[0], outs[0], w);
    }
    if |outs| > 1 {
      assert Faithful(acts[1], outs[1]) && Unused(acts[1], outs[1], w);
    }
  }

  /** A first-time pair whose update was refused while the local side was preferred. */
  predicate PreferenceLost(row: Row, options: Options, errors: seq<Action>) {
    && row.localId.Some? && row.remoteId.Some? && row.link.None?
    && row.local.Some? && row.remote.Some? && options.prefer.PreferLocal?
    && row.local.value.fingerprint != row.remote.value.fingerprint
    && UpdateRemote(row.localId.value, row.remoteId.value, row.local.value) in errors
  }

  /** After refusals, a row still wants the same ending, except where a preference was lost. */
  lemma {:induction false} RetryKeepsWanted(row: Row, options: Options, outs: seq<Reply>, w: World,
                                            errors: seq<Action>)
    requires IsPlanned(row) && Mirror(options)
    requires |outs| == |PlanRow(row, options)|
    requires Told(PlanRow(row, options), outs, w, errors) && AllFaithful(PlanRow(row, options), outs)
    requires row.localId.Some? || row.remoteId.Some?
    requires !PreferenceLost(row, options, errors)
    ensures var end := Settle(RunRow(PlanRow(row, options), outs, row));
      && Wanted(end, options.prefer) == Wanted(row, options.prefer)
      && CarriesOn(row, end, w)
      && (end.link.None? && end.local.Some? ==> end == row && row.remoteId.None?)
      && (end.link.None? && end.remote.Some? ==> end == row && row.localId.None?)
  {
    var acts := PlanRow(row, options);
    RunRowShort(acts, outs, row);
    if |outs| > 0 {
      assert Went(acts[0], outs[0]) || acts[0] in errors;
      assert Faithful(acts[0], outs[0]) && Unused(acts[0], outs[0], w);
    }
    if |outs| > 1 {
      assert Went(acts[1], outs[1]) || acts[1] in errors;
      assert Faithful(acts[1], outs[1]) && Unused(acts[1], outs[1], w);
    }
  }

  // ----- the whole world -----

  /** The link stands for the row: the row's own ids, and ids new since `w0` where it had none. */
  predicate Stands(row: Row, k: Link, w0: World) {
    && (if row.localId.Some? then row.localId.value == k.localId else k.localId !in w0.local.used)
    && (if row.remoteId.Some? then row.remoteId.value == k.remoteId else k.remoteId !in w0.remote.used)
  }

  /** Both linked records are these, and the link knows their hashes. */
  predicate Joins(k: Link, w: World, local: Record, remote: Record) {
    && Lookup(w.local.items, k.localId) == Some(local) && k.localHash == local.fingerprint
    && Lookup(w.remote.items, k.remoteId) == Some(remote) && k.remoteHash == remote.fingerprint
  }

  ghost predicate EndsAs(row: Row, w0: World, w: World, want: Ending) {
    match want
    case Gone =>
      && (row.localId.Some? ==> row.localId.value !in w.local.items)
      && (row.remoteId.Some? ==> row.remoteId.value !in w.remote.items)
    case Kept(a, b) => exists k :: k in w.links && Stands(row, k, w0) && Joins(k, w, a, b)
  }

  /** `w` is what a both-way run with deletes should make of the rows of `w0`, and nothing else. */
  ghost predicate Reconciled(rows: seq<Row>, w0: World, w: World, prefer: Prefer) {
    && LinksPairUp(w)
    && (forall i :: 0 <= i < |rows| ==> EndsAs(rows[i], w0, w, Wanted(rows[i], prefer)))
    && (forall k :: k in w.links ==>
          exists i :: 0 <= i < |rows| && Wanted(rows[i], prefer).Kept? && Stands(rows[i], k, w0))
  }

  // ----- the ending is unique up to the ids stores make up -----

  /** Two links for the same pair of records, alike but for ids that are new since `w0`. */
  predicate Counterpart(k: Link, k': Link, w0: World, w: World, w': World) {
    && (k.localId in w0.local.used || k'.localId in w0.local.used ==> k.localId == k'.localId)
    && (k.remoteId in w0.remote.used || k'.remoteId in w0.remote.used ==> k.remoteId == k'.remoteId)
    && k.localHash == k'.localHash && k.remoteHash == k'.remoteHash
    && Lookup(w.local.items, k.localId) == Lookup(w'.local.items, k'.localId)
    && Lookup(w.remote.items, k.remoteId) == Lookup(w'.remote.items, k'.remoteId)
  }

  /**
   The same stores and the same pairing, but for the names of ids new since `w0`; neither
   world holds a record that no link joins to a partner.
   */
  ghost predicate SameButNewIds(w0: World, w: World, w': World) {
    && LinksPairUp(w) && LinksPairUp(w')
    && (forall x :: x in w0.local.used ==> Lookup(w.local.items, x) == Lookup(w'.local.items, x))
    && (forall y :: y in w0.remote.used ==> Lookup(w.remote.items, y) == Lookup(w'.remote.items, y))
    && (forall k :: k in w.links ==> exists k' :: k' in w'.links && Counterpart(k, k', w0, w, w'))
    && (forall k' :: k' in w'.links ==> exists k :: k in w.links && Counterpart(k, k', w0, w, w'))
  }

  lemma {:induction false} FindCounterpart(rows: seq<Row>, w0: World, w: World, w': World, prefer: Prefer, k: Link)
    returns (k': Link)
    requires forall i :: 0 <= i < |rows| ==> IsPlanned(rows[i])
    requires Reconciled(rows, w0, w, prefer) && Reconciled(rows, w0, w', prefer)
    requires k in w.links
    ensures k' in w'.links && Counterpart(k, k', w0, w, w')
  {
    var i :| 0 <= i < |rows| && Wanted(rows[i], prefer).Kept? && Stands(rows[i], k, w0);
    var want := Wanted(rows[i], prefer);
    assert EndsAs(rows[i], w0, w, want) && EndsAs(rows[i], w0, w', want);
    var own :| own in w.links && Stands(rows[i], own, w0) && Joins(own, w, want.local, want.remote);
    SameEndSameLink(w.links, k, own);
    k' :| k' in w'.links && Stands(rows[i], k', w0) && Joins(k', w', want.local, want.remote);
  }

  lemma {:induction false} SameLocalStore(rows: seq<Row>, w0: World, w: World, w': World, prefer: Prefer, x: Id)
    requires forall i :: 0 <= i < |rows| ==> IsPlanned(rows[i])
    requires Reconciled(rows, w0, w, prefer) && Reconciled(rows, w0, w', prefer)
    requires x in w0.local.used && x in w.local.items
    ensures Lookup(w.local.items, x) == Lookup(w'.local.items, x)
  {
    assert x in LocalIds(w.links);
    var k :| k in w.links && k.localId == x;
    var k' := FindCounterpart(rows, w0, w, w', prefer, k);
  }

  lemma {:induction false} SameRemoteStore(rows: seq<Row>, w0: World, w: World, w': World, prefer: Prefer, y: Id)
    requires forall i :: 0 <= i < |rows| ==> IsPlanned(rows[i])
    requires Reconciled(rows, w0, w, prefer) && Reconciled(rows, w0, w', prefer)
    requires y in w0.remote.used && y in w.remote.items
    ensures Lookup(w.remote.items, y) == Lookup(w'.remote.items, y)
  {
    assert y in RemoteIds(w.links);
    var k :| k in w.links && k.remoteId == y;
    var k' := FindCounterpart(rows, w0, w, w', prefer, k);
  }

  /** All worlds that reconcile one plan's rows have the same contents and pairing. */
  lemma {:induction false} ReconciledIsUnique(rows: seq<Row>, w0: World, w: World, w': World, prefer: Prefer)
    requires forall i :: 0 <= i < |rows| ==> IsPlanned(rows[i])
    requires Reconciled(rows, w0, w, prefer) && Reconciled(rows, w0, w', prefer)
    ensures SameButNewIds(w0, w, w')
  {
    forall k | k in w.links ensures exists k' :: k' in w'.links && Counterpart(k, k', w0, w, w') {
      var k' := FindCounterpart(rows, w0, w, w', prefer, k);
    }
    forall k' | k' in w'.links ensures exists k :: k in w.links && Counterpart(k, k', w0, w, w') {
      var k := FindCounterpart(rows, w0, w', w, prefer, k');
      assert Counterpart(k, k', w0, w, w');
    }
    forall x | x in w0.local.used ensures Lookup(w.local.items, x) == Lookup(w'.local.items, x) {
      if x in w.local.items {
        SameLocalStore(rows, w0, w, w', prefer, x);
      } else if x in w'.local.items {
        SameLocalStore(rows, w0, w', w, prefer, x);
      }
    }
    forall y | y in w0.remote.used ensures Lookup(w.remote.items, y) == Lookup(w'.remote.items, y) {
      if y in w.remote.items {
        SameRemoteStore(rows, w0, w, w', prefer, y);
      } else if y in w'.remote.items {
        SameRemoteStore(rows, w0, w', w, prefer, y);
      }
    }
  }

  lemma {:induction false} AttainedEnds(row: Row, end: Row, w0: World, w: World, want: Ending)
    requires Holds(end, Run(w, EMPTY_RESULT)) && Attained(end, want) && CarriesOn(row, end, w0)
    ensures EndsAs(row, w0, w, want)
  {
    if want.Kept? {
      var k := Link(end.localId.value, end.remoteId.value, end.link.value.local, end.link.value.remote);
      assert k in w.links && Stands(row, k, w0) && Joins(k, w, want.local, want.remote);
    }
  }

  /** An undisturbed run reconciles. */
  lemma {:induction false} UndisturbedReconciles(w: World, ls: seq<Item>, rs: seq<Item>, options: Options,
                                                 replies: seq<Reply>)
    requires ValidWorld(w) && Listing(ls, w.local.items) && Listing(rs, w.remote.items)
    requires Mirror(options) && |replies| == |Plan(ls, rs, w.links, options)|
    requires AllFaithful(Plan(ls, rs, w.links, options), replies)
    requires Sync(w, ls, rs, options, replies).result.errors == []
    ensures ValidWorld(Sync(w, ls, rs, options, replies).world)
    ensures Reconciled(Rows(ls, rs, w.links), w, Sync(w, ls, rs, options, replies).world, options.prefer)
  {
    var rows := Rows(ls, rs, w.links);
    var w' := Sync(w, ls, rs, options, replies).world;
    var outs, end := SyncTableOf(w, ls, rs, options, replies);
    forall i | 0 <= i < |rows|
      ensures Attained(end[i], Wanted(rows[i], options.prefer)) && CarriesOn(rows[i], end[i], w) && InStep(end[i])
    {
      assert Told(PlanRow(rows[i], options), outs[i], w, []);
      RowAttains(rows[i], options, outs[i], w);
    }
    InStepPairsUp(end, w');
    forall i | 0 <= i < |rows| ensures EndsAs(rows[i], w, w', Wanted(rows[i], options.prefer)) {
      AttainedEnds(rows[i], end[i], w, w', Wanted(rows[i], options.prefer));
    }
    forall k | k in w'.links
      ensures exists i :: 0 <= i < |rows| && Wanted(rows[i], options.prefer).Kept? && Stands(rows[i], k, w)
    {
      var i := SameLinkedRow(end, w', LinkRow(k, w'.local.items, w'.remote.items));
      assert Attained(end[i], Wanted(rows[i], options.prefer)) && CarriesOn(rows[i], end[i], w);
    }
  }

  /** An id that is used but no longer held never comes back. */
  lemma {:induction false} NeverRevived(actions: seq<Action>, replies: seq<Reply>, run: Run)
    requires |actions| == |replies|
    ensures var w := Apply(actions, replies, run).world;
      && run.world.local.used <= w.local.used && run.world.remote.used <= w.remote.used
      && (forall x :: x in w.local.items && x in run.world.local.used ==> x in run.world.local.items)
      && (forall y :: y in w.remote.items && y in run.world.remote.used ==> y in run.world.remote.items)
  {
    if actions != [] {
      var n := |actions| - 1;
      NeverRevived(actions[..n], replies[..n], run);
      StepRevivesNone(actions[n], replies[n], Apply(actions[..n], replies[..n], run));
    }
  }

  lemma {:induction false} StepRevivesNone(a: Action, reply: Reply, run: Run)
    ensures var w := Step(a, reply, run).world;
      && run.world.local.used <= w.local.used && run.world.remote.used <= w.remote.used
      && (forall x :: x in w.local.items && x in run.world.local.used ==> x in run.world.local.items)
      && (forall y :: y in w.remote.items && y in run.world.remote.used ==> y in run.world.remote.items)
  {}

  predicate Empty(row: Row) { row.local.None? && row.remote.None? && row.link.None? }

  /** `mid` is the table of `w1`, row by row what became of `rows` since `w0` with the endings unchanged. */
  ghost predicate Midway(rows: seq<Row>, w0: World, mid: seq<Row>, w1: World, prefer: Prefer) {
    && ValidWorld(w1) && Represents(mid, Run(w1, EMPTY_RESULT))
    && w0.local.used <= w1.local.used && w0.remote.used <= w1.remote.used
    && |mid| == |rows|
    && (forall i :: 0 <= i < |rows| ==>
          Wanted(mid[i], prefer) == Wanted(rows[i], prefer) && CarriesOn(rows[i], mid[i], w0))
  }

  /** The next plan is made of the rows of `mid` that are not empty. */
  ghost predicate Replanned(mid: seq<Row>, next: seq<Row>) {
    && (forall i :: 0 <= i < |mid| && !Empty(mid[i]) ==> mid[i] in next)
    && (forall j :: 0 <= j < |next| ==> next[j] in mid)
  }

  lemma {:induction false} EndsCompose(row: Row, mid: Row, w0: World, w1: World, w2: World, want: Ending)
    requires CarriesOn(row, mid, w0) && EndsAs(mid, w1, w2, want)
    requires w0.local.used <= w1.local.used && w0.remote.used <= w1.remote.used
    ensures EndsAs(row, w0, w2, want)
  {
    if want.Kept? {
      var k :| k in w2.links && Stands(mid, k, w1) && Joins(k, w2, want.local, want.remote);
      assert Stands(row, k, w0);
    }
  }

  /** No id used in `w1` and no longer held there is held in `w2`. */
  ghost predicate NoneRevived(w1: World, w2: World) {
    && (forall x :: x in w2.local.items && x in w1.local.used ==> x in w1.local.items)
    && (forall y :: y in w2.remote.items && y in w1.remote.used ==> y in w1.remote.items)
  }

  lemma {:induction false} MidwayRowEnds(rows: seq<Row>, w0: World, mid: seq<Row>, w1: World, next: seq<Row>,
                                         w2: World, prefer: Prefer, i: nat)
    requires Midway(rows, w0, mid, w1, prefer) && Replanned(mid, next)
    requires Reconciled(next, w1, w2, prefer) && NoneRevived(w1, w2)
    requires i < |rows|
    ensures EndsAs(rows[i], w0, w2, Wanted(rows[i], prefer))
  {
    assert CarriesOn(rows[i], mid[i], w0) && Wanted(mid[i], prefer) == Wanted(rows[i], prefer);
    if Empty(mid[i]) {
      assert Holds(mid[i], Run(w1, EMPTY_RESULT));
    } else {
      var j :| 0 <= j < |next| && next[j] == mid[i];
      assert EndsAs(next[j], w1, w2, Wanted(next[j], prefer));
      EndsCompose(rows[i], mid[i], w0, w1, w2, Wanted(rows[i], prefer));
    }
  }

  /** A link that stands for what a row became stood for the row itself. */
  lemma {:induction false} StoodBefore(row: Row, mid: Row, k: Link, w0: World, w1: World)
    requires CarriesOn(row, mid, w0) && Stands(mid, k, w1)
    requires w0.local.used <= w1.local.used && w0.remote.used <= w1.remote.used
    ensures Stands(row, k, w0)
  {
  }

  /** The row a link of a reconciled world stands for. */
  lemma {:induction false} RowOfLink(rows: seq<Row>, w0: World, w: World, prefer: Prefer, k: Link) returns (i: nat)
    requires Reconciled(rows, w0, w, prefer) && k in w.links
    ensures i < |rows| && Wanted(rows[i], prefer).Kept? && Stands(rows[i], k, w0)
  {
    i :| 0 <= i < |rows| && Wanted(rows[i], prefer).Kept? && Stands(rows[i], k, w0);
  }

  /** Where a row of the next plan was in the table. */
  lemma {:induction false} PlaceInTable(mid: seq<Row>, next: seq<Row>, j: nat) returns (i: nat)
    requires Replanned(mid, next) && j < |next|
    ensures i < |mid| && mid[i] == next[j]
  {
    assert next[j] in mid;
    i :| 0 <= i < |mid| && mid[i] == next[j];
  }

  lemma {:induction false} MidwayLinkStands(rows: seq<Row>, w0: World, mid: seq<Row>, w1: World, next: seq<Row>,
                                            w2: World, prefer: Prefer, k: Link)
    returns (i: nat)
    requires Midway(rows, w0, mid, w1, prefer) && Replanned(mid, next)
    requires Reconciled(next, w1, w2, prefer)
    requires k in w2.links
    ensures i < |rows| && Wanted(rows[i], prefer).Kept? && Stands(rows[i], k, w0)
  {
    var j := RowOfLink(next, w1, w2, prefer, k);
    i := PlaceInTable(mid, next, j);
    StoodBefore(rows[i], mid[i], k, w0, w1);
  }

  /** Running again undisturbed from midway reconciles what the first run started from. */
  lemma {:induction false} MidwayReconciles(
    rows: seq<Row>, w0: World, mid: seq<Row>, w1: World, ls1: seq<Item>, rs1: seq<Item>,
    options: Options, replies: seq<Reply>)
    requires Midway(rows, w0, mid, w1, options.prefer)
    requires Listing(ls1, w1.local.items) && Listing(rs1, w1.remote.items)
    requires Replanned(mid, Rows(ls1, rs1, w1.links))
    requires Mirror(options) && |replies| == |Plan(ls1, rs1, w1.links, options)|
    requires AllFaithful(Plan(ls1, rs1, w1.links, options), replies)
    requires Sync(w1, ls1, rs1, options, replies).result.errors == []
    ensures Reconciled(rows, w0, Sync(w1, ls1, rs1, options, replies).world, options.prefer)
  {
    var prefer := options.prefer;
    var next := Rows(ls1, rs1, w1.links);
    var w2 := Sync(w1, ls1, rs1, options, replies).world;
    UndisturbedReconciles(w1, ls1, rs1, options, replies);
    NeverRevived(Plan(ls1, rs1, w1.links, options), replies, Run(w1, EMPTY_RESULT));
    forall i | 0 <= i < |rows| ensures EndsAs(rows[i], w0, w2, Wanted(rows[i], prefer)) {
      MidwayRowEnds(rows, w0, mid, w1, next, w2, prefer, i);
    }
    forall k | k in w2.links
      ensures exists i :: 0 <= i < |rows| && Wanted(rows[i], prefer).Kept? && Stands(rows[i], k, w0)
    {
      var i := MidwayLinkStands(rows, w0, mid, w1, next, w2, prefer, k);
    }
  }

  /** It is enough that every row that is not empty is planned again as it is. */
  lemma {:induction false} ReplannedFromRows(mid: seq<Row>, w1: World, ls1: seq<Item>, rs1: seq<Item>)
    requires ValidWorld(w1) && Represents(mid, Run(w1, EMPTY_RESULT))
    requires Listing(ls1, w1.local.items) && Listing(rs1, w1.remote.items)
    requires forall i :: 0 <= i < |mid| && !Empty(mid[i]) ==> mid[i] in Rows(ls1, rs1, w1.links)
    ensures Replanned(mid, Rows(ls1, rs1, w1.links))
  {
    var next := Rows(ls1, rs1, w1.links);
    forall j | 0 <= j < |next| ensures next[j] in mid {
      NextRowIsOld(mid, w1, ls1, rs1, j);
    }
  }

  /** The old table has a row, not an empty one, with an id of the new row. */
  lemma {:induction false} OldRowOf(mid: seq<Row>, w: World, b: Row) returns (i: nat)
    requires ValidWorld(w) && Represents(mid, Run(w, EMPTY_RESULT))
    requires Holds(b, Run(w, EMPTY_RESULT)) && (b.link.Some? || IsNewRow(b))
    ensures i < |mid| && !Empty(mid[i]) && !Apart(b, mid[i]) && !Apart(mid[i], b)
  {
    if b.link.Some? {
      i := SameLinkedRow(mid, w, b);
    } else if b.local.Some? {
      i := SameLocal(mid, w, b);
    } else {
      i := SameRemote(mid, w, b);
    }
  }

  lemma {:induction false} NextRowIsOld(mid: seq<Row>, w1: World, ls1: seq<Item>, rs1: seq<Item>, j: nat)
    requires ValidWorld(w1) && Represents(mid, Run(w1, EMPTY_RESULT))
    requires Listing(ls1, w1.local.items) && Listing(rs1, w1.remote.items)
    requires forall i :: 0 <= i < |mid| && !Empty(mid[i]) ==> mid[i] in Rows(ls1, rs1, w1.links)
    requires j < |Rows(ls1, rs1, w1.links)|
    ensures Rows(ls1, rs1, w1.links)[j] in mid
  {
    var next := Rows(ls1, rs1, w1.links);
    TableRowsHold(ls1, rs1, w1, j);
    LinkedOrNew(ls1, rs1, w1, j);
    var i := OldRowOf(mid, w1, next[j]);
    var j' :| 0 <= j' < |next| && next[j'] == mid[i];
    SamePlace(ls1, rs1, w1, j, j');
  }

  /** Rows of one plan that name a common id are the same row. */
  lemma {:induction false} SamePlace(ls: seq<Item>, rs: seq<Item>, w: World, i: nat, j: nat)
    requires ValidWorld(w) && Listing(ls, w.local.items) && Listing(rs, w.remote.items)
    requires i < |Rows(ls, rs, w.links)| && j < |Rows(ls, rs, w.links)|
    requires var (a, b) := (Rows(ls, rs, w.links)[i], Rows(ls, rs, w.links)[j]); !Apart(a, b) && !Apart(b, a)
    ensures i == j
  {
    if i < j {
      TableRowsApart(ls, rs, w, i, j);
    } else if j < i {
      TableRowsApart(ls, rs, w, j, i);
    }
  }

  lemma {:induction false} LinkedOrNew(ls: seq<Item>, rs: seq<Item>, w: World, j: nat)
    requires ValidWorld(w) && Listing(ls, w.local.items) && Listing(rs, w.remote.items)
    requires j < |Rows(ls, rs, w.links)|
    ensures Rows(ls, rs, w.links)[j].link.Some? || IsNewRow(Rows(ls, rs, w.links)[j])
  {
    TableRowsHold(ls, rs, w, j);
  }
}
