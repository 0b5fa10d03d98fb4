/** Error-free runs settle: what the next plan contains, over stores that may rewrite what they are given. */
module SyncConvergence {
  import opened Wrappers
  import opened SyncState
  import opened SyncPlan
  import opened SyncPairing
  import opened SyncApply
  import opened SyncTable
  import opened SyncRows
  import opened SyncRun

  // ----- refreshing hashes, row by row -----

  /** A row once the run's hashes are refreshed and the run forgotten. */
  function Settle(row: Row): Row {
    row.(
      link := if row.link.None? then None else Some(Hashes(
        if row.wroteLocal && row.local.Some? then row.local.value.fingerprint else row.link.value.local,
        if row.wroteRemote && row.remote.Some? then row.remote.value.fingerprint else row.link.value.remote)),
      wroteLocal := false, wroteRemote := false)
  }

  function SettleAll(rows: seq<Row>): (r: seq<Row>)
    ensures |r| == |rows|
    ensures forall i :: 0 <= i < |rows| ==> r[i] == Settle(rows[i])
  {
    seq(|rows|, i requires 0 <= i < |rows| => Settle(rows[i]))
  }

  /** The world a run leaves behind once its hashes are refreshed. */
  function Refreshed(run: Run): World {
    run.world.(links := Refresh(run.world.links, run.world.local.items, run.world.remote.items,
                                run.result.touchedLocal, run.result.touchedRemote))
  }

  function RefreshedLink(k: Link, run: Run): Link {
    RefreshLink(k, run.world.local.items, run.world.remote.items,
                run.result.touchedLocal, run.result.touchedRemote)
  }

  lemma {:induction false} RefreshedHas(run: Run, k: Link)
    requires k in run.world.links
    ensures RefreshedLink(k, run) in Refreshed(run).links
  {
    var links := run.world.links;
    var i :| 0 <= i < |links| && links[i] == k;
    assert Refreshed(run).links[i] in Refreshed(run).links;
  }

  lemma {:induction false} RefreshedFrom(run: Run, k: Link) returns (k0: Link)
    requires k in Refreshed(run).links
    ensures k0 in run.world.links && k0.localId == k.localId && k0.remoteId == k.remoteId
  {
    var links := Refreshed(run).links;
    var i :| 0 <= i < |links| && links[i] == k;
    k0 := run.world.links[i];
  }

  lemma {:induction false} RefreshedValid(run: Run)
    requires ValidWorld(run.world)
    ensures ValidWorld(Refreshed(run))
  {
    forall k | k in Refreshed(run).links
      ensures k.localId in run.world.local.used && k.remoteId in run.world.remote.used
    {
      var k0 := RefreshedFrom(run, k);
    }
  }

  lemma {:induction false} SettledRowHolds(row: Row, run: Run)
    requires Holds(row, run)
    ensures Holds(Settle(row), Run(Refreshed(run), EMPTY_RESULT))
  {
    if row.link.None? {
      forall k | k in Refreshed(run).links ensures !Mentions(k, row.localId, row.remoteId) {
        var k0 := RefreshedFrom(run, k);
        assert !Mentions(k0, row.localId, row.remoteId);
      }
    } else {
      RefreshedHas(run, Link(row.localId.value, row.remoteId.value, row.link.value.local, row.link.value.remote));
    }
  }

  /** Refreshing settles every row of the table. */
  lemma {:induction false} SettledTable(rows: seq<Row>, run: Run)
    requires ValidWorld(run.world) && Represents(rows, run)
    ensures ValidWorld(Refreshed(run))
    ensures Represents(SettleAll(rows), Run(Refreshed(run), EMPTY_RESULT))
  {
    var now := SettleAll(rows);
    RefreshedValid(run);
    forall i | 0 <= i < |now| ensures Holds(now[i], Run(Refreshed(run), EMPTY_RESULT)) {
      SettledRowHolds(rows[i], run);
    }
    forall i, j | 0 <= i < j < |now| ensures Apart(now[i], now[j]) {
      assert Apart(rows[i], rows[j]);
    }
    forall x | NamesLocal(rows, x) ensures NamesLocal(now, x) {
      var i :| 0 <= i < |rows| && rows[i].localId == Some(x);
      assert now[i].localId == Some(x);
    }
    forall y | NamesRemote(rows, y) ensures NamesRemote(now, y) {
      var i :| 0 <= i < |rows| && rows[i].remoteId == Some(y);
      assert now[i].remoteId == Some(y);
    }
  }

  // ----- two tables of one world -----

  /** A linked row of one table of a world is a row of every table of it. */
  lemma {:induction false} SameLinkedRow(a: seq<Row>, w: World, b: Row) returns (i: nat)
    requires ValidWorld(w) && Represents(a, Run(w, EMPTY_RESULT))
    requires Holds(b, Run(w, EMPTY_RESULT)) && b.link.Some?
    ensures i < |a| && a[i] == b
  {
    var k := Link(b.localId.value, b.remoteId.value, b.link.value.local, b.link.value.remote);
    assert NamesLocal(a, k.localId);
    i :| 0 <= i < |a| && a[i].localId == b.localId;
    assert Holds(a[i], Run(w, EMPTY_RESULT));
    assert a[i].link.Some? by {
      if a[i].link.None? {
        assert Mentions(k, a[i].localId, a[i].remoteId);
      }
    }
    var k' := Link(a[i].localId.value, a[i].remoteId.value, a[i].link.value.local, a[i].link.value.remote);
    SameEndSameLink(w.links, k, k');
  }

  lemma {:induction false} SameLocal(a: seq<Row>, w: World, b: Row) returns (i: nat)
    requires ValidWorld(w) && Represents(a, Run(w, EMPTY_RESULT))
    requires Holds(b, Run(w, EMPTY_RESULT)) && b.local.Some? && b.link.None?
    ensures i < |a| && a[i].localId == b.localId && a[i].local == b.local && a[i].link.None?
  {
    assert NamesLocal(a, b.localId.value);
    i :| 0 <= i < |a| && a[i].localId == b.localId;
    assert Holds(a[i], Run(w, EMPTY_RESULT));
  }

  lemma {:induction false} SameRemote(a: seq<Row>, w: World, b: Row) returns (i: nat)
    requires ValidWorld(w) && Represents(a, Run(w, EMPTY_RESULT))
    requires Holds(b, Run(w, EMPTY_RESULT)) && b.remote.Some? && b.link.None?
    ensures i < |a| && a[i].remoteId == b.remoteId && a[i].remote == b.remote && a[i].link.None?
  {
    assert NamesRemote(a, b.remoteId.value);
    i :| 0 <= i < |a| && a[i].remoteId == b.remoteId;
    assert Holds(a[i], Run(w, EMPTY_RESULT));
  }

  // ----- what one error-free run makes of a row -----

  /** A row as a plan starts from it. */
  predicate IsPlanned(row: Row) {
    if row.link.Some? then row.localId.Some? && row.remoteId.Some? && !row.wroteLocal && !row.wroteRemote
    else IsNewRow(row)
  }

  /** Both sides present, linked, and hashed as they are; or nothing left at all. */
  predicate InStep(row: Row) {
    if row.link.Some? then
      && row.local.Some? && row.remote.Some?
      && row.link.value == Hashes(row.local.value.fingerprint, row.remote.value.fingerprint)
    else row.local.None? && row.remote.None?
  }

  /** No link with a missing end. */
  predicate Live(row: Row) { row.link.Some? ==> row.local.Some? && row.remote.Some? }

  /** Nothing to do but leave things on a side that is not written. */
  predicate Quiet(row: Row, options: Options) {
    && Live(row)
    && (if row.link.Some? then PlanRow(row, options) == [] || PlanRow(row, options) == [Skip]
        else (row.local.Some? ==> !options.WritesRemote()) && (row.remote.Some? ==> !options.WritesLocal()))
  }

  lemma {:induction false} RowOutcome(row: Row, options: Options, outs: seq<Reply>)
    requires IsPlanned(row)
    requires |outs| == |PlanRow(row, options)| && AllWent(PlanRow(row, options), outs)
    ensures var end := Settle(RunRow(PlanRow(row, options), outs, row));
      && Live(end)
      && (Live(row) ==> Quiet(end, options))
      && (options.direction.Both? && options.propagateDeletes ==> InStep(end))
  {
    var acts := PlanRow(row, options);
    FewActions(acts, outs, row);
    if |outs| > 0 {
      assert Went(acts[0], outs[0]);
      if |outs| > 1 {
        assert Went(acts[1], outs[1]);
      }
    }
  }

  /** Rows have two actions at most. */
  lemma {:induction false} FewActions(acts: seq<Action>, outs: seq<Reply>, row: Row)
    requires |outs| == |acts|
    ensures |outs| == 0 ==> RunRow(acts, outs, row) == row
    ensures |outs| == 1 ==> RunRow(acts, outs, row) == StepRow(acts[0], outs[0], row)
    ensures |outs| == 2 ==> RunRow(acts, outs, row) == StepRow(acts[1], outs[1], StepRow(acts[0], outs[0], row))
  {
    if |outs| == 1 {
      assert outs[..0] == [];
    } else if |outs| == 2 {
      assert outs[..1][..0] == [];
      assert RunRow(acts, outs[..1], row) == StepRow(acts[0], outs[0], row);
    }
  }

  lemma {:induction false} PlannedRows(ls: seq<Item>, rs: seq<Item>, w: World)
    requires ValidWorld(w) && Listing(ls, w.local.items) && Listing(rs, w.remote.items)
    ensures forall i :: 0 <= i < |Rows(ls, rs, w.links)| ==> IsPlanned(Rows(ls, rs, w.links)[i])
  {
    forall i | 0 <= i < |Rows(ls, rs, w.links)| ensures IsPlanned(Rows(ls, rs, w.links)[i]) {
      TableRowsHold(ls, rs, w, i);
    }
  }

  /** The table a run ends in, once refreshed. */
  lemma {:induction false} SyncTableOf(w: World, ls: seq<Item>, rs: seq<Item>, options: Options, replies: seq<Reply>)
    returns (outs: seq<seq<Reply>>, end: seq<Row>)
    requires ValidWorld(w) && Listing(ls, w.local.items) && Listing(rs, w.remote.items)
    requires |replies| == |Plan(ls, rs, w.links, options)|
    ensures var rows := Rows(ls, rs, w.links);
      && |outs| == |end| == |rows|
      && (forall i :: 0 <= i < |rows| ==>
            && IsPlanned(rows[i])
            && |outs[i]| == |PlanRow(rows[i], options)|
            && end[i] == Settle(RunRow(PlanRow(rows[i], options), outs[i], rows[i])))
      && RowsTold(rows, options, outs, w, Sync(w, ls, rs, options, replies).result.errors)
      && (forall e :: e in Sync(w, ls, rs, options, replies).result.errors ==> Blames(rows, options, outs, e))
      && (AllFaithful(Plan(ls, rs, w.links, options), replies) ==> RowsFaithful(rows, options, outs))
    ensures ValidWorld(Sync(w, ls, rs, options, replies).world)
    ensures Represents(end, Run(Sync(w, ls, rs, options, replies).world, EMPTY_RESULT))
  {
    var rows := Rows(ls, rs, w.links);
    var start := Run(w, EMPTY_RESULT);
    InitialTable(ls, rs, w);
    PlannedRows(ls, rs, w);
    PrefixWhole(rows, options);
    var now;
    outs, now := RunTable(rows, options, |rows|, 0, replies, start);
    var run := Apply(Plan(ls, rs, w.links, options), replies, start);
    SettledTable(now, run);
    end := SettleAll(now);
  }

  // ----- the next plan -----

  lemma {:induction false} FlatOnlySkips(rows: seq<Row>, options: Options)
    requires forall i :: 0 <= i < |rows| ==> forall a :: a in PlanRow(rows[i], options) ==> a == Skip
    ensures forall a :: a in Flat(rows, options) ==> a == Skip
  {
    if rows != [] {
      FlatOnlySkips(rows[..|rows| - 1], options);
    }
  }

  lemma {:induction false} FlatEmpty(rows: seq<Row>, options: Options)
    requires forall i :: 0 <= i < |rows| ==> PlanRow(rows[i], options) == []
    ensures Flat(rows, options) == []
  {
    if rows != [] {
      FlatEmpty(rows[..|rows| - 1], options);
    }
  }

  /** The links are a one-to-one correspondence between the two stores' ids. */
  ghost predicate LinksPairUp(w: World) {
    && Injective(w.links)
    && LocalIds(w.links) == w.local.items.Keys
    && RemoteIds(w.links) == w.remote.items.Keys
  }

  lemma {:induction false} InStepPairsUp(rows: seq<Row>, w: World)
    requires ValidWorld(w) && Represents(rows, Run(w, EMPTY_RESULT))
    requires forall i :: 0 <= i < |rows| ==> InStep(rows[i])
    ensures LinksPairUp(w)
  {
    forall x | x in w.local.items ensures x in LocalIds(w.links) {
      assert NamesLocal(rows, x);
      var i :| 0 <= i < |rows| && rows[i].localId == Some(x);
      InStepLinked(rows, w, i);
    }
    forall y | y in w.remote.items ensures y in RemoteIds(w.links) {
      assert NamesRemote(rows, y);
      var i :| 0 <= i < |rows| && rows[i].remoteId == Some(y);
      InStepLinked(rows, w, i);
    }
    forall k | k in w.links ensures k.localId in w.local.items && k.remoteId in w.remote.items {
      LinkInStep(rows, w, k);
    }
  }

  /** What a row in step holds is linked. */
  lemma {:induction false} InStepLinked(rows: seq<Row>, w: World, i: nat)
    requires Represents(rows, Run(w, EMPTY_RESULT)) && i < |rows| && InStep(rows[i])
    ensures rows[i].localId.Some? && rows[i].localId.value in w.local.items ==>
      rows[i].localId.value in LocalIds(w.links)
    ensures rows[i].remoteId.Some? && rows[i].remoteId.value in w.remote.items ==>
      rows[i].remoteId.value in RemoteIds(w.links)
  {
    var row := rows[i];
    assert Holds(row, Run(w, EMPTY_RESULT));
    if row.link.Some? {
      assert Link(row.localId.value, row.remoteId.value, row.link.value.local, row.link.value.remote) in w.links;
    }
  }

  /** Both ends of a link whose row is in step are held. */
  lemma {:induction false} LinkInStep(rows: seq<Row>, w: World, k: Link)
    requires ValidWorld(w) && Represents(rows, Run(w, EMPTY_RESULT))
    requires forall i :: 0 <= i < |rows| ==> InStep(rows[i])
    requires k in w.links
    ensures k.localId in w.local.items && k.remoteId in w.remote.items
  {
    var row := Row(Some(k.localId), Some(k.remoteId), Lookup(w.local.items, k.localId),
                   Lookup(w.remote.items, k.remoteId), Some(Hashes(k.localHash, k.remoteHash)), false, false);
    var i := SameLinkedRow(rows, w, row);
    assert InStep(rows[i]);
  }

  lemma {:induction false} InStepPlansNothing(rows: seq<Row>, w: World, ls: seq<Item>, rs: seq<Item>, options: Options)
    requires ValidWorld(w) && Represents(rows, Run(w, EMPTY_RESULT))
    requires forall i :: 0 <= i < |rows| ==> InStep(rows[i])
    requires Listing(ls, w.local.items) && Listing(rs, w.remote.items)
    ensures Plan(ls, rs, w.links, options) == []
  {
    var next := Rows(ls, rs, w.links);
    forall j | 0 <= j < |next| ensures PlanRow(next[j], options) == [] {
      TableRowsHold(ls, rs, w, j);
      var b := next[j];
      if b.link.Some? {
        var i := SameLinkedRow(rows, w, b);
        assert InStep(rows[i]);
      } else if b.local.Some? {
        var i := SameLocal(rows, w, b);
      } else {
        var i := SameRemote(rows, w, b);
      }
    }
    FlatEmpty(next, options);
  }

  lemma {:induction false} QuietPlansSkips(rows: seq<Row>, w: World, ls: seq<Item>, rs: seq<Item>, options: Options)
    requires ValidWorld(w) && Represents(rows, Run(w, EMPTY_RESULT))
    requires forall i :: 0 <= i < |rows| ==> Quiet(rows[i], options)
    requires Listing(ls, w.local.items) && Listing(rs, w.remote.items)
    ensures forall a :: a in Plan(ls, rs, w.links, options) ==> a == Skip
  {
    var next := Rows(ls, rs, w.links);
    forall j | 0 <= j < |next| ensures forall a :: a in PlanRow(next[j], options) ==> a == Skip {
      QuietRowSkips(rows, w, ls, rs, options, j);
    }
    FlatOnlySkips(next, options);
  }

  lemma {:induction false} QuietRowSkips(rows: seq<Row>, w: World, ls: seq<Item>, rs: seq<Item>, options: Options,
                                         j: nat)
    requires ValidWorld(w) && Represents(rows, Run(w, EMPTY_RESULT))
    requires forall i :: 0 <= i < |rows| ==> Quiet(rows[i], options)
    requires Listing(ls, w.local.items) && Listing(rs, w.remote.items)
    requires j < |Rows(ls, rs, w.links)|
    ensures forall a :: a in PlanRow(Rows(ls, rs, w.links)[j], options) ==> a == Skip
  {
    TableRowsHold(ls, rs, w, j);
    var b := Rows(ls, rs, w.links)[j];
    if b.link.Some? {
      var i := SameLinkedRow(rows, w, b);
      assert Quiet(rows[i], options);
    } else {
      QuietNewRow(rows, w, b, options);
    }
  }

  lemma {:induction false} QuietNewRow(rows: seq<Row>, w: World, b: Row, options: Options)
    requires ValidWorld(w) && Represents(rows, Run(w, EMPTY_RESULT))
    requires forall i :: 0 <= i < |rows| ==> Quiet(rows[i], options)
    requires Holds(b, Run(w, EMPTY_RESULT)) && IsNewRow(b)
    ensures forall a :: a in PlanRow(b, options) ==> a == Skip
  {
    if b.local.Some? {
      var i := SameLocal(rows, w, b);
      assert Quiet(rows[i], options);
    }
    if b.remote.Some? {
      var i := SameRemote(rows, w, b);
      assert Quiet(rows[i], options);
    }
  }

  /** One error-free both-way run with deletes leaves a one-to-one pairing and nothing to do. */
  lemma {:induction false} ConvergesAtOnce(
    w: World, ls: seq<Item>, rs: seq<Item>, options: Options, replies: seq<Reply>, ls': seq<Item>, rs': seq<Item>,
    options': Options)
    requires ValidWorld(w) && Listing(ls, w.local.items) && Listing(rs, w.remote.items)
    requires options.direction.Both? && options.propagateDeletes
    requires |replies| == |Plan(ls, rs, w.links, options)|
    requires Sync(w, ls, rs, options, replies).result.errors == []
    requires Listing(ls', Sync(w, ls, rs, options, replies).world.local.items)
    requires Listing(rs', Sync(w, ls, rs, options, replies).world.remote.items)
    ensures LinksPairUp(Sync(w, ls, rs, options, replies).world)
    ensures Plan(ls', rs', Sync(w, ls, rs, options, replies).world.links, options') == []
  {
    var outs, end := SyncTableOf(w, ls, rs, options, replies);
    var rows := Rows(ls, rs, w.links);
    forall i | 0 <= i < |end| ensures InStep(end[i]) {
      assert Told(PlanRow(rows[i], options), outs[i], w, []);
      RowOutcome(rows[i], options, outs[i]);
    }
    var w' := Sync(w, ls, rs, options, replies).world;
    InStepPairsUp(end, w');
    InStepPlansNothing(end, w', ls', rs', options');
  }

  /** After an error-free run of any kind every link has both its ends. */
  ghost predicate LinksLive(w: World) {
    forall k :: k in w.links ==> k.localId in w.local.items && k.remoteId in w.remote.items
  }

  lemma {:induction false} LiveAfterOne(w: World, ls: seq<Item>, rs: seq<Item>, options: Options, replies: seq<Reply>)
    requires ValidWorld(w) && Listing(ls, w.local.items) && Listing(rs, w.remote.items)
    requires |replies| == |Plan(ls, rs, w.links, options)|
    requires Sync(w, ls, rs, options, replies).result.errors == []
    ensures ValidWorld(Sync(w, ls, rs, options, replies).world)
    ensures LinksLive(Sync(w, ls, rs, options, replies).world)
  {
    var outs, end := SyncTableOf(w, ls, rs, options, replies);
    var rows := Rows(ls, rs, w.links);
    var w' := Sync(w, ls, rs, options, replies).world;
    forall k | k in w'.links ensures k.localId in w'.local.items && k.remoteId in w'.remote.items {
      var i := SameLinkedRow(end, w', LinkRow(k, w'.local.items, w'.remote.items));
      assert Told(PlanRow(rows[i], options), outs[i], w, []);
      RowOutcome(rows[i], options, outs[i]);
    }
  }

  lemma {:induction false} QuietFromLive(
    w: World, ls: seq<Item>, rs: seq<Item>, options: Options, replies: seq<Reply>, ls': seq<Item>, rs': seq<Item>)
    requires ValidWorld(w) && Listing(ls, w.local.items) && Listing(rs, w.remote.items)
    requires LinksLive(w)
    requires |replies| == |Plan(ls, rs, w.links, options)|
    requires Sync(w, ls, rs, options, replies).result.errors == []
    requires Listing(ls', Sync(w, ls, rs, options, replies).world.local.items)
    requires Listing(rs', Sync(w, ls, rs, options, replies).world.remote.items)
    ensures forall a :: a in Plan(ls', rs', Sync(w, ls, rs, options, replies).world.links, options) ==> a == Skip
  {
    var outs, end := SyncTableOf(w, ls, rs, options, replies);
    var rows := Rows(ls, rs, w.links);
    forall i | 0 <= i < |end| ensures Quiet(end[i], options) {
      TableRowsHold(ls, rs, w, i);
      assert Live(rows[i]);
      assert Told(PlanRow(rows[i], options), outs[i], w, []);
      RowOutcome(rows[i], options, outs[i]);
    }
    QuietPlansSkips(end, Sync(w, ls, rs, options, replies).world, ls', rs', options);
  }

  /** Whatever the options, after two error-free runs the third plan only skips. */
  lemma {:induction false} QuietAfterTwo(
    w: World, ls: seq<Item>, rs: seq<Item>, options: Options, replies: seq<Reply>,
    w1: World, ls1: seq<Item>, rs1: seq<Item>, replies1: seq<Reply>,
    w2: World, ls2: seq<Item>, rs2: seq<Item>)
    requires ValidWorld(w) && Listing(ls, w.local.items) && Listing(rs, w.remote.items)
    requires |replies| == |Plan(ls, rs, w.links, options)|
    requires Sync(w, ls, rs, options, replies).result.errors == []
    requires w1 == Sync(w, ls, rs, options, replies).world
    requires Listing(ls1, w1.local.items) && Listing(rs1, w1.remote.items)
    requires |replies1| == |Plan(ls1, rs1, w1.links, options)|
    requires Sync(w1, ls1, rs1, options, replies1).result.errors == []
    requires w2 == Sync(w1, ls1, rs1, options, replies1).world
    requires Listing(ls2, w2.local.items) && Listing(rs2, w2.remote.items)
    ensures forall a :: a in Plan(ls2, rs2, w2.links, options) ==> a == Skip
  {
    LiveAfterOne(w, ls, rs, options, replies);
    QuietFromLive(w1, ls1, rs1, options, replies1, ls2, rs2);
  }
}
