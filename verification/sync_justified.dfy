/** Every write of a run has a reason in the two listings and the saved links, whatever the stores answer. */
module SyncJustified {
  import opened Wrappers
  import opened SyncState
  import opened SyncPlan
  import opened SyncApply
  import opened SyncTable
  import opened SyncRows
  import opened SyncRun
  import opened SyncConvergence

  predicate TouchesLocal(a: Action) { a.CreateLocal? || a.UpdateLocal? || a.DeleteLocal? }

  predicate TouchesRemote(a: Action) { a.CreateRemote? || a.UpdateRemote? || a.DeleteRemote? }

  /** The action respects the options it was planned under. */
  predicate Allowed(a: Action, options: Options) {
    && (TouchesLocal(a) ==> options.WritesLocal())
    && (TouchesRemote(a) ==> options.WritesRemote())
    && (a.DeleteLocal? || a.DeleteRemote? ==> options.propagateDeletes)
    && !a.Conflict?
  }

  lemma {:induction false} FlatAllowed(rows: seq<Row>, options: Options)
    ensures forall a :: a in Flat(rows, options) ==> Allowed(a, options)
  {
    if rows != [] {
      FlatAllowed(rows[..|rows| - 1], options);
    }
  }

  /** No plan writes a side its options exclude, deletes without leave, or gives up on a conflict. */
  lemma {:induction false} PlanAllowed(ls: seq<Item>, rs: seq<Item>, links: seq<Link>, options: Options)
    ensures forall a :: a in Plan(ls, rs, links, options) ==> Allowed(a, options)
  {
    FlatAllowed(Rows(ls, rs, links), options);
  }

  lemma {:induction false} ApplyAllowed(actions: seq<Action>, replies: seq<Reply>, run: Run, options: Options)
    requires |actions| == |replies|
    requires forall a :: a in actions ==> Allowed(a, options)
    ensures var w := Apply(actions, replies, run).world;
      && (!options.WritesLocal() ==> w.local == run.world.local)
      && (!options.WritesRemote() ==> w.remote == run.world.remote)
      && (!options.propagateDeletes ==>
            && run.world.local.items.Keys <= w.local.items.Keys
            && run.world.remote.items.Keys <= w.remote.items.Keys)
  {
    if actions != [] {
      var n := |actions| - 1;
      assert actions[n] in actions;
      ApplyAllowed(actions[..n], replies[..n], run, options);
      StepAllowed(actions[n], replies[n], Apply(actions[..n], replies[..n], run), options);
    }
  }

  lemma {:induction false} StepAllowed(a: Action, reply: Reply, run: Run, options: Options)
    requires Allowed(a, options)
    ensures var w := Step(a, reply, run).world;
      && (!options.WritesLocal() ==> w.local == run.world.local)
      && (!options.WritesRemote() ==> w.remote == run.world.remote)
      && (!options.propagateDeletes ==>
            && run.world.local.items.Keys <= w.local.items.Keys
            && run.world.remote.items.Keys <= w.remote.items.Keys)
  {}

  /** A one-way run never writes its source; without deletes no store loses an id. Cut short or not. */
  lemma {:induction false} SourceUntouched(
    w: World, ls: seq<Item>, rs: seq<Item>, options: Options, k: nat, replies: seq<Reply>)
    requires k == |replies| <= |Plan(ls, rs, w.links, options)|
    ensures var end := Apply(Plan(ls, rs, w.links, options)[..k], replies, Run(w, EMPTY_RESULT)).world;
      && (options.direction.FromDevice? ==> end.local == w.local)
      && (options.direction.ToDevice? ==> end.remote == w.remote)
      && (!options.propagateDeletes ==>
            w.local.items.Keys <= end.local.items.Keys && w.remote.items.Keys <= end.remote.items.Keys)
  {
    PlanAllowed(ls, rs, w.links, options);
    ApplyAllowed(Plan(ls, rs, w.links, options)[..k], replies, Run(w, EMPTY_RESULT), options);
  }

  // ----- one row, whatever the replies -----

  predicate LocalEditOnly(row: Row) {
    && row.link.Some? && row.local.Some? && row.remote.Some?
    && row.local.value.fingerprint != row.link.value.local
    && row.remote.value.fingerprint == row.link.value.remote
  }

  predicate RemoteEditOnly(row: Row) {
    && row.link.Some? && row.local.Some? && row.remote.Some?
    && row.local.value.fingerprint == row.link.value.local
    && row.remote.value.fingerprint != row.link.value.remote
  }

  lemma {:induction false} RowJustified(row: Row, options: Options, outs: seq<Reply>)
    requires IsPlanned(row) && |outs| == |PlanRow(row, options)|
    ensures var end := Settle(RunRow(PlanRow(row, options), outs, row));
      && (LocalEditOnly(row) ==> end.local == row.local)
      && (RemoteEditOnly(row) ==> end.remote == row.remote)
      && (row.local.Some? && end.local.None? ==>
            row.link.Some? && row.remote.None? && options.propagateDeletes && options.WritesLocal())
      && (row.remote.Some? && end.remote.None? ==>
            row.link.Some? && row.local.None? && options.propagateDeletes && options.WritesRemote())
      && (row.local.None? && end.local.Some? ==>
            row.localId.None? && row.remote.Some? && end.remote == row.remote && end.remoteId == row.remoteId)
      && (row.remote.None? && end.remote.Some? ==>
            row.remoteId.None? && row.local.Some? && end.local == row.local && end.localId == row.localId)
      && (row.localId.Some? ==> end.localId == row.localId)
      && (row.remoteId.Some? ==> end.remoteId == row.remoteId)
  {
    var acts := PlanRow(row, options);
    assert RunRow(acts, outs[..0], row) == row;
    if |outs| == 1 {
      assert outs[..1][..0] == [] && outs[..1] == outs;
    } else if |outs| == 2 {
      assert outs[..1][..0] == [] && outs[..2] == outs && outs[..2][..1] == outs[..1];
      assert RunRow(acts, outs[..1], row) == StepRow(acts[0], outs[0], row);
    }
  }

  lemma {:induction false} LinkIsRow(ls: seq<Item>, rs: seq<Item>, w: World, k: Link) returns (i: nat)
    requires Listing(ls, w.local.items) && Listing(rs, w.remote.items) && k in w.links
    ensures i < |Rows(ls, rs, w.links)| && Rows(ls, rs, w.links)[i] == LinkRow(k, w.local.items, w.remote.items)
  {
    i :| 0 <= i < |w.links| && w.links[i] == k;
  }

  /** A record edited on one side only is never overwritten there. */
  lemma {:induction false} LoneEditSurvives(
    w: World, ls: seq<Item>, rs: seq<Item>, options: Options, replies: seq<Reply>, k: Link)
    requires ValidWorld(w) && Listing(ls, w.local.items) && Listing(rs, w.remote.items)
    requires |replies| == |Plan(ls, rs, w.links, options)|
    requires k in w.links && k.localId in w.local.items && k.remoteId in w.remote.items
    ensures var end := Sync(w, ls, rs, options, replies).world;
      var l := w.local.items[k.localId];
      var r := w.remote.items[k.remoteId];
      && (l.fingerprint != k.localHash && r.fingerprint == k.remoteHash ==>
            Lookup(end.local.items, k.localId) == Some(l))
      && (l.fingerprint == k.localHash && r.fingerprint != k.remoteHash ==>
            Lookup(end.remote.items, k.remoteId) == Some(r))
  {
    var outs, end := SyncTableOf(w, ls, rs, options, replies);
    var i := LinkIsRow(ls, rs, w, k);
    RowJustified(Rows(ls, rs, w.links)[i], options, outs[i]);
    assert Holds(end[i], Run(Sync(w, ls, rs, options, replies).world, EMPTY_RESULT));
  }

  lemma {:induction false} LocalDeleteHasCause(
    w: World, ls: seq<Item>, rs: seq<Item>, options: Options, replies: seq<Reply>, x: Id)
    returns (k: Link)
    requires ValidWorld(w) && Listing(ls, w.local.items) && Listing(rs, w.remote.items)
    requires |replies| == |Plan(ls, rs, w.links, options)|
    requires x in w.local.items && x !in Sync(w, ls, rs, options, replies).world.local.items
    ensures options.propagateDeletes && options.WritesLocal()
    ensures k in w.links && k.localId == x && k.remoteId !in w.remote.items
  {
    var rows := Rows(ls, rs, w.links);
    var outs, end := SyncTableOf(w, ls, rs, options, replies);
    InitialTable(ls, rs, w);
    assert NamesLocal(rows, x);
    var i :| 0 <= i < |rows| && rows[i].localId == Some(x);
    RowJustified(rows[i], options, outs[i]);
    assert Holds(rows[i], Run(w, EMPTY_RESULT));
    assert Holds(end[i], Run(Sync(w, ls, rs, options, replies).world, EMPTY_RESULT));
    k := Link(x, rows[i].remoteId.value, rows[i].link.value.local, rows[i].link.value.remote);
  }

  lemma {:induction false} RemoteDeleteHasCause(
    w: World, ls: seq<Item>, rs: seq<Item>, options: Options, replies: seq<Reply>, y: Id)
    returns (k: Link)
    requires ValidWorld(w) && Listing(ls, w.local.items) && Listing(rs, w.remote.items)
    requires |replies| == |Plan(ls, rs, w.links, options)|
    requires y in w.remote.items && y !in Sync(w, ls, rs, options, replies).world.remote.items
    ensures options.propagateDeletes && options.WritesRemote()
    ensures k in w.links && k.remoteId == y && k.localId !in w.local.items
  {
    var rows := Rows(ls, rs, w.links);
    var outs, end := SyncTableOf(w, ls, rs, options, replies);
    InitialTable(ls, rs, w);
    assert NamesRemote(rows, y);
    var i :| 0 <= i < |rows| && rows[i].remoteId == Some(y);
    RowJustified(rows[i], options, outs[i]);
    assert Holds(rows[i], Run(w, EMPTY_RESULT));
    assert Holds(end[i], Run(Sync(w, ls, rs, options, replies).world, EMPTY_RESULT));
    k := Link(rows[i].localId.value, y, rows[i].link.value.local, rows[i].link.value.remote);
  }

  /** A record disappears only when it was linked to a partner the other listing no longer has. */
  lemma {:induction false} DeletesHaveCause(
    w: World, ls: seq<Item>, rs: seq<Item>, options: Options, replies: seq<Reply>)
    requires ValidWorld(w) && Listing(ls, w.local.items) && Listing(rs, w.remote.items)
    requires |replies| == |Plan(ls, rs, w.links, options)|
    ensures var end := Sync(w, ls, rs, options, replies).world;
      && (forall x :: x in w.local.items && x !in end.local.items ==>
            && options.propagateDeletes && options.WritesLocal()
            && exists k :: k in w.links && k.localId == x && k.remoteId !in w.remote.items)
      && (forall y :: y in w.remote.items && y !in end.remote.items ==>
            && options.propagateDeletes && options.WritesRemote()
            && exists k :: k in w.links && k.remoteId == y && k.localId !in w.local.items)
  {
    var end := Sync(w, ls, rs, options, replies).world;
    forall x | x in w.local.items && x !in end.local.items
      ensures options.propagateDeletes && options.WritesLocal()
      ensures exists k :: k in w.links && k.localId == x && k.remoteId !in w.remote.items
    {
      var k := LocalDeleteHasCause(w, ls, rs, options, replies, x);
    }
    forall y | y in w.remote.items && y !in end.remote.items
      ensures options.propagateDeletes && options.WritesRemote()
      ensures exists k :: k in w.links && k.remoteId == y && k.localId !in w.local.items
    {
      var k := RemoteDeleteHasCause(w, ls, rs, options, replies, y);
    }
  }
}
