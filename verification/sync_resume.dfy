/**
 The two recovery theorems: retrying after refusals, and resuming after a crash
 that lost the state, reach the same stores and pairing as an undisturbed run.
 */
module SyncResume {
  import opened Wrappers
  import opened SyncPlan
  import opened SyncPairing
  import opened SyncApply
  import opened SyncTable
  import opened SyncRows
  import opened SyncRun
  import opened SyncConvergence
  import opened SyncRecovery

  // ----- refusals, then a retry -----

  /** What the first run's table is to the retry: unlinked rows are untouched singles of the first plan. */
  ghost predicate SinglesKept(rows: seq<Row>, mid: seq<Row>) {
    && |mid| == |rows|
    && (forall i :: 0 <= i < |mid| && mid[i].link.None? && mid[i].local.Some? ==>
          mid[i] == rows[i] && mid[i].remoteId.None?)
    && (forall i :: 0 <= i < |mid| && mid[i].link.None? && mid[i].remote.Some? ==>
          mid[i] == rows[i] && mid[i].localId.None?)
  }

  /** Two unpaired rows of one plan have different keys. */
  lemma {:induction false} SinglesApart(ls: seq<Item>, rs: seq<Item>, w: World, i: nat, j: nat)
    requires ValidWorld(w) && Listing(ls, w.local.items) && Listing(rs, w.remote.items)
    requires i < |Rows(ls, rs, w.links)| && j < |Rows(ls, rs, w.links)|
    requires var a := Rows(ls, rs, w.links)[i]; a.link.None? && a.local.Some? && a.remoteId.None?
    requires var b := Rows(ls, rs, w.links)[j]; b.link.None? && b.remote.Some? && b.localId.None?
    ensures Rows(ls, rs, w.links)[i].local.value.matchKey != Rows(ls, rs, w.links)[j].remote.value.matchKey
  {
    TableRowsHold(ls, rs, w, i);
    TableRowsHold(ls, rs, w, j);
    var rows := Rows(ls, rs, w.links);
    PairingIsMaximum(NewItems(ls, LocalIds(w.links)), NewItems(rs, RemoteIds(w.links)), rows[i], rows[j]);
  }

  lemma {:induction false} RowsShareKey(ls: seq<Item>, rs: seq<Item>, w: World, j: nat)
    requires ValidWorld(w) && Listing(ls, w.local.items) && Listing(rs, w.remote.items)
    requires j < |Rows(ls, rs, w.links)| && Rows(ls, rs, w.links)[j].link.None?
    ensures SameKeys(Rows(ls, rs, w.links)[j])
  {
    TableRowsHold(ls, rs, w, j);
    var row := Rows(ls, rs, w.links)[j];
    if row.local.Some? && row.remote.Some? {
      PairsShareKey(NewItems(ls, LocalIds(w.links)), NewItems(rs, RemoteIds(w.links)), row);
    }
  }

  /** `mid` is the table a first run over `ls` and `rs` left of `w0`; `ls1` and `rs1` list what `w1` holds of it. */
  ghost predicate Relisted(ls: seq<Item>, rs: seq<Item>, w0: World, mid: seq<Row>, w1: World, ls1: seq<Item>,
                           rs1: seq<Item>)
  {
    && ValidWorld(w0) && Listing(ls, w0.local.items) && Listing(rs, w0.remote.items)
    && ValidWorld(w1) && Represents(mid, Run(w1, EMPTY_RESULT))
    && Listing(ls1, w1.local.items) && Listing(rs1, w1.remote.items)
    && SinglesKept(Rows(ls, rs, w0.links), mid)
    && forall q :: 0 <= q < |mid| ==> !mid[q].wroteLocal && !mid[q].wroteRemote
  }

  lemma {:induction false} RetryPlansRow(
    ls: seq<Item>, rs: seq<Item>, w0: World, mid: seq<Row>, w1: World, ls1: seq<Item>, rs1: seq<Item>, i: nat)
    requires Relisted(ls, rs, w0, mid, w1, ls1, rs1)
    requires i < |mid| && !Empty(mid[i])
    ensures mid[i] in Rows(ls1, rs1, w1.links)
  {
    assert Holds(mid[i], Run(w1, EMPTY_RESULT));
    if mid[i].link.Some? {
      InitialTable(ls1, rs1, w1);
      var j := SameLinkedRow(Rows(ls1, rs1, w1.links), w1, mid[i]);
    } else if mid[i].local.Some? {
      RetryPlansLocal(ls, rs, w0, mid, w1, ls1, rs1, i);
    } else {
      RetryPlansRemote(ls, rs, w0, mid, w1, ls1, rs1, i);
    }
  }

  lemma {:induction false} RetryPlansLocal(
    ls: seq<Item>, rs: seq<Item>, w0: World, mid: seq<Row>, w1: World, ls1: seq<Item>, rs1: seq<Item>, i: nat)
    requires Relisted(ls, rs, w0, mid, w1, ls1, rs1)
    requires i < |mid| && mid[i].link.None? && mid[i].local.Some?
    ensures mid[i] in Rows(ls1, rs1, w1.links)
  {
    var next := Rows(ls1, rs1, w1.links);
    InitialTable(ls1, rs1, w1);
    assert Holds(mid[i], Run(w1, EMPTY_RESULT));
    var j := SameLocal(next, w1, mid[i]);
    TableRowsHold(ls1, rs1, w1, j);
    RowsShareKey(ls1, rs1, w1, j);
    if next[j].remote.Some? {
      var q := SameRemote(mid, w1, next[j]);
      SinglesApart(ls, rs, w0, i, q);
    }
    assert next[j] == mid[i];
  }

  lemma {:induction false} RetryPlansRemote(
    ls: seq<Item>, rs: seq<Item>, w0: World, mid: seq<Row>, w1: World, ls1: seq<Item>, rs1: seq<Item>, i: nat)
    requires Relisted(ls, rs, w0, mid, w1, ls1, rs1)
    requires i < |mid| && mid[i].link.None? && mid[i].remote.Some?
    ensures mid[i] in Rows(ls1, rs1, w1.links)
  {
    var next := Rows(ls1, rs1, w1.links);
    InitialTable(ls1, rs1, w1);
    assert Holds(mid[i], Run(w1, EMPTY_RESULT));
    var j := SameRemote(next, w1, mid[i]);
    TableRowsHold(ls1, rs1, w1, j);
    RowsShareKey(ls1, rs1, w1, j);
    if next[j].local.Some? {
      var q := SameLocal(mid, w1, next[j]);
      SinglesApart(ls, rs, w0, q, i);
    }
    assert next[j] == mid[i];
  }

  ghost predicate SomePreferenceLost(rows: seq<Row>, options: Options, errors: seq<Action>) {
    exists i :: 0 <= i < |rows| && PreferenceLost(rows[i], options, errors)
  }

  /** What a run with refusals leaves is midway to where it should have ended. */
  lemma {:induction false} RefusedIsMidway(w0: World, ls: seq<Item>, rs: seq<Item>, options: Options,
                                           replies: seq<Reply>)
    returns (mid: seq<Row>)
    requires ValidWorld(w0) && Listing(ls, w0.local.items) && Listing(rs, w0.remote.items)
    requires Mirror(options) && |replies| == |Plan(ls, rs, w0.links, options)|
    requires AllFaithful(Plan(ls, rs, w0.links, options), replies)
    requires !SomePreferenceLost(Rows(ls, rs, w0.links), options, Sync(w0, ls, rs, options, replies).result.errors)
    ensures Midway(Rows(ls, rs, w0.links), w0, mid, Sync(w0, ls, rs, options, replies).world, options.prefer)
    ensures SinglesKept(Rows(ls, rs, w0.links), mid)
    ensures forall q :: 0 <= q < |mid| ==> !mid[q].wroteLocal && !mid[q].wroteRemote
  {
    var rows := Rows(ls, rs, w0.links);
    var run := Sync(w0, ls, rs, options, replies);
    var outs;
    outs, mid := SyncTableOf(w0, ls, rs, options, replies);
    NeverRevived(Plan(ls, rs, w0.links, options), replies, Run(w0, EMPTY_RESULT));
    forall i | 0 <= i < |rows|
      ensures Wanted(mid[i], options.prefer) == Wanted(rows[i], options.prefer)
      ensures CarriesOn(rows[i], mid[i], w0)
      ensures mid[i].link.None? && mid[i].local.Some? ==> mid[i] == rows[i] && rows[i].remoteId.None?
      ensures mid[i].link.None? && mid[i].remote.Some? ==> mid[i] == rows[i] && rows[i].localId.None?
    {
      assert Told(PlanRow(rows[i], options), outs[i], w0, run.result.errors);
      assert !PreferenceLost(rows[i], options, run.result.errors);
      RetryKeepsWanted(rows[i], options, outs[i], w0, run.result.errors);
    }
  }

  /** A row none of whose actions was refused is already where it should be after the first run. */
  lemma {:induction false} RefusalsStayLocal(w0: World, ls: seq<Item>, rs: seq<Item>, options: Options,
                                             replies: seq<Reply>, i: nat)
    requires ValidWorld(w0) && Listing(ls, w0.local.items) && Listing(rs, w0.remote.items)
    requires Mirror(options) && |replies| == |Plan(ls, rs, w0.links, options)|
    requires AllFaithful(Plan(ls, rs, w0.links, options), replies)
    requires i < |Rows(ls, rs, w0.links)|
    requires forall a :: a in PlanRow(Rows(ls, rs, w0.links)[i], options) ==>
      a !in Sync(w0, ls, rs, options, replies).result.errors
    ensures EndsAs(Rows(ls, rs, w0.links)[i], w0, Sync(w0, ls, rs, options, replies).world,
                   Wanted(Rows(ls, rs, w0.links)[i], options.prefer))
  {
    var row := Rows(ls, rs, w0.links)[i];
    var run := Sync(w0, ls, rs, options, replies);
    var outs, end := SyncTableOf(w0, ls, rs, options, replies);
    assert Told(PlanRow(row, options), outs[i], w0, run.result.errors);
    RowAttains(row, options, outs[i], w0);
    AttainedEnds(row, end[i], w0, run.world, Wanted(row, options.prefer));
  }

  /** Any calls may be refused in the first run: one undisturbed run more reconciles. */
  lemma {:induction false} RetryReconciles(
    w0: World, ls: seq<Item>, rs: seq<Item>, options: Options, replies: seq<Reply>,
    w1: World, ls1: seq<Item>, rs1: seq<Item>, replies1: seq<Reply>)
    requires ValidWorld(w0) && Listing(ls, w0.local.items) && Listing(rs, w0.remote.items)
    requires Mirror(options) && |replies| == |Plan(ls, rs, w0.links, options)|
    requires AllFaithful(Plan(ls, rs, w0.links, options), replies)
    requires !SomePreferenceLost(Rows(ls, rs, w0.links), options, Sync(w0, ls, rs, options, replies).result.errors)
    requires w1 == Sync(w0, ls, rs, options, replies).world
    requires Listing(ls1, w1.local.items) && Listing(rs1, w1.remote.items)
    requires |replies1| == |Plan(ls1, rs1, w1.links, options)|
    requires AllFaithful(Plan(ls1, rs1, w1.links, options), replies1)
    requires Sync(w1, ls1, rs1, options, replies1).result.errors == []
    ensures Reconciled(Rows(ls, rs, w0.links), w0, Sync(w1, ls1, rs1, options, replies1).world, options.prefer)
  {
    var mid := RefusedIsMidway(w0, ls, rs, options, replies);
    forall i | 0 <= i < |mid| && !Empty(mid[i]) ensures mid[i] in Rows(ls1, rs1, w1.links) {
      RetryPlansRow(ls, rs, w0, mid, w1, ls1, rs1, i);
    }
    ReplannedFromRows(mid, w1, ls1, rs1);
    MidwayReconciles(Rows(ls, rs, w0.links), w0, mid, w1, ls1, rs1, options, replies1);
  }

  lemma {:induction false} UpdateNamesRow(row: Row, options: Options, q: nat)
    requires q < |PlanRow(row, options)| && PlanRow(row, options)[q].UpdateRemote?
    ensures row.localId == Some(PlanRow(row, options)[q].localId)
  {}

  /** An error that names a row's two ids is about that row. */
  lemma {:induction false} BlamedRow(rows: seq<Row>, options: Options, outs: seq<seq<Reply>>, i: nat, w: World,
                                     e: Action)
    returns (q: nat)
    requires Represents(rows, Run(w, EMPTY_RESULT))
    requires i < |rows| == |outs|
    requires e.UpdateRemote? && rows[i].localId == Some(e.localId)
    requires Blames(rows, options, outs, e)
    ensures q < |outs[i]| && q < |PlanRow(rows[i], options)|
    ensures PlanRow(rows[i], options)[q] == e && !Went(e, outs[i][q])
  {
    var j;
    j, q :| 0 <= j < |rows| && 0 <= q < |outs[j]| && q < |PlanRow(rows[j], options)|
      && PlanRow(rows[j], options)[q] == e && !Went(e, outs[j][q]);
    UpdateNamesRow(rows[j], options, q);
    assert i == j;
  }

  /** The refused push of a preferred local record, as the row saw it. */
  lemma {:induction false} LostPairRow(row: Row, options: Options, out: seq<Reply>, q: nat, errors: seq<Action>)
    requires IsPlanned(row) && |out| == |PlanRow(row, options)|
    requires Mirror(options) && PreferenceLost(row, options, errors)
    requires q < |out| && PlanRow(row, options)[q].UpdateRemote? && out[q].Refused?
    ensures Settle(RunRow(PlanRow(row, options), out, row)) == row.(link := Agreed(row.local.value))
  {
    RunRowShort(PlanRow(row, options), out, row);
  }

  /** What the refused push leaves: the pair as it was, linked as if both sides held the local record. */
  lemma {:induction false} RefusedPush(w0: World, ls: seq<Item>, rs: seq<Item>, options: Options, replies: seq<Reply>,
                                       w1: World, i: nat)
    returns (left: Row)
    requires ValidWorld(w0) && Listing(ls, w0.local.items) && Listing(rs, w0.remote.items)
    requires Mirror(options) && |replies| == |Plan(ls, rs, w0.links, options)|
    requires i < |Rows(ls, rs, w0.links)|
    requires PreferenceLost(Rows(ls, rs, w0.links)[i], options, Sync(w0, ls, rs, options, replies).result.errors)
    requires w1 == Sync(w0, ls, rs, options, replies).world
    ensures ValidWorld(w1) && Holds(left, Run(w1, EMPTY_RESULT))
    ensures var row := Rows(ls, rs, w0.links)[i];
      row.local.Some? && left == row.(link := Agreed(row.local.value))
  {
    var rows := Rows(ls, rs, w0.links);
    var outs, end := SyncTableOf(w0, ls, rs, options, replies);
    InitialTable(ls, rs, w0);
    var e := UpdateRemote(rows[i].localId.value, rows[i].remoteId.value, rows[i].local.value);
    var q := BlamedRow(rows, options, outs, i, w0, e);
    LostPairRow(rows[i], options, outs[i], q, Sync(w0, ls, rs, options, replies).result.errors);
    left := end[i];
    assert Holds(left, Run(w1, EMPTY_RESULT));
  }

  /** A linked row of a world ends, in the next undisturbed run, as that run wants it to. */
  lemma {:induction false} LinkedRowEnds(w1: World, left: Row, ls1: seq<Item>, rs1: seq<Item>, options: Options,
                                         replies1: seq<Reply>)
    requires ValidWorld(w1) && Holds(left, Run(w1, EMPTY_RESULT)) && left.link.Some?
    requires Listing(ls1, w1.local.items) && Listing(rs1, w1.remote.items)
    requires Mirror(options) && |replies1| == |Plan(ls1, rs1, w1.links, options)|
    requires AllFaithful(Plan(ls1, rs1, w1.links, options), replies1)
    requires Sync(w1, ls1, rs1, options, replies1).result.errors == []
    ensures EndsAs(left, w1, Sync(w1, ls1, rs1, options, replies1).world, Wanted(left, options.prefer))
  {
    InitialTable(ls1, rs1, w1);
    var j := SameLinkedRow(Rows(ls1, rs1, w1.links), w1, left);
    UndisturbedReconciles(w1, ls1, rs1, options, replies1);
  }

  /** The pair is pulled: its link knows the local record on both sides, so only the remote one seems changed. */
  lemma {:induction false} PairIsPulled(row: Row, w1: World, w2: World, options: Options)
    requires row.localId.Some? && row.remoteId.Some? && row.link.None?
    requires row.local.Some? && row.remote.Some? && options.prefer.PreferLocal?
    requires row.local.value.fingerprint != row.remote.value.fingerprint
    requires var left := row.(link := Agreed(row.local.value)); EndsAs(left, w1, w2, Wanted(left, options.prefer))
    ensures Lookup(w2.local.items, row.localId.value) == row.remote
    ensures Wanted(row, options.prefer) == Kept(row.local.value, row.local.value)
  {
  }

  /**
   Where the local side is preferred and the push of a first-time pair is refused,
   the retry takes the remote record instead: nothing later repairs it.
   */
  lemma {:induction false} LostPreferenceStaysLost(
    w0: World, ls: seq<Item>, rs: seq<Item>, options: Options, replies: seq<Reply>,
    w1: World, ls1: seq<Item>, rs1: seq<Item>, replies1: seq<Reply>, i: nat)
    requires ValidWorld(w0) && Listing(ls, w0.local.items) && Listing(rs, w0.remote.items)
    requires Mirror(options) && |replies| == |Plan(ls, rs, w0.links, options)|
    requires i < |Rows(ls, rs, w0.links)|
    requires PreferenceLost(Rows(ls, rs, w0.links)[i], options, Sync(w0, ls, rs, options, replies).result.errors)
    requires w1 == Sync(w0, ls, rs, options, replies).world
    requires Listing(ls1, w1.local.items) && Listing(rs1, w1.remote.items)
    requires |replies1| == |Plan(ls1, rs1, w1.links, options)|
    requires AllFaithful(Plan(ls1, rs1, w1.links, options), replies1)
    requires Sync(w1, ls1, rs1, options, replies1).result.errors == []
    ensures var (row, w2) := (Rows(ls, rs, w0.links)[i], Sync(w1, ls1, rs1, options, replies1).world);
      && Lookup(w2.local.items, row.localId.value) == row.remote
      && Wanted(row, options.prefer) == Kept(row.local.value, row.local.value)
      && row.local != row.remote
    ensures !Reconciled(Rows(ls, rs, w0.links), w0, Sync(w1, ls1, rs1, options, replies1).world, options.prefer)
  {
    var row := Rows(ls, rs, w0.links)[i];
    var w2 := Sync(w1, ls1, rs1, options, replies1).world;
    var left := RefusedPush(w0, ls, rs, options, replies, w1, i);
    LinkedRowEnds(w1, left, ls1, rs1, options, replies1);
    PairIsPulled(row, w1, w2, options);
    LostEnds(row, w0, w2, options);
  }

  lemma {:induction false} LostEnds(row: Row, w0: World, w2: World, options: Options)
    requires row.localId.Some? && row.local.Some? && row.remote.Some? && row.local != row.remote
    requires Wanted(row, options.prefer) == Kept(row.local.value, row.local.value)
    requires Lookup(w2.local.items, row.localId.value) == row.remote
    ensures !EndsAs(row, w0, w2, Wanted(row, options.prefer))
  {}

  /** After any refusals, one undisturbed run more reconciles if and only if no preference was lost. */
  lemma {:induction false} RetryReconcilesExactly(
    w0: World, ls: seq<Item>, rs: seq<Item>, options: Options, replies: seq<Reply>,
    w1: World, ls1: seq<Item>, rs1: seq<Item>, replies1: seq<Reply>)
    requires ValidWorld(w0) && Listing(ls, w0.local.items) && Listing(rs, w0.remote.items)
    requires Mirror(options) && |replies| == |Plan(ls, rs, w0.links, options)|
    requires AllFaithful(Plan(ls, rs, w0.links, options), replies)
    requires w1 == Sync(w0, ls, rs, options, replies).world
    requires Listing(ls1, w1.local.items) && Listing(rs1, w1.remote.items)
    requires |replies1| == |Plan(ls1, rs1, w1.links, options)|
    requires AllFaithful(Plan(ls1, rs1, w1.links, options), replies1)
    requires Sync(w1, ls1, rs1, options, replies1).result.errors == []
    ensures Reconciled(Rows(ls, rs, w0.links), w0, Sync(w1, ls1, rs1, options, replies1).world, options.prefer)
       <==> !SomePreferenceLost(Rows(ls, rs, w0.links), options, Sync(w0, ls, rs, options, replies).result.errors)
  {
    var errors := Sync(w0, ls, rs, options, replies).result.errors;
    var rows := Rows(ls, rs, w0.links);
    if SomePreferenceLost(rows, options, errors) {
      var i :| 0 <= i < |rows| && PreferenceLost(rows[i], options, errors);
      LostPreferenceStaysLost(w0, ls, rs, options, replies, w1, ls1, rs1, replies1, i);
    } else {
      RetryReconciles(w0, ls, rs, options, replies, w1, ls1, rs1, replies1);
    }
  }

  // ----- a crash before the state was saved -----

  /** The unlinked records of each side have different keys. */
  ghost predicate KeysDistinct(items: seq<Item>) {
    forall i, j :: 0 <= i < j < |items| ==> items[i].record.matchKey != items[j].record.matchKey
  }

  /** Where in the table a plan is cut. */
  lemma {:induction false} Locate(rows: seq<Row>, options: Options, k: nat) returns (m: nat, p: nat)
    requires k <= |Flat(rows, options)|
    ensures m <= |rows| && (m < |rows| ==> p <= |PlanRow(rows[m], options)|) && (m == |rows| ==> p == 0)
    ensures Prefix(rows, options, m, p) == Flat(rows, options)[..k]
  {
    var n := |rows| - 1;
    if rows == [] {
      m, p := 0, 0;
    } else if k <= |Flat(rows[..n], options)| {
      m, p := Locate(rows[..n], options, k);
      assert rows[..n][..m] == rows[..m];
      if m == n {
        assert rows[..n][..n] == rows[..n];
      }
      assert Prefix(rows, options, m, p) == Prefix(rows[..n], options, m, p);
      assert Flat(rows, options)[..k] == Flat(rows[..n], options)[..k];
    } else {
      m, p := n, k - |Flat(rows[..n], options)|;
    }
  }

  /** The table of the world a crash leaves: the stores as they are, the links as they were saved. */
  lemma {:induction false} CrashTable(rows: seq<Row>, w0: World, now: seq<Row>, run: Run)
    returns (mid: seq<Row>)
    requires ValidWorld(w0) && Represents(rows, Run(w0, EMPTY_RESULT))
    requires ValidWorld(run.world) && Represents(now, run) && Grown(Run(w0, EMPTY_RESULT), run)
    requires |now| == |rows|
    requires forall i :: 0 <= i < |rows| ==> CarriesOn(rows[i], Unsaved(rows[i], now[i]), w0)
    ensures |mid| == |rows| && forall i :: 0 <= i < |rows| ==> mid[i] == Unsaved(rows[i], now[i])
    ensures ValidWorld(run.world.(links := w0.links))
    ensures Represents(mid, Run(run.world.(links := w0.links), EMPTY_RESULT))
  {
    var w1 := run.world.(links := w0.links);
    mid := seq(|rows|, i requires 0 <= i < |rows| => Unsaved(rows[i], now[i]));
    forall i | 0 <= i < |rows| ensures Holds(mid[i], Run(w1, EMPTY_RESULT)) {
      assert Holds(rows[i], Run(w0, EMPTY_RESULT)) && Holds(now[i], run);
      assert CarriesOn(rows[i], mid[i], w0);
    }
    forall i, j | 0 <= i < j < |rows| ensures Apart(mid[i], mid[j]) {
      assert Apart(now[i], now[j]);
    }
    CrashCovers(rows, w0, now, run, mid);
  }

  lemma {:induction false} CrashCovers(rows: seq<Row>, w0: World, now: seq<Row>, run: Run, mid: seq<Row>)
    requires Represents(rows, Run(w0, EMPTY_RESULT)) && Represents(now, run)
    requires |now| == |rows| == |mid|
    requires forall i :: 0 <= i < |rows| ==> mid[i] == Unsaved(rows[i], now[i]) && CarriesOn(rows[i], mid[i], w0)
    ensures forall x :: x in run.world.local.items ==> NamesLocal(mid, x)
    ensures forall y :: y in run.world.remote.items ==> NamesRemote(mid, y)
    ensures forall k :: k in w0.links ==> NamesLocal(mid, k.localId)
  {
    forall x | NamesLocal(now, x) ensures NamesLocal(mid, x) {
      var i :| 0 <= i < |now| && now[i].localId == Some(x);
      assert mid[i].localId == Some(x);
    }
    forall x | NamesLocal(rows, x) ensures NamesLocal(mid, x) {
      var i :| 0 <= i < |rows| && rows[i].localId == Some(x);
      assert mid[i].localId == Some(x);
    }
    forall y | NamesRemote(now, y) ensures NamesRemote(mid, y) {
      var i :| 0 <= i < |now| && now[i].remoteId == Some(y);
      assert mid[i].remoteId == Some(y);
    }
  }

  /** With distinct keys on each side, no two unlinked rows share a key. */
  lemma {:induction false} UnlinkedKeysApart(ls: seq<Item>, rs: seq<Item>, w: World, i: nat, j: nat, key: string)
    requires ValidWorld(w) && Listing(ls, w.local.items) && Listing(rs, w.remote.items)
    requires KeysDistinct(NewItems(ls, LocalIds(w.links))) && KeysDistinct(NewItems(rs, RemoteIds(w.links)))
    requires i < j < |Rows(ls, rs, w.links)|
    requires var rows := Rows(ls, rs, w.links);
      rows[i].link.None? && rows[j].link.None? && RowHasKey(rows[i], key)
    ensures !RowHasKey(Rows(ls, rs, w.links)[j], key)
  {
    var (nl, nr) := (NewItems(ls, LocalIds(w.links)), NewItems(rs, RemoteIds(w.links)));
    var rows := Rows(ls, rs, w.links);
    var (a, b) := (rows[i], rows[j]);
    TableRowsHold(ls, rs, w, i);
    TableRowsHold(ls, rs, w, j);
    TableRowsApart(ls, rs, w, i, j);
    RowsShareKey(ls, rs, w, i);
    RowsShareKey(ls, rs, w, j);
    if RowHasKey(b, key) {
      if a.local.Some? && b.local.Some? {
        NewLocalListed(ls, rs, w, a);
        NewLocalListed(ls, rs, w, b);
        KeyIsOnce(nl, Item(a.localId.value, a.local.value), Item(b.localId.value, b.local.value));
      } else if a.remote.Some? && b.remote.Some? {
        NewRemoteListed(ls, rs, w, a);
        NewRemoteListed(ls, rs, w, b);
        KeyIsOnce(nr, Item(a.remoteId.value, a.remote.value), Item(b.remoteId.value, b.remote.value));
      } else if a.local.Some? {
        SinglesApart(ls, rs, w, i, j);
      } else {
        SinglesApart(ls, rs, w, j, i);
      }
    }
  }

  lemma {:induction false} KeyIsOnce(items: seq<Item>, a: Item, b: Item)
    requires KeysDistinct(items) && a in items && b in items && a.record.matchKey == b.record.matchKey
    ensures a == b
  {
    var i :| 0 <= i < |items| && items[i] == a;
    var j :| 0 <= j < |items| && items[j] == b;
    assert i == j;
  }

  lemma {:induction false} NewLocalListed(ls: seq<Item>, rs: seq<Item>, w: World, row: Row)
    requires row in NewRows(ls, rs, w.links) && row.localId.Some? && row.local.Some?
    ensures Item(row.localId.value, row.local.value) in NewItems(ls, LocalIds(w.links))
  {
    PairingConserves(NewItems(ls, LocalIds(w.links)), NewItems(rs, RemoteIds(w.links)));
  }

  lemma {:induction false} NewRemoteListed(ls: seq<Item>, rs: seq<Item>, w: World, row: Row)
    requires row in NewRows(ls, rs, w.links) && row.remoteId.Some? && row.remote.Some?
    ensures Item(row.remoteId.value, row.remote.value) in NewItems(rs, RemoteIds(w.links))
  {
    var nr := NewItems(rs, RemoteIds(w.links));
    PairingConserves(NewItems(ls, LocalIds(w.links)), nr);
    SameMembers(RemotesOf(NewRows(ls, rs, w.links)), nr);
  }

  lemma {:induction false} OnlyMember(items: seq<Item>, key: string, it: Item)
    requires DistinctIds(items) && it in items && it.record.matchKey == key
    requires forall other :: other in items && other.record.matchKey == key ==> other == it
    ensures KeyItems(items, key) == [it]
  {
    if items[0] == it {
      assert forall other :: other in items[1..] ==> other != it by {
        assert forall q :: 0 <= q < |items[1..]| ==> items[1..][q] == items[q + 1];
      }
      forall other | other in items[1..] ensures other.record.matchKey != key {
        assert other in items;
      }
      NoMember(items[1..], key);
    } else {
      assert items == [items[0]] + items[1..];
      SuffixDistinct([items[0]], items[1..]);
      OnlyMember(items[1..], key, it);
    }
  }

  lemma {:induction false} NoMember(items: seq<Item>, key: string)
    requires forall other :: other in items ==> other.record.matchKey != key
    ensures KeyItems(items, key) == []
  {
    if KeyItems(items, key) != [] {
      assert KeyItems(items, key)[0] in KeyItems(items, key);
    }
  }

  /** The new items of a world with one key are the one row's, when its unlinked rows have keys apart. */
  lemma {:induction false} CrashKeyItems(mid: seq<Row>, w1: World, ls1: seq<Item>, rs1: seq<Item>, i: nat, key: string)
    requires ValidWorld(w1) && Represents(mid, Run(w1, EMPTY_RESULT))
    requires Listing(ls1, w1.local.items) && Listing(rs1, w1.remote.items)
    requires i < |mid| && mid[i].link.None? && IsNewRow(mid[i]) && RowHasKey(mid[i], key) && SameKeys(mid[i])
    requires forall q :: 0 <= q < |mid| && mid[q].link.None? && q != i ==> !HasKeyOnEitherSide(mid[q], key)
    ensures KeyItems(NewItems(ls1, LocalIds(w1.links)), key)
         == if mid[i].local.Some? then [Item(mid[i].localId.value, mid[i].local.value)] else []
    ensures KeyItems(NewItems(rs1, RemoteIds(w1.links)), key)
         == if mid[i].remote.Some? then [Item(mid[i].remoteId.value, mid[i].remote.value)] else []
  {
    var (nl, nr) := (NewItems(ls1, LocalIds(w1.links)), NewItems(rs1, RemoteIds(w1.links)));
    ListingHolds(ls1);
    ListingHolds(rs1);
    NewItemsDistinct(ls1, LocalIds(w1.links));
    NewItemsDistinct(rs1, RemoteIds(w1.links));
    assert Holds(mid[i], Run(w1, EMPTY_RESULT));
    forall it | it in nl && it.record.matchKey == key
      ensures mid[i].localId == Some(it.id) && mid[i].local == Some(it.record)
    {
      var q := SameLocal(mid, w1, LocalRow(it));
      assert q == i;
    }
    forall it | it in nr && it.record.matchKey == key
      ensures mid[i].remoteId == Some(it.id) && mid[i].remote == Some(it.record)
    {
      var q := SameRemote(mid, w1, RemoteRow(it));
      assert q == i;
    }
    if mid[i].local.Some? {
      OnlyMember(nl, key, Item(mid[i].localId.value, mid[i].local.value));
    } else {
      NoMember(nl, key);
    }
    if mid[i].remote.Some? {
      OnlyMember(nr, key, Item(mid[i].remoteId.value, mid[i].remote.value));
    } else {
      NoMember(nr, key);
    }
  }

  function KeyOf(row: Row): string
    requires row.local.Some? || row.remote.Some?
  {
    if row.local.Some? then row.local.value.matchKey else row.remote.value.matchKey
  }

  /** After a crash, unlinked rows still have keys apart. */
  lemma {:induction false} CrashKeysApart(
    ls: seq<Item>, rs: seq<Item>, w0: World, mid: seq<Row>, i: nat, q: nat)
    requires ValidWorld(w0) && Listing(ls, w0.local.items) && Listing(rs, w0.remote.items)
    requires KeysDistinct(NewItems(ls, LocalIds(w0.links))) && KeysDistinct(NewItems(rs, RemoteIds(w0.links)))
    requires |mid| == |Rows(ls, rs, w0.links)|
    requires i < |mid| && q < |mid| && q != i
    requires UnsavedOf(Rows(ls, rs, w0.links)[i], mid[i]) && mid[i].link.None?
    requires UnsavedOf(Rows(ls, rs, w0.links)[q], mid[q]) && mid[q].link.None?
    requires Rows(ls, rs, w0.links)[i].local.Some? || Rows(ls, rs, w0.links)[i].remote.Some?
    ensures !HasKeyOnEitherSide(mid[q], KeyOf(Rows(ls, rs, w0.links)[i]))
  {
    var rows := Rows(ls, rs, w0.links);
    TableRowsHold(ls, rs, w0, q);
    RowsShareKey(ls, rs, w0, q);
    if q < i {
      UnlinkedKeysApart(ls, rs, w0, q, i, KeyOf(rows[q]));
    } else {
      UnlinkedKeysApart(ls, rs, w0, i, q, KeyOf(rows[i]));
    }
  }

  lemma {:induction false} CrashPlansUnlinked(
    mid: seq<Row>, w1: World, ls1: seq<Item>, rs1: seq<Item>, i: nat, key: string)
    requires ValidWorld(w1) && Represents(mid, Run(w1, EMPTY_RESULT))
    requires Listing(ls1, w1.local.items) && Listing(rs1, w1.remote.items)
    requires i < |mid| && mid[i].link.None? && IsNewRow(mid[i]) && RowHasKey(mid[i], key) && SameKeys(mid[i])
    requires forall q :: 0 <= q < |mid| && mid[q].link.None? && q != i ==> !HasKeyOnEitherSide(mid[q], key)
    ensures mid[i] in Rows(ls1, rs1, w1.links)
  {
    var (nl, nr) := (NewItems(ls1, LocalIds(w1.links)), NewItems(rs1, RemoteIds(w1.links)));
    CrashKeyItems(mid, w1, ls1, rs1, i, key);
    FifoMatching(nl, nr, key);
    FifoOfOne(mid[i]);
    assert mid[i] in KeyRows(PairNew(nl, nr), key);
    RowsOfKeyAreThere(PairNew(nl, nr), mid[i], key);
  }

  lemma {:induction false} CrashPlansRow(
    ls: seq<Item>, rs: seq<Item>, w0: World, mid: seq<Row>, w1: World, ls1: seq<Item>, rs1: seq<Item>, i: nat)
    requires ValidWorld(w0) && Listing(ls, w0.local.items) && Listing(rs, w0.remote.items)
    requires KeysDistinct(NewItems(ls, LocalIds(w0.links))) && KeysDistinct(NewItems(rs, RemoteIds(w0.links)))
    requires ValidWorld(w1) && Represents(mid, Run(w1, EMPTY_RESULT))
    requires Listing(ls1, w1.local.items) && Listing(rs1, w1.remote.items)
    requires |mid| == |Rows(ls, rs, w0.links)|
    requires forall q :: 0 <= q < |mid| ==> UnsavedOf(Rows(ls, rs, w0.links)[q], mid[q])
    requires i < |mid|
    ensures mid[i] in Rows(ls1, rs1, w1.links)
  {
    assert UnsavedOf(Rows(ls, rs, w0.links)[i], mid[i]);
    if mid[i].link.Some? {
      InitialTable(ls1, rs1, w1);
      assert Holds(mid[i], Run(w1, EMPTY_RESULT));
      var j := SameLinkedRow(Rows(ls1, rs1, w1.links), w1, mid[i]);
    } else {
      TableRowsHold(ls, rs, w0, i);
      RowsShareKey(ls, rs, w0, i);
      var key := KeyOf(Rows(ls, rs, w0.links)[i]);
      forall q | 0 <= q < |mid| && mid[q].link.None? && q != i ensures !HasKeyOnEitherSide(mid[q], key) {
        CrashKeysApart(ls, rs, w0, mid, i, q);
      }
      CrashPlansUnlinked(mid, w1, ls1, rs1, i, key);
    }
  }

  lemma {:induction false} FifoOfOne(row: Row)
    requires IsNewRow(row)
    ensures row in Fifo(if row.local.Some? then [Item(row.localId.value, row.local.value)] else [],
                        if row.remote.Some? then [Item(row.remoteId.value, row.remote.value)] else [])
  {
    if row.local.Some? && row.remote.Some? {
      assert row == PairRow(Item(row.localId.value, row.local.value), Item(row.remoteId.value, row.remote.value));
    } else if row.local.Some? {
      assert row == LocalRow(Item(row.localId.value, row.local.value));
    } else {
      var it := Item(row.remoteId.value, row.remote.value);
      assert row == RemoteRow(it) == RemoteRows([it])[0];
    }
  }

  /** A crash after any part of a plan, whatever was refused until then, is midway under the old state. */
  lemma {:induction false} CrashIsMidway(w0: World, ls: seq<Item>, rs: seq<Item>, options: Options, k: nat,
                                         replies: seq<Reply>)
    returns (mid: seq<Row>)
    requires ValidWorld(w0) && Listing(ls, w0.local.items) && Listing(rs, w0.remote.items)
    requires Mirror(options) && k == |replies| <= |Plan(ls, rs, w0.links, options)|
    requires AllFaithful(Plan(ls, rs, w0.links, options)[..k], replies)
    ensures var run := Apply(Plan(ls, rs, w0.links, options)[..k], replies, Run(w0, EMPTY_RESULT));
      Midway(Rows(ls, rs, w0.links), w0, mid, run.world.(links := w0.links), options.prefer)
    ensures |mid| == |Rows(ls, rs, w0.links)|
    ensures forall q :: 0 <= q < |mid| ==> UnsavedOf(Rows(ls, rs, w0.links)[q], mid[q])
  {
    var rows := Rows(ls, rs, w0.links);
    var start := Run(w0, EMPTY_RESULT);
    var m, p := Locate(rows, options, k);
    InitialTable(ls, rs, w0);
    PlannedRows(ls, rs, w0);
    var outs, now := RunTable(rows, options, m, p, replies, start);
    var run := Apply(Plan(ls, rs, w0.links, options)[..k], replies, start);
    forall i | 0 <= i < |rows|
      ensures var now' := Unsaved(rows[i], now[i]);
        && Wanted(now', options.prefer) == Wanted(rows[i], options.prefer)
        && CarriesOn(rows[i], now', w0) && UnsavedOf(rows[i], now')
    {
      assert Told(PlanRow(rows[i], options), outs[i], w0, run.result.errors);
      CrashKeepsWanted(rows[i], options, outs[i], w0, run.result.errors);
    }
    mid := CrashTable(rows, w0, now, run);
  }

  /**
   A run stopped after any part of its plan, its state lost, and then planned and
   run again from the old state, reconciles what the first run started from.
   */
  lemma {:induction false} ResumeReconciles(
    w0: World, ls: seq<Item>, rs: seq<Item>, options: Options, k: nat, replies: seq<Reply>,
    w1: World, ls1: seq<Item>, rs1: seq<Item>, replies1: seq<Reply>)
    requires ValidWorld(w0) && Listing(ls, w0.local.items) && Listing(rs, w0.remote.items)
    requires KeysDistinct(NewItems(ls, LocalIds(w0.links))) && KeysDistinct(NewItems(rs, RemoteIds(w0.links)))
    requires Mirror(options) && k == |replies| <= |Plan(ls, rs, w0.links, options)|
    requires AllFaithful(Plan(ls, rs, w0.links, options)[..k], replies)
    requires w1 == Apply(Plan(ls, rs, w0.links, options)[..k], replies,
                         Run(w0, EMPTY_RESULT)).world.(links := w0.links)
    requires Listing(ls1, w1.local.items) && Listing(rs1, w1.remote.items)
    requires |replies1| == |Plan(ls1, rs1, w1.links, options)|
    requires AllFaithful(Plan(ls1, rs1, w1.links, options), replies1)
    requires Sync(w1, ls1, rs1, options, replies1).result.errors == []
    ensures Reconciled(Rows(ls, rs, w0.links), w0, Sync(w1, ls1, rs1, options, replies1).world, options.prefer)
  {
    var mid := CrashIsMidway(w0, ls, rs, options, k, replies);
    forall i | 0 <= i < |mid| && !Empty(mid[i]) ensures mid[i] in Rows(ls1, rs1, w1.links) {
      CrashPlansRow(ls, rs, w0, mid, w1, ls1, rs1, i);
    }
    ReplannedFromRows(mid, w1, ls1, rs1);
    MidwayReconciles(Rows(ls, rs, w0.links), w0, mid, w1, ls1, rs1, options, replies1);
  }

  /** In the stores' own terms: resuming after a crash gives what the uninterrupted run gives. */
  lemma {:induction false} CrashIsHarmless(
    w0: World, ls: seq<Item>, rs: seq<Item>, options: Options, full: seq<Reply>, k: nat, replies: seq<Reply>,
    w1: World, ls1: seq<Item>, rs1: seq<Item>, replies1: seq<Reply>)
    requires ValidWorld(w0) && Listing(ls, w0.local.items) && Listing(rs, w0.remote.items)
    requires KeysDistinct(NewItems(ls, LocalIds(w0.links))) && KeysDistinct(NewItems(rs, RemoteIds(w0.links)))
    requires Mirror(options) && k == |replies| <= |Plan(ls, rs, w0.links, options)| == |full|
    requires AllFaithful(Plan(ls, rs, w0.links, options), full)
    requires Sync(w0, ls, rs, options, full).result.errors == []
    requires AllFaithful(Plan(ls, rs, w0.links, options)[..k], replies)
    requires w1 == Apply(Plan(ls, rs, w0.links, options)[..k], replies,
                         Run(w0, EMPTY_RESULT)).world.(links := w0.links)
    requires Listing(ls1, w1.local.items) && Listing(rs1, w1.remote.items)
    requires |replies1| == |Plan(ls1, rs1, w1.links, options)|
    requires AllFaithful(Plan(ls1, rs1, w1.links, options), replies1)
    requires Sync(w1, ls1, rs1, options, replies1).result.errors == []
    ensures SameButNewIds(w0, Sync(w0, ls, rs, options, full).world, Sync(w1, ls1, rs1, options, replies1).world)
  {
    PlannedRows(ls, rs, w0);
    UndisturbedReconciles(w0, ls, rs, options, full);
    ResumeReconciles(w0, ls, rs, options, k, replies, w1, ls1, rs1, replies1);
    ReconciledIsUnique(Rows(ls, rs, w0.links), w0, Sync(w0, ls, rs, options, full).world,
                       Sync(w1, ls1, rs1, options, replies1).world, options.prefer);
  }

  /** Likewise for refusals and one retry, when the remote side is preferred. */
  lemma {:induction false} RefusalsAreHarmless(
    w0: World, ls: seq<Item>, rs: seq<Item>, options: Options, full: seq<Reply>, replies: seq<Reply>,
    w1: World, ls1: seq<Item>, rs1: seq<Item>, replies1: seq<Reply>)
    requires ValidWorld(w0) && Listing(ls, w0.local.items) && Listing(rs, w0.remote.items)
    requires Mirror(options) && options.prefer.PreferRemote?
    requires |full| == |replies| == |Plan(ls, rs, w0.links, options)|
    requires AllFaithful(Plan(ls, rs, w0.links, options), full)
    requires Sync(w0, ls, rs, options, full).result.errors == []
    requires AllFaithful(Plan(ls, rs, w0.links, options), replies)
    requires w1 == Sync(w0, ls, rs, options, replies).world
    requires Listing(ls1, w1.local.items) && Listing(rs1, w1.remote.items)
    requires |replies1| == |Plan(ls1, rs1, w1.links, options)|
    requires AllFaithful(Plan(ls1, rs1, w1.links, options), replies1)
    requires Sync(w1, ls1, rs1, options, replies1).result.errors == []
    ensures SameButNewIds(w0, Sync(w0, ls, rs, options, full).world, Sync(w1, ls1, rs1, options, replies1).world)
  {
    PlannedRows(ls, rs, w0);
    UndisturbedReconciles(w0, ls, rs, options, full);
    RetryReconciles(w0, ls, rs, options, replies, w1, ls1, rs1, replies1);
    ReconciledIsUnique(Rows(ls, rs, w0.links), w0, Sync(w0, ls, rs, options, full).world,
                       Sync(w1, ls1, rs1, options, replies1).world, options.prefer);
  }
}
