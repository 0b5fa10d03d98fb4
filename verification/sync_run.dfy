/** A planned run, complete or cut short anywhere, is the rows of its table run one by one. */
module SyncRun {
  import opened SyncPlan
  import opened SyncApply
  import opened SyncTable

  /** The first actions of a row, each with the reply that took effect. */
  function RunRow(actions: seq<Action>, outs: seq<Reply>, row: Row): Row
    requires |outs| <= |actions|
  {
    var n := |outs| - 1;
    if n < 0 then row else StepRow(actions[n], outs[n], RunRow(actions, outs[..n], row))
  }

  /** The action goes through a store, so it can be refused. */
  predicate Calls(a: Action) {
    a.CreateLocal? || a.CreateRemote? || a.UpdateLocal? || a.UpdateRemote? || a.DeleteLocal? || a.DeleteRemote?
  }

  predicate Went(a: Action, reply: Reply) { Calls(a) ==> reply.Granted? }

  /** The store keeps the very record it was given. */
  predicate Faithful(a: Action, reply: Reply) {
    (a.CreateLocal? || a.CreateRemote? || a.UpdateLocal? || a.UpdateRemote?) && reply.Granted? ==>
      reply.stored == a.record
  }

  ghost predicate AllWent(actions: seq<Action>, replies: seq<Reply>) {
    forall i :: 0 <= i < |actions| && i < |replies| ==> Went(actions[i], replies[i])
  }

  /** A granted create handed out an id its store had never used in `w`. */
  predicate Unused(a: Action, reply: Reply, w: World) {
    && (a.CreateLocal? && reply.Granted? ==> reply.id !in w.local.used)
    && (a.CreateRemote? && reply.Granted? ==> reply.id !in w.remote.used)
  }

  /** Each refusal was reported, and each created id is new since `start`. */
  ghost predicate Told(actions: seq<Action>, replies: seq<Reply>, start: World, errors: seq<Action>) {
    forall i :: 0 <= i < |actions| && i < |replies| ==>
      (Went(actions[i], replies[i]) || actions[i] in errors) && Unused(actions[i], replies[i], start)
  }

  ghost predicate AllFaithful(actions: seq<Action>, replies: seq<Reply>) {
    forall i :: 0 <= i < |actions| && i < |replies| ==> Faithful(actions[i], replies[i])
  }

  lemma {:induction false} PlannedActionsBelong(row: Row, options: Options, outs: seq<Reply>)
    requires |outs| < |PlanRow(row, options)|
    ensures Belongs(PlanRow(row, options)[|outs|], RunRow(PlanRow(row, options), outs, row))
  {
    if |outs| == 1 {
      assert RunRow(PlanRow(row, options), outs[..0], row) == row;
    }
  }

  /** The row has run as many of its actions as there are replies, and is now `now`. */
  ghost predicate RowRan(row: Row, options: Options, out: seq<Reply>, now: Row) {
    && |out| <= |PlanRow(row, options)|
    && now == RunRow(PlanRow(row, options), out, row)
  }

  /** Rows before `m` are done, row `m` has run `p` of its actions, later rows none. */
  ghost predicate RanTo(rows: seq<Row>, options: Options, m: nat, p: nat, outs: seq<seq<Reply>>, now: seq<Row>)
    requires m <= |rows|
  {
    && |outs| == |now| == |rows|
    && (forall j :: 0 <= j < |rows| ==> RowRan(rows[j], options, outs[j], now[j]))
    && (forall j :: 0 <= j < m ==> |outs[j]| == |PlanRow(rows[j], options)|)
    && (m < |rows| ==> |outs[m]| == p)
    && (forall j :: m < j < |rows| ==> outs[j] == [])
  }

  function Prefix(rows: seq<Row>, options: Options, m: nat, p: nat): seq<Action>
    requires m <= |rows| && (m < |rows| ==> p <= |PlanRow(rows[m], options)|) && (m == |rows| ==> p == 0)
  {
    Flat(rows[..m], options) + if m < |rows| then PlanRow(rows[m], options)[..p] else []
  }

  ghost predicate RowsTold(rows: seq<Row>, options: Options, outs: seq<seq<Reply>>, start: World,
                           errors: seq<Action>)
    requires |outs| == |rows|
  {
    forall j :: 0 <= j < |rows| ==> Told(PlanRow(rows[j], options), outs[j], start, errors)
  }

  /** The error is about an action of some row that was refused. */
  ghost predicate Blames(rows: seq<Row>, options: Options, outs: seq<seq<Reply>>, e: Action)
    requires |outs| == |rows|
  {
    exists j, q :: 0 <= j < |rows| && 0 <= q < |outs[j]| && q < |PlanRow(rows[j], options)|
      && PlanRow(rows[j], options)[q] == e && !Went(e, outs[j][q])
  }

  ghost predicate RowsFaithful(rows: seq<Row>, options: Options, outs: seq<seq<Reply>>)
    requires |outs| == |rows|
  {
    forall j :: 0 <= j < |rows| ==> AllFaithful(PlanRow(rows[j], options), outs[j])
  }

  lemma {:induction false} ExtendRow(row: Row, options: Options, outs: seq<Reply>, now: Row, out: Reply)
    requires |outs| < |PlanRow(row, options)|
    requires RowRan(row, options, outs, now)
    ensures RowRan(row, options, outs + [out], StepRow(PlanRow(row, options)[|outs|], out, now))
    ensures AllFaithful(PlanRow(row, options), outs) && Faithful(PlanRow(row, options)[|outs|], out) ==>
      AllFaithful(PlanRow(row, options), outs + [out])
  {
    assert (outs + [out])[..|outs|] == outs;
  }

  /** Row `m` of the table takes one more action. */
  lemma {:induction false} ExtendTable(rows: seq<Row>, options: Options, m: nat, p: nat, outs: seq<seq<Reply>>,
                                       now: seq<Row>, out: Reply)
    returns (outs': seq<seq<Reply>>, now': seq<Row>)
    requires m < |rows| && p < |PlanRow(rows[m], options)|
    requires RanTo(rows, options, m, p, outs, now)
    ensures now' == now[m := StepRow(PlanRow(rows[m], options)[p], out, now[m])]
    ensures RanTo(rows, options, m, p + 1, outs', now')
    ensures outs' == outs[m := outs[m] + [out]]
    ensures RowsFaithful(rows, options, outs) && Faithful(PlanRow(rows[m], options)[p], out) ==>
      RowsFaithful(rows, options, outs')
  {
    ExtendRow(rows[m], options, outs[m], now[m], out);
    outs' := outs[m := outs[m] + [out]];
    now' := now[m := StepRow(PlanRow(rows[m], options)[p], out, now[m])];
  }

  lemma {:induction false} PrefixWhole(rows: seq<Row>, options: Options)
    ensures Prefix(rows, options, |rows|, 0) == Flat(rows, options)
  {
    assert rows[..|rows|] == rows;
  }

  lemma {:induction false} PrefixSplits(rows: seq<Row>, options: Options, m: nat, p: nat)
    requires m <= |rows| && (m < |rows| ==> p <= |PlanRow(rows[m], options)|) && (m == |rows| ==> p == 0)
    ensures p > 0 ==>
      Prefix(rows, options, m, p) == Prefix(rows, options, m, p - 1) + [PlanRow(rows[m], options)[p - 1]]
    ensures p == 0 && m > 0 ==>
      Prefix(rows, options, m, p) == Prefix(rows, options, m - 1, |PlanRow(rows[m - 1], options)|)
    ensures p == 0 && m == 0 ==> Prefix(rows, options, m, p) == []
  {
    if p > 0 {
    } else if m > 0 {
      assert rows[..m][..m - 1] == rows[..m - 1];
    }
  }

  /** The table, the world and the errors agree on what has been done since `start`. */
  ghost predicate Tracked(rows: seq<Row>, options: Options, outs: seq<seq<Reply>>, now: seq<Row>, start: Run, end: Run)
    requires |outs| == |rows|
  {
    && ValidWorld(end.world) && Represents(now, end)
    && Grown(start, end) && RowsTold(rows, options, outs, start.world, end.result.errors)
    && (forall e :: e in end.result.errors ==> e in start.result.errors || Blames(rows, options, outs, e))
  }

  lemma {:induction false} RunTable(rows: seq<Row>, options: Options, m: nat, p: nat,
                                    replies: seq<Reply>, start: Run)
    returns (outs: seq<seq<Reply>>, now: seq<Row>)
    requires ValidWorld(start.world) && Represents(rows, start)
    requires m <= |rows| && (m < |rows| ==> p <= |PlanRow(rows[m], options)|) && (m == |rows| ==> p == 0)
    requires |replies| == |Prefix(rows, options, m, p)|
    ensures RanTo(rows, options, m, p, outs, now)
    ensures Tracked(rows, options, outs, now, start, Apply(Prefix(rows, options, m, p), replies, start))
    ensures AllFaithful(Prefix(rows, options, m, p), replies) ==> RowsFaithful(rows, options, outs)
    decreases m, p
  {
    PrefixSplits(rows, options, m, p);
    if p > 0 {
      outs, now := RunTable(rows, options, m, p - 1, replies[..|replies| - 1], start);
      outs, now := RunTableStep(rows, options, m, p, replies, start, outs, now);
    } else if m > 0 {
      outs, now := RunTable(rows, options, m - 1, |PlanRow(rows[m - 1], options)|, replies, start);
      RowDone(rows, options, m - 1, outs, now);
    } else {
      outs, now := RunNothing(rows, options, start);
    }
  }

  lemma {:induction false} RunNothing(rows: seq<Row>, options: Options, start: Run)
    returns (outs: seq<seq<Reply>>, now: seq<Row>)
    requires ValidWorld(start.world) && Represents(rows, start)
    ensures RanTo(rows, options, 0, 0, outs, now)
    ensures Tracked(rows, options, outs, now, start, start)
    ensures RowsFaithful(rows, options, outs)
  {
    outs, now := seq(|rows|, _ => []), rows;
  }

  /** The last action of a prefix, after all the others. */
  lemma {:induction false} RunTableStep(rows: seq<Row>, options: Options, m: nat, p: nat, replies: seq<Reply>,
                                        start: Run, outs: seq<seq<Reply>>, now: seq<Row>)
    returns (outs': seq<seq<Reply>>, now': seq<Row>)
    requires m < |rows| && 0 < p <= |PlanRow(rows[m], options)|
    requires |replies| == |Prefix(rows, options, m, p)| > 0
    requires |replies| - 1 == |Prefix(rows, options, m, p - 1)|
    requires RanTo(rows, options, m, p - 1, outs, now)
    requires Tracked(rows, options, outs, now, start,
                     Apply(Prefix(rows, options, m, p - 1), replies[..|replies| - 1], start))
    requires AllFaithful(Prefix(rows, options, m, p - 1), replies[..|replies| - 1]) ==>
      RowsFaithful(rows, options, outs)
    ensures RanTo(rows, options, m, p, outs', now')
    ensures Tracked(rows, options, outs', now', start, Apply(Prefix(rows, options, m, p), replies, start))
    ensures AllFaithful(Prefix(rows, options, m, p), replies) ==> RowsFaithful(rows, options, outs')
  {
    PrefixSplits(rows, options, m, p);
    outs', now' := RunAfter(rows, options, m, p, Prefix(rows, options, m, p - 1), Prefix(rows, options, m, p),
                            replies, start, outs, now);
  }

  lemma {:induction false} RunAfter(rows: seq<Row>, options: Options, m: nat, p: nat, before: seq<Action>,
                                    whole: seq<Action>, replies: seq<Reply>, start: Run, outs: seq<seq<Reply>>,
                                    now: seq<Row>)
    returns (outs': seq<seq<Reply>>, now': seq<Row>)
    requires m < |rows| && 0 < p <= |PlanRow(rows[m], options)|
    requires whole == before + [PlanRow(rows[m], options)[p - 1]] && |replies| == |whole|
    requires RanTo(rows, options, m, p - 1, outs, now)
    requires Tracked(rows, options, outs, now, start, Apply(before, replies[..|replies| - 1], start))
    requires AllFaithful(before, replies[..|replies| - 1]) ==> RowsFaithful(rows, options, outs)
    ensures RanTo(rows, options, m, p, outs', now')
    ensures Tracked(rows, options, outs', now', start, Apply(whole, replies, start))
    ensures AllFaithful(whole, replies) ==> RowsFaithful(rows, options, outs')
  {
    var n := |before|;
    ApplySnoc(before, PlanRow(rows[m], options)[p - 1], replies, start);
    outs', now' := RunOneMore(rows, options, m, p - 1, outs, now, replies[n], start,
                              Apply(before, replies[..n], start));
  }

  lemma {:induction false} ApplySnoc(before: seq<Action>, last: Action, replies: seq<Reply>, start: Run)
    requires |replies| == |before| + 1
    ensures var n := |before|;
      && Apply(before + [last], replies, start) == Step(last, replies[n], Apply(before, replies[..n], start))
      && (AllFaithful(before + [last], replies) ==>
            AllFaithful(before, replies[..n]) && Faithful(last, replies[n]))
  {
    var all := before + [last];
    assert all[..|before|] == before && all[|before|] == last;
    if AllFaithful(all, replies) {
      assert Faithful(all[|before|], replies[|before|]);
      forall i | 0 <= i < |before| ensures Faithful(before[i], replies[..|before|][i]) {
        assert Faithful(all[i], replies[i]);
      }
    }
  }

  lemma {:induction false} RowDone(rows: seq<Row>, options: Options, m: nat, outs: seq<seq<Reply>>, now: seq<Row>)
    requires m < |rows| && RanTo(rows, options, m, |PlanRow(rows[m], options)|, outs, now)
    ensures RanTo(rows, options, m + 1, 0, outs, now)
  {}

  /** Errors accumulate and ids stay used. */
  ghost predicate Grown(a: Run, b: Run) {
    && (forall e :: e in a.result.errors ==> e in b.result.errors)
    && a.world.local.used <= b.world.local.used
    && a.world.remote.used <= b.world.remote.used
  }

  lemma {:induction false} StepTells(a: Action, reply: Reply, run: Run)
    ensures Grown(run, Step(a, reply, run))
    ensures Went(a, Effective(a, reply, run.world)) || a in Step(a, reply, run).result.errors
    ensures forall e :: e in Step(a, reply, run).result.errors ==>
      e in run.result.errors || (e == a && !Went(a, Effective(a, reply, run.world)))
    ensures Unused(a, Effective(a, reply, run.world), run.world)
    ensures Faithful(a, reply) ==> Faithful(a, Effective(a, reply, run.world))
  {}

  lemma {:induction false} TellMore(actions: seq<Action>, outs: seq<Reply>, out: Reply, start: World, was: Run,
                                    now: Run)
    requires |outs| < |actions|
    requires Told(actions, outs, start, was.result.errors) && Grown(was, now)
    requires Went(actions[|outs|], out) || actions[|outs|] in now.result.errors
    requires Unused(actions[|outs|], out, was.world)
    requires start.local.used <= was.world.local.used && start.remote.used <= was.world.remote.used
    ensures Told(actions, outs + [out], start, now.result.errors)
  {
    var all := outs + [out];
    forall i | 0 <= i < |actions| && i < |all|
      ensures (Went(actions[i], all[i]) || actions[i] in now.result.errors) && Unused(actions[i], all[i], start)
    {
      if i < |outs| {
        assert all[i] == outs[i];
      }
    }
  }

  lemma {:induction false} BlamesGrow(rows: seq<Row>, options: Options, outs: seq<seq<Reply>>, m: nat, out: Reply,
                                      e: Action)
    requires |outs| == |rows| && m < |rows| && Blames(rows, options, outs, e)
    ensures Blames(rows, options, outs[m := outs[m] + [out]], e)
  {
    var j, q :| 0 <= j < |rows| && 0 <= q < |outs[j]| && q < |PlanRow(rows[j], options)|
      && PlanRow(rows[j], options)[q] == e && !Went(e, outs[j][q]);
    var outs' := outs[m := outs[m] + [out]];
    assert outs'[j][q] == outs[j][q];
  }

  lemma {:induction false} RunOneMore(rows: seq<Row>, options: Options, m: nat, p: nat, outs: seq<seq<Reply>>,
                                      now: seq<Row>, reply: Reply, start: Run, run: Run)
    returns (outs': seq<seq<Reply>>, now': seq<Row>)
    requires m < |rows| && p < |PlanRow(rows[m], options)|
    requires RanTo(rows, options, m, p, outs, now)
    requires Tracked(rows, options, outs, now, start, run)
    ensures RanTo(rows, options, m, p + 1, outs', now')
    ensures Tracked(rows, options, outs', now', start, Step(PlanRow(rows[m], options)[p], reply, run))
    ensures RowsFaithful(rows, options, outs) && Faithful(PlanRow(rows[m], options)[p], reply) ==>
      RowsFaithful(rows, options, outs')
  {
    var a := PlanRow(rows[m], options)[p];
    var out := Effective(a, reply, run.world);
    var end := Step(a, reply, run);
    PlannedActionsBelong(rows[m], options, outs[m]);
    StepRefines(now, m, a, reply, run);
    StepTells(a, reply, run);
    outs', now' := ExtendTable(rows, options, m, p, outs, now, out);
    forall j | 0 <= j < |rows| ensures Told(PlanRow(rows[j], options), outs'[j], start.world, end.result.errors) {
      assert Told(PlanRow(rows[j], options), outs[j], start.world, run.result.errors);
      if j == m {
        TellMore(PlanRow(rows[m], options), outs[m], out, start.world, run, end);
      }
    }
    forall e | e in end.result.errors ensures e in start.result.errors || Blames(rows, options, outs', e) {
      if e in run.result.errors {
        if Blames(rows, options, outs, e) {
          BlamesGrow(rows, options, outs, m, out, e);
        }
      } else {
        assert PlanRow(rows[m], options)[p] == e && !Went(e, outs'[m][p]);
      }
    }
  }
}
