/** Inputs on which the conditions of the recovery theorems fail, and what goes wrong there. */
module SyncLimits {
  import opened Wrappers
  import opened SyncState
  import opened SyncPlan
  import opened SyncApply
  import opened SyncRecovery
  import opened SyncResume

  // ----- small plans -----

  lemma {:induction false} PlanOfTwo(a: Row, b: Row, options: Options)
    ensures Flat([a], options) == PlanRow(a, options)
    ensures Flat([a, b], options) == PlanRow(a, options) + PlanRow(b, options)
  {
    assert [a][..0] == [] && [a, b][..1] == [a];
    assert [] + PlanRow(a, options) == PlanRow(a, options);
  }

  lemma {:induction false} ApplyOneMore(actions: seq<Action>, a: Action, replies: seq<Reply>, r: Reply, run: Run,
                                        mid: Run)
    requires |actions| == |replies| && Apply(actions, replies, run) == mid
    ensures Apply(actions + [a], replies + [r], run) == Step(a, r, mid)
  {
    assert (actions + [a])[..|actions|] == actions && (replies + [r])[..|replies|] == replies;
  }

  lemma {:induction false} ApplyTwo(a: Action, b: Action, r: Reply, s: Reply, run: Run, mid: Run)
    requires mid == Step(a, r, run)
    ensures Apply([a, b], [r, s], run) == Step(b, s, mid)
  {
    assert [] + [a] == [a] && [a] + [b] == [a, b] && [] + [r] == [r] && [r] + [s] == [r, s];
    ApplyOneMore([], a, [], r, run, run);
    ApplyOneMore([a], b, [r], s, run, mid);
  }

  lemma {:induction false} ApplyThree(a: Action, b: Action, c: Action, r: Reply, s: Reply, t: Reply, run: Run,
                                      mid: Run, late: Run)
    requires mid == Step(a, r, run) && late == Step(b, s, mid)
    ensures Apply([a, b, c], [r, s, t], run) == Step(c, t, late)
  {
    assert [a, b] + [c] == [a, b, c] && [r, s] + [t] == [r, s, t];
    ApplyTwo(a, b, r, s, run, mid);
    ApplyOneMore([a, b], c, [r, s], t, run, late);
  }

  /** A new copy in the remote store. */
  lemma {:induction false} CopyMade(x: Id, record: Record, id: Id, run: Run)
    requires id !in run.world.remote.used && id !in run.world.remote.items
    ensures var (next, remote) := (Step(CreateRemote(x, record), Granted(id, record), run), run.world.remote);
      && next.result.errors == run.result.errors
      && next.world.local == run.world.local
      && next.world.remote == Shelf(remote.items[id := record], remote.used + {id})
  {
  }

  /** Linking a pair writes to no store, and pulling one record over another changes only that one. */
  lemma {:induction false} PairPulled(x: Id, y: Id, local: Record, record: Record, run: Run)
    requires x in run.world.local.items
    ensures var linked := Step(LinkUp(x, y, local), Refused, run);
      && linked.result.errors == run.result.errors
      && linked.world.local == run.world.local && linked.world.remote == run.world.remote
    ensures var next := Step(UpdateLocal(x, y, record), Granted(x, record), run);
      && next.result.errors == run.result.errors
      && next.world.local.items == run.world.local.items[x := record] && next.world.remote == run.world.remote
  {
  }

  lemma {:induction false} AllNew(items: seq<Item>)
    ensures NewItems(items, {}) == items
  {
    if items != [] {
      AllNew(items[..|items| - 1]);
    }
  }

  lemma {:induction false} NoLinks(ls: seq<Item>, rs: seq<Item>)
    ensures Rows(ls, rs, []) == PairNew(ls, rs)
  {
    AllNew(ls);
    AllNew(rs);
    assert LocalIds([]) == {} && RemoteIds([]) == {};
    assert LinkRows([], ById(ls), ById(rs)) == [];
  }

  /** One queue, empty or not, against the last local item. */
  lemma {:induction false} LastMatch(m: Item, r: Item)
    requires m.record.matchKey == r.record.matchKey
    ensures var key := r.record.matchKey;
      && Bucketed([r]) == Queues([key], map[key := [r]])
      && MatchRows([], Queues([key], map[key := []])) == []
      && MatchRows([m], Queues([key], map[key := []])) == [LocalRow(m)]
      && MatchRows([m], Queues([], map[])) == [LocalRow(m)]
  {
    var key := r.record.matchKey;
    assert [r][..0] == [] && [] + [r] == [r] && [m][1..] == [] && [key][1..] == [];
    assert Leftover([key], map[key := []]) == RemoteRows([]) + Leftover([], map[key := []]) == [];
    assert Leftover([], map[]) == [];
    assert MatchRows([], Queues([], map[])) == [];
  }

  /** The first local item of the remote item's key is paired with it, the second is left over. */
  lemma {:induction false} PairedFirst(l: Item, m: Item, r: Item)
    requires l.record.matchKey == m.record.matchKey == r.record.matchKey
    ensures Rows([l], [r], []) == [PairRow(l, r)]
    ensures Rows([l, m], [r], []) == [PairRow(l, r), LocalRow(m)]
  {
    NoLinks([l], [r]);
    NoLinks([l, m], [r]);
    LastMatch(m, r);
    var key := r.record.matchKey;
    var (full, used) := (Bucketed([r]), Queues([key], map[key := []]));
    assert [r][1..] == [] && full.(at := full.at[key := [r][1..]]) == used;
    assert [l][1..] == [] && [l, m][1..] == [m];
    assert MatchRows([l], full) == [PairRow(l, r)] + MatchRows([], used);
    assert MatchRows([l, m], full) == [PairRow(l, r)] + MatchRows([m], used);
  }

  lemma {:induction false} NonePaired(l: Item, m: Item)
    ensures Rows([l, m], [], []) == [LocalRow(l), LocalRow(m)]
  {
    NoLinks([l, m], []);
    LastMatch(m, m);
    assert [l, m][1..] == [m];
    assert MatchRows([l, m], Queues([], map[])) == [LocalRow(l)] + MatchRows([m], Queues([], map[]));
  }

  // ----- a lost preference -----

  lemma {:induction false} RefusedPushFails(link: Action, push: Action, start: Run)
    requires link.LinkUp? && push.UpdateRemote?
    ensures push in Apply([link, push], [Refused, Refused], start).result.errors
  {
    ApplyTwo(link, push, Refused, Refused, start, Step(link, Refused, start));
  }

  /** A preference really can be lost: one new record on each side, one key, and the push refused. */
  lemma {:induction false} PreferenceCanBeLost(l: Item, r: Item)
    requires l.record.matchKey == r.record.matchKey && l.record.fingerprint != r.record.fingerprint
    ensures var options := Options(Both, PreferLocal, true);
      var w0 := World(Shelf(map[l.id := l.record], {l.id}), Shelf(map[r.id := r.record], {r.id}), []);
      && ValidWorld(w0) && Listing([l], w0.local.items) && Listing([r], w0.remote.items)
      && Plan([l], [r], [], options) == [LinkUp(l.id, r.id, l.record), UpdateRemote(l.id, r.id, l.record)]
      && SomePreferenceLost(Rows([l], [r], []), options, Sync(w0, [l], [r], options, [Refused, Refused]).result.errors)
  {
    var options := Options(Both, PreferLocal, true);
    var (row, push) := (PairRow(l, r), UpdateRemote(l.id, r.id, l.record));
    var w0 := World(Shelf(map[l.id := l.record], {l.id}), Shelf(map[r.id := r.record], {r.id}), []);
    PairedFirst(l, l, r);
    PlanOfTwo(row, row, options);
    RefusedPushFails(LinkUp(l.id, r.id, l.record), push, Run(w0, EMPTY_RESULT));
    assert PreferenceLost([row][0], options, Sync(w0, [l], [r], options, [Refused, Refused]).result.errors);
  }

  // ----- repeated keys -----

  /** Two new local records, and the world of a device that holds only them. */
  function Lonely(a: Item, b: Item): World {
    World(Shelf(map[a.id := a.record, b.id := b.record], {a.id, b.id}), Shelf(map[], {}), [])
  }

  const REMOTE_WINS := Options(Both, PreferRemote, true)

  /** The undisturbed run copies both records. */
  lemma {:induction false} BothCopied(a: Item, b: Item, p: Id, q: Id)
    requires a.id != b.id && a.record.matchKey == b.record.matchKey && p != q
    ensures Plan([a, b], [], [], REMOTE_WINS) == [CreateRemote(a.id, a.record), CreateRemote(b.id, b.record)]
    ensures var run := Sync(Lonely(a, b), [a, b], [], REMOTE_WINS, [Granted(p, a.record), Granted(q, b.record)]);
      run.result.errors == [] && run.world.local == Lonely(a, b).local
  {
    var (start, first, second) := (Run(Lonely(a, b), EMPTY_RESULT), Granted(p, a.record), Granted(q, b.record));
    var mid := Step(CreateRemote(a.id, a.record), first, start);
    NonePaired(a, b);
    PlanOfTwo(LocalRow(a), LocalRow(b), REMOTE_WINS);
    ApplyTwo(CreateRemote(a.id, a.record), CreateRemote(b.id, b.record), first, second, start, mid);
    CopyMade(a.id, a.record, p, start);
    CopyMade(b.id, b.record, q, mid);
  }

  /** The plan that pairs the second record's copy with the first record. */
  lemma {:induction false} MisPlanned(a: Item, b: Item, copy: Item)
    requires copy.record == b.record
    requires a.record.matchKey == b.record.matchKey && a.record.fingerprint != b.record.fingerprint
    ensures Plan([a, b], [copy], [], REMOTE_WINS)
         == [LinkUp(a.id, copy.id, a.record), UpdateLocal(a.id, copy.id, b.record), CreateRemote(b.id, b.record)]
  {
    PairedFirst(a, b, copy);
    PlanOfTwo(PairRow(a, copy), LocalRow(b), REMOTE_WINS);
  }

  lemma {:induction false} MisApplied(a: Item, b: Item, copy: Item, p: Id, start: Run)
    requires a.id in start.world.local.items
    requires p !in start.world.remote.used && p !in start.world.remote.items
    ensures var end := Apply(
        [LinkUp(a.id, copy.id, a.record), UpdateLocal(a.id, copy.id, b.record), CreateRemote(b.id, b.record)],
        [Refused, Granted(a.id, b.record), Granted(p, b.record)], start);
      && end.result.errors == start.result.errors
      && end.world.local.items == start.world.local.items[a.id := b.record]
  {
    var (link, pull) := (LinkUp(a.id, copy.id, a.record), UpdateLocal(a.id, copy.id, b.record));
    var linked := Step(link, Refused, start);
    var pulled := Step(pull, Granted(a.id, b.record), linked);
    PairPulled(a.id, copy.id, a.record, b.record, start);
    PairPulled(a.id, copy.id, a.record, b.record, linked);
    CopyMade(b.id, b.record, p, pulled);
    ApplyThree(link, pull, CreateRemote(b.id, b.record), Refused, Granted(a.id, b.record), Granted(p, b.record),
               start, linked, pulled);
  }

  /** The first record's copy refused, the second's made, and then the state lost. */
  lemma {:induction false} CutShort(a: Item, b: Item, q: Id)
    ensures var run := Apply([CreateRemote(a.id, a.record), CreateRemote(b.id, b.record)],
                             [Refused, Granted(q, b.record)], Run(Lonely(a, b), EMPTY_RESULT));
      run.world.(links := []) == World(Lonely(a, b).local, Shelf(map[q := b.record], {q}), [])
  {
    var start := Run(Lonely(a, b), EMPTY_RESULT);
    var refused := Step(CreateRemote(a.id, a.record), Refused, start);
    assert refused.world == start.world;
    CopyMade(b.id, b.record, q, refused);
    ApplyTwo(CreateRemote(a.id, a.record), CreateRemote(b.id, b.record), Refused, Granted(q, b.record), start, refused);
  }

  /**
   Two new local records of one key, the first one's copy refused, the second's made, the state then lost:
   the resumed run pairs the second's copy with the first record and overwrites it.
   */
  lemma {:induction false} RepeatedKeysMisPair(a: Item, b: Item, p: Id, q: Id, w1: World, replies: seq<Reply>)
    requires a.id != b.id && p != q
    requires a.record.matchKey == b.record.matchKey && a.record.fingerprint != b.record.fingerprint
    requires w1 == World(Lonely(a, b).local, Shelf(map[q := b.record], {q}), [])
    requires replies == [Refused, Granted(a.id, b.record), Granted(p, b.record)]
    ensures |Plan([a, b], [], [], REMOTE_WINS)| == 2
    ensures w1 == Apply(Plan([a, b], [], [], REMOTE_WINS), [Refused, Granted(q, b.record)],
                        Run(Lonely(a, b), EMPTY_RESULT)).world.(links := [])
    ensures |Plan([a, b], [Item(q, b.record)], [], REMOTE_WINS)| == |replies|
    ensures var end := Sync(w1, [a, b], [Item(q, b.record)], REMOTE_WINS, replies);
      end.result.errors == [] && Lookup(end.world.local.items, a.id) == Some(b.record)
  {
    var copy := Item(q, b.record);
    BothCopied(a, b, p, q);
    CutShort(a, b, q);
    MisPlanned(a, b, copy);
    MisApplied(a, b, copy, p, Run(w1, EMPTY_RESULT));
  }
}
