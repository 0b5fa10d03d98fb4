/**
 The applying half of the sync engine, over the two stores as values.

 What a store does with each call is not known in advance: a `Reply` refuses the
 call without effect, or grants it with the id a create hands out and the record
 the store actually keeps (a store may normalise what it is given).
 */
module SyncApply {
  import opened Wrappers
  import opened Sequences
  import opened SyncState
  import opened SyncPlan

  datatype Reply = Refused | Granted(id: Id, stored: Record)

  /** One store: its current records, and every id it has ever handed out. */
  datatype Shelf = Shelf(items: map<Id, Record>, used: set<Id>)

  datatype World = World(local: Shelf, remote: Shelf, links: seq<Link>)

  datatype Kind =
    | KCreateLocal | KCreateRemote | KUpdateLocal | KUpdateRemote | KDeleteLocal | KDeleteRemote
    | KLink | KUnlink | KConflict | KSkip

  datatype Result = Result(
    counts: multiset<Kind>, errors: seq<Action>, touchedLocal: set<Id>, touchedRemote: set<Id>)

  datatype Run = Run(world: World, result: Result)

  const EMPTY_RESULT := Result(multiset{}, [], {}, {})

  function KindOf(a: Action): Kind {
    match a
    case CreateLocal(_, _) => KCreateLocal
    case CreateRemote(_, _) => KCreateRemote
    case UpdateLocal(_, _, _) => KUpdateLocal
    case UpdateRemote(_, _, _) => KUpdateRemote
    case DeleteLocal(_, _) => KDeleteLocal
    case DeleteRemote(_, _) => KDeleteRemote
    case LinkUp(_, _, _) => KLink
    case Unlink(_, _) => KUnlink
    case Conflict(_, _) => KConflict
    case Skip => KSkip
  }

  // ----- store calls; `None` is an exception without effect -----

  function ShelfCreate(s: Shelf, reply: Reply): Option<Shelf> {
    if reply.Refused? || reply.id in s.used || reply.id in s.items then None
    else Some(Shelf(s.items[reply.id := reply.stored], s.used + {reply.id}))
  }

  function ShelfUpdate(s: Shelf, id: Id, reply: Reply): Option<Shelf> {
    if reply.Refused? || id !in s.items then None
    else Some(Shelf(s.items[id := reply.stored], s.used))
  }

  function ShelfDelete(s: Shelf, id: Id, reply: Reply): Option<Shelf> {
    if reply.Refused? || id !in s.items then None
    else Some(Shelf(s.items - {id}, s.used))
  }

  /** The link both hashes of which are the record the action carried. */
  function Agree(localId: Id, remoteId: Id, record: Record): Link {
    Link(localId, remoteId, record.fingerprint, record.fingerprint)
  }

  /** One action on the world, or `None` when the store raises. */
  function Perform(a: Action, reply: Reply, w: World): Option<World> {
    match a
    case CreateLocal(y, record) => (
      match ShelfCreate(w.local, reply)
      case None => None
      case Some(s) => Some(World(s, w.remote, WithLink(w.links, Agree(reply.id, y, record)))))
    case CreateRemote(x, record) => (
      match ShelfCreate(w.remote, reply)
      case None => None
      case Some(s) => Some(World(w.local, s, WithLink(w.links, Agree(x, reply.id, record)))))
    case UpdateLocal(x, y, record) => (
      match ShelfUpdate(w.local, x, reply)
      case None => None
      case Some(s) => Some(World(s, w.remote, WithLink(w.links, Agree(x, y, record)))))
    case UpdateRemote(x, y, record) => (
      match ShelfUpdate(w.remote, y, reply)
      case None => None
      case Some(s) => Some(World(w.local, s, WithLink(w.links, Agree(x, y, record)))))
    case DeleteLocal(x, _) => (
      match ShelfDelete(w.local, x, reply)
      case None => None
      case Some(s) => Some(World(s, w.remote, Without(w.links, Some(x), None))))
    case DeleteRemote(_, y) => (
      match ShelfDelete(w.remote, y, reply)
      case None => None
      case Some(s) => Some(World(w.local, s, Without(w.links, None, Some(y)))))
    case LinkUp(x, y, record) => Some(w.(links := WithLink(w.links, Agree(x, y, record))))
    case Unlink(x, y) => Some(w.(links := Without(w.links, Some(x), Some(y))))
    case Conflict(_, _) => Some(w)
    case Skip => Some(w)
  }

  function WrittenLocal(a: Action, reply: Reply): set<Id> {
    match a
    case CreateLocal(_, _) => if reply.Granted? then {reply.id} else {}
    case UpdateLocal(x, _, _) => {x}
    case _ => {}
  }

  function WrittenRemote(a: Action, reply: Reply): set<Id> {
    match a
    case CreateRemote(_, _) => if reply.Granted? then {reply.id} else {}
    case UpdateRemote(_, y, _) => {y}
    case _ => {}
  }

  /** One turn of the apply loop: a raising action is recorded and the loop goes on. */
  function Step(a: Action, reply: Reply, run: Run): Run {
    var res := run.result;
    match Perform(a, reply, run.world)
    case None => run.(result := res.(errors := res.errors + [a]))
    case Some(w) =>
      Run(w, Result(res.counts + multiset{KindOf(a)}, res.errors,
                    res.touchedLocal + WrittenLocal(a, reply), res.touchedRemote + WrittenRemote(a, reply)))
  }

  function Apply(actions: seq<Action>, replies: seq<Reply>, run: Run): Run
    requires |actions| == |replies|
  {
    var n := |actions| - 1;
    if n < 0 then run
    else Step(actions[n], replies[n], Apply(actions[..n], replies[..n], run))
  }

  /** After writing, the hash of a touched end becomes what its store actually holds now. */
  function RefreshLink(k: Link, local: map<Id, Record>, remote: map<Id, Record>,
                       touchedLocal: set<Id>, touchedRemote: set<Id>): Link {
    Link(k.localId, k.remoteId,
         if k.localId in touchedLocal && k.localId in local then local[k.localId].fingerprint else k.localHash,
         if k.remoteId in touchedRemote && k.remoteId in remote then remote[k.remoteId].fingerprint
         else k.remoteHash)
  }

  function Refresh(links: seq<Link>, local: map<Id, Record>, remote: map<Id, Record>,
                   touchedLocal: set<Id>, touchedRemote: set<Id>): (r: seq<Link>)
    ensures |r| == |links|
    ensures forall i :: 0 <= i < |links| ==>
      r[i] == RefreshLink(links[i], local, remote, touchedLocal, touchedRemote)
  {
    if links == [] then []
    else Refresh(links[..|links| - 1], local, remote, touchedLocal, touchedRemote)
         + [RefreshLink(links[|links| - 1], local, remote, touchedLocal, touchedRemote)]
  }

  /** A whole planned, applied and refreshed run from one pair of listings. */
  function Sync(w: World, local: seq<Item>, remote: seq<Item>, options: Options, replies: seq<Reply>): Run
    requires |replies| == |Plan(local, remote, w.links, options)|
  {
    var run := Apply(Plan(local, remote, w.links, options), replies, Run(w, EMPTY_RESULT));
    run.(world := run.world.(links := Refresh(run.world.links, run.world.local.items, run.world.remote.items,
                                              run.result.touchedLocal, run.result.touchedRemote)))
  }

  ghost predicate DistinctIds(items: seq<Item>) {
    forall i, j :: 0 <= i < j < |items| ==> items[i].id != items[j].id
  }

  /** `items` lists exactly what the store holds, each id once, in any order. */
  ghost predicate Listing(items: seq<Item>, held: map<Id, Record>) {
    && DistinctIds(items)
    && ById(items) == held
  }

  /** Ids are never reused: whatever is held or linked was handed out before. */
  ghost predicate ValidWorld(w: World) {
    && w.local.items.Keys <= w.local.used
    && w.remote.items.Keys <= w.remote.used
    && Injective(w.links)
    && (forall k :: k in w.links ==> k.localId in w.local.used && k.remoteId in w.remote.used)
  }

  lemma {:induction false} StepKeepsValid(a: Action, reply: Reply, run: Run)
    requires ValidWorld(run.world)
    requires a.CreateLocal? || a.UpdateLocal? || a.UpdateRemote? || a.LinkUp? ==> a.remoteId in run.world.remote.used
    requires a.CreateRemote? || a.UpdateLocal? || a.UpdateRemote? || a.LinkUp? ==> a.localId in run.world.local.used
    ensures ValidWorld(Step(a, reply, run).world)
  {
  }

  lemma {:induction false} ListingHolds(items: seq<Item>)
    requires DistinctIds(items)
    ensures forall it :: it in items <==> it.id in ById(items) && ById(items)[it.id] == it.record
  {
    if items != [] {
      var n := |items| - 1;
      ListingHolds(items[..n]);
      assert items == items[..n] + [items[n]];
      assert forall it :: it in items[..n] ==> it.id != items[n].id;
    }
  }

  /** The actions whose turn went one way. */
  function Picked(actions: seq<Action>, raised: seq<bool>, how: bool): seq<Action>
    requires |actions| == |raised|
  {
    var n := |actions| - 1;
    if n < 0 then []
    else Picked(actions[..n], raised[..n], how) + if raised[n] == how then [actions[n]] else []
  }

  function Kinds(actions: seq<Action>): multiset<Kind> {
    var n := |actions| - 1;
    if n < 0 then multiset{} else Kinds(actions[..n]) + multiset{KindOf(actions[n])}
  }

  /** Whether action `i` raises in this run. */
  predicate Raises(actions: seq<Action>, replies: seq<Reply>, run: Run, i: nat)
    requires |actions| == |replies| && i < |actions|
  {
    Perform(actions[i], replies[i], Apply(actions[..i], replies[..i], run).world).None?
  }

  ghost predicate TellsRaised(raised: seq<bool>, actions: seq<Action>, replies: seq<Reply>, run: Run)
    requires |actions| == |replies|
  {
    |raised| == |actions| && forall i :: 0 <= i < |actions| ==> raised[i] == Raises(actions, replies, run, i)
  }

  /** Everything the result says of some actions. */
  ghost predicate Accounts(actions: seq<Action>, raised: seq<bool>, before: Result, end: Result)
    requires |actions| == |raised|
  {
    && end.errors == before.errors + Picked(actions, raised, true)
    && end.counts == before.counts + Kinds(Picked(actions, raised, false))
  }

  /** Each action that raises is reported, in order, and each other one is counted under its kind. */
  lemma {:induction false} ApplyAccountsForAll(actions: seq<Action>, replies: seq<Reply>, run: Run)
    returns (raised: seq<bool>)
    requires |actions| == |replies|
    ensures TellsRaised(raised, actions, replies, run)
    ensures Accounts(actions, raised, run.result, Apply(actions, replies, run).result)
  {
    var n := |actions| - 1;
    if n < 0 {
      raised := [];
    } else {
      var init := ApplyAccountsForAll(actions[..n], replies[..n], run);
      raised := init + [Raises(actions, replies, run, n)];
      assert raised[..n] == init;
      OneMoreTold(init, actions, replies, run);
      var mid := Apply(actions[..n], replies[..n], run);
      StepAddsOne(actions[n], replies[n], mid);
      OneMoreAccounted(actions, raised, run.result, mid.result, Apply(actions, replies, run).result);
    }
  }

  lemma {:induction false} OneMoreTold(init: seq<bool>, actions: seq<Action>, replies: seq<Reply>, run: Run)
    requires |actions| == |replies| > 0
    requires TellsRaised(init, actions[..|actions| - 1], replies[..|actions| - 1], run)
    ensures TellsRaised(init + [Raises(actions, replies, run, |actions| - 1)], actions, replies, run)
  {
    var n := |actions| - 1;
    forall i | 0 <= i < n
      ensures init[i] == Raises(actions, replies, run, i)
    {
      assert init[i] == Raises(actions[..n], replies[..n], run, i);
      assert actions[..n][..i] == actions[..i] && replies[..n][..i] == replies[..i];
    }
  }

  /** What one turn adds to the result. */
  ghost predicate Adds(a: Action, raises: bool, before: Result, end: Result) {
    && end.errors == before.errors + (if raises then [a] else [])
    && end.counts == before.counts + (if raises then multiset{} else multiset{KindOf(a)})
  }

  lemma {:induction false} StepAddsOne(a: Action, reply: Reply, mid: Run)
    ensures Adds(a, Perform(a, reply, mid.world).None?, mid.result, Step(a, reply, mid).result)
  {
  }

  lemma {:induction false} OneMoreAccounted(actions: seq<Action>, raised: seq<bool>, before: Result, mid: Result,
                                            end: Result)
    requires actions != [] && |raised| == |actions|
    requires Accounts(actions[..|actions| - 1], raised[..|actions| - 1], before, mid)
    requires Adds(actions[|actions| - 1], raised[|actions| - 1], mid, end)
    ensures Accounts(actions, raised, before, end)
  {
    var (init, a) := (actions[..|actions| - 1], actions[|actions| - 1]);
    var raises := raised[|actions| - 1];
    PickedLast(actions, raised, true);
    PickedLast(actions, raised, false);
    var reported, counted := Picked(init, raised[..|init|], true), Picked(init, raised[..|init|], false);
    if raises {
      Assoc(before.errors, reported, [a]);
      assert counted + [] == counted;
    } else {
      KindsSnoc(counted, a);
      assert reported + [] == reported && mid.errors + [] == mid.errors;
    }
  }

  lemma {:induction false} PickedLast(actions: seq<Action>, raised: seq<bool>, how: bool)
    requires actions != [] && |actions| == |raised|
    ensures Picked(actions, raised, how) ==
      Picked(actions[..|actions| - 1], raised[..|actions| - 1], how)
      + if raised[|actions| - 1] == how then [actions[|actions| - 1]] else []
  {
  }

  lemma {:induction false} KindsSnoc(actions: seq<Action>, a: Action)
    ensures Kinds(actions + [a]) == Kinds(actions) + multiset{KindOf(a)}
  {
    assert (actions + [a])[..|actions|] == actions;
  }
}
