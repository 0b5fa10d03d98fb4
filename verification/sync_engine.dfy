/** The sync engine as it executes: loops over listings, dictionaries of queues, and two stores it writes. */
module SyncEngine {
  import opened Wrappers
  import opened Sequences
  import opened SyncState
  import opened SyncPlan
  import opened SyncApply
  import opened SyncConvergence
  import A = SyncApply

  /** Stands in where a call carries no record. */
  const NO_RECORD := Record("", "", "")

  /** Distinct items that are exactly the held records are read back as held. */
  lemma {:induction false} ListsHeld(listed: seq<Item>, held: map<Id, Record>)
    requires DistinctIds(listed)
    requires forall it :: it in listed ==> it.id in held && it.record == held[it.id]
    requires forall x :: x in held ==> Item(x, held[x]) in listed
    ensures Listing(listed, held)
  {
    ListingHolds(listed);
    forall x ensures x in ById(listed) <==> x in held {
      if x in ById(listed) {
        assert Item(x, ById(listed)[x]) in listed;
      }
    }
    forall x | x in held ensures ById(listed)[x] == held[x] {
      assert Item(x, held[x]) in listed;
    }
  }

  /**
   A store as the engine meets it. Which calls it refuses, which ids it hands out
   and how it rewrites records are its own affair, fixed when it is opened.
   */
  class Store {
    var items: map<Id, Record>
    var order: seq<Id>
    var used: set<Id>
    var calls: nat
    const refuses: nat -> bool
    const newId: nat -> Id
    const normalise: Record -> Record

    ghost predicate Valid()
      reads this
    {
      && (forall i, j :: 0 <= i < j < |order| ==> order[i] != order[j])
      && (forall x :: x in order <==> x in items)
      && items.Keys <= used
    }

    function AsShelf(): Shelf
      reads this
    {
      Shelf(items, used)
    }

    /** How the store will answer its next call. */
    function Answer(record: Record): Reply
      reads this
    {
      if refuses(calls) then Refused else Granted(newId(calls), normalise(record))
    }

    constructor (refuses: nat -> bool, newId: nat -> Id, normalise: Record -> Record)
      ensures Valid() && AsShelf() == Shelf(map[], {})
    {
      items, order, used, calls := map[], [], {}, 0;
      this.refuses, this.newId, this.normalise := refuses, newId, normalise;
    }

    method List() returns (listed: seq<Item>)
      requires Valid()
      ensures Listing(listed, items)
    {
      listed := [];
      var i := 0;
      while i < |order|
        invariant 0 <= i <= |order| == |order|
        invariant |listed| == i
        invariant forall j :: 0 <= j < i ==> listed[j] == Item(order[j], items[order[j]])
      {
        listed := listed + [Item(order[i], items[order[i]])];
        i := i + 1;
      }
      forall x | x in items ensures Item(x, items[x]) in listed {
        var j :| 0 <= j < |order| && order[j] == x;
        assert listed[j] == Item(x, items[x]);
      }
      ListsHeld(listed, items);
    }

    method Create(record: Record) returns (id: Option<Id>)
      requires Valid()
      modifies this
      ensures Valid()
      ensures var s := ShelfCreate(old(AsShelf()), old(Answer(record)));
        if s.None? then id.None? && AsShelf() == old(AsShelf())
        else id == Some(old(Answer(record)).id) && AsShelf() == s.value
    {
      var answer := Answer(record);
      calls := calls + 1;
      if answer.Refused? || answer.id in used || answer.id in items {
        return None;
      }
      items := items[answer.id := answer.stored];
      order := order + [answer.id];
      used := used + {answer.id};
      return Some(answer.id);
    }

    method Update(id: Id, record: Record) returns (ok: bool)
      requires Valid()
      modifies this
      ensures Valid()
      ensures var s := ShelfUpdate(old(AsShelf()), id, old(Answer(record)));
        ok == s.Some? && AsShelf() == if s.None? then old(AsShelf()) else s.value
    {
      var answer := Answer(record);
      calls := calls + 1;
      if answer.Refused? || id !in items {
        return false;
      }
      items := items[id := answer.stored];
      return true;
    }

    method Delete(id: Id) returns (ok: bool)
      requires Valid()
      modifies this
      ensures Valid()
      ensures var s := ShelfDelete(old(AsShelf()), id, old(Answer(NO_RECORD)));
        ok == s.Some? && AsShelf() == if s.None? then old(AsShelf()) else s.value
    {
      var refused := refuses(calls);
      calls := calls + 1;
      if refused || id !in items {
        return false;
      }
      items := items - {id};
      order := Dropped(order, id);
      return true;
    }
  }

  function Dropped(order: seq<Id>, id: Id): (r: seq<Id>)
    ensures forall x :: x in r <==> x in order && x != id
    ensures (forall i, j :: 0 <= i < j < |order| ==> order[i] != order[j]) ==>
      forall i, j :: 0 <= i < j < |r| ==> r[i] != r[j]
  {
    if order == [] then []
    else
      var rest := Dropped(order[1..], id);
      assert forall x :: x in rest ==> exists j :: 1 <= j < |order| && order[j] == x;
      assert forall i :: 0 <= i < |rest| ==> rest[i] in rest;
      if order[0] == id then rest else [order[0]] + rest
  }

  // ----- planning -----

  lemma {:induction false} FlatConcat(a: seq<Row>, b: seq<Row>, options: Options)
    ensures Flat(a + b, options) == Flat(a, options) + Flat(b, options)
  {
    if b == [] {
      assert a + b == a;
    } else {
      var n := |b| - 1;
      var last := PlanRow(b[n], options);
      FlatConcat(a, b[..n], options);
      assert (a + b)[..|a + b| - 1] == a + b[..n] && (a + b)[|a + b| - 1] == b[n];
      Assoc(Flat(a, options), Flat(b[..n], options), last);
    }
  }

  /** The first row's actions come first, and what was emitted before stays in front. */
  lemma {:induction false} FlatCons(before: seq<Action>, row: Row, rest: seq<Row>, options: Options)
    ensures before + Flat([row] + rest, options) == (before + PlanRow(row, options)) + Flat(rest, options)
  {
    FlatConcat([row], rest, options);
    assert [row][..0] == [];
    assert Flat([row], options) == PlanRow(row, options);
    Assoc(before, PlanRow(row, options), Flat(rest, options));
  }

  lemma {:induction false} QueueNext(before: seq<Action>, remaining: seq<Item>, options: Options)
    requires remaining != []
    ensures before + Flat(RemoteRows(remaining), options)
         == (before + PlanNewRemote(remaining[0].id, remaining[0].record, options))
            + Flat(RemoteRows(remaining[1..]), options)
  {
    FlatCons(before, RemoteRow(remaining[0]), RemoteRows(remaining[1..]), options);
  }

  /** One queue, one create or skip per record. */
  method PlanQueue(remaining: seq<Item>, options: Options) returns (actions: seq<Action>)
    ensures actions == Flat(RemoteRows(remaining), options)
  {
    actions := [];
    var j := 0;
    ghost var whole := Flat(RemoteRows(remaining), options);
    assert remaining[0..] == remaining && [] + whole == whole;
    while j < |remaining|
      invariant 0 <= j <= |remaining|
      invariant whole == actions + Flat(RemoteRows(remaining[j..]), options)
    {
      var item := remaining[j];
      QueueNext(actions, remaining[j..], options);
      assert remaining[j..][1..] == remaining[j + 1..];
      actions := actions + PlanNewRemote(item.id, item.record, options);
      j := j + 1;
    }
  }

  /** The remaining queues in insertion order. */
  method PlanLeftover(q: Queues, options: Options) returns (actions: seq<Action>)
    ensures actions == Flat(Leftover(q.order, q.at), options)
  {
    actions := [];
    var i := 0;
    while i < |q.order|
      invariant 0 <= i <= |q.order|
      invariant actions + Flat(Leftover(q.order[i..], q.at), options) == Flat(Leftover(q.order, q.at), options)
    {
      assert q.order[i..][1..] == q.order[i + 1..];
      ghost var rest := Leftover(q.order[i + 1..], q.at);
      var queued := PlanQueue(Queue(q.at, q.order[i]), options);
      FlatConcat(RemoteRows(Queue(q.at, q.order[i])), rest, options);
      Assoc(actions, queued, Flat(rest, options));
      actions := actions + queued;
      i := i + 1;
    }
  }

  method QueueByKey(items: seq<Item>) returns (q: Queues)
    ensures q == Bucketed(items)
  {
    q := Queues([], map[]);
    for i := 0 to |items|
      invariant q == Bucketed(items[..i])
    {
      assert items[..i + 1][..i] == items[..i];
      q := Enqueue(q, items[i]);
    }
    assert items[..|items|] == items;
  }

  lemma {:induction false} MatchPair(before: seq<Action>, newLocal: seq<Item>, q: Queues, options: Options)
    requires newLocal != [] && Queue(q.at, newLocal[0].record.matchKey) != []
    ensures var (item, partner) := (newLocal[0], Queue(q.at, newLocal[0].record.matchKey)[0]);
      var rest := q.(at := q.at[item.record.matchKey := q.at[item.record.matchKey][1..]]);
      before + Flat(MatchRows(newLocal, q), options)
        == (before + PlanPair(item.id, partner.id, item.record, partner.record, options))
           + Flat(MatchRows(newLocal[1..], rest), options)
  {
    var (item, partner) := (newLocal[0], Queue(q.at, newLocal[0].record.matchKey)[0]);
    var rest := q.(at := q.at[item.record.matchKey := q.at[item.record.matchKey][1..]]);
    FlatCons(before, PairRow(item, partner), MatchRows(newLocal[1..], rest), options);
  }

  lemma {:induction false} MatchSingle(before: seq<Action>, newLocal: seq<Item>, q: Queues, options: Options)
    requires newLocal != [] && Queue(q.at, newLocal[0].record.matchKey) == []
    ensures before + Flat(MatchRows(newLocal, q), options)
         == (before + PlanNewLocal(newLocal[0].id, newLocal[0].record, options))
            + Flat(MatchRows(newLocal[1..], q), options)
  {
    FlatCons(before, LocalRow(newLocal[0]), MatchRows(newLocal[1..], q), options);
  }

  /** First-time pairing: queue the remotes by key, then serve the locals in order. */
  method PairNewItems(newLocal: seq<Item>, newRemote: seq<Item>, options: Options) returns (actions: seq<Action>)
    ensures actions == Flat(PairNew(newLocal, newRemote), options)
  {
    var unmatched := QueueByKey(newRemote);
    actions := [];
    var i := 0;
    while i < |newLocal|
      invariant 0 <= i <= |newLocal|
      invariant actions + Flat(MatchRows(newLocal[i..], unmatched), options)
             == Flat(PairNew(newLocal, newRemote), options)
    {
      var item := newLocal[i];
      var candidates := Queue(unmatched.at, item.record.matchKey);
      assert newLocal[i..][1..] == newLocal[i + 1..];
      if candidates != [] {
        MatchPair(actions, newLocal[i..], unmatched, options);
        var partner := candidates[0];
        unmatched := unmatched.(at := unmatched.at[item.record.matchKey := candidates[1..]]);
        actions := actions + PlanPair(item.id, partner.id, item.record, partner.record, options);
      } else {
        MatchSingle(actions, newLocal[i..], unmatched, options);
        actions := actions + PlanNewLocal(item.id, item.record, options);
      }
      i := i + 1;
    }
    var rest := PlanLeftover(unmatched, options);
    actions := actions + rest;
  }

  /** What one more saved link adds to the plan. */
  lemma {:induction false} LinkAdds(links: seq<Link>, link: Link, local: map<Id, Record>, remote: map<Id, Record>,
                                    options: Options)
    ensures Flat(LinkRows(links + [link], local, remote), options)
         == Flat(LinkRows(links, local, remote), options)
            + PlanLink(link, Lookup(local, link.localId), Lookup(remote, link.remoteId), options)
  {
    var more := links + [link];
    var rows := LinkRows(more, local, remote);
    assert more[..|more| - 1] == links;
    assert rows == LinkRows(links, local, remote) + [LinkRow(link, local, remote)];
    assert rows[..|rows| - 1] == LinkRows(links, local, remote);
  }

  /** What the loop over the saved links has collected once it is past `links`. */
  ghost predicate Collected(links: seq<Link>, local: map<Id, Record>, remote: map<Id, Record>, options: Options,
                            actions: seq<Action>, linkedLocal: set<Id>, linkedRemote: set<Id>)
  {
    && actions == Flat(LinkRows(links, local, remote), options)
    && linkedLocal == LocalIds(links)
    && linkedRemote == RemoteIds(links)
  }

  lemma {:induction false} CollectedOne(links: seq<Link>, link: Link, local: map<Id, Record>, remote: map<Id, Record>,
                                        options: Options, actions: seq<Action>, linkedLocal: set<Id>,
                                        linkedRemote: set<Id>, more: seq<Action>)
    requires Collected(links, local, remote, options, actions, linkedLocal, linkedRemote)
    requires more == PlanLink(link, Lookup(local, link.localId), Lookup(remote, link.remoteId), options)
    ensures Collected(links + [link], local, remote, options, actions + more,
                      linkedLocal + {link.localId}, linkedRemote + {link.remoteId})
  {
    LinkAdds(links, link, local, remote, options);
    IdsAdd(links, link);
  }

  lemma {:induction false} CollectedNext(links: seq<Link>, i: nat, local: map<Id, Record>, remote: map<Id, Record>,
                                         options: Options, actions: seq<Action>, linkedLocal: set<Id>,
                                         linkedRemote: set<Id>, more: seq<Action>)
    requires i < |links| && Collected(links[..i], local, remote, options, actions, linkedLocal, linkedRemote)
    requires var link := links[i];
      more == PlanLink(link, Lookup(local, link.localId), Lookup(remote, link.remoteId), options)
    ensures Collected(links[..i + 1], local, remote, options, actions + more,
                      linkedLocal + {links[i].localId}, linkedRemote + {links[i].remoteId})
  {
    assert links[..i + 1] == links[..i] + [links[i]];
    CollectedOne(links[..i], links[i], local, remote, options, actions, linkedLocal, linkedRemote, more);
  }

  lemma {:induction false} IdsAdd(links: seq<Link>, link: Link)
    ensures LocalIds(links + [link]) == LocalIds(links) + {link.localId}
    ensures RemoteIds(links + [link]) == RemoteIds(links) + {link.remoteId}
  {
    assert forall k :: k in links + [link] <==> k in links || k == link;
  }

  /** The saved links' actions, and the ids the links mention. */
  method PlanLinks(links: seq<Link>, local: map<Id, Record>, remote: map<Id, Record>, options: Options)
    returns (actions: seq<Action>, linkedLocal: set<Id>, linkedRemote: set<Id>)
    ensures actions == Flat(LinkRows(links, local, remote), options)
    ensures linkedLocal == LocalIds(links) && linkedRemote == RemoteIds(links)
  {
    actions, linkedLocal, linkedRemote := [], {}, {};
    for i := 0 to |links|
      invariant Collected(links[..i], local, remote, options, actions, linkedLocal, linkedRemote)
    {
      var link := links[i];
      var more := PlanLink(link, Lookup(local, link.localId), Lookup(remote, link.remoteId), options);
      CollectedNext(links, i, local, remote, options, actions, linkedLocal, linkedRemote, more);
      linkedLocal := linkedLocal + {link.localId};
      linkedRemote := linkedRemote + {link.remoteId};
      actions := actions + more;
    }
    assert links[..|links|] == links;
  }

  /** The plan of two listings and the saved links, link by link and then the new records. */
  method MakePlan(local: seq<Item>, remote: seq<Item>, links: seq<Link>, options: Options)
    returns (actions: seq<Action>)
    ensures actions == Plan(local, remote, links, options)
  {
    var localById, remoteById := ById(local), ById(remote);
    var linkActions, linkedLocal, linkedRemote := PlanLinks(links, localById, remoteById, options);
    var newLocal, newRemote := NewItems(local, linkedLocal), NewItems(remote, linkedRemote);
    var paired := PairNewItems(newLocal, newRemote, options);
    FlatConcat(LinkRows(links, localById, remoteById), PairNew(newLocal, newRemote), options);
    actions := linkActions + paired;
  }

  // ----- applying -----

  function WorldOf(local: Store, remote: Store, links: seq<Link>): World
    reads local, remote
  {
    World(local.AsShelf(), remote.AsShelf(), links)
  }

  /** The reply the action is about to get. */
  function NextReply(a: Action, local: Store, remote: Store): Reply
    reads local, remote
  {
    match a
    case CreateLocal(_, record) => local.Answer(record)
    case CreateRemote(_, record) => remote.Answer(record)
    case UpdateLocal(_, _, record) => local.Answer(record)
    case UpdateRemote(_, _, record) => remote.Answer(record)
    case DeleteLocal(_, _) => local.Answer(NO_RECORD)
    case DeleteRemote(_, _) => remote.Answer(NO_RECORD)
    case _ => Refused
  }

  /** One action: calls the store, tallies the write and relinks; `raised` when the store refused. */
  method ApplyOne(a: Action, local: Store, remote: Store, links: seq<Link>, result: A.Result)
    returns (raised: bool, links': seq<Link>, result': A.Result)
    requires local.Valid() && remote.Valid() && local != remote
    modifies local, remote
    ensures local.Valid() && remote.Valid()
    ensures raised <==> Perform(a, old(NextReply(a, local, remote)), old(WorldOf(local, remote, links))).None?
    ensures raised ==> WorldOf(local, remote, links) == old(WorldOf(local, remote, links))
    ensures !raised ==>
      Run(WorldOf(local, remote, links'), result')
        == Step(a, old(NextReply(a, local, remote)), Run(old(WorldOf(local, remote, links)), result))
  {
    raised, links', result' := false, links, result.(counts := result.counts + multiset{KindOf(a)});
    match a {
      case CreateRemote(x, record) => {
        var id := remote.Create(record);
        if id.None? { raised := true; return; }
        result' := result'.(touchedRemote := result'.touchedRemote + {id.value});
        links' := WithLink(links, Agree(x, id.value, record));
      }
      case CreateLocal(y, record) => {
        var id := local.Create(record);
        if id.None? { raised := true; return; }
        result' := result'.(touchedLocal := result'.touchedLocal + {id.value});
        links' := WithLink(links, Agree(id.value, y, record));
      }
      case UpdateRemote(x, y, record) => {
        var ok := remote.Update(y, record);
        if !ok { raised := true; return; }
        result' := result'.(touchedRemote := result'.touchedRemote + {y});
        links' := WithLink(links, Agree(x, y, record));
      }
      case UpdateLocal(x, y, record) => {
        var ok := local.Update(x, record);
        if !ok { raised := true; return; }
        result' := result'.(touchedLocal := result'.touchedLocal + {x});
        links' := WithLink(links, Agree(x, y, record));
      }
      case DeleteLocal(x, _) => {
        var ok := local.Delete(x);
        if !ok { raised := true; return; }
        links' := Without(links, Some(x), None);
      }
      case DeleteRemote(_, y) => {
        var ok := remote.Delete(y);
        if !ok { raised := true; return; }
        links' := Without(links, None, Some(y));
      }
      case LinkUp(x, y, record) => { links' := WithLink(links, Agree(x, y, record)); }
      case Unlink(x, y) => { links' := Without(links, Some(x), Some(y)); }
      case Conflict(_, _) => {}
      case Skip => {}
    }
  }

  /** Runs the plan to its end, collecting refusals instead of stopping at them. */
  method ApplyPlan(actions: seq<Action>, local: Store, remote: Store, links: seq<Link>)
    returns (current: seq<Link>, result: A.Result, ghost replies: seq<Reply>)
    requires local.Valid() && remote.Valid() && local != remote
    modifies local, remote
    ensures local.Valid() && remote.Valid() && |replies| == |actions|
    ensures Run(WorldOf(local, remote, current), result)
         == A.Apply(actions, replies, Run(old(WorldOf(local, remote, links)), EMPTY_RESULT))
  {
    current, result, replies := links, EMPTY_RESULT, [];
    for i := 0 to |actions|
      invariant local.Valid() && remote.Valid() && |replies| == i
      invariant Run(WorldOf(local, remote, current), result)
             == A.Apply(actions[..i], replies, Run(old(WorldOf(local, remote, links)), EMPTY_RESULT))
    {
      ghost var reply := NextReply(actions[i], local, remote);
      ghost var before := Run(WorldOf(local, remote, current), result);
      var raised, links', result' := ApplyOne(actions[i], local, remote, current, result);
      if raised {
        result := result.(errors := result.errors + [actions[i]]);
      } else {
        current, result := links', result';
      }
      assert Run(WorldOf(local, remote, current), result) == Step(actions[i], reply, before);
      assert actions[..i + 1][..i] == actions[..i] && (replies + [reply])[..i] == replies;
      replies := replies + [reply];
    }
    assert actions[..|actions|] == actions;
  }

  method RefreshHashes(links: seq<Link>, local: seq<Item>, remote: seq<Item>,
                       touchedLocal: set<Id>, touchedRemote: set<Id>) returns (r: seq<Link>)
    ensures r == Refresh(links, ById(local), ById(remote), touchedLocal, touchedRemote)
  {
    var localById, remoteById := ById(local), ById(remote);
    r := [];
    for i := 0 to |links|
      invariant r == Refresh(links[..i], localById, remoteById, touchedLocal, touchedRemote)
    {
      var link := links[i];
      var localHash, remoteHash := link.localHash, link.remoteHash;
      if link.localId in touchedLocal && link.localId in localById {
        localHash := localById[link.localId].fingerprint;
      }
      if link.remoteId in touchedRemote && link.remoteId in remoteById {
        remoteHash := remoteById[link.remoteId].fingerprint;
      }
      assert links[..i + 1][..i] == links[..i];
      r := r + [Link(link.localId, link.remoteId, localHash, remoteHash)];
    }
    assert links[..|links|] == links;
  }

  lemma {:induction false} RefreshUntouched(links: seq<Link>, local: map<Id, Record>, remote: map<Id, Record>)
    ensures Refresh(links, local, remote, {}, {}) == links
  {}

  /**
   One sync of two stores: list, plan, apply, and re-read what was written.
   An error-free both-way run with deletes leaves the stores paired one to one.
   */
  method RunSync(local: Store, remote: Store, links: seq<Link>, options: Options)
    returns (links': seq<Link>, result: A.Result, ghost ls: seq<Item>, ghost rs: seq<Item>, ghost replies: seq<Reply>)
    requires local.Valid() && remote.Valid() && local != remote
    requires ValidWorld(WorldOf(local, remote, links))
    modifies local, remote
    ensures local.Valid() && remote.Valid()
    ensures Listing(ls, old(local.items)) && Listing(rs, old(remote.items))
    ensures |replies| == |Plan(ls, rs, links, options)|
    ensures Run(WorldOf(local, remote, links'), result)
         == Sync(old(WorldOf(local, remote, links)), ls, rs, options, replies)
    ensures result.errors == [] && options.direction.Both? && options.propagateDeletes ==>
      LinksPairUp(WorldOf(local, remote, links'))
  {
    var localItems := local.List();
    var remoteItems := remote.List();
    ls, rs := localItems, remoteItems;
    var actions := MakePlan(localItems, remoteItems, links, options);
    links', result, replies := ApplyPlan(actions, local, remote, links);
    ghost var applied := links';
    if result.touchedLocal != {} || result.touchedRemote != {} {
      localItems := local.List();
      remoteItems := remote.List();
      links' := RefreshHashes(links', localItems, remoteItems, result.touchedLocal, result.touchedRemote);
    } else {
      RefreshUntouched(links', local.items, remote.items);
    }
    if result.errors == [] && options.direction.Both? && options.propagateDeletes {
      localItems := local.List();
      remoteItems := remote.List();
      ConvergesAtOnce(old(WorldOf(local, remote, links)), ls, rs, options, replies, localItems, remoteItems, options);
    }
  }
}
