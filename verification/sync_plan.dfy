/**
 The planning half of the sync engine: what one saved link, one first-time pair
 or one unpaired record calls for, and how new records are paired by key.

 A `Row` is one unit of work: the link or pairing it stands for, and what each
 store holds for it. The plan of a run is the concatenation of its rows' plans.
 */
module SyncPlan {
  import opened Wrappers
  import opened SyncState

  /** What the engine can observe of a neutral record. */
  datatype Record = Record(fingerprint: string, matchKey: string, content: string)

  datatype Item = Item(id: Id, record: Record)

  datatype Direction = Both | ToDevice | FromDevice

  datatype Prefer = PreferRemote | PreferLocal

  datatype Options = Options(direction: Direction, prefer: Prefer, propagateDeletes: bool) {
    predicate WritesLocal() { direction.Both? || direction.ToDevice? }

    predicate WritesRemote() { direction.Both? || direction.FromDevice? }
  }

  datatype Action =
    | CreateLocal(remoteId: Id, record: Record)
    | CreateRemote(localId: Id, record: Record)
    | UpdateLocal(localId: Id, remoteId: Id, record: Record)
    | UpdateRemote(localId: Id, remoteId: Id, record: Record)
    | DeleteLocal(localId: Id, remoteId: Id)
    | DeleteRemote(localId: Id, remoteId: Id)
    | LinkUp(localId: Id, remoteId: Id, record: Record)
    | Unlink(localId: Id, remoteId: Id)
    | Conflict(localId: Id, remoteId: Id)
    | Skip

  datatype Hashes = Hashes(local: string, remote: string)

  datatype Row = Row(
    localId: Option<Id>, remoteId: Option<Id>,
    local: Option<Record>, remote: Option<Record>,
    link: Option<Hashes>, wroteLocal: bool, wroteRemote: bool)

  // ----- one link -----

  function PlanLink(link: Link, local: Option<Record>, remote: Option<Record>, options: Options): seq<Action> {
    var (x, y) := (link.localId, link.remoteId);
    match (local, remote)
    case (None, None) => [Unlink(x, y)]
    case (Some(_), None) =>
      if options.propagateDeletes && options.WritesLocal() then [DeleteLocal(x, y)] else [Unlink(x, y)]
    case (None, Some(_)) =>
      if options.propagateDeletes && options.WritesRemote() then [DeleteRemote(x, y)] else [Unlink(x, y)]
    case (Some(l), Some(r)) =>
      var localChanged := l.fingerprint != link.localHash;
      var remoteChanged := r.fingerprint != link.remoteHash;
      if !localChanged && !remoteChanged then []
      else if localChanged && remoteChanged && l.fingerprint == r.fingerprint then [LinkUp(x, y, l)]
      else if localChanged && remoteChanged then [ResolveConflict(x, y, l, r, options)]
      else if localChanged then [Push(x, y, l, options)]
      else [Pull(x, y, r, options)]
  }

  function Push(x: Id, y: Id, local: Record, options: Options): Action {
    if options.WritesRemote() then UpdateRemote(x, y, local) else Skip
  }

  function Pull(x: Id, y: Id, remote: Record, options: Options): Action {
    if options.WritesLocal() then UpdateLocal(x, y, remote) else Skip
  }

  function ResolveConflict(x: Id, y: Id, local: Record, remote: Record, options: Options): Action {
    var pull := UpdateLocal(x, y, remote);
    var push := UpdateRemote(x, y, local);
    if !options.WritesLocal() then
      if options.WritesRemote() then push else Conflict(x, y)
    else if !options.WritesRemote() then pull
    else if options.prefer.PreferRemote? then pull else push
  }

  // ----- records without a link -----

  function PlanPair(x: Id, y: Id, local: Record, remote: Record, options: Options): seq<Action> {
    var link := LinkUp(x, y, local);
    if local.fingerprint == remote.fingerprint then [link]
    else [link, ResolveConflict(x, y, local, remote, options)]
  }

  function PlanNewLocal(x: Id, local: Record, options: Options): seq<Action> {
    if options.WritesRemote() then [CreateRemote(x, local)] else [Skip]
  }

  function PlanNewRemote(y: Id, remote: Record, options: Options): seq<Action> {
    if options.WritesLocal() then [CreateLocal(y, remote)] else [Skip]
  }

  // ----- rows -----

  function LinkRow(link: Link, local: map<Id, Record>, remote: map<Id, Record>): Row {
    Row(Some(link.localId), Some(link.remoteId), Lookup(local, link.localId), Lookup(remote, link.remoteId),
        Some(Hashes(link.localHash, link.remoteHash)), false, false)
  }

  function PairRow(local: Item, remote: Item): Row {
    Row(Some(local.id), Some(remote.id), Some(local.record), Some(remote.record), None, false, false)
  }

  function LocalRow(local: Item): Row {
    Row(Some(local.id), None, Some(local.record), None, None, false, false)
  }

  function RemoteRow(remote: Item): Row {
    Row(None, Some(remote.id), None, Some(remote.record), None, false, false)
  }

  /** The actions one row calls for; a row of this shape always names the ids it holds records for. */
  function PlanRow(row: Row, options: Options): seq<Action> {
    match (row.localId, row.remoteId)
    case (Some(x), Some(y)) =>
      if row.link.Some? then
        PlanLink(Link(x, y, row.link.value.local, row.link.value.remote), row.local, row.remote, options)
      else if row.local.Some? && row.remote.Some? then
        PlanPair(x, y, row.local.value, row.remote.value, options)
      else []
    case (Some(x), None) => if row.local.Some? then PlanNewLocal(x, row.local.value, options) else []
    case (None, Some(y)) => if row.remote.Some? then PlanNewRemote(y, row.remote.value, options) else []
    case (None, None) => []
  }

  function Lookup<K, V>(m: map<K, V>, k: K): Option<V> {
    if k in m then Some(m[k]) else None
  }

  /** `{item.id: item for item in items}`: a later item with the same id wins. */
  function ById(items: seq<Item>): map<Id, Record> {
    if items == [] then map[]
    else ById(items[..|items| - 1])[items[|items| - 1].id := items[|items| - 1].record]
  }

  function LinkRows(links: seq<Link>, local: map<Id, Record>, remote: map<Id, Record>): (rows: seq<Row>)
    ensures |rows| == |links|
    ensures forall i :: 0 <= i < |links| ==> rows[i] == LinkRow(links[i], local, remote)
  {
    if links == [] then []
    else LinkRows(links[..|links| - 1], local, remote) + [LinkRow(links[|links| - 1], local, remote)]
  }

  /** The items no saved link mentions on that side. */
  function NewItems(items: seq<Item>, linked: set<Id>): (r: seq<Item>)
    ensures forall it :: it in r <==> it in items && it.id !in linked
  {
    if items == [] then []
    else
      var last := items[|items| - 1];
      var before := NewItems(items[..|items| - 1], linked);
      assert items == items[..|items| - 1] + [last];
      if last.id in linked then before else before + [last]
  }

  function LocalIds(links: seq<Link>): set<Id> { set k <- links :: k.localId }

  function RemoteIds(links: seq<Link>): set<Id> { set k <- links :: k.remoteId }

  // ----- pairing new records by key, first come first served -----

  /** A dictionary of queues that remembers the order its keys were inserted in. */
  datatype Queues = Queues(order: seq<string>, at: map<string, seq<Item>>)

  function Enqueue(q: Queues, item: Item): Queues {
    var key := item.record.matchKey;
    if key in q.at then Queues(q.order, q.at[key := q.at[key] + [item]])
    else Queues(q.order + [key], q.at[key := [item]])
  }

  function Bucketed(items: seq<Item>): Queues {
    if items == [] then Queues([], map[])
    else Enqueue(Bucketed(items[..|items| - 1]), items[|items| - 1])
  }

  function RemoteRows(items: seq<Item>): (rows: seq<Row>)
    ensures |rows| == |items|
    ensures forall i :: 0 <= i < |items| ==> rows[i] == RemoteRow(items[i])
  {
    if items == [] then [] else [RemoteRow(items[0])] + RemoteRows(items[1..])
  }

  /** What is left in the queues, key by key in insertion order. */
  function Leftover(order: seq<string>, at: map<string, seq<Item>>): seq<Row> {
    if order == [] then []
    else RemoteRows(Queue(at, order[0])) + Leftover(order[1..], at)
  }

  function Queue(at: map<string, seq<Item>>, key: string): seq<Item> {
    if key in at then at[key] else []
  }

  function MatchRows(newLocal: seq<Item>, q: Queues): seq<Row> {
    if newLocal == [] then Leftover(q.order, q.at)
    else
      var key := newLocal[0].record.matchKey;
      var candidates := Queue(q.at, key);
      if candidates == [] then [LocalRow(newLocal[0])] + MatchRows(newLocal[1..], q)
      else
        [PairRow(newLocal[0], candidates[0])]
        + MatchRows(newLocal[1..], q.(at := q.at[key := candidates[1..]]))
  }

  function PairNew(newLocal: seq<Item>, newRemote: seq<Item>): seq<Row> {
    MatchRows(newLocal, Bucketed(newRemote))
  }

  function Rows(local: seq<Item>, remote: seq<Item>, links: seq<Link>): seq<Row> {
    LinkRows(links, ById(local), ById(remote))
    + PairNew(NewItems(local, LocalIds(links)), NewItems(remote, RemoteIds(links)))
  }

  function Flat(rows: seq<Row>, options: Options): seq<Action> {
    if rows == [] then []
    else Flat(rows[..|rows| - 1], options) + PlanRow(rows[|rows| - 1], options)
  }

  /** The plan of a run over two listings and the saved links. */
  function Plan(local: seq<Item>, remote: seq<Item>, links: seq<Link>, options: Options): seq<Action> {
    Flat(Rows(local, remote, links), options)
  }
}
