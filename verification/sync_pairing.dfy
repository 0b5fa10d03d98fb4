/** First-time pairing is a maximum first-in-first-out matching that accounts for every new record once. */
module SyncPairing {
  import opened Sequences
  import opened SyncPlan

  /** The items with one match key, in listing order. */
  function KeyItems(items: seq<Item>, key: string): (r: seq<Item>)
    ensures forall it :: it in r <==> it in items && it.record.matchKey == key
  {
    if items == [] then []
    else if items[0].record.matchKey == key then [items[0]] + KeyItems(items[1..], key)
    else KeyItems(items[1..], key)
  }

  predicate RowHasKey(row: Row, key: string) {
    if row.local.Some? then row.local.value.matchKey == key
    else row.remote.Some? && row.remote.value.matchKey == key
  }

  /** The rows about one match key, in plan order. */
  function KeyRows(rows: seq<Row>, key: string): seq<Row> {
    if rows == [] then []
    else if RowHasKey(rows[0], key) then [rows[0]] + KeyRows(rows[1..], key)
    else KeyRows(rows[1..], key)
  }

  /** Pairs the i-th local with the i-th remote; whichever side is longer keeps its tail unpaired. */
  function Fifo(local: seq<Item>, remote: seq<Item>): seq<Row> {
    if local == [] then RemoteRows(remote)
    else if remote == [] then [LocalRow(local[0])] + Fifo(local[1..], remote)
    else [PairRow(local[0], remote[0])] + Fifo(local[1..], remote[1..])
  }

  ghost predicate ValidQueues(q: Queues) {
    && (forall i, j :: 0 <= i < j < |q.order| ==> q.order[i] != q.order[j])
    && (forall key :: key in q.order <==> key in q.at)
    && (forall key, it :: key in q.at && it in q.at[key] ==> it.record.matchKey == key)
  }

  lemma {:induction false} KeyRowsConcat(a: seq<Row>, b: seq<Row>, key: string)
    ensures KeyRows(a + b, key) == KeyRows(a, key) + KeyRows(b, key)
  {
    if a == [] {
      assert a + b == b;
    } else {
      KeyRowsConcat(a[1..], b, key);
      assert (a + b)[1..] == a[1..] + b;
    }
  }

  lemma {:induction false} KeyItemsSnoc(items: seq<Item>, last: Item, key: string)
    ensures KeyItems(items + [last], key)
         == KeyItems(items, key) + if last.record.matchKey == key then [last] else []
  {
    if items != [] {
      KeyItemsSnoc(items[1..], last, key);
      assert (items + [last])[1..] == items[1..] + [last];
    }
  }

  lemma {:induction false} BucketedQueues(items: seq<Item>)
    ensures ValidQueues(Bucketed(items))
    ensures forall key :: Queue(Bucketed(items).at, key) == KeyItems(items, key)
  {
    if items != [] {
      var n := |items| - 1;
      BucketedQueues(items[..n]);
      assert items == items[..n] + [items[n]];
      forall key ensures Queue(Bucketed(items).at, key) == KeyItems(items, key) {
        KeyItemsSnoc(items[..n], items[n], key);
      }
      var q := Bucketed(items);
      var was := Bucketed(items[..n]);
      assert forall key, it :: key in q.at && it in q.at[key] ==> it.record.matchKey == key by {
        forall key, it | key in q.at && it in q.at[key] ensures it.record.matchKey == key {
          assert q.at[key] == Queue(q.at, key) == KeyItems(items, key);
        }
      }
    }
  }

  lemma {:induction false} RemoteRowsOfKey(items: seq<Item>, key: string, itemKey: string)
    requires forall it :: it in items ==> it.record.matchKey == itemKey
    ensures KeyRows(RemoteRows(items), key) == if key == itemKey then RemoteRows(items) else []
  {
    if items != [] {
      RemoteRowsOfKey(items[1..], key, itemKey);
      assert RemoteRows(items)[1..] == RemoteRows(items[1..]);
    }
  }

  lemma {:induction false} LeftoverOfKey(order: seq<string>, at: map<string, seq<Item>>, key: string)
    requires forall i, j :: 0 <= i < j < |order| ==> order[i] != order[j]
    requires forall k, it :: k in at && it in at[k] ==> it.record.matchKey == k
    ensures KeyRows(Leftover(order, at), key) == if key in order then RemoteRows(Queue(at, key)) else []
  {
    if order != [] {
      LeftoverOfKey(order[1..], at, key);
      RemoteRowsOfKey(Queue(at, order[0]), key, order[0]);
      KeyRowsConcat(RemoteRows(Queue(at, order[0])), Leftover(order[1..], at), key);
    }
  }

  lemma {:induction false} MatchRowsFifo(newLocal: seq<Item>, q: Queues, key: string)
    requires ValidQueues(q)
    ensures KeyRows(MatchRows(newLocal, q), key) == Fifo(KeyItems(newLocal, key), Queue(q.at, key))
    decreases |newLocal|
  {
    if newLocal == [] {
      LeftoverOfKey(q.order, q.at, key);
    } else {
      var k := newLocal[0].record.matchKey;
      var candidates := Queue(q.at, k);
      if candidates == [] {
        MatchRowsFifo(newLocal[1..], q, key);
        KeyRowsConcat([LocalRow(newLocal[0])], MatchRows(newLocal[1..], q), key);
      } else {
        var rest := q.(at := q.at[k := candidates[1..]]);
        MatchRowsFifo(newLocal[1..], rest, key);
        KeyRowsConcat([PairRow(newLocal[0], candidates[0])], MatchRows(newLocal[1..], rest), key);
      }
    }
  }

  /** Per key, the i-th new local is paired with the i-th new remote, and the rest stay single. */
  lemma {:induction false} FifoMatching(newLocal: seq<Item>, newRemote: seq<Item>, key: string)
    ensures KeyRows(PairNew(newLocal, newRemote), key)
         == Fifo(KeyItems(newLocal, key), KeyItems(newRemote, key))
  {
    BucketedQueues(newRemote);
    MatchRowsFifo(newLocal, Bucketed(newRemote), key);
  }

  // ----- every new record is accounted for by exactly one row -----

  function LocalsOf(rows: seq<Row>): (r: seq<Item>)
    ensures forall row :: row in rows && row.localId.Some? && row.local.Some? ==>
      Item(row.localId.value, row.local.value) in r
  {
    if rows == [] then []
    else if rows[0].localId.Some? && rows[0].local.Some? then
      [Item(rows[0].localId.value, rows[0].local.value)] + LocalsOf(rows[1..])
    else LocalsOf(rows[1..])
  }

  function RemotesOf(rows: seq<Row>): (r: seq<Item>)
    ensures forall row :: row in rows && row.remoteId.Some? && row.remote.Some? ==>
      Item(row.remoteId.value, row.remote.value) in r
  {
    if rows == [] then []
    else if rows[0].remoteId.Some? && rows[0].remote.Some? then
      [Item(rows[0].remoteId.value, rows[0].remote.value)] + RemotesOf(rows[1..])
    else RemotesOf(rows[1..])
  }

  /** How often an item waits in the queues. */
  function Waiting(order: seq<string>, at: map<string, seq<Item>>, item: Item): nat {
    if order == [] then 0 else multiset(Queue(at, order[0]))[item] + Waiting(order[1..], at, item)
  }

  /** A row of unlinked records: it names exactly the ids it holds records for. */
  predicate IsNewRow(row: Row) {
    && row.link.None? && !row.wroteLocal && !row.wroteRemote
    && (row.localId.Some? <==> row.local.Some?)
    && (row.remoteId.Some? <==> row.remote.Some?)
    && (row.localId.Some? || row.remoteId.Some?)
  }

  lemma {:induction false} LocalsConcat(a: seq<Row>, b: seq<Row>)
    ensures LocalsOf(a + b) == LocalsOf(a) + LocalsOf(b)
  {
    if a == [] {
      assert a + b == b;
    } else {
      LocalsConcat(a[1..], b);
      assert (a + b)[0] == a[0] && (a + b)[1..] == a[1..] + b;
      LocalsFirst(a);
      LocalsFirst(a + b);
      Assoc(LocalIn(a[0]), LocalsOf(a[1..]), LocalsOf(b));
    }
  }

  function LocalIn(row: Row): seq<Item> {
    if row.localId.Some? && row.local.Some? then [Item(row.localId.value, row.local.value)] else []
  }

  lemma {:induction false} LocalsFirst(rows: seq<Row>)
    requires rows != []
    ensures LocalsOf(rows) == LocalIn(rows[0]) + LocalsOf(rows[1..])
  {
  }

  lemma {:induction false} RemotesConcat(a: seq<Row>, b: seq<Row>)
    ensures RemotesOf(a + b) == RemotesOf(a) + RemotesOf(b)
  {
    if a == [] {
      assert a + b == b;
    } else {
      RemotesConcat(a[1..], b);
      assert (a + b)[0] == a[0] && (a + b)[1..] == a[1..] + b;
      RemotesFirst(a);
      RemotesFirst(a + b);
      Assoc(RemoteIn(a[0]), RemotesOf(a[1..]), RemotesOf(b));
    }
  }

  function RemoteIn(row: Row): seq<Item> {
    if row.remoteId.Some? && row.remote.Some? then [Item(row.remoteId.value, row.remote.value)] else []
  }

  lemma {:induction false} RemotesFirst(rows: seq<Row>)
    requires rows != []
    ensures RemotesOf(rows) == RemoteIn(rows[0]) + RemotesOf(rows[1..])
  {
  }

  lemma {:induction false} RemoteRowsContents(items: seq<Item>)
    ensures LocalsOf(RemoteRows(items)) == []
    ensures RemotesOf(RemoteRows(items)) == items
  {
    if items != [] {
      RemoteRowsContents(items[1..]);
      assert RemoteRows(items)[1..] == RemoteRows(items[1..]);
    }
  }

  lemma {:induction false} LeftoverConserves(order: seq<string>, at: map<string, seq<Item>>)
    ensures LocalsOf(Leftover(order, at)) == []
    ensures forall it :: multiset(RemotesOf(Leftover(order, at)))[it] == Waiting(order, at, it)
    ensures forall row :: row in Leftover(order, at) ==> IsNewRow(row)
  {
    if order != [] {
      LeftoverConserves(order[1..], at);
      RemoteRowsContents(Queue(at, order[0]));
      LocalsConcat(RemoteRows(Queue(at, order[0])), Leftover(order[1..], at));
      RemotesConcat(RemoteRows(Queue(at, order[0])), Leftover(order[1..], at));
    }
  }

  /** Replacing the queue of one key changes what waits by exactly that queue. */
  lemma {:induction false} WaitingUpdate(order: seq<string>, at: map<string, seq<Item>>, key: string,
                                         queue: seq<Item>, it: Item)
    requires forall i, j :: 0 <= i < j < |order| ==> order[i] != order[j]
    ensures key !in order ==> Waiting(order, at[key := queue], it) == Waiting(order, at, it)
    ensures key in order ==>
      Waiting(order, at[key := queue], it)
        == Waiting(order, at, it) + multiset(queue)[it] - multiset(Queue(at, key))[it]
  {
    if order != [] {
      WaitingUpdate(order[1..], at, key, queue, it);
      assert order[0] !in order[1..];
    }
  }

  lemma {:induction false} WaitingSnoc(order: seq<string>, last: string, at: map<string, seq<Item>>, it: Item)
    ensures Waiting(order + [last], at, it) == Waiting(order, at, it) + multiset(Queue(at, last))[it]
  {
    if order == [] {
      assert [last][1..] == [];
    } else {
      WaitingSnoc(order[1..], last, at, it);
      assert (order + [last])[1..] == order[1..] + [last];
    }
  }

  lemma {:induction false} BucketedWaiting(items: seq<Item>, it: Item)
    ensures Waiting(Bucketed(items).order, Bucketed(items).at, it) == multiset(items)[it]
  {
    if items != [] {
      var last := items[|items| - 1];
      var key := last.record.matchKey;
      var was := Bucketed(items[..|items| - 1]);
      BucketedWaiting(items[..|items| - 1], it);
      BucketedQueues(items[..|items| - 1]);
      assert items == items[..|items| - 1] + [last];
      WaitingUpdate(was.order, was.at, key, Queue(was.at, key) + [last], it);
      if key !in was.at {
        assert Queue(was.at, key) + [last] == [last];
        WaitingSnoc(was.order, key, was.at[key := [last]], it);
      }
    }
  }

  lemma {:induction false} MatchRowsLocals(newLocal: seq<Item>, q: Queues)
    requires ValidQueues(q)
    ensures LocalsOf(MatchRows(newLocal, q)) == newLocal
    ensures forall row :: row in MatchRows(newLocal, q) ==> IsNewRow(row)
    decreases |newLocal|
  {
    if newLocal == [] {
      LeftoverConserves(q.order, q.at);
    } else {
      var k := newLocal[0].record.matchKey;
      var candidates := Queue(q.at, k);
      if candidates == [] {
        MatchRowsLocals(newLocal[1..], q);
        FirstServed(newLocal, LocalRow(newLocal[0]), MatchRows(newLocal[1..], q));
      } else {
        var rest := q.(at := q.at[k := candidates[1..]]);
        MatchRowsLocals(newLocal[1..], rest);
        FirstServed(newLocal, PairRow(newLocal[0], candidates[0]), MatchRows(newLocal[1..], rest));
      }
    }
  }

  lemma {:induction false} FirstServed(newLocal: seq<Item>, row: Row, rest: seq<Row>)
    requires newLocal != [] && LocalsOf(rest) == newLocal[1..] && LocalIn(row) == [newLocal[0]] && IsNewRow(row)
    requires forall r :: r in rest ==> IsNewRow(r)
    ensures LocalsOf([row] + rest) == newLocal
    ensures forall r :: r in [row] + rest ==> IsNewRow(r)
  {
    assert ([row] + rest)[1..] == rest;
    LocalsFirst([row] + rest);
  }

  /** Taking the head of a queue removes one occurrence of it. */
  lemma {:induction false} DequeueWaiting(q: Queues, key: string, it: Item) returns (rest: Queues)
    requires ValidQueues(q) && Queue(q.at, key) != []
    ensures rest == q.(at := q.at[key := q.at[key][1..]])
    ensures ValidQueues(rest)
    ensures Waiting(q.order, q.at, it)
         == (if it == q.at[key][0] then 1 else 0) + Waiting(rest.order, rest.at, it)
  {
    rest := q.(at := q.at[key := q.at[key][1..]]);
    WaitingUpdate(q.order, q.at, key, q.at[key][1..], it);
    assert q.at[key] == [q.at[key][0]] + q.at[key][1..];
  }

  lemma {:induction false} RemotesCons(head: Row, tail: seq<Row>, it: Item)
    ensures multiset(RemotesOf([head] + tail))[it]
         == (if head.remoteId.Some? && head.remote.Some? && it == Item(head.remoteId.value, head.remote.value)
             then 1 else 0) + multiset(RemotesOf(tail))[it]
  {
    assert ([head] + tail)[1..] == tail;
  }

  lemma {:induction false} MatchRowsRemotes(newLocal: seq<Item>, q: Queues, it: Item)
    requires ValidQueues(q)
    ensures multiset(RemotesOf(MatchRows(newLocal, q)))[it] == Waiting(q.order, q.at, it)
    decreases |newLocal|
  {
    if newLocal == [] {
      LeftoverConserves(q.order, q.at);
    } else {
      var k := newLocal[0].record.matchKey;
      var candidates := Queue(q.at, k);
      if candidates == [] {
        MatchRowsRemotes(newLocal[1..], q, it);
        RemotesCons(LocalRow(newLocal[0]), MatchRows(newLocal[1..], q), it);
      } else {
        var rest := DequeueWaiting(q, k, it);
        MatchRowsRemotes(newLocal[1..], rest, it);
        RemotesCons(PairRow(newLocal[0], candidates[0]), MatchRows(newLocal[1..], rest), it);
      }
    }
  }

  /** Each new record appears in exactly one row: locals in listing order, remotes as a permutation. */
  lemma {:induction false} PairingConserves(newLocal: seq<Item>, newRemote: seq<Item>)
    ensures LocalsOf(PairNew(newLocal, newRemote)) == newLocal
    ensures multiset(RemotesOf(PairNew(newLocal, newRemote))) == multiset(newRemote)
    ensures forall row :: row in PairNew(newLocal, newRemote) ==> IsNewRow(row)
  {
    var q := Bucketed(newRemote);
    BucketedQueues(newRemote);
    MatchRowsLocals(newLocal, q);
    forall it ensures multiset(RemotesOf(PairNew(newLocal, newRemote)))[it] == multiset(newRemote)[it] {
      BucketedWaiting(newRemote, it);
      MatchRowsRemotes(newLocal, q, it);
    }
  }

  lemma {:induction false} RowsOfKeyAreThere(rows: seq<Row>, row: Row, key: string)
    ensures row in KeyRows(rows, key) <==> row in rows && RowHasKey(row, key)
  {
    if rows != [] {
      RowsOfKeyAreThere(rows[1..], row, key);
    }
  }

  lemma {:induction false} FifoSingles(local: seq<Item>, remote: seq<Item>, a: Row, b: Row)
    requires a in Fifo(local, remote) && a.remoteId.None?
    requires b in Fifo(local, remote)
    ensures b.localId.Some?
    decreases |local|
  {
    if local != [] && remote != [] {
      if a == PairRow(local[0], remote[0]) {
      } else if b != PairRow(local[0], remote[0]) {
        FifoSingles(local[1..], remote[1..], a, b);
      }
    } else if local != [] && b != LocalRow(local[0]) {
      assert remote == [];
      SinglesOnly(local[1..], b);
    }
  }

  lemma {:induction false} SinglesOnly(local: seq<Item>, b: Row)
    requires b in Fifo(local, [])
    ensures b.localId.Some?
  {
    if local != [] && b != LocalRow(local[0]) {
      SinglesOnly(local[1..], b);
    }
  }

  /** The matching is maximum: no unpaired local has the key of an unpaired remote. */
  lemma {:induction false} PairingIsMaximum(newLocal: seq<Item>, newRemote: seq<Item>, a: Row, b: Row)
    requires a in PairNew(newLocal, newRemote) && a.local.Some? && a.remoteId.None?
    requires b in PairNew(newLocal, newRemote) && b.remote.Some? && b.localId.None?
    ensures a.local.value.matchKey != b.remote.value.matchKey
  {
    var key := a.local.value.matchKey;
    if b.remote.value.matchKey == key {
      PairingConserves(newLocal, newRemote);
      FifoMatching(newLocal, newRemote, key);
      RowsOfKeyAreThere(PairNew(newLocal, newRemote), a, key);
      RowsOfKeyAreThere(PairNew(newLocal, newRemote), b, key);
      FifoSingles(KeyItems(newLocal, key), KeyItems(newRemote, key), a, b);
    }
  }

  lemma {:induction false} FifoKeys(local: seq<Item>, remote: seq<Item>, key: string, row: Row)
    requires forall it :: it in local ==> it.record.matchKey == key
    requires forall it :: it in remote ==> it.record.matchKey == key
    requires row in Fifo(local, remote)
    ensures row.local.Some? ==> row.local.value.matchKey == key
    ensures row.remote.Some? ==> row.remote.value.matchKey == key
    decreases |local|
  {
    if local != [] {
      if remote == [] {
        if row != LocalRow(local[0]) {
          FifoKeys(local[1..], remote, key, row);
        }
      } else if row != PairRow(local[0], remote[0]) {
        FifoKeys(local[1..], remote[1..], key, row);
      }
    }
  }

  /** Only records with equal keys are paired. */
  lemma {:induction false} PairsShareKey(newLocal: seq<Item>, newRemote: seq<Item>, row: Row)
    requires row in PairNew(newLocal, newRemote) && row.local.Some? && row.remote.Some?
    ensures row.local.value.matchKey == row.remote.value.matchKey
  {
    var key := row.local.value.matchKey;
    FifoMatching(newLocal, newRemote, key);
    RowsOfKeyAreThere(PairNew(newLocal, newRemote), row, key);
    FifoKeys(KeyItems(newLocal, key), KeyItems(newRemote, key), key, row);
  }
}
