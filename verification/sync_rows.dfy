/** The rows a plan is made of are a table of the world the plan was made for. */
module SyncRows {
  import opened Wrappers
  import opened SyncState
  import opened SyncPlan
  import opened SyncPairing
  import opened SyncApply
  import opened SyncTable

  // ----- the table a run starts from -----

  lemma {:induction false} SuffixDistinct(head: seq<Item>, rest: seq<Item>)
    requires DistinctIds(head + rest)
    ensures DistinctIds(rest)
    ensures forall p, q :: 0 <= p < |head| && 0 <= q < |rest| ==> head[p].id != rest[q].id
  {
    var all := head + rest;
    assert forall q :: 0 <= q < |rest| ==> rest[q] == all[|head| + q];
    assert forall p :: 0 <= p < |head| ==> head[p] == all[p];
  }

  lemma {:induction false} LocalIdsDiffer(rows: seq<Row>, i: nat, j: nat)
    requires forall row :: row in rows ==> IsNewRow(row)
    requires DistinctIds(LocalsOf(rows))
    requires i < j < |rows| && rows[i].localId.Some?
    ensures rows[i].localId != rows[j].localId
    decreases |rows|
  {
    var rest := LocalsOf(rows[1..]);
    assert IsNewRow(rows[0]) && IsNewRow(rows[j]) && rows[1..][j - 1] == rows[j];
    if rows[0].localId.Some? {
      SuffixDistinct([Item(rows[0].localId.value, rows[0].local.value)], rest);
    }
    if i > 0 {
      LocalIdsDiffer(rows[1..], i - 1, j - 1);
    } else if rows[j].localId.Some? {
      var q :| 0 <= q < |rest| && rest[q] == Item(rows[j].localId.value, rows[j].local.value);
      assert [Item(rows[0].localId.value, rows[0].local.value)][0].id != rest[q].id;
    }
  }

  lemma {:induction false} RemoteIdsDiffer(rows: seq<Row>, i: nat, j: nat)
    requires forall row :: row in rows ==> IsNewRow(row)
    requires DistinctIds(RemotesOf(rows))
    requires i < j < |rows| && rows[i].remoteId.Some?
    ensures rows[i].remoteId != rows[j].remoteId
    decreases |rows|
  {
    var rest := RemotesOf(rows[1..]);
    assert IsNewRow(rows[0]) && IsNewRow(rows[j]) && rows[1..][j - 1] == rows[j];
    if rows[0].remoteId.Some? {
      SuffixDistinct([Item(rows[0].remoteId.value, rows[0].remote.value)], rest);
    }
    if i > 0 {
      RemoteIdsDiffer(rows[1..], i - 1, j - 1);
    } else if rows[j].remoteId.Some? {
      var q :| 0 <= q < |rest| && rest[q] == Item(rows[j].remoteId.value, rows[j].remote.value);
      assert [Item(rows[0].remoteId.value, rows[0].remote.value)][0].id != rest[q].id;
    }
  }

  lemma {:induction false} SeqCount(s: seq<Item>, i: nat, j: nat)
    requires i < j < |s| && s[i] == s[j]
    ensures multiset(s)[s[i]] >= 2
  {
    assert s == s[..j] + [s[j]] + s[j + 1..];
    assert s[i] in s[..j];
    assert multiset(s) == multiset(s[..j]) + multiset([s[j]]) + multiset(s[j + 1..]);
  }

  lemma {:induction false} DistinctCount(s: seq<Item>, it: Item)
    requires DistinctIds(s)
    ensures multiset(s)[it] <= 1
  {
    if s != [] {
      var n := |s| - 1;
      DistinctCount(s[..n], it);
      assert s == s[..n] + [s[n]];
      if s[n] == it {
        assert it !in s[..n];
      }
    }
  }

  lemma {:induction false} PermutedStayDistinct(a: seq<Item>, b: seq<Item>)
    requires multiset(a) == multiset(b)
    requires DistinctIds(b)
    ensures DistinctIds(a)
  {
    forall i, j | 0 <= i < j < |a| ensures a[i].id != a[j].id {
      if a[i].id == a[j].id {
        assert a[i] in multiset(b) && a[j] in multiset(b);
        var p :| 0 <= p < |b| && b[p] == a[i];
        var q :| 0 <= q < |b| && b[q] == a[j];
        assert p == q;
        SeqCount(a, i, j);
        DistinctCount(b, a[i]);
      }
    }
  }

  lemma {:induction false} NewItemsDistinct(items: seq<Item>, linked: set<Id>)
    requires DistinctIds(items)
    ensures DistinctIds(NewItems(items, linked))
  {
    if items != [] {
      var n := |items| - 1;
      NewItemsDistinct(items[..n], linked);
      var before := NewItems(items[..n], linked);
      forall i | 0 <= i < |before| ensures before[i].id != items[n].id {
        assert before[i] in items[..n];
      }
    }
  }

  lemma {:induction false} SameMembers(a: seq<Item>, b: seq<Item>)
    requires multiset(a) == multiset(b)
    ensures forall it :: it in a <==> it in b
  {
    assert forall it :: it in a <==> it in multiset(a);
    assert forall it :: it in b <==> it in multiset(b);
  }

  /** The unlinked rows of a plan over two listings. */
  function NewRows(ls: seq<Item>, rs: seq<Item>, links: seq<Link>): seq<Row> {
    PairNew(NewItems(ls, LocalIds(links)), NewItems(rs, RemoteIds(links)))
  }

  lemma {:induction false} NewRowsApart(ls: seq<Item>, rs: seq<Item>, links: seq<Link>)
    requires DistinctIds(ls) && DistinctIds(rs)
    ensures var rows := NewRows(ls, rs, links);
      forall i, j :: 0 <= i < j < |rows| ==> Apart(rows[i], rows[j])
  {
    var (nl, nr) := (NewItems(ls, LocalIds(links)), NewItems(rs, RemoteIds(links)));
    var rows := NewRows(ls, rs, links);
    PairingConserves(nl, nr);
    NewItemsDistinct(ls, LocalIds(links));
    NewItemsDistinct(rs, RemoteIds(links));
    PermutedStayDistinct(RemotesOf(rows), nr);
    forall i, j | 0 <= i < j < |rows| ensures Apart(rows[i], rows[j]) {
      if rows[i].localId.Some? { LocalIdsDiffer(rows, i, j); }
      if rows[i].remoteId.Some? { RemoteIdsDiffer(rows, i, j); }
    }
  }

  lemma {:induction false} NewRowsHold(ls: seq<Item>, rs: seq<Item>, w: World, row: Row)
    requires ValidWorld(w) && Listing(ls, w.local.items) && Listing(rs, w.remote.items)
    requires row in NewRows(ls, rs, w.links)
    ensures IsNewRow(row) && Holds(row, Run(w, EMPTY_RESULT))
  {
    var (nl, nr) := (NewItems(ls, LocalIds(w.links)), NewItems(rs, RemoteIds(w.links)));
    PairingConserves(nl, nr);
    SameMembers(RemotesOf(NewRows(ls, rs, w.links)), nr);
    ListingHolds(ls);
    ListingHolds(rs);
    if row.localId.Some? {
      assert Item(row.localId.value, row.local.value) in nl;
    }
    if row.remoteId.Some? {
      assert Item(row.remoteId.value, row.remote.value) in nr;
    }
  }

  lemma {:induction false} NewRowsCover(ls: seq<Item>, rs: seq<Item>, w: World)
    requires Listing(ls, w.local.items) && Listing(rs, w.remote.items)
    ensures var rows := NewRows(ls, rs, w.links);
      && (forall x :: x in w.local.items && x !in LocalIds(w.links) ==> NamesLocal(rows, x))
      && (forall y :: y in w.remote.items && y !in RemoteIds(w.links) ==> NamesRemote(rows, y))
  {
    var (nl, nr) := (NewItems(ls, LocalIds(w.links)), NewItems(rs, RemoteIds(w.links)));
    var rows := NewRows(ls, rs, w.links);
    PairingConserves(nl, nr);
    SameMembers(RemotesOf(rows), nr);
    ListingHolds(ls);
    ListingHolds(rs);
    forall x | x in w.local.items && x !in LocalIds(w.links) ensures NamesLocal(rows, x) {
      assert Item(x, w.local.items[x]) in ls;
      OriginOfLocal(rows, Item(x, w.local.items[x]));
    }
    forall y | y in w.remote.items && y !in RemoteIds(w.links) ensures NamesRemote(rows, y) {
      assert Item(y, w.remote.items[y]) in rs;
      OriginOfRemote(rows, Item(y, w.remote.items[y]));
    }
  }

  lemma {:induction false} OriginOfLocal(rows: seq<Row>, it: Item)
    requires it in LocalsOf(rows)
    ensures NamesLocal(rows, it.id)
  {
    if rows[0].localId == Some(it.id) {
    } else {
      OriginOfLocal(rows[1..], it);
      var i :| 0 <= i < |rows[1..]| && rows[1..][i].localId == Some(it.id);
      assert rows[i + 1].localId == Some(it.id);
    }
  }

  lemma {:induction false} OriginOfRemote(rows: seq<Row>, it: Item)
    requires it in RemotesOf(rows)
    ensures NamesRemote(rows, it.id)
  {
    if rows[0].remoteId == Some(it.id) {
    } else {
      OriginOfRemote(rows[1..], it);
      var i :| 0 <= i < |rows[1..]| && rows[1..][i].remoteId == Some(it.id);
      assert rows[i + 1].remoteId == Some(it.id);
    }
  }

  /** The links' rows come first, then the new ones. */
  lemma {:induction false} RowAt(ls: seq<Item>, rs: seq<Item>, links: seq<Link>, i: nat)
    requires i < |Rows(ls, rs, links)|
    ensures i < |links| ==> Rows(ls, rs, links)[i] == LinkRow(links[i], ById(ls), ById(rs))
    ensures i >= |links| ==> i - |links| < |NewRows(ls, rs, links)|
                             && Rows(ls, rs, links)[i] == NewRows(ls, rs, links)[i - |links|]
  {
  }

  lemma {:induction false} LinkRowHolds(w: World, k: Link)
    requires ValidWorld(w) && k in w.links
    ensures Holds(LinkRow(k, w.local.items, w.remote.items), Run(w, EMPTY_RESULT))
  {
  }

  lemma {:induction false} TableRowsHold(ls: seq<Item>, rs: seq<Item>, w: World, i: nat)
    requires ValidWorld(w) && Listing(ls, w.local.items) && Listing(rs, w.remote.items)
    requires i < |Rows(ls, rs, w.links)|
    ensures Holds(Rows(ls, rs, w.links)[i], Run(w, EMPTY_RESULT))
    ensures i >= |w.links| ==>
      && IsNewRow(Rows(ls, rs, w.links)[i])
      && Rows(ls, rs, w.links)[i] == NewRows(ls, rs, w.links)[i - |w.links|]
  {
    RowAt(ls, rs, w.links, i);
    if i < |w.links| {
      LinkRowHolds(w, w.links[i]);
    } else {
      NewRowsHold(ls, rs, w, NewRows(ls, rs, w.links)[i - |w.links|]);
    }
  }

  lemma {:induction false} TableRowsApart(ls: seq<Item>, rs: seq<Item>, w: World, i: nat, j: nat)
    requires ValidWorld(w) && Listing(ls, w.local.items) && Listing(rs, w.remote.items)
    requires i < j < |Rows(ls, rs, w.links)|
    ensures Apart(Rows(ls, rs, w.links)[i], Rows(ls, rs, w.links)[j])
  {
    var n := |w.links|;
    if n <= i {
      NewRowsApart(ls, rs, w.links);
      var single := NewRows(ls, rs, w.links);
      assert Apart(single[i - n], single[j - n]);
    } else if n <= j {
      TableRowsHold(ls, rs, w, j);
      assert w.links[i] in w.links;
    }
  }

  lemma {:induction false} NamedByPart(front: seq<Row>, part: seq<Row>)
    ensures forall x :: NamesLocal(part, x) ==> NamesLocal(front + part, x)
    ensures forall y :: NamesRemote(part, y) ==> NamesRemote(front + part, y)
  {
    var rows := front + part;
    forall x | NamesLocal(part, x) ensures NamesLocal(rows, x) {
      var i :| 0 <= i < |part| && part[i].localId == Some(x);
      assert rows[|front| + i].localId == Some(x);
    }
    forall y | NamesRemote(part, y) ensures NamesRemote(rows, y) {
      var i :| 0 <= i < |part| && part[i].remoteId == Some(y);
      assert rows[|front| + i].remoteId == Some(y);
    }
  }

  lemma {:induction false} TableCovers(ls: seq<Item>, rs: seq<Item>, w: World)
    requires Listing(ls, w.local.items) && Listing(rs, w.remote.items)
    ensures var rows := Rows(ls, rs, w.links);
      && (forall x :: x in w.local.items ==> NamesLocal(rows, x))
      && (forall y :: y in w.remote.items ==> NamesRemote(rows, y))
      && (forall k :: k in w.links ==> NamesLocal(rows, k.localId))
  {
    LinksNamed(ls, rs, w);
    forall x | x in w.local.items
      ensures NamesLocal(Rows(ls, rs, w.links), x)
    {
      LocalCovered(ls, rs, w, x);
    }
    forall y | y in w.remote.items
      ensures NamesRemote(Rows(ls, rs, w.links), y)
    {
      RemoteCovered(ls, rs, w, y);
    }
  }

  /** What a new row names, a row of the plan names. */
  lemma {:induction false} NewRowsAreRows(ls: seq<Item>, rs: seq<Item>, links: seq<Link>)
    ensures forall x :: NamesLocal(NewRows(ls, rs, links), x) ==> NamesLocal(Rows(ls, rs, links), x)
    ensures forall y :: NamesRemote(NewRows(ls, rs, links), y) ==> NamesRemote(Rows(ls, rs, links), y)
  {
    NamedByPart(LinkRows(links, ById(ls), ById(rs)), NewRows(ls, rs, links));
  }

  lemma {:induction false} LocalCovered(ls: seq<Item>, rs: seq<Item>, w: World, x: Id)
    requires Listing(ls, w.local.items) && Listing(rs, w.remote.items) && x in w.local.items
    ensures NamesLocal(Rows(ls, rs, w.links), x)
  {
    if x in LocalIds(w.links) {
      var k := LinkOfLocal(w.links, x);
      LinksNamed(ls, rs, w);
    } else {
      NewRowsCover(ls, rs, w);
      NewRowsAreRows(ls, rs, w.links);
    }
  }

  lemma {:induction false} RemoteCovered(ls: seq<Item>, rs: seq<Item>, w: World, y: Id)
    requires Listing(ls, w.local.items) && Listing(rs, w.remote.items) && y in w.remote.items
    ensures NamesRemote(Rows(ls, rs, w.links), y)
  {
    if y in RemoteIds(w.links) {
      var k := LinkOfRemote(w.links, y);
      LinksNamed(ls, rs, w);
    } else {
      NewRowsCover(ls, rs, w);
      NewRowsAreRows(ls, rs, w.links);
    }
  }

  lemma {:induction false} LinkOfLocal(links: seq<Link>, x: Id) returns (k: Link)
    requires x in LocalIds(links)
    ensures k in links && k.localId == x
  {
    k :| k in links && k.localId == x;
  }

  lemma {:induction false} LinkOfRemote(links: seq<Link>, y: Id) returns (k: Link)
    requires y in RemoteIds(links)
    ensures k in links && k.remoteId == y
  {
    k :| k in links && k.remoteId == y;
  }

  lemma {:induction false} LinksNamed(ls: seq<Item>, rs: seq<Item>, w: World)
    requires Listing(ls, w.local.items) && Listing(rs, w.remote.items)
    ensures forall k :: k in w.links ==> NamesLocal(Rows(ls, rs, w.links), k.localId)
    ensures forall k :: k in w.links ==> NamesRemote(Rows(ls, rs, w.links), k.remoteId)
  {
    var rows := Rows(ls, rs, w.links);
    forall k | k in w.links
      ensures NamesLocal(rows, k.localId) && NamesRemote(rows, k.remoteId)
    {
      var i :| 0 <= i < |w.links| && w.links[i] == k;
      assert rows[i] == LinkRow(k, w.local.items, w.remote.items);
    }
  }

  /** The plan's rows are a table of the world it was planned for. */
  lemma {:induction false} InitialTable(ls: seq<Item>, rs: seq<Item>, w: World)
    requires ValidWorld(w) && Listing(ls, w.local.items) && Listing(rs, w.remote.items)
    ensures Represents(Rows(ls, rs, w.links), Run(w, EMPTY_RESULT))
  {
    var rows := Rows(ls, rs, w.links);
    forall i | 0 <= i < |rows| ensures Holds(rows[i], Run(w, EMPTY_RESULT)) {
      TableRowsHold(ls, rs, w, i);
    }
    forall i, j | 0 <= i < j < |rows| ensures Apart(rows[i], rows[j]) {
      TableRowsApart(ls, rs, w, i, j);
    }
    TableCovers(ls, rs, w);
  }
}
