/** The saved link relation between device records and remote items. */
module SyncState {
  import opened Wrappers

  type Id = string

  /** One linked pair and the content hashes both sides had when they last agreed. */
  datatype Link = Link(localId: Id, remoteId: Id, localHash: string, remoteHash: string)

  /** No two links share a local id, and no two share a remote id. */
  ghost predicate Injective(links: seq<Link>) {
    forall i, j :: 0 <= i < j < |links| ==>
      links[i].localId != links[j].localId && links[i].remoteId != links[j].remoteId
  }

  predicate Mentions(link: Link, localId: Option<Id>, remoteId: Option<Id>) {
    Some(link.localId) == localId || Some(link.remoteId) == remoteId
  }

  /** The first of some links that are one-to-one fits in front of any that are kept of the others. */
  lemma {:induction false} ConsInjective(links: seq<Link>, rest: seq<Link>)
    requires links != [] && forall k :: k in rest ==> k in links[1..]
    requires Injective(links[1..]) ==> Injective(rest)
    ensures Injective(links) ==> Injective(rest) && Injective([links[0]] + rest)
  {
    if Injective(links) {
      forall j | 0 <= j < |rest|
        ensures links[0].localId != rest[j].localId && links[0].remoteId != rest[j].remoteId
      {
        assert rest[j] in links[1..];
        var i :| 0 <= i < |links[1..]| && links[1..][i] == rest[j];
        assert links[i + 1] == rest[j];
      }
    }
  }

  /** Drops the links that mention either id; `None` matches nothing. */
  function Without(links: seq<Link>, localId: Option<Id>, remoteId: Option<Id>): (r: seq<Link>)
    ensures forall k :: k in r <==> k in links && !Mentions(k, localId, remoteId)
    ensures Injective(links) ==> Injective(r)
  {
    if links == [] then []
    else
      var rest := Without(links[1..], localId, remoteId);
      ConsInjective(links, rest);
      if Mentions(links[0], localId, remoteId) then rest else [links[0]] + rest
  }

  /** Adds a link, evicting whatever linked either of its ends before. */
  function WithLink(links: seq<Link>, link: Link): (r: seq<Link>)
    ensures forall k :: k in r <==>
      k == link || (k in links && k.localId != link.localId && k.remoteId != link.remoteId)
    ensures Injective(links) ==> Injective(r)
  {
    var kept := Without(links, Some(link.localId), Some(link.remoteId));
    assert forall j :: 0 <= j < |kept| ==> kept[j] in kept;
    kept + [link]
  }

  /** In an injective relation either id alone identifies the link. */
  lemma {:induction false} SameEndSameLink(links: seq<Link>, a: Link, b: Link)
    requires Injective(links) && a in links && b in links
    requires a.localId == b.localId || a.remoteId == b.remoteId
    ensures a == b
  {
    var i :| 0 <= i < |links| && links[i] == a;
    var j :| 0 <= j < |links| && links[j] == b;
    assert i == j;
  }
}
