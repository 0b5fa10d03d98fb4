/** The device's directory tree: a finite set of paths, and what a recursive delete can take away from it. */
module DeviceTree {
  /** A path's components from the device root; the root itself is the empty path. */
  type Path = seq<string>

  datatype Kind = File | Directory

  type Entries = map<Path, Kind>

  /** Everything but the root has its parent directory. */
  ghost predicate IsTree(e: Entries) {
    && ([] in e && e[[]] == Directory)
    && forall p | p in e && p != [] :: p[..|p| - 1] in e && e[p[..|p| - 1]] == Directory
  }

  /** What the device will not do: delete some entries, list some directories. */
  datatype Refusals = Refusals(deletes: set<Path>, lists: set<Path>)

  /** The walk from `top` cannot delete `q`: it is refused, or is in a directory that cannot be listed. */
  ghost predicate Stuck(r: Refusals, top: Path, q: Path) {
    q in r.deletes || exists d :: d in r.lists && top <= d <= q
  }

  /** Something at or below `p` is stuck. */
  ghost predicate Remains(e: Entries, r: Refusals, top: Path, p: Path) {
    exists q :: q in e && p <= q && Stuck(r, top, q)
  }

  /** The tree after a recursive delete of `top`. */
  ghost function Left(e: Entries, r: Refusals, top: Path): Entries {
    map p | p in e && (top <= p ==> Remains(e, r, top, p)) :: e[p]
  }

  ghost function Gone(before: Entries, after: Entries, kind: Kind): set<Path> {
    set p | p in before && p !in after && before[p] == kind
  }

  /** The walk from `top` gets to `p`: it could list every directory on the way. */
  ghost predicate Reached(r: Refusals, top: Path, p: Path) {
    top <= p && forall d :: d in r.lists && top <= d <= p ==> d == p
  }

  /** What the walk got to and could not delete. */
  ghost function Failed(after: Entries, r: Refusals, top: Path): set<Path> {
    set p | p in after && Reached(r, top, p)
  }

  // ----- laws -----

  lemma {:induction false} Prefixes(a: Path, b: Path, q: Path)
    requires a <= q && b <= q && |a| <= |b|
    ensures a <= b
  {
  }

  /** An entry's ancestors are entries, and directories. */
  lemma {:induction false} Ancestors(e: Entries, p: Path, q: Path)
    requires IsTree(e) && q in e && p <= q
    ensures p in e && (p != q ==> e[p] == Directory)
    decreases |q|
  {
    if p != q {
      var parent := q[..|q| - 1];
      assert p <= parent;
      Ancestors(e, p, parent);
    }
  }

  lemma {:induction false} RemainsUp(e: Entries, r: Refusals, top: Path, p: Path, q: Path)
    requires p <= q && Remains(e, r, top, q)
    ensures Remains(e, r, top, p)
  {
    var s :| s in e && q <= s && Stuck(r, top, s);
    assert p <= s;
  }

  /** What is left is a tree again. */
  lemma {:induction false} LeftIsTree(e: Entries, r: Refusals, top: Path)
    requires IsTree(e) && top != []
    ensures IsTree(Left(e, r, top))
  {
    var after := Left(e, r, top);
    forall p | p in after && p != []
      ensures p[..|p| - 1] in after && after[p[..|p| - 1]] == Directory
    {
      var parent := p[..|p| - 1];
      if top <= parent {
        assert top <= p;
        RemainsUp(e, r, top, parent, p);
      }
    }
  }

  lemma {:induction false} GoneAdds(a: Entries, b: Entries, c: Entries, kind: Kind)
    requires forall p :: p in c ==> p in b && c[p] == b[p]
    requires forall p :: p in b ==> p in a && b[p] == a[p]
    ensures |Gone(a, c, kind)| == |Gone(a, b, kind)| + |Gone(b, c, kind)|
  {
    assert Gone(a, c, kind) == Gone(a, b, kind) + Gone(b, c, kind);
    assert Gone(a, b, kind) !! Gone(b, c, kind);
  }

  /** A listing is refused for directories only. */
  ghost predicate ListsDirectories(e: Entries, r: Refusals) {
    forall p | p in e && p in r.lists :: e[p] == Directory
  }

  // ----- half-way through a directory -----

  /** `p` is at or below one of the directory's entries done so far. */
  ghost predicate Below(path: Path, done: set<string>, p: Path) {
    path <= p && |path| < |p| && p[|path|] in done
  }

  /** The tree once those entries are dealt with. */
  ghost function Partial(e: Entries, r: Refusals, path: Path, done: set<string>): Entries {
    map p | p in e && (Below(path, done, p) ==> Remains(e, r, path, p)) :: e[p]
  }

  ghost function FailedBelow(after: Entries, r: Refusals, path: Path, done: set<string>): set<Path> {
    set p | p in after && Reached(r, path, p) && Below(path, done, p)
  }

  lemma {:induction false} PartialIsTree(e: Entries, r: Refusals, path: Path, done: set<string>)
    requires IsTree(e)
    ensures IsTree(Partial(e, r, path, done))
  {
    var after := Partial(e, r, path, done);
    forall p | p in after && p != []
      ensures p[..|p| - 1] in after && after[p[..|p| - 1]] == Directory
    {
      var parent := p[..|p| - 1];
      if Below(path, done, parent) {
        assert Below(path, done, p);
        RemainsUp(e, r, path, parent, p);
      }
    }
  }

  lemma {:induction false} StuckFromChild(r: Refusals, path: Path, name: string, q: Path)
    requires path !in r.lists && path + [name] <= q
    ensures Stuck(r, path, q) <==> Stuck(r, path + [name], q)
    ensures Reached(r, path, q) <==> Reached(r, path + [name], q)
  {
    var child := path + [name];
    assert path <= child;
    forall d | d in r.lists && path <= d <= q
      ensures child <= d
    {
      assert d != path && |d| > |path|;
      Prefixes(child, d, q);
    }
  }

  /** Below an entry not yet dealt with, nothing has changed. */
  lemma {:induction false} ChildUntouched(e: Entries, r: Refusals, path: Path, done: set<string>, name: string, p: Path)
    requires name !in done && path + [name] <= p
    ensures p in Partial(e, r, path, done) <==> p in e
  {
    assert p[|path|] == (path + [name])[|path|] == name;
    assert !Below(path, done, p);
  }

  lemma {:induction false} ChildRemains(e: Entries, r: Refusals, path: Path, done: set<string>, name: string, p: Path)
    requires path !in r.lists && name !in done && path + [name] <= p
    ensures Remains(Partial(e, r, path, done), r, path + [name], p) <==> Remains(e, r, path, p)
  {
    var child, now := path + [name], Partial(e, r, path, done);
    if Remains(now, r, child, p) {
      var q :| q in now && p <= q && Stuck(r, child, q);
      StuckFromChild(r, path, name, q);
      assert q in e;
    }
    if Remains(e, r, path, p) {
      var q :| q in e && p <= q && Stuck(r, path, q);
      assert child <= q;
      StuckFromChild(r, path, name, q);
      ChildUntouched(e, r, path, done, name, q);
    }
  }

  lemma {:induction false} BelowMore(path: Path, done: set<string>, name: string, p: Path)
    ensures Below(path, done + {name}, p) <==> Below(path, done, p) || path + [name] <= p
  {
    if path + [name] <= p {
      assert p[|path|] == (path + [name])[|path|];
    }
    if Below(path, done + {name}, p) && p[|path|] == name {
      assert path + [name] == p[..|path| + 1];
    }
  }

  /** Dealing with one more entry. */
  lemma {:induction false} OneMore(e: Entries, r: Refusals, path: Path, done: set<string>, name: string)
    requires path !in r.lists && name !in done
    ensures Left(Partial(e, r, path, done), r, path + [name]) == Partial(e, r, path, done + {name})
  {
    var child, now := path + [name], Partial(e, r, path, done);
    var after, wanted := Left(now, r, child), Partial(e, r, path, done + {name});
    forall p | p in e
      ensures p in after <==> p in wanted
    {
      BelowMore(path, done, name, p);
      if child <= p {
        ChildUntouched(e, r, path, done, name, p);
        ChildRemains(e, r, path, done, name, p);
      }
    }
    assert forall p :: p in after <==> p in wanted;
    assert after == wanted;
  }

  lemma {:induction false} FailedMore(e: Entries, r: Refusals, path: Path, done: set<string>, name: string)
    requires path !in r.lists && name !in done
    ensures var now := Partial(e, r, path, done);
      var after := Left(now, r, path + [name]);
      FailedBelow(after, r, path, done + {name}) == FailedBelow(now, r, path, done) + Failed(after, r, path + [name])
      && FailedBelow(now, r, path, done) !! Failed(after, r, path + [name])
  {
    var child, now := path + [name], Partial(e, r, path, done);
    var after := Left(now, r, child);
    forall p | p in now
      ensures p in FailedBelow(after, r, path, done + {name}) <==>
              p in FailedBelow(now, r, path, done) || p in Failed(after, r, child)
      ensures !(p in FailedBelow(now, r, path, done) && p in Failed(after, r, child))
    {
      BelowMore(path, done, name, p);
      if child <= p {
        assert p[|path|] == child[|path|] == name;
        StuckFromChild(r, path, name, p);
      }
    }
    assert FailedBelow(after, r, path, done + {name})
        == FailedBelow(now, r, path, done) + Failed(after, r, child);
  }

  // ----- the directory itself -----

  /** The names of a directory's entries. */
  ghost predicate AllNames(e: Entries, path: Path, names: set<string>) {
    forall n :: n in names <==> path + [n] in e
  }

  lemma {:induction false} ReachesItself(r: Refusals, path: Path)
    ensures Reached(r, path, path)
    ensures path !in r.lists ==> (Stuck(r, path, path) <==> path in r.deletes)
  {
    forall d | d in r.lists && path <= d <= path
      ensures d == path
    {
      Prefixes(d, path, path);
    }
  }

  /** With its entries dealt with, the directory stays exactly when it is refused or not empty. */
  lemma {:induction false} DirectoryRemains(e: Entries, r: Refusals, path: Path, names: set<string>)
    requires IsTree(e) && path in e && path !in r.lists && AllNames(e, path, names)
    ensures Remains(e, r, path, path) <==>
        path in r.deletes || exists q :: q in Partial(e, r, path, names) && path <= q && q != path
  {
    var now := Partial(e, r, path, names);
    ReachesItself(r, path);
    if q :| q in now && path <= q && q != path {
      BelowAll(e, path, names, q);
      RemainsUp(e, r, path, path, q);
    }
    if Remains(e, r, path, path) {
      var q :| q in e && path <= q && Stuck(r, path, q);
      if q != path {
        assert Remains(e, r, path, q);
        assert q in now;
      }
    }
  }

  lemma {:induction false} BelowAll(e: Entries, path: Path, names: set<string>, q: Path)
    requires IsTree(e) && AllNames(e, path, names) && q in e && path <= q && q != path
    ensures Below(path, names, q)
  {
    var child := q[..|path| + 1];
    assert child == path + [q[|path|]];
    Ancestors(e, child, q);
  }

  lemma {:induction false} DirectoryLeft(e: Entries, r: Refusals, path: Path, names: set<string>, after: Entries)
    requires IsTree(e) && path in e && AllNames(e, path, names)
    requires after ==
      if Remains(e, r, path, path) then Partial(e, r, path, names) else Partial(e, r, path, names) - {path}
    ensures after == Left(e, r, path)
  {
    forall p | p in e
      ensures p in after <==> p in Left(e, r, path)
    {
      if path <= p && p != path {
        BelowAll(e, path, names, p);
      } else {
        assert !Below(path, names, p);
      }
    }
  }

  lemma {:induction false} DirectoryFailed(e: Entries, r: Refusals, path: Path, names: set<string>, after: Entries)
    requires IsTree(e) && path in e && AllNames(e, path, names)
    requires var now := Partial(e, r, path, names);
      after == now || after == now - {path}
    ensures path !in FailedBelow(Partial(e, r, path, names), r, path, names)
    ensures Failed(after, r, path) ==
            FailedBelow(Partial(e, r, path, names), r, path, names) + (if path in after then {path} else {})
  {
    var now := Partial(e, r, path, names);
    ReachesItself(r, path);
    forall p | p in e
      ensures p in Failed(after, r, path) <==>
          p in FailedBelow(now, r, path, names) || (p == path && path in after)
    {
      if path <= p && p != path {
        BelowAll(e, path, names, p);
      }
    }
  }

  /** A directory that cannot be listed keeps everything. */
  lemma {:induction false} Unlistable(e: Entries, r: Refusals, path: Path)
    requires path in e && path in r.lists
    ensures Left(e, r, path) == e && Failed(e, r, path) == {path}
  {
    forall p | p in e && path <= p
      ensures Remains(e, r, path, p)
    {
      assert Stuck(r, path, p);
    }
    ReachesItself(r, path);
    assert forall p :: p in Failed(e, r, path) ==> p == path;
  }

  /** A file stays exactly when the device refuses to delete it. */
  lemma {:induction false} FileDone(e: Entries, r: Refusals, path: Path)
    requires IsTree(e) && ListsDirectories(e, r) && path in e && e[path] == File
    ensures Left(e, r, path) == if path in r.deletes then e else e - {path}
    ensures Failed(Left(e, r, path), r, path) == (if path in r.deletes then {path} else {})
  {
    forall q | q in e && path <= q
      ensures q == path
    {
      Ancestors(e, path, q);
    }
    ReachesItself(r, path);
    assert Remains(e, r, path, path) <==> path in r.deletes;
  }

  /** With nothing refused at or below `top`, all of it goes and nothing fails. */
  lemma {:induction false} CleanSweep(e: Entries, r: Refusals, top: Path)
    requires forall q :: q in e && top <= q ==> q !in r.deletes && q !in r.lists
    requires IsTree(e)
    ensures forall p :: p in Left(e, r, top) <==> p in e && !(top <= p)
    ensures |Failed(Left(e, r, top), r, top)| == 0
  {
    forall q | q in e && top <= q
      ensures !Stuck(r, top, q)
    {
      forall d | d in r.lists && top <= d <= q
        ensures false
      {
        Ancestors(e, d, q);
      }
    }
  }
}
