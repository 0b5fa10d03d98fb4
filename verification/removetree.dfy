/** Recursive delete: every file first, then each directory from the leaves up, going on after errors. */
module RemoveTree {
  import opened Wrappers
  import opened DeviceTree

  /** One row of a directory listing. */
  datatype Row = Row(name: string, isDir: bool)

  class Device {
    var entries: Entries
    const refusals: Refusals

    constructor (entries: Entries, refusals: Refusals)
      ensures this.entries == entries && this.refusals == refusals
    {
      this.entries := entries;
      this.refusals := refusals;
    }

    /** The rows of a directory in no particular order. */
    method ListDir(path: Path) returns (ok: bool, rows: seq<Row>)
      ensures ok <==> path !in refusals.lists
      ensures ok ==> forall row ::
          row in rows <==> path + [row.name] in entries && entries[path + [row.name]] ==
                           (if row.isDir then Directory else File)
      ensures ok ==> forall i, j :: 0 <= i < j < |rows| ==> rows[i].name != rows[j].name
    {
      ok, rows := path !in refusals.lists, [];
      if !ok {
        return;
      }
      var left := set p | p in entries && |p| == |path| + 1 && path <= p;
      ghost var all := left;
      while left != {}
        invariant left <= all
        invariant forall row :: row in rows <==>
            path + [row.name] in all && path + [row.name] !in left
            && entries[path + [row.name]] == (if row.isDir then Directory else File)
        invariant forall i, j :: 0 <= i < j < |rows| ==> rows[i].name != rows[j].name
        decreases |left|
      {
        var p :| p in left;
        assert p == path + [p[|path|]];
        rows := rows + [Row(p[|path|], entries[p] == Directory)];
        left := left - {p};
      }
    }

    method DeleteFile(path: Path) returns (ok: bool)
      modifies this
      ensures ok <==> old(path in entries && entries[path] == File && path !in refusals.deletes)
      ensures entries == if ok then old(entries) - {path} else old(entries)
    {
      ok := path in entries && entries[path] == File && path !in refusals.deletes;
      if ok {
        entries := entries - {path};
      }
    }

    /** An empty directory only. */
    method RemoveDirectory(path: Path) returns (ok: bool)
      modifies this
      ensures ok <==> old(path in entries && entries[path] == Directory && path !in refusals.deletes
                          && !exists q :: q in entries && path <= q && q != path)
      ensures entries == if ok then old(entries) - {path} else old(entries)
    {
      ok := path in entries && entries[path] == Directory && path !in refusals.deletes
            && !exists q :: q in entries && path <= q && q != path;
      if ok {
        entries := entries - {path};
      }
    }
  }

  class RemoveStats {
    var filesDeleted: nat
    var directoriesDeleted: nat
    var errors: seq<Path>

    constructor ()
      ensures filesDeleted == 0 && directoriesDeleted == 0 && errors == []
    {
      filesDeleted, directoriesDeleted, errors := 0, 0, [];
    }
  }

  /** `more` names exactly the paths of `failed`, each once. */
  ghost predicate Tallies(more: seq<Path>, failed: set<Path>) {
    |more| == |failed| && forall p :: p in more <==> p in failed
  }

  lemma {:induction false} TalliesAdd(a: seq<Path>, b: seq<Path>, s: set<Path>, t: set<Path>)
    requires Tallies(a, s) && Tallies(b, t) && s !! t
    ensures Tallies(a + b, s + t)
  {
  }

  /** The stats count what went and name what stayed. */
  ghost predicate Counted(before: Entries, after: Entries, failed: set<Path>, files: int, directories: int,
                          errors: seq<Path>)
  {
    files == |Gone(before, after, File)| && directories == |Gone(before, after, Directory)| && Tallies(errors, failed)
  }

  lemma {:induction false} CountedAdds(a: Entries, b: Entries, c: Entries, s: set<Path>, t: set<Path>,
                                       f0: int, d0: int, e0: seq<Path>, f1: int, d1: int, e1: seq<Path>)
    requires Counted(a, b, s, f0, d0, e0) && Counted(b, c, t, f1, d1, e1) && s !! t
    requires forall p :: p in c ==> p in b && c[p] == b[p]
    requires forall p :: p in b ==> p in a && b[p] == a[p]
    ensures Counted(a, c, s + t, f0 + f1, d0 + d1, e0 + e1)
  {
    GoneAdds(a, b, c, File);
    GoneAdds(a, b, c, Directory);
    TalliesAdd(e0, e1, s, t);
  }

  /** What a step of the walk at `path` does to the tree and to the stats. */
  twostate predicate Removed(device: Device, stats: RemoveStats, path: Path)
    reads device, stats
  {
    && device.entries == Left(old(device.entries), device.refusals, path)
    && old(stats.errors) <= stats.errors
    && Counted(old(device.entries), device.entries, Failed(device.entries, device.refusals, path),
               stats.filesDeleted - old(stats.filesDeleted),
               stats.directoriesDeleted - old(stats.directoriesDeleted),
               stats.errors[|old(stats.errors)|..])
  }

  lemma {:induction false} NoneGone(e: Entries)
    ensures Gone(e, e, File) == {} && Gone(e, e, Directory) == {}
  {
  }

  lemma {:induction false} OneGone(e: Entries, path: Path)
    requires path in e
    ensures Gone(e, e - {path}, e[path]) == {path}
    ensures forall kind :: kind != e[path] ==> Gone(e, e - {path}, kind) == {}
  {
  }

  method DeleteFile(device: Device, path: Path, stats: RemoveStats)
    requires IsTree(device.entries) && ListsDirectories(device.entries, device.refusals)
    requires path in device.entries && device.entries[path] == File
    modifies device, stats
    ensures Removed(device, stats, path)
  {
    ghost var before := device.entries;
    FileDone(before, device.refusals, path);
    NoneGone(before);
    OneGone(before, path);
    var ok := device.DeleteFile(path);
    if ok {
      stats.filesDeleted := stats.filesDeleted + 1;
    } else {
      stats.errors := stats.errors + [path];
    }
  }

  /** The names of the first `i` rows. */
  ghost function NamesOf(rows: seq<Row>, i: nat): set<string>
    requires i <= |rows|
  {
    set k | 0 <= k < i :: rows[k].name
  }

  /** The rows are the directory's entries. */
  ghost predicate Listing(e: Entries, path: Path, rows: seq<Row>) {
    && (forall row :: row in rows <==>
            path + [row.name] in e && e[path + [row.name]] == (if row.isDir then Directory else File))
    && (forall i, j :: 0 <= i < j < |rows| ==> rows[i].name != rows[j].name)
  }

  /** The part of the stats that this walk added. */
  ghost predicate Progress(e: Entries, now: Entries, r: Refusals, path: Path, done: set<string>, files: int,
                           directories: int, errors: seq<Path>)
  {
    now == Partial(e, r, path, done) && Counted(e, now, FailedBelow(now, r, path, done), files, directories, errors)
  }

  lemma {:induction false} Begins(e: Entries, r: Refusals, path: Path)
    ensures Progress(e, e, r, path, {}, 0, 0, [])
  {
    NoneGone(e);
    assert forall p :: !Below(path, {}, p);
    assert Partial(e, r, path, {}) == e;
    assert FailedBelow(e, r, path, {}) == {};
  }

  /** The next row may be dealt with: it is still there, in a tree, and below the directory. */
  lemma {:induction false} RowReady(e: Entries, r: Refusals, path: Path, rows: seq<Row>, i: nat)
    requires IsTree(e) && ListsDirectories(e, r) && Listing(e, path, rows) && i < |rows| && path in e
    ensures var now, child := Partial(e, r, path, NamesOf(rows, i)), path + [rows[i].name];
      && IsTree(now) && ListsDirectories(now, r)
      && child in now && now[child] == (if rows[i].isDir then Directory else File)
      && rows[i].name !in NamesOf(rows, i)
      && NamesOf(rows, i + 1) == NamesOf(rows, i) + {rows[i].name}
      && (set p | p in now && child <= p) < (set p | p in e && path <= p)
  {
    var now, child := Partial(e, r, path, NamesOf(rows, i)), path + [rows[i].name];
    PartialIsTree(e, r, path, NamesOf(rows, i));
    assert rows[i] in rows;
    ChildUntouched(e, r, path, NamesOf(rows, i), rows[i].name, child);
    var wide, narrow := set p | p in e && path <= p, set p | p in now && child <= p;
    assert path <= child && path in wide && path !in narrow;
    assert forall p | p in narrow :: p in wide;
  }

  lemma {:induction false} RowDone(e: Entries, now: Entries, after: Entries, r: Refusals, path: Path,
                                   done: set<string>, name: string,
                                   f0: int, d0: int, e0: seq<Path>, f1: int, d1: int, e1: seq<Path>)
    requires path !in r.lists && name !in done
    requires Progress(e, now, r, path, done, f0, d0, e0)
    requires after == Left(now, r, path + [name])
    requires Counted(now, after, Failed(after, r, path + [name]), f1, d1, e1)
    ensures Progress(e, after, r, path, done + {name}, f0 + f1, d0 + d1, e0 + e1)
  {
    OneMore(e, r, path, done, name);
    FailedMore(e, r, path, done, name);
    CountedAdds(e, now, after, FailedBelow(now, r, path, done), Failed(after, r, path + [name]),
                f0, d0, e0, f1, d1, e1);
  }

  /** After the last row: what the attempt to remove the directory itself does. */
  lemma {:induction false} AllDone(e: Entries, now: Entries, r: Refusals, path: Path, rows: seq<Row>,
                                   files: int, directories: int, errors: seq<Path>)
    requires IsTree(e) && path in e && e[path] == Directory && path !in r.lists && Listing(e, path, rows)
    requires Progress(e, now, r, path, NamesOf(rows, |rows|), files, directories, errors)
    ensures path in now && now[path] == Directory
    ensures var stays := path in r.deletes || exists q :: q in now && path <= q && q != path;
      if stays then
        now == Left(e, r, path) && Counted(e, now, Failed(now, r, path), files, directories, errors + [path])
      else
        now - {path} == Left(e, r, path)
        && Counted(e, now - {path}, Failed(now - {path}, r, path), files, directories + 1, errors)
  {
    var names := NamesOf(rows, |rows|);
    assert AllNames(e, path, names) by {
      NamesAreAll(e, path, rows);
    }
    DirectoryRemains(e, r, path, names);
    var after := if Remains(e, r, path, path) then now else now - {path};
    assert !Below(path, names, path);
    DirectoryLeft(e, r, path, names, after);
    DirectoryFailed(e, r, path, names, after);
    if Remains(e, r, path, path) {
      TalliesAdd(errors, [path], FailedBelow(now, r, path, names), {path});
    } else {
      OneGone(now, path);
      CountedAdds(e, now, after, FailedBelow(now, r, path, names), {}, files, directories, errors, 0, 1, []);
      assert errors + [] == errors && FailedBelow(now, r, path, names) + {} == FailedBelow(now, r, path, names);
    }
  }

  lemma {:induction false} NamesAreAll(e: Entries, path: Path, rows: seq<Row>)
    requires Listing(e, path, rows)
    ensures AllNames(e, path, NamesOf(rows, |rows|))
  {
    forall n | path + [n] in e
      ensures n in NamesOf(rows, |rows|)
    {
      assert Row(n, e[path + [n]] == Directory) in rows;
    }
    forall n | n in NamesOf(rows, |rows|)
      ensures path + [n] in e
    {
      var k :| 0 <= k < |rows| && rows[k].name == n;
      assert rows[k] in rows;
    }
  }

  lemma {:induction false} Suffixes<T>(a: seq<T>, b: seq<T>, c: seq<T>)
    requires a <= b <= c
    ensures a <= c && c[|a|..] == b[|a|..] + c[|b|..]
  {
  }

  /** One row: a file is deleted, a directory walked. */
  method RemoveRow(device: Device, child: Path, isDir: bool, stats: RemoveStats)
    requires IsTree(device.entries) && ListsDirectories(device.entries, device.refusals)
    requires child != [] && child in device.entries
    requires device.entries[child] == if isDir then Directory else File
    modifies device, stats
    ensures Removed(device, stats, child)
    decreases (set p | p in device.entries && child <= p), 2
  {
    if isDir {
      RemoveDirectoryRecursive(device, child, stats);
    } else {
      DeleteFile(device, child, stats);
    }
  }

  lemma {:induction false} NoNames(rows: seq<Row>)
    ensures NamesOf(rows, 0) == {}
  {
  }

  /** Every row of the listing in turn. */
  method RemoveRows(device: Device, path: Path, rows: seq<Row>, stats: RemoveStats)
    requires IsTree(device.entries) && ListsDirectories(device.entries, device.refusals)
    requires path in device.entries && path !in device.refusals.lists && Listing(device.entries, path, rows)
    modifies device, stats
    ensures old(stats.errors) <= stats.errors
    ensures Progress(old(device.entries), device.entries, device.refusals, path, NamesOf(rows, |rows|),
                     stats.filesDeleted - old(stats.filesDeleted),
                     stats.directoriesDeleted - old(stats.directoriesDeleted),
                     stats.errors[|old(stats.errors)|..])
    decreases (set p | p in device.entries && path <= p), 0
  {
    ghost var e, r := device.entries, device.refusals;
    ghost var f0, d0, errors := stats.filesDeleted, stats.directoriesDeleted, stats.errors;
    Begins(e, r, path);
    NoNames(rows);
    for i := 0 to |rows|
      invariant errors <= stats.errors
      invariant Progress(e, device.entries, r, path, NamesOf(rows, i), stats.filesDeleted - f0,
                         stats.directoriesDeleted - d0, stats.errors[|errors|..])
    {
      ghost var now, before := device.entries, stats.errors;
      ghost var f, d := stats.filesDeleted, stats.directoriesDeleted;
      RowReady(e, r, path, rows, i);
      RemoveRow(device, path + [rows[i].name], rows[i].isDir, stats);
      Suffixes(errors, before, stats.errors);
      RowDone(e, now, device.entries, r, path, NamesOf(rows, i), rows[i].name, f - f0, d - d0, before[|errors|..],
              stats.filesDeleted - f, stats.directoriesDeleted - d, stats.errors[|before|..]);
    }
  }

  method RemoveDirectoryRecursive(device: Device, path: Path, stats: RemoveStats)
    requires IsTree(device.entries) && ListsDirectories(device.entries, device.refusals)
    requires path != [] && path in device.entries && device.entries[path] == Directory
    modifies device, stats
    ensures Removed(device, stats, path)
    decreases (set p | p in device.entries && path <= p), 1
  {
    ghost var e, r := device.entries, device.refusals;
    ghost var f0, d0, errors := stats.filesDeleted, stats.directoriesDeleted, stats.errors;
    var ok, rows := device.ListDir(path);
    if !ok {
      NoneGone(e);
      Unlistable(e, r, path);
      stats.errors := stats.errors + [path];
      return;
    }
    RemoveRows(device, path, rows, stats);
    AllDone(e, device.entries, r, path, rows, stats.filesDeleted - f0, stats.directoriesDeleted - d0,
            stats.errors[|errors|..]);
    var removed := device.RemoveDirectory(path);
    if removed {
      stats.directoriesDeleted := stats.directoriesDeleted + 1;
    } else {
      Suffixes(errors, stats.errors, stats.errors + [path]);
      stats.errors := stats.errors + [path];
    }
  }

  datatype Refusal = DeviceRoot | DoesNotExist

  /** `remove_tree`: the root is refused, a file is just deleted, a directory is walked. */
  method RemoveTree(device: Device, path: Path) returns (refusal: Option<Refusal>, stats: RemoveStats)
    requires IsTree(device.entries) && ListsDirectories(device.entries, device.refusals)
    modifies device
    ensures fresh(stats)
    ensures refusal == 
        if path == [] then Some(DeviceRoot) else if path !in old(device.entries) then Some(DoesNotExist) else None
    ensures refusal.Some? ==> device.entries == old(device.entries)
    ensures refusal.None? ==>
      device.entries == Left(old(device.entries), device.refusals, path)
    ensures refusal.None? ==>
      Counted(old(device.entries), device.entries, Failed(device.entries, device.refusals, path),
              stats.filesDeleted, stats.directoriesDeleted, stats.errors)
  {
    stats := new RemoveStats();
    if path == [] {
      return Some(DeviceRoot), stats;
    }
    if path !in device.entries {
      return Some(DoesNotExist), stats;
    }
    RemoveRow(device, path, device.entries[path] == Directory, stats);
    refusal := None;
  }
}
