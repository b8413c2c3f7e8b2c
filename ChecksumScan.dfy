/**
 The scan for checksum sidecars: `_checksum_files_from_dir` and
 `_local_checksum_files` (the same two generators appear in both
 `buildregistry.py` and the older `build_registry.py`).

 A generator's output is modelled as the sequence it yields. The path of a
 `_ChecksumFile` is modelled by its location: the index of the scan root in
 `sub_dirs`, then the listing index of each entry on the way down.
 */
module ChecksumScan {
  import opened PurePaths
  import opened FileTree

  /** `_ChecksumFile(path, name)`. */
  datatype ChecksumFile = ChecksumFile(path: Location, name: string)

  /** The filter `path.suffix == '.md5'`; it does not ask whether the entry is a file. */
  predicate IsChecksumName(name: string)
  {
    Suffix(name) == ".md5"
  }

  /** The entries found inside the sub-folder at index `i`, with paths seen from its parent. */
  function Nest(i: nat, fs: seq<ChecksumFile>): (r: seq<ChecksumFile>)
    ensures |r| == |fs|
    ensures forall k :: 0 <= k < |fs| ==> r[k] == ChecksumFile([i] + fs[k].path, fs[k].name)
  {
    seq(|fs|, k requires 0 <= k < |fs| => ChecksumFile([i] + fs[k].path, fs[k].name))
  }

  /**
   `_checksum_files_from_dir(folder, prefix)`, where `entries` is the listing of
   `folder`: first the sidecars of the folder itself, then, sub-folder by
   sub-folder, everything found below it with the prefix extended by the
   sub-folder's stem.
   */
  function FilesFromDir(entries: seq<Node>, prefix: PurePath): seq<ChecksumFile>
    decreases entries, 1
  {
    OwnFiles(entries, prefix, 0) + SubFolderFiles(entries, prefix, 0)
  }

  /** The first generator of `_checksum_files_from_dir`, from listing index `i` on. */
  function OwnFiles(entries: seq<Node>, prefix: PurePath, i: nat): seq<ChecksumFile>
    decreases |entries| - i
  {
    if i >= |entries| then [] else OwnYield(entries, prefix, i) + OwnFiles(entries, prefix, i + 1)
  }

  /** What the first generator yields for the entry at `i`: its `_ChecksumFile` if it is a sidecar. */
  function OwnYield(entries: seq<Node>, prefix: PurePath, i: nat): seq<ChecksumFile>
    requires i < |entries|
  {
    if IsChecksumName(entries[i].name) then [ChecksumFile([i], Str(Join(prefix, Stem(entries[i].name))))] else []
  }

  /** The loop over `filter(is_dir, folder.iterdir())`, from listing index `i` on. */
  function SubFolderFiles(entries: seq<Node>, prefix: PurePath, i: nat): seq<ChecksumFile>
    decreases entries, 0, |entries| - i
  {
    if i >= |entries| then []
    else
      (match entries[i]
       case Dir(n, es) => Nest(i, FilesFromDir(es, Join(prefix, Stem(n))))
       case File(_, _) => [])
      + SubFolderFiles(entries, prefix, i + 1)
  }

  // ---------------------------------------------------------------------------
  // What the scan of one folder yields, stated without the traversal

  /** An entry whose name has the suffix `.md5` sits at `loc`. */
  predicate IsSidecarAt(entries: seq<Node>, loc: Location)
  {
    ValidLocation(entries, loc) && IsChecksumName(NodeAt(entries, loc).name)
  }

  /**
   The logical name, as a path, of the entry at `loc` for a scan started with
   `prefix`: the prefix extended with the stem of every directory on the way
   and then with the stem of the entry itself.
   */
  function NamePath(entries: seq<Node>, prefix: PurePath, loc: Location): PurePath
    requires ValidLocation(entries, loc)
    decreases |loc|
  {
    var p := Join(prefix, Stem(entries[loc[0]].name));
    if |loc| == 1 then p else NamePath(entries[loc[0]].entries, p, loc[1..])
  }

  /** `f` is the sidecar at its path, carrying the name the scan gives it. */
  predicate Locates(entries: seq<Node>, prefix: PurePath, f: ChecksumFile)
  {
    IsSidecarAt(entries, f.path) && f.name == Str(NamePath(entries, prefix, f.path))
  }

  function Paths(fs: seq<ChecksumFile>): (r: seq<Location>)
    ensures |r| == |fs|
    ensures forall k :: 0 <= k < |fs| ==> r[k] == fs[k].path
  {
    seq(|fs|, k requires 0 <= k < |fs| => fs[k].path)
  }

  /** Every yielded entry is a sidecar below the folder, named as the scan names it. */
  predicate AllLocated(entries: seq<Node>, prefix: PurePath, fs: seq<ChecksumFile>)
  {
    forall k :: 0 <= k < |fs| ==> Locates(entries, prefix, fs[k])
  }

  /** Every sidecar below the folder is yielded. */
  ghost predicate CoversAll(entries: seq<Node>, fs: seq<ChecksumFile>)
  {
    forall loc :: IsSidecarAt(entries, loc) ==> loc in Paths(fs)
  }

  /** The entries come in traversal order (and so none comes twice). */
  predicate InTraversalOrder(fs: seq<ChecksumFile>)
  {
    forall a, b :: 0 <= a < b < |fs| ==> Precedes(fs[a].path, fs[b].path)
  }

  /**
   The order of the traversal: in one folder its own entries come first, in
   listing order, and then the contents of its sub-folders, one sub-folder
   after the other in listing order.
   */
  predicate Precedes(a: Location, b: Location)
    decreases |a|
  {
    && a != [] && b != []
    && if |a| == 1 then (|b| == 1 ==> a[0] < b[0])
       else |b| > 1 && (a[0] < b[0] || (a[0] == b[0] && Precedes(a[1..], b[1..])))
  }

  lemma {:induction false} PrecedesIrreflexive(a: Location)
    ensures !Precedes(a, a)
    decreases |a|
  {
    if |a| > 1 {
      PrecedesIrreflexive(a[1..]);
    }
  }

  lemma {:induction false} PrecedesTransitive(a: Location, b: Location, c: Location)
    requires Precedes(a, b) && Precedes(b, c)
    ensures Precedes(a, c)
    decreases |a|
  {
    if |a| > 1 && a[0] == b[0] == c[0] {
      PrecedesTransitive(a[1..], b[1..], c[1..]);
    }
  }

  // ---------------------------------------------------------------------------
  // Pieces of a scan and how they join

  /** Every entry sits directly in the folder, at a listing index in `lo..hi`. */
  predicate Directly(lo: int, hi: int, fs: seq<ChecksumFile>)
  {
    forall k :: 0 <= k < |fs| ==> |fs[k].path| == 1 && lo <= fs[k].path[0] < hi
  }

  /** Every entry sits below a sub-folder with a listing index in `lo..hi`. */
  predicate Below(lo: int, hi: int, fs: seq<ChecksumFile>)
  {
    forall k :: 0 <= k < |fs| ==> |fs[k].path| > 1 && lo <= fs[k].path[0] < hi
  }

  /** Every entry of `a` comes before every entry of `b` in traversal order. */
  predicate AllPrecede(a: seq<ChecksumFile>, b: seq<ChecksumFile>)
  {
    forall x, y :: 0 <= x < |a| && 0 <= y < |b| ==> Precedes(a[x].path, b[y].path)
  }

  lemma AllLocatedCat(entries: seq<Node>, prefix: PurePath, a: seq<ChecksumFile>, b: seq<ChecksumFile>)
    requires AllLocated(entries, prefix, a) && AllLocated(entries, prefix, b)
    ensures AllLocated(entries, prefix, a + b)
  {
    forall k | 0 <= k < |a + b| ensures Locates(entries, prefix, (a + b)[k]) {
      if k < |a| { assert (a + b)[k] == a[k]; } else { assert (a + b)[k] == b[k - |a|]; }
    }
  }

  lemma DirectlyCat(lo: int, hi: int, a: seq<ChecksumFile>, b: seq<ChecksumFile>)
    requires Directly(lo, hi, a) && Directly(lo, hi, b)
    ensures Directly(lo, hi, a + b)
  {
    forall k | 0 <= k < |a + b| ensures |(a + b)[k].path| == 1 && lo <= (a + b)[k].path[0] < hi {
      if k < |a| { assert (a + b)[k] == a[k]; } else { assert (a + b)[k] == b[k - |a|]; }
    }
  }

  lemma BelowCat(lo: int, hi: int, a: seq<ChecksumFile>, b: seq<ChecksumFile>)
    requires Below(lo, hi, a) && Below(lo, hi, b)
    ensures Below(lo, hi, a + b)
  {
    forall k | 0 <= k < |a + b| ensures |(a + b)[k].path| > 1 && lo <= (a + b)[k].path[0] < hi {
      if k < |a| { assert (a + b)[k] == a[k]; } else { assert (a + b)[k] == b[k - |a|]; }
    }
  }

  /** Two pieces in traversal order, the first wholly before the second, join in traversal order. */
  lemma OrderedCat(a: seq<ChecksumFile>, b: seq<ChecksumFile>)
    requires InTraversalOrder(a) && InTraversalOrder(b) && AllPrecede(a, b)
    ensures InTraversalOrder(a + b)
  {
    forall x, y | 0 <= x < y < |a + b| ensures Precedes((a + b)[x].path, (a + b)[y].path) {
      if y < |a| {
        assert (a + b)[x] == a[x] && (a + b)[y] == a[y];
      } else if x < |a| {
        assert (a + b)[x] == a[x] && (a + b)[y] == b[y - |a|];
      } else {
        assert (a + b)[x] == b[x - |a|] && (a + b)[y] == b[y - |a|];
      }
    }
  }

  lemma PathsCat(a: seq<ChecksumFile>, b: seq<ChecksumFile>)
    ensures Paths(a + b) == Paths(a) + Paths(b)
  {
    assert forall k :: 0 <= k < |a| ==> (a + b)[k] == a[k];
    assert forall k :: |a| <= k < |a + b| ==> (a + b)[k] == b[k - |a|];
  }

  /** Entries directly in the folder at lower indices come before those at higher ones. */
  lemma DirectlyBefore(lo: int, mid: int, hi: int, a: seq<ChecksumFile>, b: seq<ChecksumFile>)
    requires Directly(lo, mid, a) && Directly(mid, hi, b)
    ensures AllPrecede(a, b)
  {
  }

  /** The folder's own entries come before everything below its sub-folders. */
  lemma DirectlyBeforeBelow(lo: int, hi: int, lo': int, hi': int, a: seq<ChecksumFile>, b: seq<ChecksumFile>)
    requires Directly(lo, hi, a) && Below(lo', hi', b)
    ensures AllPrecede(a, b)
  {
  }

  /** Everything below a sub-folder comes before everything below the sub-folders listed after it. */
  lemma BelowBefore(lo: int, mid: int, hi: int, a: seq<ChecksumFile>, b: seq<ChecksumFile>)
    requires Below(lo, mid, a) && Below(mid, hi, b)
    ensures AllPrecede(a, b)
  {
  }

  /** A sidecar found in a sub-folder, seen from the parent folder. */
  lemma LocatesNested(entries: seq<Node>, prefix: PurePath, i: nat, f: ChecksumFile)
    requires i < |entries| && entries[i].Dir?
    requires Locates(entries[i].entries, Join(prefix, Stem(entries[i].name)), f)
    ensures Locates(entries, prefix, ChecksumFile([i] + f.path, f.name))
  {
    var loc := [i] + f.path;
    assert loc[0] == i && loc[1..] == f.path;
    var es := entries[i].entries;
    assert ValidLocation(entries, loc);
    assert NodeAt(entries, loc) == NodeAt(es, f.path);
    assert NamePath(entries, prefix, loc) == NamePath(es, Join(prefix, Stem(entries[i].name)), f.path);
  }

  /** The scan of the sub-folder at `i`, seen from the parent folder. */
  lemma NestLocated(entries: seq<Node>, prefix: PurePath, i: nat, inner: seq<ChecksumFile>)
    requires i < |entries| && entries[i].Dir?
    requires AllLocated(entries[i].entries, Join(prefix, Stem(entries[i].name)), inner)
    ensures AllLocated(entries, prefix, Nest(i, inner))
  {
    var head := Nest(i, inner);
    forall k | 0 <= k < |head| ensures Locates(entries, prefix, head[k]) {
      LocatesNested(entries, prefix, i, inner[k]);
    }
  }

  lemma NestBelow(i: nat, inner: seq<ChecksumFile>)
    requires forall k :: 0 <= k < |inner| ==> inner[k].path != []
    ensures Below(i, i + 1, Nest(i, inner))
  {
  }

  lemma NestOrdered(i: nat, inner: seq<ChecksumFile>)
    requires InTraversalOrder(inner)
    requires forall k :: 0 <= k < |inner| ==> inner[k].path != []
    ensures InTraversalOrder(Nest(i, inner))
  {
    var head := Nest(i, inner);
    forall a, b | 0 <= a < b < |head| ensures Precedes(head[a].path, head[b].path) {
      assert head[a].path[1..] == inner[a].path;
      assert head[b].path[1..] == inner[b].path;
    }
  }

  /** What the scan of the sub-folder at `i` yields reappears under index `i`. */
  lemma NestCovers(i: nat, inner: seq<ChecksumFile>, loc: Location)
    requires |loc| > 1 && loc[0] == i && loc[1..] in Paths(inner)
    ensures loc in Paths(Nest(i, inner))
  {
    var head := Nest(i, inner);
    var k :| 0 <= k < |inner| && inner[k].path == loc[1..];
    assert head[k].path == [i] + loc[1..] == loc;
    assert Paths(head)[k] == loc;
  }

  // ---------------------------------------------------------------------------
  // The scan yields exactly the sidecars below the folder, in traversal order

  lemma {:induction false} OwnFilesLocated(entries: seq<Node>, prefix: PurePath, i: nat)
    ensures AllLocated(entries, prefix, OwnFiles(entries, prefix, i))
    decreases |entries| - i
  {
    if i < |entries| {
      OwnFilesLocated(entries, prefix, i + 1);
      LocatesOwn(entries, prefix, i);
      AllLocatedCat(entries, prefix, OwnYield(entries, prefix, i), OwnFiles(entries, prefix, i + 1));
    }
  }

  /** A sidecar directly in the folder is named by the prefix and its stem. */
  lemma LocatesOwn(entries: seq<Node>, prefix: PurePath, i: nat)
    requires i < |entries|
    ensures AllLocated(entries, prefix, OwnYield(entries, prefix, i))
  {
    if IsChecksumName(entries[i].name) {
      assert ValidLocation(entries, [i]) && NodeAt(entries, [i]) == entries[i];
      assert NamePath(entries, prefix, [i]) == Join(prefix, Stem(entries[i].name));
      assert Locates(entries, prefix, OwnYield(entries, prefix, i)[0]);
    }
  }

  /** The folder's own sidecars sit directly in it, at index `i` or later. */
  lemma {:induction false} OwnFilesPaths(entries: seq<Node>, prefix: PurePath, i: nat)
    ensures Directly(i, |entries|, OwnFiles(entries, prefix, i))
    decreases |entries| - i
  {
    if i < |entries| {
      OwnFilesPaths(entries, prefix, i + 1);
      var rest := OwnFiles(entries, prefix, i + 1);
      assert Directly(i, |entries|, rest);
      if IsChecksumName(entries[i].name) {
        var f := ChecksumFile([i], Str(Join(prefix, Stem(entries[i].name))));
        assert Directly(i, |entries|, [f]);
        DirectlyCat(i, |entries|, [f], rest);
      }
    }
  }

  lemma {:induction false} OwnFilesOrdered(entries: seq<Node>, prefix: PurePath, i: nat)
    ensures InTraversalOrder(OwnFiles(entries, prefix, i))
    decreases |entries| - i
  {
    if i < |entries| {
      OwnFilesOrdered(entries, prefix, i + 1);
      OwnFilesPaths(entries, prefix, i + 1);
      var rest := OwnFiles(entries, prefix, i + 1);
      if IsChecksumName(entries[i].name) {
        var f := ChecksumFile([i], Str(Join(prefix, Stem(entries[i].name))));
        assert Directly(i, i + 1, [f]);
        DirectlyBefore(i, i + 1, |entries|, [f], rest);
        OrderedCat([f], rest);
      }
    }
  }

  lemma {:induction false} OwnFilesCover(entries: seq<Node>, prefix: PurePath, i: nat)
    ensures forall j :: i <= j < |entries| && IsChecksumName(entries[j].name) ==>
              [j] in Paths(OwnFiles(entries, prefix, i))
    decreases |entries| - i
  {
    if i < |entries| {
      OwnFilesCover(entries, prefix, i + 1);
      OwnPathsStep(entries, prefix, i);
      CoverStep(entries, i, Paths(OwnFiles(entries, prefix, i)), Paths(OwnFiles(entries, prefix, i + 1)));
    }
  }

  /** One step of the first generator, seen through the paths it yields. */
  lemma OwnPathsStep(entries: seq<Node>, prefix: PurePath, i: nat)
    requires i < |entries|
    ensures Paths(OwnFiles(entries, prefix, i))
            == (if IsChecksumName(entries[i].name) then [[i]] else []) + Paths(OwnFiles(entries, prefix, i + 1))
  {
    var rest := OwnFiles(entries, prefix, i + 1);
    if IsChecksumName(entries[i].name) {
      var f := ChecksumFile([i], Str(Join(prefix, Stem(entries[i].name))));
      assert OwnFiles(entries, prefix, i) == [f] + rest;
      PathsCat([f], rest);
    } else {
      assert OwnFiles(entries, prefix, i) == rest;
    }
  }

  /** A sidecar at `i` put in front of the paths covering those after `i` covers them all from `i`. */
  lemma CoverStep(entries: seq<Node>, i: nat, ps: seq<Location>, tail: seq<Location>)
    requires i < |entries|
    requires forall j :: i + 1 <= j < |entries| && IsChecksumName(entries[j].name) ==> [j] in tail
    requires ps == (if IsChecksumName(entries[i].name) then [[i]] else []) + tail
    ensures forall j :: i <= j < |entries| && IsChecksumName(entries[j].name) ==> [j] in ps
  {
    forall j | i <= j < |entries| && IsChecksumName(entries[j].name) ensures [j] in ps {
      if j == i {
        assert ps[0] == [j];
      } else {
        var k :| 0 <= k < |tail| && tail[k] == [j];
        assert ps[|ps| - |tail| + k] == [j];
      }
    }
  }

  lemma {:induction false} SubFolderFilesLocated(entries: seq<Node>, prefix: PurePath, i: nat)
    ensures AllLocated(entries, prefix, SubFolderFiles(entries, prefix, i))
    decreases entries, 0, |entries| - i
  {
    if i < |entries| {
      SubFolderFilesLocated(entries, prefix, i + 1);
      match entries[i]
      case File(_, _) =>
      case Dir(n, es) =>
        var p := Join(prefix, Stem(n));
        FilesFromDirLocated(es, p);
        NestLocated(entries, prefix, i, FilesFromDir(es, p));
        AllLocatedCat(entries, prefix, Nest(i, FilesFromDir(es, p)), SubFolderFiles(entries, prefix, i + 1));
    }
  }

  /**
   Every entry `_checksum_files_from_dir(folder, prefix)` yields is an entry
   below `folder` whose name has the suffix `.md5` (a file, or a directory: the
   filter does not ask), and it carries the prefix extended with the stem of
   every sub-folder on the way and then with its own stem.
   */
  lemma {:induction false} FilesFromDirLocated(entries: seq<Node>, prefix: PurePath)
    ensures AllLocated(entries, prefix, FilesFromDir(entries, prefix))
    decreases entries, 1
  {
    OwnFilesLocated(entries, prefix, 0);
    SubFolderFilesLocated(entries, prefix, 0);
    AllLocatedCat(entries, prefix, OwnFiles(entries, prefix, 0), SubFolderFiles(entries, prefix, 0));
  }

  /** The sub-folders' sidecars sit below a sub-folder at index `i` or later. */
  lemma {:induction false} SubFolderFilesPaths(entries: seq<Node>, prefix: PurePath, i: nat)
    ensures Below(i, |entries|, SubFolderFiles(entries, prefix, i))
    decreases entries, 0, |entries| - i
  {
    if i < |entries| {
      SubFolderFilesPaths(entries, prefix, i + 1);
      var rest := SubFolderFiles(entries, prefix, i + 1);
      assert Below(i, |entries|, rest);
      match entries[i]
      case File(_, _) =>
      case Dir(n, es) =>
        var p := Join(prefix, Stem(n));
        FilesFromDirPaths(es, p);
        var head := Nest(i, FilesFromDir(es, p));
        NestBelow(i, FilesFromDir(es, p));
        assert Below(i, |entries|, head);
        BelowCat(i, |entries|, head, rest);
    }
  }

  /** Every entry the scan yields lies in the folder or below it. */
  lemma {:induction false} FilesFromDirPaths(entries: seq<Node>, prefix: PurePath)
    ensures forall k :: 0 <= k < |FilesFromDir(entries, prefix)| ==> FilesFromDir(entries, prefix)[k].path != []
    decreases entries, 1
  {
    OwnFilesPaths(entries, prefix, 0);
    SubFolderFilesPaths(entries, prefix, 0);
    var own := OwnFiles(entries, prefix, 0);
    var sub := SubFolderFiles(entries, prefix, 0);
    var out: seq<ChecksumFile> := own + sub;
    forall k | 0 <= k < |out| ensures out[k].path != [] {
      if k < |own| { assert out[k] == own[k]; } else { assert out[k] == sub[k - |own|]; }
    }
  }

  lemma {:induction false} SubFolderFilesOrdered(entries: seq<Node>, prefix: PurePath, i: nat)
    ensures InTraversalOrder(SubFolderFiles(entries, prefix, i))
    decreases entries, 0, |entries| - i
  {
    if i < |entries| {
      SubFolderFilesOrdered(entries, prefix, i + 1);
      match entries[i]
      case File(_, _) =>
      case Dir(n, es) =>
        var p := Join(prefix, Stem(n));
        var inner := FilesFromDir(es, p);
        var rest := SubFolderFiles(entries, prefix, i + 1);
        FilesFromDirOrdered(es, p);
        FilesFromDirPaths(es, p);
        NestOrdered(i, inner);
        NestBelow(i, inner);
        SubFolderFilesPaths(entries, prefix, i + 1);
        BelowBefore(i, i + 1, |entries|, Nest(i, inner), rest);
        OrderedCat(Nest(i, inner), rest);
    }
  }

  /**
   `_checksum_files_from_dir` yields the folder's own sidecars first, in
   listing order, and then the sub-folders' contents one sub-folder after the
   other in listing order; no entry is yielded twice.
   */
  lemma {:induction false} FilesFromDirOrdered(entries: seq<Node>, prefix: PurePath)
    ensures InTraversalOrder(FilesFromDir(entries, prefix))
    decreases entries, 1
  {
    OwnFilesOrdered(entries, prefix, 0);
    OwnFilesPaths(entries, prefix, 0);
    SubFolderFilesOrdered(entries, prefix, 0);
    SubFolderFilesPaths(entries, prefix, 0);
    var own := OwnFiles(entries, prefix, 0);
    var sub := SubFolderFiles(entries, prefix, 0);
    DirectlyBeforeBelow(0, |entries|, 0, |entries|, own, sub);
    OrderedCat(own, sub);
  }

  /** A sidecar more than one level down sits below the sub-folder its location starts with. */
  lemma SidecarBelow(entries: seq<Node>, loc: Location)
    requires IsSidecarAt(entries, loc) && |loc| > 1
    ensures entries[loc[0]].Dir? && IsSidecarAt(entries[loc[0]].entries, loc[1..])
  {
  }

  lemma {:induction false} SubFolderFilesCover(entries: seq<Node>, prefix: PurePath, i: nat)
    ensures forall loc :: IsSidecarAt(entries, loc) && |loc| > 1 && i <= loc[0] ==>
              loc in Paths(SubFolderFiles(entries, prefix, i))
    decreases entries, 0, |entries| - i
  {
    if i < |entries| {
      SubFolderFilesCover(entries, prefix, i + 1);
      var rest := SubFolderFiles(entries, prefix, i + 1);
      var out := SubFolderFiles(entries, prefix, i);
      match entries[i]
      case File(_, _) =>
        assert out == rest;
        forall loc | IsSidecarAt(entries, loc) && |loc| > 1 && i <= loc[0]
          ensures loc in Paths(out)
        {
          assert loc[0] != i;
        }
      case Dir(n, es) =>
        var p := Join(prefix, Stem(n));
        FilesFromDirCovers(es, p);
        var inner := FilesFromDir(es, p);
        var head := Nest(i, inner);
        assert out == head + rest;
        PathsCat(head, rest);
        forall loc | IsSidecarAt(entries, loc) && |loc| > 1 && i <= loc[0]
          ensures loc in Paths(out)
        {
          if loc[0] == i {
            SidecarBelow(entries, loc);
            NestCovers(i, inner, loc);
          } else {
            assert loc in Paths(rest);
          }
        }
    }
  }

  /**
   `_checksum_files_from_dir(folder, prefix)` yields every entry below `folder`
   whose name has the suffix `.md5`, at any depth.
   */
  lemma {:induction false} FilesFromDirCovers(entries: seq<Node>, prefix: PurePath)
    ensures CoversAll(entries, FilesFromDir(entries, prefix))
    decreases entries, 1
  {
    OwnFilesCover(entries, prefix, 0);
    SubFolderFilesCover(entries, prefix, 0);
    PathsCat(OwnFiles(entries, prefix, 0), SubFolderFiles(entries, prefix, 0));
    forall loc | IsSidecarAt(entries, loc) && |loc| == 1 ensures loc == [loc[0]] {
    }
  }

  // ---------------------------------------------------------------------------
  // Names

  function Stems(names: seq<string>): (r: seq<string>)
    ensures |r| == |names|
    ensures forall k :: 0 <= k < |names| ==> r[k] == Stem(names[k])
    decreases |names|
  {
    if names == [] then [] else [Stem(names[0])] + Stems(names[1..])
  }

  /** The name path is the prefix joined with the stems of the names along the location. */
  lemma {:induction false} NamePathIsStems(entries: seq<Node>, prefix: PurePath, loc: Location)
    requires ValidLocation(entries, loc)
    ensures NamePath(entries, prefix, loc) == JoinAll(prefix, Stems(NamesAlong(entries, loc)))
    decreases |loc|
  {
    var n := entries[loc[0]].name;
    if |loc| == 1 {
      assert NamesAlong(entries, loc) == [n];
      JoinAllCons(prefix, Stem(n), []);
      assert Stems([n]) == [Stem(n)] + [];
    } else {
      var es := entries[loc[0]].entries;
      NamePathIsStems(es, Join(prefix, Stem(n)), loc[1..]);
      assert NamesAlong(entries, loc) == [n] + NamesAlong(es, loc[1..]);
      assert ([n] + NamesAlong(es, loc[1..]))[1..] == NamesAlong(es, loc[1..]);
      JoinAllCons(prefix, Stem(n), Stems(NamesAlong(es, loc[1..])));
    }
  }

  /**
   A sidecar directly in the scan root, scanned with the empty prefix, is named
   by its bare stem; one further down gets the stems of the sub-folders on the
   way and then its own stem, joined with `/`, provided no stem on the way is
   `.` (pathlib drops such a component: a folder `..x` adds nothing).
   */
  lemma SidecarName(entries: seq<Node>, loc: Location)
    requires ValidLocation(entries, loc)
    requires forall k :: 0 <= k < |loc| ==> NamesAlong(entries, loc)[k] != ""
    ensures |loc| == 1 ==> Str(NamePath(entries, [], loc)) == Stem(NodeAt(entries, loc).name)
    ensures (forall k :: 0 <= k < |loc| ==> Stem(NamesAlong(entries, loc)[k]) != ".") ==>
              Str(NamePath(entries, [], loc)) == Slashed(Stems(NamesAlong(entries, loc)))
  {
    var stems := Stems(NamesAlong(entries, loc));
    NamePathIsStems(entries, [], loc);
    forall k | 0 <= k < |loc| ensures stems[k] != "" {
      StemSuffixSplit(NamesAlong(entries, loc)[k]);
    }
    if forall k :: 0 <= k < |loc| ==> Stem(NamesAlong(entries, loc)[k]) != "." {
      JoinAllAppends([], stems);
      assert [] + stems == stems;
    }
    if |loc| == 1 {
      var n := NodeAt(entries, loc).name;
      assert NamesAlong(entries, loc) == [n];
      assert stems == [Stem(n)];
      BareComponent(Stem(n));
    }
  }

  /**
   A sub-folder extends the prefix with its stem, not its full name: the
   sidecar `a.md5` inside the folder `v1.2` is named `v1/a`, and the folder
   itself, whose suffix is `.2`, is not yielded.
   */
  lemma DottedFolderExample()
    ensures FilesFromDir([Dir("v1.2", [File("a.md5", "x")])], []) == [ChecksumFile([0, 0], "v1/a")]
  {
    var outer := [Dir("v1.2", [File("a.md5", "x")])];
    var inner := [File("a.md5", "x")];
    DottedNames();
    InnerExample();
    assert Join([], "v1") == ["v1"] by { assert [] + ["v1"] == ["v1"]; }
    assert OwnFiles(outer, [], 1) == [] && SubFolderFiles(outer, [], 1) == [];
    assert OwnFiles(outer, [], 0) == [];
    assert SubFolderFiles(outer, [], 0) == Nest(0, FilesFromDir(inner, ["v1"])) + SubFolderFiles(outer, [], 1);
    assert [0] + [0] == [0, 0];
  }

  /** The scan of the folder `v1.2` itself, with the prefix `v1`. */
  lemma InnerExample()
    ensures FilesFromDir([File("a.md5", "x")], ["v1"]) == [ChecksumFile([0], "v1/a")]
  {
    var inner := [File("a.md5", "x")];
    DottedNames();
    assert Join(["v1"], "a") == ["v1", "a"] by { assert ["v1"] + ["a"] == ["v1", "a"]; }
    assert Str(["v1", "a"]) == "v1/a" by {
      assert ["v1", "a"][..1] == ["v1"];
    }
    assert OwnFiles(inner, ["v1"], 1) == [] && SubFolderFiles(inner, ["v1"], 1) == [];
    assert OwnFiles(inner, ["v1"], 0) == [ChecksumFile([0], "v1/a")] + OwnFiles(inner, ["v1"], 1);
    assert SubFolderFiles(inner, ["v1"], 0) == [];
  }

  /** The names in `DottedFolderExample`: `v1.2` has the stem `v1`, `a.md5` the stem `a`. */
  lemma DottedNames()
    ensures Stem("v1.2") == "v1" && !IsChecksumName("v1.2")
    ensures Stem("a.md5") == "a" && IsChecksumName("a.md5")
  {
    assert RFindDot("v1.2") == 2 by {
      assert "v1.2"[3] == '2' && "v1.2"[2] == '.';
      assert "v1.2"[..3] == "v1.";
    }
    assert RFindDot("a.md5") == 1 by {
      assert "a.md5"[..4] == "a.md";
      assert "a.md5"[..4][..3] == "a.m";
      assert "a.md5"[..4][..3][..2] == "a.";
    }
    assert "v1.2"[..2] == "v1" && "v1.2"[2..] == ".2";
    assert "a.md5"[..1] == "a" && "a.md5"[1..] == ".md5";
  }

  // ---------------------------------------------------------------------------
  // `_local_checksum_files`: the scan roots `base_path / d` for `d` in `sub_dirs`

  /**
   What `_local_checksum_files` produces: the entries it yields, and the
   exception that stops it early, if any. A root that cannot be listed raises
   when its listing is first read, so after everything of the earlier roots.
   */
  datatype Scan = Scan(files: seq<ChecksumFile>, error: Option<OSError>)

  function LocalChecksumFiles(base: seq<Node>, subDirs: seq<RelPath>): Scan
  {
    RootsFrom(base, subDirs, 0)
  }

  /** The scan of the roots from index `k` on; each root starts with the prefix `Path('')`. */
  function RootsFrom(base: seq<Node>, subDirs: seq<RelPath>, k: nat): Scan
    decreases |subDirs| - k
  {
    if k >= |subDirs| then Scan([], None)
    else
      var root := Resolve(base, subDirs[k]);
      if !root.Found? then Scan([], Some(ListingError(root)))
      else
        var rest := RootsFrom(base, subDirs, k + 1);
        Scan(Nest(k, FilesFromDir(root.entries, [])) + rest.files, rest.error)
  }

  /** The index of the first root that cannot be listed, from `k` on; `|subDirs|` when there is none. */
  function FailingRootFrom(base: seq<Node>, subDirs: seq<RelPath>, k: nat): (r: nat)
    requires k <= |subDirs|
    ensures k <= r <= |subDirs|
    ensures forall j :: k <= j < r ==> Resolve(base, subDirs[j]).Found?
    ensures r < |subDirs| ==> !Resolve(base, subDirs[r]).Found?
    decreases |subDirs| - k
  {
    if k == |subDirs| then k
    else if !Resolve(base, subDirs[k]).Found? then k
    else FailingRootFrom(base, subDirs, k + 1)
  }

  function FailingRoot(base: seq<Node>, subDirs: seq<RelPath>): nat
  {
    FailingRootFrom(base, subDirs, 0)
  }

  /** `f` is a sidecar below the root `f.path[0]`, named as a scan of that root with an empty prefix names it. */
  predicate RootLocates(base: seq<Node>, subDirs: seq<RelPath>, f: ChecksumFile)
  {
    && |f.path| > 1
    && f.path[0] < |subDirs|
    && Resolve(base, subDirs[f.path[0]]).Found?
    && Locates(Resolve(base, subDirs[f.path[0]]).entries, [], ChecksumFile(f.path[1..], f.name))
  }

  /** A sidecar found in root `k`, seen from the list of roots. */
  lemma RootLocatesNested(base: seq<Node>, subDirs: seq<RelPath>, k: nat, f: ChecksumFile)
    requires k < |subDirs| && Resolve(base, subDirs[k]).Found?
    requires Locates(Resolve(base, subDirs[k]).entries, [], f)
    ensures RootLocates(base, subDirs, ChecksumFile([k] + f.path, f.name))
    ensures |f.path| > 0
  {
    assert ([k] + f.path)[1..] == f.path;
  }

  /** Every entry is a sidecar below one of the roots. */
  predicate RootsLocated(base: seq<Node>, subDirs: seq<RelPath>, fs: seq<ChecksumFile>)
  {
    forall m :: 0 <= m < |fs| ==> RootLocates(base, subDirs, fs[m])
  }

  lemma RootsLocatedCat(base: seq<Node>, subDirs: seq<RelPath>, a: seq<ChecksumFile>, b: seq<ChecksumFile>)
    requires RootsLocated(base, subDirs, a) && RootsLocated(base, subDirs, b)
    ensures RootsLocated(base, subDirs, a + b)
  {
    forall m | 0 <= m < |a + b| ensures RootLocates(base, subDirs, (a + b)[m]) {
      if m < |a| { assert (a + b)[m] == a[m]; } else { assert (a + b)[m] == b[m - |a|]; }
    }
  }

  /** The scan of root `k`, seen from the list of roots. */
  lemma NestRootsLocated(base: seq<Node>, subDirs: seq<RelPath>, k: nat, inner: seq<ChecksumFile>)
    requires k < |subDirs| && Resolve(base, subDirs[k]).Found?
    requires AllLocated(Resolve(base, subDirs[k]).entries, [], inner)
    ensures RootsLocated(base, subDirs, Nest(k, inner))
  {
    var head := Nest(k, inner);
    forall m | 0 <= m < |head| ensures RootLocates(base, subDirs, head[m]) {
      RootLocatesNested(base, subDirs, k, inner[m]);
    }
  }

  lemma {:induction false} RootsFromWithin(base: seq<Node>, subDirs: seq<RelPath>, k: nat)
    requires k <= |subDirs|
    ensures Below(k, FailingRootFrom(base, subDirs, k), RootsFrom(base, subDirs, k).files)
    decreases |subDirs| - k
  {
    if k < |subDirs| {
      var root := Resolve(base, subDirs[k]);
      if root.Found? {
        RootsFromWithin(base, subDirs, k + 1);
        var inner := FilesFromDir(root.entries, []);
        var rest := RootsFrom(base, subDirs, k + 1).files;
        var hi := FailingRootFrom(base, subDirs, k);
        FilesFromDirPaths(root.entries, []);
        NestBelow(k, inner);
        assert hi == FailingRootFrom(base, subDirs, k + 1) && k < hi;
        assert Below(k, hi, Nest(k, inner));
        assert Below(k, hi, rest);
        BelowCat(k, hi, Nest(k, inner), rest);
      }
    }
  }

  lemma {:induction false} RootsFromLocated(base: seq<Node>, subDirs: seq<RelPath>, k: nat)
    requires k <= |subDirs|
    ensures RootsLocated(base, subDirs, RootsFrom(base, subDirs, k).files)
    decreases |subDirs| - k
  {
    if k < |subDirs| {
      var root := Resolve(base, subDirs[k]);
      if root.Found? {
        RootsFromLocated(base, subDirs, k + 1);
        var inner := FilesFromDir(root.entries, []);
        FilesFromDirLocated(root.entries, []);
        NestRootsLocated(base, subDirs, k, inner);
        RootsLocatedCat(base, subDirs, Nest(k, inner), RootsFrom(base, subDirs, k + 1).files);
      }
    }
  }

  lemma {:induction false} RootsFromOrdered(base: seq<Node>, subDirs: seq<RelPath>, k: nat)
    requires k <= |subDirs|
    ensures InTraversalOrder(RootsFrom(base, subDirs, k).files)
    decreases |subDirs| - k
  {
    if k < |subDirs| {
      var root := Resolve(base, subDirs[k]);
      if root.Found? {
        RootsFromOrdered(base, subDirs, k + 1);
        RootsFromWithin(base, subDirs, k + 1);
        var inner := FilesFromDir(root.entries, []);
        var rest := RootsFrom(base, subDirs, k + 1).files;
        FilesFromDirOrdered(root.entries, []);
        FilesFromDirPaths(root.entries, []);
        NestOrdered(k, inner);
        NestBelow(k, inner);
        BelowBefore(k, k + 1, FailingRootFrom(base, subDirs, k + 1), Nest(k, inner), rest);
        OrderedCat(Nest(k, inner), rest);
      }
    }
  }

  lemma {:induction false} RootsFromCover(base: seq<Node>, subDirs: seq<RelPath>, k: nat)
    requires k <= |subDirs|
    ensures forall j, loc :: k <= j < FailingRootFrom(base, subDirs, k) && IsSidecarAt(Resolve(base, subDirs[j]).entries, loc)
              ==> [j] + loc in Paths(RootsFrom(base, subDirs, k).files)
    decreases |subDirs| - k
  {
    if k < |subDirs| && Resolve(base, subDirs[k]).Found? {
      var entries := Resolve(base, subDirs[k]).entries;
      RootsFromCover(base, subDirs, k + 1);
      var head := Nest(k, FilesFromDir(entries, []));
      var rest := RootsFrom(base, subDirs, k + 1).files;
      RootCovered(entries, k);
      PathsCat(head, rest);
      RootsCoverStep(base, subDirs, k, FailingRootFrom(base, subDirs, k), Paths(head), Paths(rest));
    }
  }

  /** Every sidecar of root `k` is yielded by its scan, under index `k`. */
  lemma RootCovered(entries: seq<Node>, k: nat)
    ensures forall loc :: IsSidecarAt(entries, loc) ==> [k] + loc in Paths(Nest(k, FilesFromDir(entries, [])))
  {
    var inner := FilesFromDir(entries, []);
    FilesFromDirCovers(entries, []);
    forall loc | IsSidecarAt(entries, loc) ensures [k] + loc in Paths(Nest(k, inner)) {
      var l := [k] + loc;
      assert l[1..] == loc;
      NestCovers(k, inner, l);
    }
  }

  /** Root `k`'s paths followed by paths covering the later listable roots cover them all from `k`. */
  lemma RootsCoverStep(base: seq<Node>, subDirs: seq<RelPath>, k: nat, n: int, head: seq<Location>, tail: seq<Location>)
    requires k < |subDirs| && n == FailingRootFrom(base, subDirs, k) && k < n
    requires forall loc :: IsSidecarAt(Resolve(base, subDirs[k]).entries, loc) ==> [k] + loc in head
    requires forall j, loc :: k + 1 <= j < n && IsSidecarAt(Resolve(base, subDirs[j]).entries, loc) ==> [j] + loc in tail
    ensures forall j, loc :: k <= j < n && IsSidecarAt(Resolve(base, subDirs[j]).entries, loc) ==> [j] + loc in head + tail
  {
  }

  lemma {:induction false} RootsFromError(base: seq<Node>, subDirs: seq<RelPath>, k: nat)
    requires k <= |subDirs|
    ensures RootsFrom(base, subDirs, k).error.None? <==> FailingRootFrom(base, subDirs, k) == |subDirs|
    ensures RootsFrom(base, subDirs, k).error.Some? ==>
              RootsFrom(base, subDirs, k).error.value == ListingError(Resolve(base, subDirs[FailingRootFrom(base, subDirs, k)]))
    decreases |subDirs| - k
  {
    if k < |subDirs| && Resolve(base, subDirs[k]).Found? {
      RootsFromError(base, subDirs, k + 1);
    }
  }

  /**
   `_local_checksum_files(base_path, sub_dirs)` yields, root after root in the
   order of `sub_dirs`, exactly the sidecars of that root in traversal order,
   each named as a scan of that root alone with the prefix `Path('')` names
   it; it stops with `FileNotFound` or `NotADirectory` at the first root that
   cannot be listed, after everything of the roots before it, and only then.
   */
  lemma LocalChecksumFilesCorrect(base: seq<Node>, subDirs: seq<RelPath>)
    ensures RootsLocated(base, subDirs, LocalChecksumFiles(base, subDirs).files)
    ensures Below(0, FailingRoot(base, subDirs), LocalChecksumFiles(base, subDirs).files)
    ensures InTraversalOrder(LocalChecksumFiles(base, subDirs).files)
    ensures forall j, loc :: 0 <= j < FailingRoot(base, subDirs) && IsSidecarAt(Resolve(base, subDirs[j]).entries, loc)
              ==> [j] + loc in Paths(LocalChecksumFiles(base, subDirs).files)
    ensures LocalChecksumFiles(base, subDirs).error.None? <==> FailingRoot(base, subDirs) == |subDirs|
    ensures LocalChecksumFiles(base, subDirs).error.Some? ==>
              LocalChecksumFiles(base, subDirs).error.value == ListingError(Resolve(base, subDirs[FailingRoot(base, subDirs)]))
  {
    RootsFromLocated(base, subDirs, 0);
    RootsFromWithin(base, subDirs, 0);
    RootsFromOrdered(base, subDirs, 0);
    RootsFromCover(base, subDirs, 0);
    RootsFromError(base, subDirs, 0);
  }
}
