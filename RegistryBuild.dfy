/**
 Building the in-memory registry: every sidecar the scan yields is read and
 stripped (`_read_md5_file`, `read_md5_file`), and the (name, checksum) pairs
 are collected by a dict comprehension in the order the scan yields them.

 The scan is a lazy generator consumed by the comprehension, so each sidecar is
 read before the scan moves on: a sidecar that cannot be read stops the build
 before a later scan root that cannot be listed is reached.
 */
module RegistryBuild {
  import opened FileTree
  import opened PyStr
  import opened ChecksumScan
  import opened OrderedDict

  /** The entry at the path of a `_ChecksumFile`: root index, then listing indices. */
  function Locate(base: seq<Node>, subDirs: seq<RelPath>, p: Location): Option<Node>
  {
    if |p| > 1 && p[0] < |subDirs| && Resolve(base, subDirs[p[0]]).Found?
       && ValidLocation(Resolve(base, subDirs[p[0]]).entries, p[1..])
    then Some(NodeAt(Resolve(base, subDirs[p[0]]).entries, p[1..]))
    else None
  }

  /**
   `_read_md5_file`: open the entry for reading and return its text without
   surrounding whitespace; no check that the text looks like a checksum.
   */
  function ReadMd5File(entry: Option<Node>): (r: Result<string>)
    ensures r.Ok? <==> entry.Some? && entry.value.File?
    ensures r.Ok? ==> r.value == Strip(entry.value.text)
    ensures r.Err? ==> r.error == (if entry.None? then FileNotFound else IsADirectory)
  {
    match OpenText(entry)
    case Ok(text) => Ok(Strip(text))
    case Err(e) => Err(e)
  }

  /** Reading the sidecar a scanned `_ChecksumFile` points at. */
  function ReadSidecar(base: seq<Node>, subDirs: seq<RelPath>, f: ChecksumFile): Result<string>
  {
    ReadMd5File(Locate(base, subDirs, f.path))
  }

  /**
   The result of reading each sidecar the scan yields. The ensures only spell
   out the body for callers; what the reads give is `ScannedReads`.
   */
  function Reads(base: seq<Node>, subDirs: seq<RelPath>, fs: seq<ChecksumFile>): (r: seq<Result<string>>)
    ensures |r| == |fs|
    ensures forall m :: 0 <= m < |fs| ==> r[m] == ReadSidecar(base, subDirs, fs[m])
  {
    seq(|fs|, m requires 0 <= m < |fs| => ReadSidecar(base, subDirs, fs[m]))
  }

  /**
   The pairs `(name, checksum)` the comprehension stores, in order, given each
   name with the result of its read; the first failing read stops it.
   */
  function Gather(names: seq<string>, results: seq<Result<string>>): Result<seq<(string, string)>>
    requires |names| == |results|
    decreases |names|
  {
    if names == [] then Ok([])
    else
      var n := |names| - 1;
      match Gather(names[..n], results[..n])
      case Err(e) => Err(e)
      case Ok(ps) =>
        match results[n]
        case Err(e) => Err(e)
        case Ok(h) => Ok(ps + [(names[n], h)])
  }

  /** The pairs `(f.name, _read_md5_file(f.path))` in scan order. */
  function ReadAll(base: seq<Node>, subDirs: seq<RelPath>, fs: seq<ChecksumFile>): Result<seq<(string, string)>>
  {
    Gather(FileNames(fs), Reads(base, subDirs, fs))
  }

  /** The names the scan yields, in order. */
  function FileNames(fs: seq<ChecksumFile>): (r: seq<string>)
    ensures |r| == |fs|
    ensures forall m :: 0 <= m < |fs| ==> r[m] == fs[m].name
  {
    seq(|fs|, m requires 0 <= m < |fs| => fs[m].name)
  }

  /**
   The dict `reg` of `_build_registry_from` (and of the older `build_registry`),
   or the exception that stops its construction.
   */
  function RegistryOf(base: seq<Node>, subDirs: seq<RelPath>): (r: Result<Dict>)
    ensures r.Ok? ==> Valid(r.value)
  {
    var scan := LocalChecksumFiles(base, subDirs);
    match ReadAll(base, subDirs, scan.files)
    case Err(e) => Err(e)
    case Ok(ps) => if scan.error.Some? then Err(scan.error.value) else Ok(FromPairs(ps))
  }

  /**
   The dict comprehension, run step by step: the sidecars are read as the scan
   yields them, and a root that cannot be listed raises its error once the
   sidecars of the roots before it have been read.
   */
  method CollectRegistry(base: seq<Node>, subDirs: seq<RelPath>) returns (r: Result<Dict>)
    ensures r == RegistryOf(base, subDirs)
  {
    var scan := LocalChecksumFiles(base, subDirs);
    r := ReadRegistry(base, subDirs, scan.files);
    if r.Ok? && scan.error.Some? {
      r := Err(scan.error.value);
    }
  }

  /**
   The comprehension's loop over the yielded sidecars `fs`: each is read and
   stored in turn, and the first read that fails stops it with its error.
   */
  method ReadRegistry(base: seq<Node>, subDirs: seq<RelPath>, fs: seq<ChecksumFile>) returns (r: Result<Dict>)
    ensures ReadAll(base, subDirs, fs).Err? ==> r == Err(ReadAll(base, subDirs, fs).error)
    ensures ReadAll(base, subDirs, fs).Ok? ==> r == Ok(FromPairs(ReadAll(base, subDirs, fs).value))
  {
    ghost var names := FileNames(fs);
    ghost var results := Reads(base, subDirs, fs);
    var reg := Empty();
    ghost var pairs: seq<(string, string)> := [];
    var i := 0;
    assert names[..0] == [] && results[..0] == [];
    while i < |fs|
      invariant 0 <= i <= |fs|
      invariant Gather(names[..i], results[..i]) == Ok(pairs)
      invariant reg == FromPairs(pairs)
    {
      var h := ReadMd5File(Locate(base, subDirs, fs[i].path));
      assert results[i] == h && names[i] == fs[i].name;
      GatherStep(names, results, i);
      if h.Err? {
        GatherErrSticks(names, results, i + 1);
        return Err(h.error);
      }
      FromPairsSnoc(pairs, fs[i].name, h.value);
      reg := Put(reg, fs[i].name, h.value);
      pairs := pairs + [(fs[i].name, h.value)];
      i := i + 1;
    }
    assert names[..i] == names && results[..i] == results;
    return Ok(reg);
  }

  /** One more read either stops the comprehension with its error or adds one pair. */
  lemma GatherStep(names: seq<string>, results: seq<Result<string>>, i: nat)
    requires |names| == |results| && i < |names| && Gather(names[..i], results[..i]).Ok?
    ensures results[i].Err? ==> Gather(names[..i + 1], results[..i + 1]) == Err(results[i].error)
    ensures results[i].Ok? ==>
              Gather(names[..i + 1], results[..i + 1]) == Ok(Gather(names[..i], results[..i]).value + [(names[i], results[i].value)])
  {
    assert names[..i + 1][..i] == names[..i] && results[..i + 1][..i] == results[..i];
  }

  /** Once a read has failed, the comprehension fails with that error whatever follows. */
  lemma {:induction false} GatherErrSticks(names: seq<string>, results: seq<Result<string>>, i: nat)
    requires |names| == |results| && i <= |names| && Gather(names[..i], results[..i]).Err?
    ensures Gather(names, results) == Gather(names[..i], results[..i])
    decreases |names|
  {
    if i == |names| {
      assert names[..i] == names && results[..i] == results;
    } else {
      var n := |names| - 1;
      assert names[..n][..i] == names[..i] && results[..n][..i] == results[..i];
      GatherErrSticks(names[..n], results[..n], i);
    }
  }

  /**
   The comprehension completes exactly when every read succeeds, and then it
   holds one pair per sidecar: its name with its checksum.
   */
  lemma {:induction false} GatherOk(names: seq<string>, results: seq<Result<string>>)
    requires |names| == |results|
    ensures Gather(names, results).Ok? <==> AllOk(results)
    ensures Gather(names, results).Ok? ==>
              && |Gather(names, results).value| == |names|
              && forall m :: 0 <= m < |names| ==> Gather(names, results).value[m] == (names[m], results[m].value)
    decreases |names|
  {
    if names != [] {
      var n := |names| - 1;
      GatherOk(names[..n], results[..n]);
      assert forall m :: 0 <= m < n ==> names[..n][m] == names[m] && results[..n][m] == results[m];
    }
  }

  /** When a read fails, the comprehension stops with the error of the first read that fails. */
  lemma {:induction false} GatherFirstError(names: seq<string>, results: seq<Result<string>>)
    requires |names| == |results| && Gather(names, results).Err?
    ensures exists m :: && 0 <= m < |results|
                        && (forall j :: 0 <= j < m ==> results[j].Ok?)
                        && results[m].Err?
                        && Gather(names, results).error == results[m].error
    decreases |names|
  {
    var n := |names| - 1;
    assert forall j :: 0 <= j < n ==> results[..n][j] == results[j];
    if Gather(names[..n], results[..n]).Err? {
      GatherFirstError(names[..n], results[..n]);
    } else {
      GatherOk(names[..n], results[..n]);
    }
  }

  /** The entry a `_ChecksumFile` points at exists and its name has the suffix `.md5`. */
  predicate SidecarExists(base: seq<Node>, subDirs: seq<RelPath>, f: ChecksumFile)
  {
    Locate(base, subDirs, f.path).Some? && IsChecksumName(Locate(base, subDirs, f.path).value.name)
  }

  lemma RootLocatesExists(base: seq<Node>, subDirs: seq<RelPath>, f: ChecksumFile)
    requires RootLocates(base, subDirs, f)
    ensures SidecarExists(base, subDirs, f)
  {
  }

  /**
   Every sidecar the scan yields exists, so reading it fails only when it is a
   directory whose name ends in `.md5`, and then with `IsADirectory`.
   */
  lemma ScannedSidecarsExist(base: seq<Node>, subDirs: seq<RelPath>)
    ensures forall m :: 0 <= m < |LocalChecksumFiles(base, subDirs).files| ==>
              SidecarExists(base, subDirs, LocalChecksumFiles(base, subDirs).files[m])
  {
    var fs := LocalChecksumFiles(base, subDirs).files;
    RootsFromLocated(base, subDirs, 0);
    forall m | 0 <= m < |fs| ensures SidecarExists(base, subDirs, fs[m]) {
      RootLocatesExists(base, subDirs, fs[m]);
    }
  }

  /** Every sidecar the scan yields is a file, so every read succeeds. */
  predicate AllFiles(base: seq<Node>, subDirs: seq<RelPath>, fs: seq<ChecksumFile>)
  {
    forall m :: 0 <= m < |fs| ==> Locate(base, subDirs, fs[m].path).Some? && Locate(base, subDirs, fs[m].path).value.File?
  }

  /**
   The reads of the scanned sidecars all succeed exactly when each is a file;
   a read that fails, fails with `IsADirectory`.
   */
  lemma ScannedReads(base: seq<Node>, subDirs: seq<RelPath>)
    ensures AllFiles(base, subDirs, LocalChecksumFiles(base, subDirs).files) <==>
              AllOk(Reads(base, subDirs, LocalChecksumFiles(base, subDirs).files))
    ensures ErrorsAre(Reads(base, subDirs, LocalChecksumFiles(base, subDirs).files), IsADirectory)
  {
    var fs := LocalChecksumFiles(base, subDirs).files;
    ScannedSidecarsExist(base, subDirs);
    var rs := Reads(base, subDirs, fs);
    assert forall m :: 0 <= m < |fs| ==> rs[m] == ReadMd5File(Locate(base, subDirs, fs[m].path));
  }

  /** Every read succeeded. */
  predicate AllOk(results: seq<Result<string>>)
  {
    forall m :: 0 <= m < |results| ==> results[m].Ok?
  }

  /** Every read that failed, failed with `e`. */
  predicate ErrorsAre(results: seq<Result<string>>, e: OSError)
  {
    forall m :: 0 <= m < |results| && results[m].Err? ==> results[m].error == e
  }

  /** The build yields a registry exactly when every scan root can be listed and no sidecar it finds is a directory. */
  lemma RegistryOfSucceeds(base: seq<Node>, subDirs: seq<RelPath>)
    ensures RegistryOf(base, subDirs).Ok? <==>
              FailingRoot(base, subDirs) == |subDirs| && AllFiles(base, subDirs, LocalChecksumFiles(base, subDirs).files)
  {
    var scan := LocalChecksumFiles(base, subDirs);
    ScannedReads(base, subDirs);
    RootsFromError(base, subDirs, 0);
    GatherOk(FileNames(scan.files), Reads(base, subDirs, scan.files));
  }

  /**
   A build that fails, fails with `IsADirectory` when a sidecar found before
   the first unlistable root is a directory, and else with the error of
   listing that root.
   */
  lemma RegistryOfFails(base: seq<Node>, subDirs: seq<RelPath>)
    requires RegistryOf(base, subDirs).Err?
    ensures AllFiles(base, subDirs, LocalChecksumFiles(base, subDirs).files) ==>
              FailingRoot(base, subDirs) < |subDirs| &&
              RegistryOf(base, subDirs).error == ListingError(Resolve(base, subDirs[FailingRoot(base, subDirs)]))
    ensures !AllFiles(base, subDirs, LocalChecksumFiles(base, subDirs).files) ==>
              RegistryOf(base, subDirs).error == IsADirectory
  {
    var scan := LocalChecksumFiles(base, subDirs);
    var names := FileNames(scan.files);
    var results := Reads(base, subDirs, scan.files);
    ScannedReads(base, subDirs);
    RootsFromError(base, subDirs, 0);
    GatherOk(names, results);
    if Gather(names, results).Err? {
      GatherFirstError(names, results);
    }
  }

  /**
   The dict a completed comprehension builds holds one key per distinct name,
   in the order the names first occur, and under each the checksum read for
   the last occurrence of that name.
   */
  lemma GatheredDict(names: seq<string>, results: seq<Result<string>>)
    requires |names| == |results| && Gather(names, results).Ok?
    ensures Valid(FromPairs(Gather(names, results).value))
    ensures forall k :: k in FromPairs(Gather(names, results).value).values <==> k in names
    ensures FirstSeenOrder(names, FromPairs(Gather(names, results).value).keys)
    ensures forall m :: 0 <= m < |names| && LastOccurrence(names, m) ==>
              && results[m].Ok?
              && names[m] in FromPairs(Gather(names, results).value).values
              && FromPairs(Gather(names, results).value).values[names[m]] == results[m].value
  {
    GatherOk(names, results);
    var ps := Gather(names, results).value;
    assert Names(ps) == names;
    FromPairsKeys(ps);
    FromPairsFirstSeen(ps);
    FromPairsLastWins(ps);
  }

  /**
   A registry that is built holds one key per distinct name the scan yields,
   in the order the names are first yielded.
   */
  lemma RegistryOfKeys(base: seq<Node>, subDirs: seq<RelPath>)
    requires RegistryOf(base, subDirs).Ok?
    ensures Valid(RegistryOf(base, subDirs).value)
    ensures forall k :: k in RegistryOf(base, subDirs).value.values <==>
              k in FileNames(LocalChecksumFiles(base, subDirs).files)
    ensures FirstSeenOrder(FileNames(LocalChecksumFiles(base, subDirs).files), RegistryOf(base, subDirs).value.keys)
  {
    var fs := LocalChecksumFiles(base, subDirs).files;
    GatheredDict(FileNames(fs), Reads(base, subDirs, fs));
  }

  /**
   In a registry that is built, the checksum under a name is the stripped text
   of the last sidecar the scan yields with that name.
   */
  lemma RegistryOfValues(base: seq<Node>, subDirs: seq<RelPath>)
    requires RegistryOf(base, subDirs).Ok?
    ensures forall m :: 0 <= m < |LocalChecksumFiles(base, subDirs).files|
                        && LastOccurrence(FileNames(LocalChecksumFiles(base, subDirs).files), m) ==>
              && Locate(base, subDirs, LocalChecksumFiles(base, subDirs).files[m].path).Some?
              && Locate(base, subDirs, LocalChecksumFiles(base, subDirs).files[m].path).value.File?
              && LocalChecksumFiles(base, subDirs).files[m].name in RegistryOf(base, subDirs).value.values
              && RegistryOf(base, subDirs).value.values[LocalChecksumFiles(base, subDirs).files[m].name]
                 == Strip(Locate(base, subDirs, LocalChecksumFiles(base, subDirs).files[m].path).value.text)
  {
    var fs := LocalChecksumFiles(base, subDirs).files;
    var names := FileNames(fs);
    var results := Reads(base, subDirs, fs);
    GatheredDict(names, results);
    var reg := FromPairs(Gather(names, results).value);
    assert RegistryOf(base, subDirs).value == reg;
    forall m | 0 <= m < |fs| && LastOccurrence(names, m)
      ensures && Locate(base, subDirs, fs[m].path).Some? && Locate(base, subDirs, fs[m].path).value.File?
              && fs[m].name in reg.values && reg.values[fs[m].name] == Strip(Locate(base, subDirs, fs[m].path).value.text)
    {
      assert results[m] == ReadMd5File(Locate(base, subDirs, fs[m].path));
      assert names[m] == fs[m].name;
    }
  }
}
