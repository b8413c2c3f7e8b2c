# mantid-data registry builder, modelled in Dafny

The mantid-data package fetches Mantid's test data files with `pooch`. Pooch
needs a registry: a text file that names each data file, gives its MD5
checksum and gives its download URL. The registry builder makes that file from
a checkout of the Mantid source tree. Below `Testing/Data` the tree holds one
*sidecar* per data file: a small text file `<file>.md5` whose content is the
checksum.

The builder does four things:

1. **Scan.** It walks the scan roots `DocTest`, `SystemTest` and `UnitTest`.
   It yields every directory entry whose suffix is `.md5`. A folder's own
   entries come first, then each sub-folder's contents in turn.
2. **Name.** Each sidecar gets a logical name: the stems of the sub-folders on
   the way, then its own stem, joined with `/`.
3. **Collapse.** It reads each sidecar and strips the text. A dict
   comprehension collects the `(name, checksum)` pairs. A later duplicate name
   replaces the value, but the key keeps its first position.
4. **Write.** It writes one line per dict entry:
   `<name with spaces as underscores> md5:<hash> <base URL><hash>`.

The code exists twice: in the packaged `buildregistry.py` and in the older
command-line `build_registry.py`. Both copies are mapped onto the same
definitions. The table below cites the packaged copy. The older copy's matching
lines are: scan at `build_registry.py:24-33`, `read_md5_file` at 36-38, the
comprehension at 43-44, the write at 45-47 and `BASE_URL` at 15.

Modules:

- `PurePaths`: `PurePath.suffix` and `stem` are `Suffix` and `Stem`. Joining
  with `/` is `Join` and `JoinAll`, and `str()` is `Str`.
- `PyStr`: `str.strip()` is `Strip` (through `LStrip` and `RStrip`), and
  `str.replace(" ", "_")` is `ReplaceSpaces`.
- `FileTree`: the directory tree. Listings come in `iterdir()` order. Path
  resolution has three outcomes: missing, not a directory, or a listing.
- `ChecksumScan`: the two scan generators as functions that return the
  sequence they yield, plus the scan's correctness proofs.
  `_checksum_files_from_dir` is `FilesFromDir`. Its first generator is
  `OwnFiles` (one entry at a time: `OwnYield`), and its loop over sub-folders
  is `SubFolderFiles`. `_local_checksum_files` is `LocalChecksumFiles`, which
  scans the roots from index `k` on with `RootsFrom`.
- `OrderedDict`: an insertion-ordered Python dict.
- `RegistryBuild`: reading and stripping each sidecar, and the comprehension.
  `_read_md5_file` is `ReadMd5File`. The comprehension is the function
  `RegistryOf`, and the loop `CollectRegistry` (through `ReadRegistry`) is
  proved equal to it.
- `Manifest`: the line format, and a reading-back of lines by whitespace
  splitting. The f-string written per entry is `Line`, with `Format` as its
  layout. The lines written for a whole registry are `Lines`. The reading-back
  is `ParseLine`.
- `RegistryWriter`: the output file as a class, the write loop,
  `_build_registry_from` and `build_registry`.
- `LegacyBuildRegistry`: `build_registry` of the older copy.

Where the builder's behaviour differs from how it is usually described, the
model follows the code:

- The `.md5` filter does not ask whether the entry is a file. A directory
  named `x.md5` is yielded, and reading it fails with `IsADirectory`.
- A sub-folder extends the name prefix with its stem, not its full name. The
  folder `v1.2` contributes `v1`.
- Names are sanitised only when written. The dict is keyed by raw names, so
  `a b` and `a_b` stay two entries, and both are written as lines named `a_b`.
- The stripped checksum is not validated. An empty or whitespace-only sidecar
  gives the empty checksum.
- The scan is a lazy generator consumed by the comprehension. A sidecar that
  cannot be read stops the build before a later root that cannot be listed is
  reached. Either way no output file is opened.

A `_ChecksumFile`'s path is modelled as a location: the index of its scan root
in `sub_dirs`, then the listing index of each entry on the way down. This lets
the order of the traversal be stated directly (`Precedes`).

## Model

| member | source | states |
|---|---|---|
| PurePaths.StemSuffixSplit | src/mantiddata/buildregistry.py:28-31 | A name is its stem followed by its suffix. A suffix is a dot and at least one more character, with no further dot. Only the empty name has an empty stem. |
| PurePaths.SuffixMd5Iff | src/mantiddata/buildregistry.py:29 | `suffix == '.md5'` holds exactly when the name ends in `.md5` with at least one character before it; the stem is then the name minus those four characters. |
| PurePaths.RFindDotIsLastDot | src/mantiddata/buildregistry.py:28-29 | The dot that splits suffix from stem is the last dot of the name. |
| PurePaths.JoinStr | src/mantiddata/buildregistry.py:28 | `str(prefix / stem)` for an ordinary stem is the stem itself when the prefix is `Path('')`, and otherwise `str(prefix)`, a slash and the stem. |
| PurePaths.JoinAllAppends | src/mantiddata/buildregistry.py:31 | Extending a prefix with components that are neither empty nor `.` appends them all, in order. |
| PurePaths.BareComponent | src/mantiddata/buildregistry.py:37 | `str(Path('') / s)` is `s` itself. |
| ChecksumScan.FilesFromDirLocated | src/mantiddata/buildregistry.py:27-31 | Every entry the scan yields is an entry below the folder whose suffix is `.md5`, whether file or directory. It is named by the prefix extended with the stems of the sub-folders on the way, then its own stem. |
| ChecksumScan.FilesFromDirCovers | src/mantiddata/buildregistry.py:27-31 | Every entry below the folder whose suffix is `.md5` is yielded, at any depth. |
| ChecksumScan.FilesFromDirOrdered | src/mantiddata/buildregistry.py:28-31 | The yield is in traversal order: the folder's own sidecars first, in listing order, then each sub-folder's contents, sub-folder by sub-folder in listing order. Nothing is yielded twice. |
| ChecksumScan.OwnFilesCover | src/mantiddata/buildregistry.py:28-29 | Every entry of the folder from listing index `i` on whose suffix is `.md5` is among the folder's own yielded entries. |
| ChecksumScan.SubFolderFilesCover | src/mantiddata/buildregistry.py:30-31 | Every sidecar below a sub-folder at index `i` or later is yielded by the loop over sub-folders. |
| ChecksumScan.OwnFilesPaths | src/mantiddata/buildregistry.py:28-29 | The folder's own sidecars lie directly in it. |
| ChecksumScan.SubFolderFilesPaths | src/mantiddata/buildregistry.py:30-31 | What the sub-folder loop yields lies below a sub-folder at index `i` or later. |
| ChecksumScan.PrecedesTransitive | src/mantiddata/buildregistry.py:28-31 | The traversal order is transitive. |
| ChecksumScan.PrecedesIrreflexive | src/mantiddata/buildregistry.py:28-31 | The traversal order is irreflexive, so an ordered yield holds no location twice. |
| ChecksumScan.SidecarName | src/mantiddata/buildregistry.py:27-37 | With the empty prefix, a sidecar directly in the root is named by its bare stem. One further down is named by the stems on the way and its own stem, joined with `/`, provided no stem is `.`. |
| ChecksumScan.NamePathIsStems | src/mantiddata/buildregistry.py:27-31 | The name path is the prefix joined with the stems of the names along the location. |
| ChecksumScan.DottedFolderExample | src/mantiddata/buildregistry.py:31 | The sidecar `a.md5` in the folder `v1.2` is named `v1/a`: the folder contributes its stem. The folder is not yielded, since its suffix is `.2`. |
| ChecksumScan.DottedNames | src/mantiddata/buildregistry.py:28-31 | `v1.2` has stem `v1` and is no sidecar; `a.md5` has stem `a` and is one. |
| ChecksumScan.FailingRootFrom | src/mantiddata/buildregistry.py:36-37 | The first root, from `k` on, that cannot be listed; every earlier root can be listed. |
| ChecksumScan.LocalChecksumFilesCorrect | src/mantiddata/buildregistry.py:34-37 | Roots are scanned in `sub_dirs` order, each with an empty prefix. Exactly the sidecars of each listable root are yielded, in traversal order, all of an earlier root before any of a later one. The scan stops at the first root that cannot be listed, with its error, after everything of the roots before it. |
| ChecksumScan.RootsFromLocated | src/mantiddata/buildregistry.py:36-37 | Each yielded entry is a sidecar of its root, named as a scan of that root alone with prefix `Path('')` would name it. |
| ChecksumScan.RootsFromOrdered | src/mantiddata/buildregistry.py:36-37 | Entries of an earlier root precede those of a later one, and each root's entries keep traversal order. |
| ChecksumScan.RootsFromCover | src/mantiddata/buildregistry.py:36-37 | Every sidecar of every root before the first unlistable one is yielded. |
| ChecksumScan.RootsFromError | src/mantiddata/buildregistry.py:36-37 | The scan fails exactly when some root cannot be listed. Its error is `FileNotFound` or `NotADirectory` for the first such root. |
| ChecksumScan.RootsFromWithin | src/mantiddata/buildregistry.py:36-37 | Every yielded entry lies below a root before the first unlistable one. |
| FileTree.IndexOfName | src/mantiddata/buildregistry.py:36 | `base_path / d` finds the entry of that name, or reports that there is none. |
| FileTree.OpenText | src/mantiddata/buildregistry.py:41 | `open('r')` succeeds exactly on an existing regular file and yields its text. |
| PyStr.LStrip | src/mantiddata/buildregistry.py:42 | `lstrip()` leaves a suffix of the text, drops only whitespace, and leaves text that does not start with whitespace. |
| PyStr.RStrip | src/mantiddata/buildregistry.py:42 | `rstrip()` leaves a prefix of the text, drops only whitespace, and leaves text that does not end with whitespace. |
| PyStr.StripShape | src/mantiddata/buildregistry.py:42 | `strip()` gives a slice of the text with only whitespace on either side. The slice neither starts nor ends with whitespace. |
| PyStr.StripUnique | src/mantiddata/buildregistry.py:42 | Any slice with only whitespace around it and no whitespace at its own ends is what `strip()` returns. |
| PyStr.StripIdempotent | src/mantiddata/buildregistry.py:42 | Stripping a stripped checksum changes nothing. |
| PyStr.LStripExact | src/mantiddata/buildregistry.py:42 | `lstrip()` stops at the first non-whitespace character. |
| PyStr.RStripExact | src/mantiddata/buildregistry.py:42 | `rstrip()` stops after the last non-whitespace character. |
| PyStr.ReplaceSpaces | src/mantiddata/buildregistry.py:54 | `replace(" ", "_")` keeps the length. Every space becomes `_` and every other character stays. |
| PyStr.ReplaceSpacesRemovesSpaces | src/mantiddata/buildregistry.py:54 | The written name holds no space. A name is unchanged exactly when it has no space. Replacing twice is replacing once. |
| PyStr.ReplaceSpacesNotInjective | src/mantiddata/buildregistry.py:54 | `"a b"` and `"a_b"` are written the same. |
| RegistryBuild.ReadMd5File | src/mantiddata/buildregistry.py:40-42 | Reading succeeds exactly on a regular file and returns its stripped text, unvalidated. It fails with `FileNotFound` when the entry is missing and with `IsADirectory` on a directory. |
| RegistryBuild.ReadRegistry | src/mantiddata/buildregistry.py:48-50 | Reading the yielded sidecars one by one and storing each gives the first failing read's error, or else the dict built from all `(name, checksum)` pairs in yield order. |
| RegistryBuild.CollectRegistry | src/mantiddata/buildregistry.py:48-51 | The comprehension over the lazy scan returns the registry `RegistryOf` defines: the first failing read's error if a read fails, else the scan's error, else the dict of all pairs. |
| RegistryBuild.RegistryOf | src/mantiddata/buildregistry.py:48-51 | A registry that is built is a well-formed ordered dict. |
| RegistryBuild.GatherOk | src/mantiddata/buildregistry.py:48-51 | The comprehension completes exactly when every read succeeds. It then holds one pair per yielded sidecar, in order: its name and its checksum. |
| RegistryBuild.GatherFirstError | src/mantiddata/buildregistry.py:48-51 | A comprehension that fails, fails with the error of the first failing read. |
| RegistryBuild.GatherErrSticks | src/mantiddata/buildregistry.py:48-51 | Once a read has failed, later entries do not change the outcome. |
| RegistryBuild.GatherStep | src/mantiddata/buildregistry.py:49-50 | One more read either stops the comprehension with its error or adds one pair. |
| RegistryBuild.ScannedSidecarsExist | src/mantiddata/buildregistry.py:28-49 | Every yielded entry exists and has suffix `.md5`, so a read can fail only on a directory. |
| RegistryBuild.ScannedReads | src/mantiddata/buildregistry.py:28-42 | All reads succeed exactly when every yielded entry is a file. A failing read fails with `IsADirectory`. |
| RegistryBuild.RegistryOfSucceeds | src/mantiddata/buildregistry.py:45-51 | A registry is built exactly when every root can be listed and no yielded sidecar is a directory. |
| RegistryBuild.RegistryOfFails | src/mantiddata/buildregistry.py:45-51 | A failing build fails with `IsADirectory` if some yielded sidecar is a directory. Otherwise it fails with the listing error of the first unlistable root. |
| RegistryBuild.GatheredDict | src/mantiddata/buildregistry.py:48-51 | The dict has one key per distinct name, in first-seen order. Under each key is the checksum of the name's last occurrence. |
| RegistryBuild.RegistryOfKeys | src/mantiddata/buildregistry.py:48-51 | The registry's keys are exactly the yielded names, each once, in the order they are first yielded. |
| RegistryBuild.RegistryOfValues | src/mantiddata/buildregistry.py:48-51 | Under each name is the stripped text of the last sidecar yielded with that name. |
| OrderedDict.Put | src/mantiddata/buildregistry.py:48-51 | Storing under a key keeps the dict well formed. |
| OrderedDict.PutKeys | src/mantiddata/buildregistry.py:48-51 | Storing under `k` adds `k` to the keys and nothing else. |
| OrderedDict.PutValues | src/mantiddata/buildregistry.py:48-51 | Storing under `k` sets the value under `k` and leaves every other value. |
| OrderedDict.FromPairs | src/mantiddata/buildregistry.py:48-51 | The dict built from the pairs one after another is well formed: its keys are distinct and are exactly the mapped keys. |
| OrderedDict.FromPairsSnoc | src/mantiddata/buildregistry.py:48-51 | One more pair is one more `d[k] = v`. |
| OrderedDict.FromPairsKeys | src/mantiddata/buildregistry.py:48-51 | The dict's keys are exactly the names among the pairs. |
| OrderedDict.FromPairsLastWins | src/mantiddata/buildregistry.py:48-51 | Under each key is the value of the last pair with that key. |
| OrderedDict.FromPairsFirstSeen | src/mantiddata/buildregistry.py:48-51 | The keys stand in the order their names first occur among the pairs. |
| OrderedDict.FirstSeenOrderStep | src/mantiddata/buildregistry.py:48-51 | A new key goes last, and a repeated key stays where it is, so first-seen order is kept. |
| OrderedDict.FirstIndex | src/mantiddata/buildregistry.py:48-51 | The position of a name's first occurrence, or -1 exactly when the name does not occur. |
| OrderedDict.FirstIndexExtend | src/mantiddata/buildregistry.py:48-51 | Appending a name does not move the first occurrence of a name already present. |
| Manifest.LineRoundTrip | src/mantiddata/buildregistry.py:52-56 | For a non-empty name whose only whitespace is the plain space, a written line splits back into the name with spaces replaced, the hash after `md5:`, and the base URL followed by that same hash, exactly when the hash has no whitespace. |
| Manifest.LinesRoundTrip | src/mantiddata/buildregistry.py:52-56 | For a registry whose checksums hold no whitespace and whose keys are non-empty with the plain space as their only whitespace, line `i` reads back as key `i` with spaces replaced, its checksum, and the base URL plus the checksum. |
| Manifest.FormatRoundTrip | src/mantiddata/buildregistry.py:56 | A line laid out from three whitespace-free parts splits back into those parts. |
| Manifest.SpaceCollision | src/mantiddata/buildregistry.py:53-56 | The distinct keys `"a b"` and `"a_b"` give two lines that both read back under the name `a_b`, each with its own hash. |
| Manifest.BaseUrlNoSpace | src/mantiddata/buildregistry.py:18 | `MANTID_DATA_BASE_URL` holds no whitespace, so the URL stays one token. |
| Manifest.TokensNoSpace | src/mantiddata/buildregistry.py:55-56 | With a whitespace-free hash, `md5:<hash>` and the URL hold no whitespace. |
| Manifest.WrittenName | src/mantiddata/buildregistry.py:54 | A non-empty name whose only whitespace is plain spaces is written non-empty and without whitespace. |
| Manifest.WordsNoSpace | src/mantiddata/buildregistry.py:56 | Splitting a line gives non-empty words without whitespace. |
| Manifest.ParseLineNoSpace | src/mantiddata/buildregistry.py:56 | No field read back from a line holds whitespace. |
| Manifest.ThreeWords | src/mantiddata/buildregistry.py:56 | Three words joined by single spaces and ended by a newline split back into those three words. |
| RegistryWriter.RegistryFile.Write | src/mantiddata/buildregistry.py:56 | `f.write` appends one string to the file. |
| RegistryWriter.RegistryFile.Open | src/mantiddata/buildregistry.py:52 | `open('w')` empties the file. |
| RegistryWriter.WriteManifest | src/mantiddata/buildregistry.py:53-56 | The loop over `reg.items()` appends exactly the manifest lines, one per key in key order. |
| RegistryWriter.BuildRegistryFrom | src/mantiddata/buildregistry.py:45-56 | The build fails exactly when the registry cannot be built, and then leaves the output file untouched. Otherwise the file holds exactly the registry's manifest lines. |
| RegistryWriter.SubDirsOrDefault | src/mantiddata/buildregistry.py:105-109 | Given `sub_dirs` are used as they are. By default the roots are `DocTest`, `SystemTest`, `UnitTest`, in that order. |
| RegistryWriter.BuildRegistry | src/mantiddata/buildregistry.py:87-109 | `build_registry` builds from the given roots or the default ones, and fails or writes as `_build_registry_from` does. |
| LegacyBuildRegistry.BuildRegistry | src/mantiddata/build_registry.py:41-47 | The older `build_registry(out_file, base_path, sub_dirs)` fails exactly when the registry cannot be built, leaving the file untouched. Otherwise it writes exactly the registry's lines. |

## Left out

- Fetching and caching test data (`create` in `__init__.py` and `main.py`). This is done by the `pooch` library, whose code is not part of this model.
- Cloning Mantid and temporary directories: `_checkout_mantid_data`, `_optional_tempdir`, `_ensure_input_dir`. These are subprocess and file system plumbing. `base` is given as the listing of an existing `Testing/Data` directory.
- The command line: `parse_args`, `main` and `__main__.py`. The legacy `main` calls `build_registry` with `MANTID_DATA_SUBDIRS`; that is `LegacyBuildRegistry.BuildRegistry` with `RegistryWriter.DataSubDirs`.
- The network-dependent test in `tests/test_mantiddata.py`.
- `print('Creating registry from', base_path)`. It is console output only.
- Real file system I/O. `iterdir()` is the given listing order. Reading a file is looking up its text in the tree. Permission errors, symbolic links, races and partial writes are not modelled.
- Text decoding and newline translation by `open('r')` and `open('w')`. Text is a sequence of characters as the file holds them.
- Path components in `sub_dirs` are plain names. `..`, absolute paths and empty components are not modelled.
- `PurePaths.Suffix` and `PurePaths.Stem` follow CPython 3.8 to 3.13. Later Python versions treat a name ending in a dot differently.
- Manifest.ParseLine and Manifest.Words read lines back by whitespace splitting, as `str.split()` does. This is a reference for what a line holds, not a model of pooch's own registry parser.
- Manifest.LineRoundTrip: stated only for non-empty names whose only whitespace is the plain space. The writer accepts any name, but a name holding a tab or newline does not read back as one word.
- Manifest.LinesRoundTrip: stated only for registries whose checksums hold no whitespace and whose keys are non-empty with the plain space as their only whitespace, for the same reasons. A key such as `a\tb` (from a sidecar `a\tb.md5`) keeps its tab when written, so its line splits into more than three words and does not read back.
