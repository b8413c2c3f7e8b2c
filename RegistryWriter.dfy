/**
 Writing the registry file: `_build_registry_from` builds the dict first and
 only then opens the output file for writing, truncating it, and writes one
 line per entry; `build_registry` picks the default scan roots.
 */
module RegistryWriter {
  import opened FileTree
  import opened OrderedDict
  import opened RegistryBuild
  import opened Manifest

  /** The output file: the strings written to it since it was last opened. */
  class RegistryFile {
    var lines: seq<string>

    constructor(initial: seq<string>)
      ensures lines == initial
    {
      lines := initial;
    }

    /** `out_file.open('w')`: the old contents are discarded. */
    method Open()
      modifies this
      ensures lines == []
    {
      lines := [];
    }

    /** `f.write(s)` */
    method Write(s: string)
      modifies this
      ensures lines == old(lines) + [s]
    {
      lines := lines + [s];
    }
  }

  /** The loop over `reg.items()`: one line per key, in key order. */
  method WriteManifest(out: RegistryFile, reg: Dict)
    requires Valid(reg)
    modifies out
    ensures out.lines == old(out.lines) + Lines(reg)
  {
    var i := 0;
    while i < |reg.keys|
      invariant 0 <= i <= |reg.keys|
      invariant out.lines == old(out.lines) + Lines(reg)[..i]
    {
      var name := reg.keys[i];
      out.Write(Line(name, reg.values[name]));
      assert Lines(reg)[..i + 1] == Lines(reg)[..i] + [Lines(reg)[i]];
      i := i + 1;
    }
    assert Lines(reg)[..i] == Lines(reg);
  }

  /**
   `_build_registry_from(base_path, sub_dirs, out_file)`: on an exception the
   output file is left as it was, since it is opened only once the registry is
   complete; otherwise it holds exactly the manifest lines of the registry.
   */
  method BuildRegistryFrom(out: RegistryFile, base: seq<Node>, subDirs: seq<RelPath>) returns (error: Option<OSError>)
    modifies out
    ensures error.Some? <==> RegistryOf(base, subDirs).Err?
    ensures error.Some? ==> error.value == RegistryOf(base, subDirs).error && out.lines == old(out.lines)
    ensures error.None? ==> Valid(RegistryOf(base, subDirs).value) && out.lines == Lines(RegistryOf(base, subDirs).value)
  {
    var reg := CollectRegistry(base, subDirs);
    if reg.Err? {
      return Some(reg.error);
    }
    RegistryOfKeys(base, subDirs);
    out.Open();
    WriteManifest(out, reg.value);
    return None;
  }

  /** `MANTID_DATA_SUBDIRS`: the three test-data folders, in this order. */
  const DataSubDirs: seq<RelPath> := [["DocTest"], ["SystemTest"], ["UnitTest"]]

  /** The scan roots `build_registry` uses: those given, or by default `MANTID_DATA_SUBDIRS`. */
  function SubDirsOrDefault(subDirs: Option<seq<RelPath>>): (r: seq<RelPath>)
    ensures subDirs.Some? ==> r == subDirs.value
    ensures subDirs.None? ==> r == [["DocTest"], ["SystemTest"], ["UnitTest"]]
  {
    if subDirs.Some? then subDirs.value else DataSubDirs
  }

  /**
   `build_registry(output_file, input_dir, sub_dirs)` once the input directory
   is in place: `base` is the listing of `Testing/Data` below it.
   */
  method BuildRegistry(out: RegistryFile, base: seq<Node>, subDirs: Option<seq<RelPath>>) returns (error: Option<OSError>)
    modifies out
    ensures error.Some? <==> RegistryOf(base, SubDirsOrDefault(subDirs)).Err?
    ensures error.Some? ==> error.value == RegistryOf(base, SubDirsOrDefault(subDirs)).error && out.lines == old(out.lines)
    ensures error.None? ==> out.lines == Lines(RegistryOf(base, SubDirsOrDefault(subDirs)).value)
  {
    error := BuildRegistryFrom(out, base, SubDirsOrDefault(subDirs));
  }
}
