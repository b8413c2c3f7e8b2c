/**
 The older command-line copy of the builder, `build_registry.py`: its scan,
 `read_md5_file` and dict comprehension are the same as in the packaged
 module, and its `build_registry(out_file, base_path, sub_dirs)` takes the scan
 roots as a required argument.
 */
module LegacyBuildRegistry {
  import opened FileTree
  import opened RegistryBuild
  import opened Manifest
  import RegistryWriter

  /** `build_registry(out_file, base_path, sub_dirs)` of the older copy. */
  method BuildRegistry(out: RegistryWriter.RegistryFile, base: seq<Node>, subDirs: seq<RelPath>) returns (error: Option<OSError>)
    modifies out
    ensures error.Some? <==> RegistryOf(base, subDirs).Err?
    ensures error.Some? ==> error.value == RegistryOf(base, subDirs).error && out.lines == old(out.lines)
    ensures error.None? ==> out.lines == Lines(RegistryOf(base, subDirs).value)
  {
    error := RegistryWriter.BuildRegistryFrom(out, base, subDirs);
  }

}
