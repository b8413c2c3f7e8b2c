/**
 The parts of Python's `pathlib.PurePath` the registry builder relies on:
 the `suffix` and `stem` of a final path component, joining with `/`, and
 rendering a path with `str()`. Paths are POSIX paths; a path is the sequence
 of its components.
 */
module PurePaths {

  /** A relative POSIX path as its components; `Path('')` is the empty sequence. */
  type PurePath = seq<string>

  /** `str.rfind('.')`: the index of the last dot in `s`, or -1 when there is none. */
  function RFindDot(s: string): (i: int)
    ensures -1 <= i < |s|
  {
    if s == [] then -1
    else if s[|s| - 1] == '.' then |s| - 1
    else RFindDot(s[..|s| - 1])
  }

  /** `RFindDot` finds the last dot, and finds none only when there is none. */
  lemma {:induction false} RFindDotIsLastDot(s: string)
    ensures 0 <= RFindDot(s) ==> s[RFindDot(s)] == '.'
    ensures forall j :: RFindDot(s) < j < |s| ==> s[j] != '.'
  {
    if s != [] && s[|s| - 1] != '.' {
      RFindDotIsLastDot(s[..|s| - 1]);
    }
  }

  /** The dot that starts a suffix: not the first character and not the last one. */
  predicate HasSuffixDot(name: string)
  {
    var i := RFindDot(name);
    0 < i < |name| - 1
  }

  /** `PurePath.suffix`: from the last dot on, or "" when that dot leads or ends the name. */
  function Suffix(name: string): string
  {
    var i := RFindDot(name);
    if 0 < i < |name| - 1 then name[i..] else ""
  }

  /** `PurePath.stem`: the name without its suffix. */
  function Stem(name: string): string
  {
    var i := RFindDot(name);
    if 0 < i < |name| - 1 then name[..i] else name
  }

  /**
   A name splits into its stem followed by its suffix; a suffix is a dot and at
   least one more character, none of them a dot; only the empty name has an
   empty stem.
   */
  lemma StemSuffixSplit(name: string)
    ensures Stem(name) + Suffix(name) == name
    ensures Suffix(name) == "" || (|Suffix(name)| >= 2 && Suffix(name)[0] == '.')
    ensures forall j :: 1 <= j < |Suffix(name)| ==> Suffix(name)[j] != '.'
    ensures Stem(name) == "" <==> name == ""
  {
    RFindDotIsLastDot(name);
    var i := RFindDot(name);
    if 0 < i < |name| - 1 {
      assert name[..i] + name[i..] == name;
    }
  }

  /**
   A name has the suffix `.md5` exactly when it ends in `.md5` with at least
   one character in front; its stem is then the name without those four
   characters. So `.md5` alone (a hidden file) is not a checksum sidecar.
   */
  lemma {:induction false} SuffixMd5Iff(name: string)
    ensures Suffix(name) == ".md5" <==> |name| > 4 && name[|name| - 4..] == ".md5"
    ensures Suffix(name) == ".md5" ==> Stem(name) == name[..|name| - 4]
  {
    var n := |name|;
    RFindDotIsLastDot(name);
    if n > 4 && name[n - 4..] == ".md5" {
      assert name[n - 4] == '.';
      assert name[n - 3] == 'm' && name[n - 2] == 'd' && name[n - 1] == '5';
      var i := RFindDot(name);
      assert i == n - 4;
    }
    if Suffix(name) == ".md5" {
      var i := RFindDot(name);
      assert name[i..] == ".md5";
      assert i == n - 4;
    }
  }

  /**
   `p / s` for a single component `s`: pathlib drops empty and `.` components.
   The two ensures only spell out the body for callers; what `str(p / s)`
   gives is `JoinStr`.
   */
  function Join(p: PurePath, s: string): (r: PurePath)
    ensures s != "" && s != "." ==> r == p + [s]
    ensures s == "" || s == "." ==> r == p
  {
    if s == "" || s == "." then p else p + [s]
  }

  /** `p / s1 / s2 / ...` */
  function JoinAll(p: PurePath, ss: seq<string>): PurePath
    decreases |ss|
  {
    if ss == [] then p else JoinAll(Join(p, ss[0]), ss[1..])
  }

  /** The components joined with `/`. */
  function Slashed(p: PurePath): string
    requires p != []
  {
    if |p| == 1 then p[0] else Slashed(p[..|p| - 1]) + "/" + p[|p| - 1]
  }

  /** `str(p)`: `Path('')` renders as ".". */
  function Str(p: PurePath): string
  {
    if p == [] then "." else Slashed(p)
  }

  /**
   `str(p / s)` for an ordinary component `s`: `s` itself below `Path('')`,
   and otherwise `str(p)`, a slash and `s`.
   */
  lemma JoinStr(p: PurePath, s: string)
    requires s != "" && s != "."
    ensures Str(Join(p, s)) == (if p == [] then s else Str(p) + "/" + s)
  {
    assert (p + [s])[..|p|] == p;
  }

  /** Joining components none of which is empty or `.` just appends them. */
  lemma {:induction false} JoinAllAppends(p: PurePath, ss: seq<string>)
    requires forall k :: 0 <= k < |ss| ==> ss[k] != "" && ss[k] != "."
    ensures JoinAll(p, ss) == p + ss
    decreases |ss|
  {
    if ss != [] {
      JoinAllAppends(p + [ss[0]], ss[1..]);
      assert p + [ss[0]] + ss[1..] == p + ss;
    }
  }

  /** Joining a first component, then the rest. */
  lemma JoinAllCons(p: PurePath, s: string, rest: seq<string>)
    ensures JoinAll(p, [s] + rest) == JoinAll(Join(p, s), rest)
  {
    assert ([s] + rest)[1..] == rest;
  }

  /** `str(Path('') / s)` is `s` itself for every non-empty component `s`. */
  lemma BareComponent(s: string)
    requires s != ""
    ensures Str(JoinAll([], [s])) == s
  {
  }
}
