/**
 The two Python `str` methods the registry builder applies: `strip()` to the
 text of a checksum sidecar and `replace(" ", "_")` to a logical name.
 */
module PyStr {

  /** `str.isspace()` for one character: the code points CPython treats as whitespace. */
  predicate IsSpace(c: char)
  {
    var n := c as int;
    n == 0x20 || 0x09 <= n <= 0x0d || 0x1c <= n <= 0x1f || n == 0x85 || n == 0xa0
    || n == 0x1680 || 0x2000 <= n <= 0x200a || n == 0x2028 || n == 0x2029
    || n == 0x202f || n == 0x205f || n == 0x3000
  }

  predicate AllSpace(s: string)
  {
    forall i :: 0 <= i < |s| ==> IsSpace(s[i])
  }

  /** `str.lstrip()`: drop the leading whitespace. */
  function LStrip(s: string): (r: string)
    ensures |r| <= |s| && r == s[|s| - |r|..]
    ensures AllSpace(s[..|s| - |r|])
    ensures r == [] || !IsSpace(r[0])
  {
    if s != [] && IsSpace(s[0]) then
      var r := LStrip(s[1..]);
      assert s[..|s| - |r|] == [s[0]] + s[1..][..|s| - 1 - |r|];
      AllSpaceCat([s[0]], s[1..][..|s| - 1 - |r|]);
      r
    else s
  }

  /** `str.rstrip()`: drop the trailing whitespace. */
  function RStrip(s: string): (r: string)
    ensures |r| <= |s| && r == s[..|r|]
    ensures AllSpace(s[|r|..])
    ensures r == [] || !IsSpace(r[|r| - 1])
  {
    if s != [] && IsSpace(s[|s| - 1]) then
      var r := RStrip(s[..|s| - 1]);
      assert s[|r|..] == s[..|s| - 1][|r|..] + [s[|s| - 1]];
      AllSpaceCat(s[..|s| - 1][|r|..], [s[|s| - 1]]);
      r
    else s
  }

  /**
   `str.strip()`: the slice of `s` left after removing whitespace on both
   sides; it neither starts nor ends with whitespace.
   */
  function Strip(s: string): string
  {
    RStrip(LStrip(s))
  }

  /**
   What `strip()` leaves is a slice of `s` with only whitespace on either side
   of it, and it neither starts nor ends with whitespace.
   */
  lemma StripShape(s: string)
    ensures Strip(s) == [] || (!IsSpace(Strip(s)[0]) && !IsSpace(Strip(s)[|Strip(s)| - 1]))
    ensures exists i :: StripsAt(s, i, Strip(s))
  {
    var l := LStrip(s);
    var r := RStrip(l);
    assert Strip(s) == r;
    StripsAtCut(s, l, r);
  }

  /** Whitespace cut from the front and then from the back leaves a slice `StripsAt` describes. */
  lemma StripsAtCut(s: string, l: string, r: string)
    requires |l| <= |s| && l == s[|s| - |l|..] && AllSpace(s[..|s| - |l|])
    requires |r| <= |l| && r == l[..|r|] && AllSpace(l[|r|..])
    ensures StripsAt(s, |s| - |l|, r)
  {
    SuffixSlices(s, |s| - |l|, |r|);
  }

  /** `r` stands at `i` in `s` with only whitespace before and after it. */
  predicate StripsAt(s: string, i: int, r: string)
  {
    0 <= i <= |s| - |r| && s[i..i + |r|] == r && AllSpace(s[..i]) && AllSpace(s[i + |r|..])
  }

  /** Cutting the suffix `s[i..]` at `n` cuts `s` at `i + n`. */
  lemma SuffixSlices(s: string, i: int, n: int)
    requires 0 <= i <= |s| && 0 <= n <= |s| - i
    ensures s[i..][..n] == s[i..i + n]
    ensures s[i..][n..] == s[i + n..]
  {
  }

  /** `lstrip()` stops at the first non-space character, wherever that is. */
  lemma {:induction false} LStripExact(s: string, i: int)
    requires 0 <= i <= |s| && AllSpace(s[..i])
    requires i < |s| ==> !IsSpace(s[i])
    ensures LStrip(s) == s[i..]
  {
    if 0 < i {
      assert s[..i][0] == s[0];
      var t := s[1..];
      var u := t[..i - 1];
      assert u == s[..i][1..];
      forall m | 0 <= m < |u| ensures IsSpace(u[m]) {
        assert u[m] == s[..i][m + 1];
      }
      LStripExact(t, i - 1);
      assert t[i - 1..] == s[i..];
    }
  }

  /** `rstrip()` stops after the last non-space character, wherever that is. */
  lemma {:induction false} RStripExact(s: string, j: int)
    requires 0 <= j <= |s| && AllSpace(s[j..])
    requires 0 < j ==> !IsSpace(s[j - 1])
    ensures RStrip(s) == s[..j]
  {
    if j < |s| {
      assert s[j..][|s| - 1 - j] == s[|s| - 1];
      var t := s[..|s| - 1];
      assert t[j..] == s[j..][..|s| - 1 - j];
      assert t[..j] == s[..j];
      RStripExact(t, j);
    }
  }

  /**
   The stripped text is the only slice of `s` with whitespace on both sides of
   it and none at its own ends: `strip()` is fully determined.
   */
  lemma StripUnique(s: string, i: int, j: int)
    requires 0 <= i <= j <= |s|
    requires AllSpace(s[..i]) && AllSpace(s[j..])
    requires i < j ==> !IsSpace(s[i]) && !IsSpace(s[j - 1])
    ensures Strip(s) == s[i..j]
  {
    if i < j {
      LStripExact(s, i);
      var t := s[i..];
      SuffixSlices(s, i, j - i);
      assert t[j - i - 1] == s[j - 1];
      RStripExact(t, j - i);
      assert Strip(s) == RStrip(t);
    } else {
      AllSpaceCat(s[..i], s[j..]);
      assert s[..i] + s[j..] == s[..|s|];
      LStripExact(s, |s|);
      assert LStrip(s) == [];
    }
  }

  /** Whitespace followed by whitespace is whitespace. */
  lemma AllSpaceCat(a: string, b: string)
    requires AllSpace(a) && AllSpace(b)
    ensures AllSpace(a + b)
  {
    forall m | 0 <= m < |a + b| ensures IsSpace((a + b)[m]) {
      if m < |a| {
        assert (a + b)[m] == a[m];
      } else {
        assert (a + b)[m] == b[m - |a|];
      }
    }
  }

  /** Stripping twice is stripping once. */
  lemma StripIdempotent(s: string)
    ensures Strip(Strip(s)) == Strip(s)
  {
    var r := Strip(s);
    StripShape(s);
    StripUnique(r, 0, |r|);
  }

  /** `s.replace(" ", "_")`: every space becomes an underscore, nothing else moves. */
  function ReplaceSpaces(s: string): (r: string)
    ensures |r| == |s|
    ensures forall i :: 0 <= i < |s| ==> r[i] == (if s[i] == ' ' then '_' else s[i])
  {
    if s == [] then [] else [if s[0] == ' ' then '_' else s[0]] + ReplaceSpaces(s[1..])
  }

  /** The replaced name holds no space, and a name without spaces is left as it is. */
  lemma ReplaceSpacesRemovesSpaces(s: string)
    ensures ' ' !in ReplaceSpaces(s)
    ensures ReplaceSpaces(s) == s <==> ' ' !in s
    ensures ReplaceSpaces(ReplaceSpaces(s)) == ReplaceSpaces(s)
  {
    var r := ReplaceSpaces(s);
    assert forall i :: 0 <= i < |r| ==> r[i] != ' ';
    if ' ' in s {
      var i :| 0 <= i < |s| && s[i] == ' ';
      assert r[i] != s[i];
    }
  }

  /** Two different names can be written the same: "a b" and "a_b" collide. */
  lemma ReplaceSpacesNotInjective()
    ensures "a b" != "a_b" && ReplaceSpaces("a b") == ReplaceSpaces("a_b")
  {
    assert ReplaceSpaces("a b")[1] == '_';
    assert ReplaceSpaces("a b") == "a_b";
    assert ReplaceSpaces("a_b") == "a_b";
  }
}
