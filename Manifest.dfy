/**
 The manifest the registry builder writes: one line per registry entry,
 `<name with spaces replaced> md5:<hash> <base URL><hash>`, ended by a newline.
 Reading such a line back splits it at runs of whitespace, as `str.split()`
 does, into the name, the `md5:` token and the URL.
 */
module Manifest {
  import opened FileTree
  import opened PyStr
  import opened OrderedDict

  /** `MANTID_DATA_BASE_URL`, the same in both copies of the builder. */
  const BaseUrl: string := "https://testdata.mantidproject.org/ftp/external-data/MD5/"

  /** The line written for one registry entry: the URL is the base URL followed by the hash. */
  function Line(name: string, hash: string): string
  {
    Format(ReplaceSpaces(name), hash, BaseUrl + hash)
  }

  /** The line layout `<name> md5:<hash> <url>` and a newline. */
  function Format(name: string, hash: string, url: string): string
  {
    name + " md5:" + hash + " " + url + "\n"
  }

  /** The lines written for a registry: one per key, in the order of the keys. */
  function Lines(d: Dict): seq<string>
    requires Valid(d)
  {
    seq(|d.keys|, i requires 0 <= i < |d.keys| => Line(d.keys[i], d.values[d.keys[i]]))
  }

  predicate NoSpace(s: string)
  {
    forall i :: 0 <= i < |s| ==> !IsSpace(s[i])
  }

  /** The longest prefix of `s` without whitespace. */
  function Token(s: string): (w: string)
    ensures |w| <= |s| && w == s[..|w|]
    ensures NoSpace(w)
    ensures |w| < |s| ==> IsSpace(s[|w|])
  {
    if s == [] || IsSpace(s[0]) then [] else [s[0]] + Token(s[1..])
  }

  /** `str.split()` with no argument: the maximal runs of non-whitespace characters. */
  function Words(s: string): seq<string>
    decreases |s|
  {
    var t := LStrip(s);
    if t == [] then []
    else
      var w := Token(t);
      assert w != [] by { assert !IsSpace(t[0]); }
      [w] + Words(t[|w|..])
  }

  /** Every word is non-empty and holds no whitespace. */
  lemma {:induction false} WordsNoSpace(s: string)
    ensures forall k :: 0 <= k < |Words(s)| ==> Words(s)[k] != [] && NoSpace(Words(s)[k])
    decreases |s|
  {
    var t := LStrip(s);
    if t != [] {
      var w := Token(t);
      assert !IsSpace(t[0]);
      WordsNoSpace(t[|w|..]);
      var ws := Words(s);
      assert ws == [w] + Words(t[|w|..]);
      forall k | 0 <= k < |ws| ensures ws[k] != [] && NoSpace(ws[k]) {
        if k > 0 { assert ws[k] == Words(t[|w|..])[k - 1]; }
      }
    }
  }

  /** A manifest line read back: the name, the hash after `md5:`, and the URL. */
  datatype Entry = Entry(name: string, hash: string, url: string)

  /** A line is three whitespace-separated tokens, the middle one starting with `md5:`. */
  function ParseLine(line: string): Option<Entry>
  {
    var ws := Words(line);
    if |ws| == 3 && |ws[1]| >= 4 && ws[1][..4] == "md5:" then Some(Entry(ws[0], ws[1][4..], ws[2]))
    else None
  }

  /** Nothing read back from a line holds whitespace. */
  lemma ParseLineNoSpace(line: string)
    requires ParseLine(line).Some?
    ensures NoSpace(ParseLine(line).value.name)
    ensures NoSpace(ParseLine(line).value.hash)
    ensures NoSpace(ParseLine(line).value.url)
  {
    var ws := Words(line);
    WordsNoSpace(line);
    assert ParseLine(line).value.hash == ws[1][4..];
    assert forall i :: 0 <= i < |ws[1]| - 4 ==> ws[1][4..][i] == ws[1][i + 4];
  }

  lemma {:induction false} TokenOf(a: string, rest: string)
    requires NoSpace(a)
    requires rest == [] || IsSpace(rest[0])
    ensures Token(a + rest) == a
    decreases |a|
  {
    if a != [] {
      assert (a + rest)[0] == a[0];
      assert (a + rest)[1..] == a[1..] + rest;
      TokenOf(a[1..], rest);
    } else {
      assert a + rest == rest;
    }
  }

  /** A word followed by whitespace or nothing is split off first. */
  lemma WordsCons(a: string, rest: string)
    requires a != [] && NoSpace(a)
    requires rest == [] || IsSpace(rest[0])
    ensures Words(a + rest) == [a] + Words(rest)
  {
    var s := a + rest;
    assert s[0] == a[0];
    assert LStrip(s) == s;
    TokenOf(a, rest);
    assert s[|a|..] == rest;
  }

  /** Leading whitespace does not change the words. */
  lemma WordsSpace(c: char, rest: string)
    requires IsSpace(c)
    ensures Words([c] + rest) == Words(rest)
  {
    assert ([c] + rest)[1..] == rest;
    assert LStrip([c] + rest) == LStrip(rest);
  }

  /** Only printable ASCII characters other than the space. */
  predicate Visible(s: string)
  {
    forall i :: 0 <= i < |s| ==> 0x21 <= s[i] as int <= 0x7e
  }

  lemma VisibleCat(a: string, b: string)
    requires Visible(a) && Visible(b)
    ensures Visible(a + b)
  {
    assert forall i :: |a| <= i < |a + b| ==> (a + b)[i] == b[i - |a|];
  }

  /** The base URL holds no whitespace. */
  lemma BaseUrlNoSpace()
    ensures NoSpace(BaseUrl)
  {
    // the URL in six pieces, each checked character by character
    var a, b, c, d, e, f := "https://", "testdata", ".mantidproject.org", "/ftp/", "external-data", "/MD5/";
    assert Visible(a) by {
      forall i | 0 <= i < 8 ensures 0x21 <= a[i] as int <= 0x7e {
        assert i == 0 || i == 1 || i == 2 || i == 3 || i == 4 || i == 5 || i == 6 || i == 7;
      }
    }
    assert Visible(b) by {
      forall i | 0 <= i < 8 ensures 0x21 <= b[i] as int <= 0x7e {
        assert i == 0 || i == 1 || i == 2 || i == 3 || i == 4 || i == 5 || i == 6 || i == 7;
      }
    }
    assert Visible(c) by {
      forall i | 0 <= i < 18 ensures 0x21 <= c[i] as int <= 0x7e {
        assert i == 0 || i == 1 || i == 2 || i == 3 || i == 4 || i == 5 || i == 6 || i == 7 || i == 8 || i == 9 || i == 10 || i == 11 || i == 12 || i == 13 || i == 14 || i == 15 || i == 16 || i == 17;
      }
    }
    assert Visible(d) by {
      forall i | 0 <= i < 5 ensures 0x21 <= d[i] as int <= 0x7e {
        assert i == 0 || i == 1 || i == 2 || i == 3 || i == 4;
      }
    }
    assert Visible(e) by {
      forall i | 0 <= i < 13 ensures 0x21 <= e[i] as int <= 0x7e {
        assert i == 0 || i == 1 || i == 2 || i == 3 || i == 4 || i == 5 || i == 6 || i == 7 || i == 8 || i == 9 || i == 10 || i == 11 || i == 12;
      }
    }
    assert Visible(f) by {
      forall i | 0 <= i < 5 ensures 0x21 <= f[i] as int <= 0x7e {
        assert i == 0 || i == 1 || i == 2 || i == 3 || i == 4;
      }
    }
    VisibleCat(a, b);
    VisibleCat(a + b, c);
    VisibleCat(d, e);
    VisibleCat(d + e, f);
    VisibleCat(a + b + c, d + e + f);
    BaseUrlPieces();
  }

  /** The base URL is the six pieces `BaseUrlNoSpace` checks, one after the other. */
  lemma BaseUrlPieces()
    ensures BaseUrl == ("https://" + "testdata" + ".mantidproject.org") + ("/ftp/" + "external-data" + "/MD5/")
  {
    UrlHost();
    UrlPath();
    assert "https://testdata.mantidproject.org" + "/ftp/external-data/MD5/" == BaseUrl;
  }

  lemma UrlHost()
    ensures "https://" + "testdata" + ".mantidproject.org" == "https://testdata.mantidproject.org"
  {
    assert "https://" + "testdata" == "https://testdata";
  }

  lemma UrlPath()
    ensures "/ftp/" + "external-data" + "/MD5/" == "/ftp/external-data/MD5/"
  {
    assert "/ftp/" + "external-data" == "/ftp/external-data";
  }

  /** A name that, once written, holds no whitespace: whitespace in it is only plain spaces. */
  predicate WritableName(name: string)
  {
    name != [] && forall i :: 0 <= i < |name| && IsSpace(name[i]) ==> name[i] == ' '
  }

  /** A writable name, once written, is non-empty and holds no whitespace. */
  lemma WrittenName(name: string)
    requires WritableName(name)
    ensures NoSpace(ReplaceSpaces(name)) && ReplaceSpaces(name) != []
  {
  }

  /** A last word followed by the newline. */
  lemma LastWord(c: string)
    requires c != [] && NoSpace(c)
    ensures Words(c + "\n") == [c]
  {
    WordsSpace('\n', []);
    assert Words([]) == [];
    WordsCons(c, "\n");
  }

  /** A word followed by a space and more text. */
  lemma WordThen(a: string, rest: string)
    requires a != [] && NoSpace(a)
    ensures Words(a + (" " + rest)) == [a] + Words(rest)
  {
    WordsCons(a, " " + rest);
    WordsSpace(' ', rest);
  }

  /** Two words separated by a single space and ended by a newline. */
  lemma TwoWords(b: string, c: string)
    requires b != [] && NoSpace(b) && c != [] && NoSpace(c)
    ensures Words(b + (" " + (c + "\n"))) == [b, c]
  {
    LastWord(c);
    WordThen(b, c + "\n");
  }

  /** Three words separated by single spaces and ended by a newline split back into those words. */
  lemma ThreeWords(a: string, b: string, c: string)
    requires a != [] && NoSpace(a) && b != [] && NoSpace(b) && c != [] && NoSpace(c)
    ensures Words(a + (" " + (b + (" " + (c + "\n"))))) == [a, b, c]
  {
    TwoWords(b, c);
    WordThen(a, b + (" " + (c + "\n")));
  }

  /** A line is the written name, the `md5:` token and the URL, each followed by one separator. */
  lemma FormatTokens(name: string, hash: string, url: string)
    ensures Format(name, hash, url) == name + (" " + (("md5:" + hash) + (" " + (url + "\n"))))
  {
  }

  /** The `md5:` token and the URL hold no whitespace when the hash holds none. */
  lemma TokensNoSpace(hash: string)
    requires NoSpace(hash)
    ensures NoSpace("md5:" + hash) && NoSpace(BaseUrl + hash)
  {
    BaseUrlNoSpace();
    NoSpaceCat("md5:", hash);
    NoSpaceCat(BaseUrl, hash);
  }

  lemma NoSpaceCat(a: string, b: string)
    requires NoSpace(a) && NoSpace(b)
    ensures NoSpace(a + b)
  {
    assert forall i :: |a| <= i < |a + b| ==> (a + b)[i] == b[i - |a|];
  }

  /** A line laid out from three whitespace-free parts reads back as those parts. */
  lemma FormatRoundTrip(name: string, hash: string, url: string)
    requires name != [] && NoSpace(name) && NoSpace("md5:" + hash) && url != [] && NoSpace(url)
    ensures ParseLine(Format(name, hash, url)) == Some(Entry(name, hash, url))
  {
    var tok := "md5:" + hash;
    Md5Token(hash);
    FormatTokens(name, hash, url);
    ThreeWords(name, tok, url);
    ParseWords(Format(name, hash, url), name, tok, url);
  }

  /** A line whose words are a name, an `md5:` token and a URL is read back as those. */
  lemma ParseWords(line: string, a: string, tok: string, c: string)
    requires Words(line) == [a, tok, c] && |tok| >= 4 && tok[..4] == "md5:"
    ensures ParseLine(line) == Some(Entry(a, tok[4..], c))
  {
  }

  lemma Md5Token(hash: string)
    ensures |"md5:" + hash| >= 4 && ("md5:" + hash)[..4] == "md5:" && ("md5:" + hash)[4..] == hash
  {
  }

  /**
   A line reads back as the written name, the hash, and the base URL followed
   by that same hash, exactly when the hash holds no whitespace.
   */
  lemma LineRoundTrip(name: string, hash: string)
    requires WritableName(name)
    ensures ParseLine(Line(name, hash)) == Some(Entry(ReplaceSpaces(name), hash, BaseUrl + hash)) <==> NoSpace(hash)
  {
    var line := Line(name, hash);
    if NoSpace(hash) {
      WrittenName(name);
      TokensNoSpace(hash);
      assert |BaseUrl + hash| > 0;
      FormatRoundTrip(ReplaceSpaces(name), hash, BaseUrl + hash);
    } else if ParseLine(line).Some? {
      ParseLineNoSpace(line);
    }
  }

  /**
   With no whitespace in any checksum, every manifest line reads back as its
   key with spaces replaced, the checksum under that key, and the base URL
   followed by the checksum.
   */
  lemma LinesRoundTrip(d: Dict)
    requires Valid(d)
    requires forall i :: 0 <= i < |d.keys| ==> WritableName(d.keys[i]) && NoSpace(d.values[d.keys[i]])
    ensures |Lines(d)| == |d.keys|
    ensures forall i :: 0 <= i < |d.keys| ==>
              ParseLine(Lines(d)[i]) == Some(Entry(ReplaceSpaces(d.keys[i]), d.values[d.keys[i]], BaseUrl + d.values[d.keys[i]]))
  {
    forall i | 0 <= i < |d.keys|
      ensures ParseLine(Lines(d)[i]) == Some(Entry(ReplaceSpaces(d.keys[i]), d.values[d.keys[i]], BaseUrl + d.values[d.keys[i]]))
    {
      LineRoundTrip(d.keys[i], d.values[d.keys[i]]);
    }
  }

  /**
   Spaces are replaced only when writing: the distinct keys "a b" and "a_b"
   give two lines that read back under the same name "a_b".
   */
  lemma SpaceCollision(h1: string, h2: string)
    requires NoSpace(h1) && NoSpace(h2)
    ensures Valid(Dict(["a b", "a_b"], map["a b" := h1, "a_b" := h2]))
    ensures ParseLine(Lines(Dict(["a b", "a_b"], map["a b" := h1, "a_b" := h2]))[0]) == Some(Entry("a_b", h1, BaseUrl + h1))
    ensures ParseLine(Lines(Dict(["a b", "a_b"], map["a b" := h1, "a_b" := h2]))[1]) == Some(Entry("a_b", h2, BaseUrl + h2))
  {
    var d := Dict(["a b", "a_b"], map["a b" := h1, "a_b" := h2]);
    ReplaceSpacesNotInjective();
    ReplaceSpacesRemovesSpaces("a_b");
    assert WritableName("a b") by {
      forall i | 0 <= i < 3 ensures IsSpace("a b"[i]) ==> "a b"[i] == ' ' {
        assert i == 0 || i == 1 || i == 2;
      }
    }
    assert WritableName("a_b") by {
      forall i | 0 <= i < 3 ensures !IsSpace("a_b"[i]) {
        assert i == 0 || i == 1 || i == 2;
      }
    }
    LinesRoundTrip(d);
  }
}
