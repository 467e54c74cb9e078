/**
 * The archive form of a corpus name, as LazyCorpusLoader.__load derives it
 * with re.sub(r'(([^/]*)(/.*)?)', r'\2.zip/\1/', name): the name's first
 * '/'-segment, then ".zip/", then the whole name, then "/".
 * "brown" becomes "brown.zip/brown/", "a/b/c" becomes "a.zip/a/b/c/".
 */
module ZipPath {
  import opened Results

  /** Position of the first '/' in s, or |s| when s has none. */
  function SlashIndex(s: string): (k: nat)
    ensures k <= |s|
    ensures forall i :: 0 <= i < k ==> s[i] != '/'
    ensures k < |s| ==> s[k] == '/'
  {
    if s == [] || s[0] == '/' then 0 else 1 + SlashIndex(s[1..])
  }

  /** The first '/' is the only position with the two properties above. */
  lemma SlashIndexAt(s: string, k: nat)
    requires k <= |s|
    requires forall i :: 0 <= i < k ==> s[i] != '/'
    requires k < |s| ==> s[k] == '/'
    ensures SlashIndex(s) == k
  {
  }

  /** The groups \1, \2 and \3 of one match of the pattern (([^/]*)(/.*)?). */
  datatype Groups = Groups(whole: string, segment: string, rest: string)

  /**
   * g is a match of (([^/]*)(/.*)?) that covers all of name: group 2 holds no
   * '/', the optional group 3 is empty or starts with '/' and, since '.' does
   * not match a newline, holds no newline; group 1 is the two together.
   */
  ghost predicate SpansName(name: string, g: Groups)
  {
    && g.whole == name
    && g.segment + g.rest == name
    && '/' !in g.segment
    && (g.rest == [] || (g.rest[0] == '/' && '\n' !in g.rest))
  }

  /** The match re.sub finds at the start of name: [^/]* greedily up to the first '/'. */
  function MatchName(name: string): (g: Groups)
    ensures '\n' !in name[SlashIndex(name)..] ==> SpansName(name, g)
  {
    var k := SlashIndex(name);
    assert name[..k] + name[k..] == name;
    Groups(name, name[..k], name[k..])
  }

  /** A single-line name has exactly one match covering it, the one MatchName gives. */
  lemma MatchUnique(name: string, g: Groups)
    requires SpansName(name, g)
    ensures g == MatchName(name)
  {
    var k := |g.segment|;
    assert forall i :: 0 <= i < k ==> name[i] == g.segment[i];
    assert k < |name| ==> name[k] == g.rest[0];
    SlashIndexAt(name, k);
    assert name[..k] == g.segment;
    assert name[k..] == g.rest;
  }

  /** The replacement \2.zip/\1/ applied to the match of the whole name. */
  function ZipName(name: string): string
  {
    var g := MatchName(name);
    g.segment + ".zip/" + g.whole + "/"
  }

  /** For every way of writing name as a '/'-free segment followed by an empty or '/'-led rest. */
  lemma ZipNameSplit(segment: string, rest: string)
    requires '/' !in segment
    requires rest == [] || rest[0] == '/'
    ensures ZipName(segment + rest) == segment + ".zip/" + segment + rest + "/"
  {
    var name := segment + rest;
    assert forall i :: 0 <= i < |segment| ==> name[i] == segment[i];
    SlashIndexAt(name, |segment|);
    assert name[..|segment|] == segment;
  }

  /** A name with no '/' gives name.zip/name/. */
  lemma ZipNameNoSlash(name: string)
    requires '/' !in name
    ensures ZipName(name) == name + ".zip/" + name + "/"
  {
    ZipNameSplit(name, []);
    assert name + [] == name;
  }

  /** The worked example of a plain corpus name. */
  lemma ZipNameExamplePlain()
    ensures ZipName("brown") == "brown.zip/brown/"
  {
    var name := "brown";
    assert '/' !in name;
    ZipNameNoSlash(name);
  }

  /** The worked example of a nested corpus name. */
  lemma ZipNameExampleNested()
    ensures ZipName("a/b/c") == "a.zip/a/b/c/"
  {
    var seg, rest := "a", "/b/c";
    ZipNameSplit(seg, rest);
    assert seg + rest == "a/b/c";
    assert seg + ".zip/" + seg + rest + "/" == "a.zip/a/b/c/";
  }

  /** The definition of ZipName in terms of the first '/'. */
  lemma ZipNameShape(name: string)
    ensures ZipName(name) == name[..SlashIndex(name)] + ".zip/" + name + "/"
  {
  }

  /** Recovers the corpus name from an archive-form path, or None when z is not of that form. */
  function NameOfZip(z: string): (r: Option<string>)
  {
    var k := SlashIndex(z);
    if 4 <= k && z[k - 4..k] == ".zip" && k + 2 <= |z| && z[|z| - 1] == '/' then
      var name := z[k + 1..|z| - 1];
      if name[..SlashIndex(name)] == z[..k - 4] then Some(name) else None
    else
      None
  }

  /** Decoding the archive form of a name gives the name back. */
  lemma NameOfZipRoundTrip(name: string)
    ensures NameOfZip(ZipName(name)) == Some(name)
  {
    ZipNameShape(name);
    DecodeShape(name[..SlashIndex(name)], name);
  }

  /** NameOfZip on segment + ".zip/" + name + "/", where segment is what precedes the first '/' of name. */
  lemma DecodeShape(seg: string, name: string)
    requires seg == name[..SlashIndex(name)]
    ensures NameOfZip(seg + ".zip/" + name + "/") == Some(name)
  {
    var z := seg + ".zip/" + name + "/";
    var k := |seg| + 4;
    assert '/' !in seg by {
      forall i | 0 <= i < |seg| ensures seg[i] != '/' {
        assert seg[i] == name[i];
      }
    }
    ZipSlashIndex(seg, name);
    ZipPieces(seg, name);
    NameOfZipAt(z, k);
  }

  /** In segment + ".zip/" + name + "/", the first '/' is the one after ".zip". */
  lemma ZipSlashIndex(seg: string, name: string)
    requires '/' !in seg
    ensures SlashIndex(seg + ".zip/" + name + "/") == |seg| + 4
  {
    var z := seg + ".zip/" + name + "/";
    var j := |seg|;
    forall i | 0 <= i < j + 4 ensures z[i] != '/' {
      if i < j {
        assert z[i] == seg[i];
      } else {
        assert z[i] == ".zip/"[i - j];
      }
    }
    assert z[j + 4] == '/';
    SlashIndexAt(z, j + 4);
  }

  /** The pieces NameOfZip inspects in segment + ".zip/" + name + "/". */
  lemma ZipPieces(seg: string, name: string)
    ensures var z := seg + ".zip/" + name + "/"; var k := |seg| + 4;
      && |z| == k + 2 + |name|
      && z[k - 4..k] == ".zip"
      && z[k + 1..|z| - 1] == name
      && z[..k - 4] == seg
      && z[|z| - 1] == '/'
  {
  }

  /** The acceptance test of NameOfZip, spelled out for a known first '/'. */
  lemma NameOfZipAt(z: string, k: nat)
    requires SlashIndex(z) == k
    requires 4 <= k && k + 2 <= |z| && z[k - 4..k] == ".zip" && z[|z| - 1] == '/'
    requires z[k + 1..|z| - 1][..SlashIndex(z[k + 1..|z| - 1])] == z[..k - 4]
    ensures NameOfZip(z) == Some(z[k + 1..|z| - 1])
  {
  }

  /** Whatever NameOfZip accepts is the archive form of the name it returns. */
  lemma NameOfZipSound(z: string, name: string)
    requires NameOfZip(z) == Some(name)
    ensures ZipName(name) == z
  {
    var k := SlashIndex(z);
    assert 4 <= k && k + 2 <= |z| && z[k - 4..k] == ".zip" && z[|z| - 1] == '/';
    assert name == z[k + 1..|z| - 1] && name[..SlashIndex(name)] == z[..k - 4];
    ZipNameShape(name);
    Reassemble(z, k, name);
  }

  /** An accepted z is its prefix, ".zip/", the recovered name and "/". */
  lemma Reassemble(z: string, k: nat, name: string)
    requires 4 <= k && k + 2 <= |z| && z[k - 4..k] == ".zip" && z[k] == '/' && z[|z| - 1] == '/'
    requires name == z[k + 1..|z| - 1]
    ensures z == z[..k - 4] + ".zip/" + name + "/"
  {
    Split5(z, k - 4, k, k + 1, |z| - 1);
    assert z[k..k + 1] == "/";
    assert z[|z| - 1..] == "/";
  }

  /** A sequence is the concatenation of its pieces between ordered cut points. */
  lemma Split5(z: string, a: nat, b: nat, c: nat, d: nat)
    requires a <= b <= c <= d <= |z|
    ensures z == z[..a] + z[a..b] + z[b..c] + z[c..d] + z[d..]
  {
  }

  /** Distinct corpus names have distinct archive forms. */
  lemma ZipNameInjective(a: string, b: string)
    requires ZipName(a) == ZipName(b)
    ensures a == b
  {
    NameOfZipRoundTrip(a);
    NameOfZipRoundTrip(b);
  }
}
