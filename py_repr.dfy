/**
 * Python 3's repr of a str, which LazyCorpusLoader.__repr__ applies with %r
 * to '.../corpora/' + name, and the "not loaded yet" text built around it.
 */
module PyRepr {
  import opened Results

  /** The two quote marks a str repr may be written with. */
  datatype Quote = Single | Double

  function QuoteMark(q: Quote): char
  {
    if q == Single then '\'' else '"'
  }

  /** repr writes single quotes, unless s holds a single quote and no double quote. */
  function ChooseQuote(s: string): Quote
  {
    if '\'' in s && '"' !in s then Double else Single
  }

  /** The ASCII control characters, which repr writes as escapes. */
  predicate IsControl(c: char)
  {
    c < ' ' || c as int == 0x7F
  }

  function HexDigit(n: nat): char
    requires n < 16
  {
    "0123456789abcdef"[n]
  }

  function HexValue(c: char): Option<nat>
  {
    if '0' <= c <= '9' then Some(c as int - '0' as int)
    else if 'a' <= c <= 'f' then Some(c as int - 'a' as int + 10)
    else None
  }

  /** How repr writes one character inside quotes q. */
  function EscapeChar(c: char, q: Quote): string
  {
    if c == QuoteMark(q) || c == '\\' then ['\\', c]
    else if c == '\t' then "\\t"
    else if c == '\n' then "\\n"
    else if c == '\r' then "\\r"
    else if IsControl(c) then ['\\', 'x', HexDigit(c as int / 16), HexDigit(c as int % 16)]
    else [c]
  }

  function Escape(s: string, q: Quote): string
  {
    if s == [] then [] else EscapeChar(s[0], q) + Escape(s[1..], q)
  }

  /** repr(s) for a Python 3 str. */
  function StrRepr(s: string): string
  {
    var q := ChooseQuote(s);
    [QuoteMark(q)] + Escape(s, q) + [QuoteMark(q)]
  }

  /** Reads one escaped character at the head of s: the character and how many were consumed. */
  function UnescapeHead(s: string, q: Quote): (r: Option<(char, nat)>)
    requires s != []
    ensures r.Some? ==> 1 <= r.value.1 <= |s|
  {
    if s[0] == '\\' then
      if |s| < 2 then None
      else if s[1] == '\\' || s[1] == QuoteMark(q) then Some((s[1], 2))
      else if s[1] == 't' then Some(('\t', 2))
      else if s[1] == 'n' then Some(('\n', 2))
      else if s[1] == 'r' then Some(('\r', 2))
      else if s[1] == 'x' && |s| >= 4 && HexValue(s[2]).Some? && HexValue(s[3]).Some? then
        Some(((HexValue(s[2]).value * 16 + HexValue(s[3]).value) as char, 4))
      else None
    else if s[0] == QuoteMark(q) then None
    else Some((s[0], 1))
  }

  /** Reads back the body of a repr written with quotes q; None if it is not one. */
  function Unescape(s: string, q: Quote): Option<string>
    decreases |s|
  {
    if s == [] then Some([])
    else match UnescapeHead(s, q)
      case None => None
      case Some((c, n)) =>
        match Unescape(s[n..], q)
        case None => None
        case Some(t) => Some([c] + t)
  }

  /** Reads back a whole repr, quotes included. */
  function ParseStrRepr(r: string): Option<string>
  {
    if |r| >= 2 && (r[0] == '\'' || r[0] == '"') && r[|r| - 1] == r[0] then
      Unescape(r[1..|r| - 1], if r[0] == '\'' then Single else Double)
    else None
  }

  lemma HexRoundTrip(n: nat)
    requires n < 16
    ensures HexValue(HexDigit(n)) == Some(n)
  {
  }

  /** The escape of one character is read back as that character, whatever follows. */
  lemma UnescapeHeadEscape(c: char, q: Quote, t: string)
    ensures UnescapeHead(EscapeChar(c, q) + t, q) == Some((c, |EscapeChar(c, q)|))
  {
    var s := EscapeChar(c, q) + t;
    if c == QuoteMark(q) || c == '\\' {
    } else if c == '\t' || c == '\n' || c == '\r' {
    } else if IsControl(c) {
      var hi, lo := c as int / 16, c as int % 16;
      HexRoundTrip(hi);
      HexRoundTrip(lo);
      assert s[2] == HexDigit(hi) && s[3] == HexDigit(lo);
      assert hi * 16 + lo == c as int;
    } else {
      assert s[0] == c;
    }
  }

  /** Unescape inverts Escape. */
  lemma {:induction false} UnescapeEscape(s: string, q: Quote)
    ensures Unescape(Escape(s, q), q) == Some(s)
  {
    if s != [] {
      var e := EscapeChar(s[0], q);
      var t := Escape(s[1..], q);
      UnescapeHeadEscape(s[0], q, t);
      assert (e + t)[|e|..] == t;
      UnescapeEscape(s[1..], q);
      assert [s[0]] + s[1..] == s;
    }
  }

  /** Reading back repr(s) gives s. */
  lemma StrReprRoundTrip(s: string)
    ensures ParseStrRepr(StrRepr(s)) == Some(s)
  {
    var q := ChooseQuote(s);
    var r := StrRepr(s);
    assert r[1..|r| - 1] == Escape(s, q);
    UnescapeEscape(s, q);
  }

  /** A character repr writes unchanged inside single quotes. */
  predicate Plain(c: char)
  {
    c != '\'' && c != '\\' && !IsControl(c)
  }

  lemma {:induction false} EscapePlain(s: string)
    requires forall i :: 0 <= i < |s| ==> Plain(s[i])
    ensures Escape(s, Single) == s
  {
    if s != [] {
      EscapePlain(s[1..]);
      assert [s[0]] + s[1..] == s;
    }
  }

  /** The text __repr__ gives for a loader that has not loaded its corpus. */
  function NotLoadedRepr(className: string, name: string): string
  {
    "<" + className + " in " + StrRepr(CorporaPrefix + name) + " (not loaded yet)>"
  }

  /** The fixed part of the displayed path. */
  const CorporaPrefix := ".../corpora/"

  lemma PrefixPlain()
    ensures forall i :: 0 <= i < |CorporaPrefix| ==> Plain(CorporaPrefix[i])
  {
  }

  /** A path of plain characters is written between single quotes, unchanged. */
  lemma StrReprPlain(path: string)
    requires forall i :: 0 <= i < |path| ==> Plain(path[i])
    ensures StrRepr(path) == "'" + path + "'"
  {
    assert '\'' !in path by {
      forall i | 0 <= i < |path| ensures path[i] != '\'' {
        assert Plain(path[i]);
      }
    }
    EscapePlain(path);
  }

  /** For a name of plain characters, the shape <ReaderCls in '.../corpora/name' (not loaded yet)>. */
  lemma NotLoadedReprPlain(className: string, name: string)
    requires forall i :: 0 <= i < |name| ==> Plain(name[i])
    ensures NotLoadedRepr(className, name) ==
      "<" + className + " in '.../corpora/" + name + "' (not loaded yet)>"
  {
    var path := CorporaPrefix + name;
    PrefixPlain();
    assert forall i :: 0 <= i < |path| ==> Plain(path[i]) by {
      forall i | 0 <= i < |path| ensures Plain(path[i]) {
        if i < |CorporaPrefix| { assert path[i] == CorporaPrefix[i]; }
        else { assert path[i] == name[i - |CorporaPrefix|]; }
      }
    }
    StrReprPlain(path);
    assert " in " + "'" + CorporaPrefix == " in '.../corpora/";
  }

  /** The not-loaded text names the reader class and ends with the marker; the name is readable from it. */
  lemma NotLoadedReprMentions(className: string, name: string)
    ensures var r := NotLoadedRepr(className, name);
      var p := StrRepr(CorporaPrefix + name);
      r[1..1 + |className|] == className &&
      r[5 + |className|..5 + |className| + |p|] == p &&
      ParseStrRepr(p) == Some(CorporaPrefix + name)
  {
    StrReprRoundTrip(CorporaPrefix + name);
  }
}
