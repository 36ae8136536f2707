/** Lines of text as JavaScript sees them: white space, trimming, splitting at
    line feeds, and the JSON string literals that a plan's frontmatter stores. */
module LineText {
  import opened Options

  /** JavaScript white space: the class `\s`, which `trim` uses as well. */
  predicate IsSpace(c: char) {
    || '\t' <= c <= '\r'
    || c == ' '
    || c == '\U{00a0}'
    || c == '\U{1680}'
    || '\U{2000}' <= c <= '\U{200a}'
    || c == '\U{2028}' || c == '\U{2029}'
    || c == '\U{202f}' || c == '\U{205f}' || c == '\U{3000}' || c == '\U{feff}'
  }

  /** The characters that `.` does not match in a regular expression. */
  predicate IsBreak(c: char) {
    c == '\n' || c == '\r' || c == '\U{2028}' || c == '\U{2029}'
  }

  /** The same by code point: the 25 of `\s`, and the four that `.` leaves out. */
  lemma SpacesAre(c: char)
    ensures IsBreak(c) <==> c as int in {0xa, 0xd, 0x2028, 0x2029}
    ensures IsSpace(c) <==>
            c as int in {
              0x9, 0xa, 0xb, 0xc, 0xd, 0x20, 0xa0, 0x1680,
              0x2000, 0x2001, 0x2002, 0x2003, 0x2004, 0x2005, 0x2006, 0x2007, 0x2008, 0x2009, 0x200a,
              0x2028, 0x2029, 0x202f, 0x205f, 0x3000, 0xfeff}
  {
  }

  /** `.*$` matches the whole of `s`. */
  predicate NoBreak(s: string) {
    forall i {:trigger IsBreak(s[i])} | 0 <= i < |s| :: !IsBreak(s[i])
  }

  predicate StartsWith(s: string, prefix: string) {
    |prefix| <= |s| && s[..|prefix|] == prefix
  }

  /** Length of the white space that `s` starts with. */
  function SpaceRun(s: string): (n: nat)
    ensures n <= |s|
    ensures forall i {:trigger IsSpace(s[i])} | 0 <= i < n :: IsSpace(s[i])
    ensures n < |s| ==> !IsSpace(s[n])
  {
    if s == [] || !IsSpace(s[0]) then 0 else 1 + SpaceRun(s[1..])
  }

  predicate Blank(s: string) {
    SpaceRun(s) == |s|
  }

  predicate AllSpace(s: string) {
    forall i {:trigger IsSpace(s[i])} | 0 <= i < |s| :: IsSpace(s[i])
  }

  function IndentOf(s: string): string {
    s[..SpaceRun(s)]
  }

  function TrimEnd(s: string): (t: string)
    ensures |t| <= |s| && t == s[..|t|]
    ensures t != "" ==> !IsSpace(t[|t| - 1])
    ensures forall i {:trigger IsSpace(s[i])} | |t| <= i < |s| :: IsSpace(s[i])
  {
    if s != [] && IsSpace(s[|s| - 1]) then TrimEnd(s[..|s| - 1]) else s
  }

  function Trim(s: string): string {
    TrimEnd(s[SpaceRun(s)..])
  }

  /** Between white space on both sides, `m` starts and ends with ink. */
  ghost predicate IsCore(m: string, s: string) {
    && m != "" && !IsSpace(m[0]) && !IsSpace(m[|m| - 1])
    && exists before, after :: s == before + m + after && AllSpace(before) && AllSpace(after)
  }

  /** Trimming finds the core of a text, and nothing where there is no ink. */
  lemma TrimExact(s: string, m: string)
    ensures Trim(s) == m && m != "" <==> IsCore(m, s)
    ensures Trim(s) == "" <==> AllSpace(s)
  {
    hide IsSpace, IsCore, Trim;
    if Trim(s) != "" { TrimIsCore(s); }
    if IsCore(m, s) { CoreIsTrim(m, s); }
    NothingToTrim(s);
  }

  lemma NothingToTrim(s: string)
    ensures Trim(s) == "" <==> AllSpace(s)
    ensures IsCore("", s) ==> false
  {
    hide IsSpace;
    var n := SpaceRun(s);
    if n < |s| { assert s[n..][0] == s[n]; }
  }

  lemma TrimIsCore(s: string)
    requires Trim(s) != ""
    ensures IsCore(Trim(s), s)
  {
    hide IsSpace, SpaceRun, TrimEnd;
    var before := s[..SpaceRun(s)];
    var ink := s[SpaceRun(s)..];
    var m := TrimEnd(ink);
    var after := ink[|m|..];
    assert s == before + m + after;
    assert m[0] == ink[0] == s[SpaceRun(s)];
    forall i | 0 <= i < |before| ensures IsSpace(before[i]) { assert IsSpace(s[i]); }
    forall i | 0 <= i < |after| ensures IsSpace(after[i]) { assert IsSpace(ink[|m| + i]); }
    assert AllSpace(before) && AllSpace(after);
  }

  lemma CoreIsTrim(m: string, s: string)
    requires IsCore(m, s)
    ensures Trim(s) == m
  {
    hide IsSpace, SpaceRun, TrimEnd, AllSpace;
    var before, after :| s == before + m + after && AllSpace(before) && AllSpace(after);
    var ink := m + after;
    assert s == before + ink;
    SpaceRunOfIndented(before, ink);
    assert s[|before|..] == ink;
    EndIsTrimmed(m, after);
  }

  lemma EndIsTrimmed(m: string, after: string)
    requires m != "" && !IsSpace(m[|m| - 1]) && AllSpace(after)
    ensures TrimEnd(m + after) == m
  {
    hide IsSpace, TrimEnd;
    var ink := m + after;
    var t := TrimEnd(ink);
    assert ink[|m| - 1] == m[|m| - 1];
    assert forall k {:trigger ink[k]} | |m| <= k < |ink| :: ink[k] == after[k - |m|];
    assert |t| == |m|;
    assert t == ink[..|m|] == m;
  }

  /** White space put in front of text that starts with ink is exactly its indentation. */
  lemma SpaceRunOfIndented(indent: string, ink: string)
    requires AllSpace(indent)
    requires ink != "" && !IsSpace(ink[0])
    ensures SpaceRun(indent + ink) == |indent|
  {
    var s := indent + ink;
    assert s[|indent|] == ink[0];
    assert forall i | 0 <= i < |indent| :: s[i] == indent[i];
  }

  // ---------------------------------------------------------------------
  // Splitting at line feeds and joining again
  // ---------------------------------------------------------------------

  predicate OneLine(s: string) {
    forall i | 0 <= i < |s| :: s[i] != '\n'
  }

  predicate AreLines(lines: seq<string>) {
    lines != [] && forall i | 0 <= i < |lines| :: OneLine(lines[i])
  }

  /** `text.split("\n")`. */
  function SplitLines(text: string): (lines: seq<string>)
    ensures AreLines(lines)
  {
    if text == "" then [""]
    else
      var rest := SplitLines(text[1..]);
      if text[0] == '\n' then [""] + rest else [[text[0]] + rest[0]] + rest[1..]
  }

  /** `lines.join("\n")`. */
  function JoinLines(lines: seq<string>): string
    requires lines != []
  {
    if |lines| == 1 then lines[0] else lines[0] + "\n" + JoinLines(lines[1..])
  }

  lemma {:induction false} SplitPrefix(line: string, text: string)
    requires OneLine(line)
    ensures SplitLines(line + "\n" + text) == [line] + SplitLines(text)
  {
    var s := line + "\n" + text;
    if line == "" {
      assert s[1..] == text;
    } else {
      SplitPrefix(line[1..], text);
      assert s[1..] == line[1..] + "\n" + text;
      assert [line[0]] + line[1..] == line;
    }
  }

  lemma {:induction false} SplitOneLine(line: string)
    requires OneLine(line)
    ensures SplitLines(line) == [line]
  {
    if line != "" {
      SplitOneLine(line[1..]);
      assert [line[0]] + line[1..] == line;
    }
  }

  lemma {:induction false} SplitOfJoin(lines: seq<string>)
    requires AreLines(lines)
    ensures SplitLines(JoinLines(lines)) == lines
  {
    if |lines| == 1 {
      SplitOneLine(lines[0]);
    } else {
      SplitOfJoin(lines[1..]);
      SplitPrefix(lines[0], JoinLines(lines[1..]));
    }
  }

  // ---------------------------------------------------------------------
  // JSON string literals
  // ---------------------------------------------------------------------

  function HexDigit(n: nat): char
    requires n < 16
  {
    "0123456789abcdef"[n]
  }

  function HexValue(c: char): Option<nat> {
    if '0' <= c <= '9' then Some(c as int - '0' as int)
    else if 'a' <= c <= 'f' then Some(c as int - 'a' as int + 10)
    else if 'A' <= c <= 'F' then Some(c as int - 'A' as int + 10)
    else None
  }

  /** One character of a literal as `JSON.stringify` writes it. U+2028 and U+2029 stay as they are. */
  function Escape(c: char): string {
    match c
    case '"' => "\\\""
    case '\\' => "\\\\"
    case '\U{0008}' => "\\b"
    case '\U{000c}' => "\\f"
    case '\n' => "\\n"
    case '\r' => "\\r"
    case '\t' => "\\t"
    case _ =>
      if c < ' ' then "\\u00" + [HexDigit(c as int / 16), HexDigit(c as int % 16)] else [c]
  }

  function EscapeAll(v: string): string {
    if v == "" then "" else Escape(v[0]) + EscapeAll(v[1..])
  }

  /** `JSON.stringify(v)`. */
  function Quote(v: string): string {
    "\"" + EscapeAll(v) + "\""
  }

  function CodePoint(h: string): Option<char>
    requires |h| == 4
  {
    match (HexValue(h[0]), HexValue(h[1]), HexValue(h[2]), HexValue(h[3]))
    case (Some(a), Some(b), Some(c), Some(d)) =>
      var n := ((a * 16 + b) * 16 + c) * 16 + d;
      if 0 <= n < 0xD800 || 0xE000 <= n <= 0xFFFF then Some(n as char) else Some('\U{fffd}')
    case _ => None
  }

  function SimpleEscape(c: char): Option<char> {
    match c
    case '"' => Some('"')
    case '\\' => Some('\\')
    case '/' => Some('/')
    case 'b' => Some('\U{0008}')
    case 'f' => Some('\U{000c}')
    case 'n' => Some('\n')
    case 'r' => Some('\r')
    case 't' => Some('\t')
    case _ => None
  }

  function Prepend(c: Option<char>, rest: Option<string>): Option<string> {
    if c.Some? && rest.Some? then Some([c.value] + rest.value) else None
  }

  /** What follows the opening quote of a literal, up to a closing quote that ends the text. */
  function Unescape(s: string): Option<string> {
    if s == "" then None
    else if s[0] == '"' then (if |s| == 1 then Some("") else None)
    else if s[0] < ' ' then None
    else if s[0] != '\\' then Prepend(Some(s[0]), Unescape(s[1..]))
    else if |s| < 2 then None
    else if s[1] != 'u' then Prepend(SimpleEscape(s[1]), Unescape(s[2..]))
    else if |s| < 6 then None
    else Prepend(CodePoint(s[2..6]), Unescape(s[6..]))
  }

  /** A stored scalar: a JSON literal where it parses as one, and the trimmed text otherwise. */
  function Unquote(v: string): string {
    var t := Trim(v);
    if StartsWith(t, "\"") then
      match Unescape(t[1..])
      case Some(u) => u
      case None => t
    else t
  }

  lemma {:induction false} UnescapeStep(c: char, rest: string)
    requires Unescape(rest).Some?
    ensures Unescape(Escape(c) + rest) == Some([c] + Unescape(rest).value)
  {
    hide IsSpace, Trim, CodePoint, HexDigit;
    var e := Escape(c);
    var s := e + rest;
    assert s[|e|..] == rest;
    if |e| == 6 {
      assert s[2..6] == e[2..6];
      DecodedControl(c);
    }
  }

  /** Four hexadecimal digits read back as the control character they stand for. */
  lemma DecodedControl(c: char)
    requires |Escape(c)| == 6
    ensures CodePoint(Escape(c)[2..6]) == Some(c)
  {
    hide Unescape, Trim;
    assert Escape(c)[2..6] == ['0', '0', HexDigit(c as int / 16), HexDigit(c as int % 16)];
  }

  lemma {:induction false} UnescapeOfEscape(v: string)
    ensures Unescape(EscapeAll(v) + "\"") == Some(v)
  {
    if v != "" {
      UnescapeOfEscape(v[1..]);
      UnescapeStep(v[0], EscapeAll(v[1..]) + "\"");
      assert EscapeAll(v) + "\"" == Escape(v[0]) + (EscapeAll(v[1..]) + "\"");
      assert [v[0]] + v[1..] == v;
    }
  }

  /** Reading a stored scalar back gives the value that was written. */
  lemma {:induction false} UnquoteOfQuote(v: string)
    ensures Unquote(Quote(v)) == v
  {
    var q := Quote(v);
    assert SpaceRun(q) == 0 && q[0..] == q;
    assert q[|q| - 1] == '"' && Trim(q) == q;
    UnescapeOfEscape(v);
    assert q[1..] == EscapeAll(v) + "\"";
  }

  /** Characters that `JSON.stringify` leaves raw although `.` does not match them. */
  predicate LineSafe(v: string) {
    forall i | 0 <= i < |v| :: v[i] != '\U{2028}' && v[i] != '\U{2029}'
  }

  lemma EscapeBreaks(c: char)
    ensures NoBreak(Escape(c)) <==> c != '\U{2028}' && c != '\U{2029}'
    ensures OneLine(Escape(c))
  {
    var e := Escape(c);
    if |e| == 6 {
      assert '0' <= e[4] <= 'f' && '0' <= e[5] <= 'f';
      assert NoBreak(e);
    } else if |e| == 1 {
      assert e[0] == c && (NoBreak(e) <==> !IsBreak(e[0]));
    } else {
      assert NoBreak(e);
    }
  }

  lemma NoBreakConcat(a: string, b: string)
    ensures NoBreak(a + b) <==> NoBreak(a) && NoBreak(b)
    ensures OneLine(a + b) <==> OneLine(a) && OneLine(b)
  {
    var s := a + b;
    assert forall i | 0 <= i < |a| :: s[i] == a[i];
    assert forall i | 0 <= i < |b| :: s[|a| + i] == b[i];
  }

  lemma {:induction false} EscapeAllBreaks(v: string)
    ensures NoBreak(EscapeAll(v)) <==> LineSafe(v)
    ensures OneLine(EscapeAll(v))
  {
    hide Escape, NoBreak, OneLine, LineSafe;
    if v == "" {
      NothingBreaks();
    } else {
      EscapeAllBreaks(v[1..]);
      EscapeBreaks(v[0]);
      NoBreakConcat(Escape(v[0]), EscapeAll(v[1..]));
      LineSafeStep(v);
    }
  }

  lemma NothingBreaks()
    ensures NoBreak("") && OneLine("") && LineSafe("")
  {
  }

  lemma LineSafeStep(v: string)
    requires v != ""
    ensures LineSafe(v) <==> v[0] != '\U{2028}' && v[0] != '\U{2029}' && LineSafe(v[1..])
  {
    assert forall i | 1 <= i < |v| :: v[i] == v[1..][i - 1];
  }

  /** A quoted value is always one line of the file, but `.*$` matches it only when it is line-safe. */
  lemma QuoteBreaks(v: string)
    ensures NoBreak(Quote(v)) <==> LineSafe(v)
    ensures OneLine(Quote(v))
  {
    EscapeAllBreaks(v);
    var e, q := EscapeAll(v), Quote(v);
    assert q[0] == '"' && q[|q| - 1] == '"';
    assert forall i | 0 <= i < |e| :: q[1 + i] == e[i];
  }
}
