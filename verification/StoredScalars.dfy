/** JSON string literals piece by piece: what each character is written as, and what a literal reads as. */
module StoredScalars {
  import opened Options
  import opened LineText

  function Flat(pieces: seq<string>): string {
    if pieces == [] then "" else pieces[0] + Flat(pieces[1..])
  }

  const SMALL := "0123456789abcdef"
  const LARGE := "0123456789ABCDEF"

  /** One character as it is written: a short escape, a code of two digits below the space, or itself. */
  predicate IsWritten(c: char, piece: string) {
    if c == '"' then piece == ['\\', '"']
    else if c == '\\' then piece == ['\\', '\\']
    else if c as int == 8 then piece == "\\b"
    else if c as int == 9 then piece == "\\t"
    else if c as int == 10 then piece == "\\n"
    else if c as int == 12 then piece == "\\f"
    else if c as int == 13 then piece == "\\r"
    else if c as int < 32 then piece == "\\u00" + [SMALL[c as int / 16]] + [SMALL[c as int % 16]]
    else piece == [c]
  }

  lemma EscapeMeans(c: char, piece: string)
    ensures Escape(c) == piece <==> IsWritten(c, piece)
  {
  }

  /** A value is quoted character by character. */
  lemma {:induction false} QuoteMeans(v: string, pieces: seq<string>)
    requires |pieces| == |v| && forall i | 0 <= i < |v| :: IsWritten(v[i], pieces[i])
    ensures Quote(v) == "\"" + Flat(pieces) + "\""
    ensures EscapeAll(v) == Flat(pieces)
  {
    hide IsWritten, Escape;
    if v != "" {
      EscapeMeans(v[0], pieces[0]);
      QuoteMeans(v[1..], pieces[1..]);
    }
  }

  /** The hexadecimal digit of either case. */
  predicate IsDigitOf(h: char, n: int) {
    0 <= n < 16 && (h == SMALL[n] || h == LARGE[n])
  }

  lemma DigitMeans(h: char, n: nat)
    ensures HexValue(h) == Some(n) <==> IsDigitOf(h, n)
  {
  }

  /** Four digits, the first counting most. Half of a surrogate pair reads as the replacement character. */
  predicate IsCodeOf(w: int, x: int, y: int, z: int, c: char) {
    var n := 4096 * w + 256 * x + 16 * y + z;
    c as int == if 0xD800 <= n <= 0xDFFF then 0xFFFD else n
  }

  ghost predicate IsCode(h: string, c: char) {
    |h| == 4 && exists w, x, y, z ::
      && IsDigitOf(h[0], w) && IsDigitOf(h[1], x) && IsDigitOf(h[2], y) && IsDigitOf(h[3], z)
      && IsCodeOf(w, x, y, z, c)
  }

  lemma CodePointIs(h: string, w: nat, x: nat, y: nat, z: nat, c: char)
    requires |h| == 4 && w < 16 && x < 16 && y < 16 && z < 16
    requires HexValue(h[0]) == Some(w) && HexValue(h[1]) == Some(x)
    requires HexValue(h[2]) == Some(y) && HexValue(h[3]) == Some(z)
    ensures CodePoint(h) == Some(c) <==> IsCodeOf(w, x, y, z, c)
  {
    hide HexValue;
    var n := 4096 * w + 256 * x + 16 * y + z;
    assert ((w * 16 + x) * 16 + y) * 16 + z == n;
  }

  lemma CodeMeans(h: string, c: char)
    requires |h| == 4
    ensures CodePoint(h) == Some(c) <==> IsCode(h, c)
  {
    hide HexValue, IsDigitOf, IsCodeOf, CodePoint;
    if CodePoint(h) == Some(c) {
      AllDigits(h);
      var w, x, y, z := HexValue(h[0]).value, HexValue(h[1]).value, HexValue(h[2]).value, HexValue(h[3]).value;
      DigitsAre(h, w, x, y, z);
      CodePointIs(h, w, x, y, z, c);
    }
    if IsCode(h, c) {
      var w, x, y, z :|
        && IsDigitOf(h[0], w) && IsDigitOf(h[1], x) && IsDigitOf(h[2], y) && IsDigitOf(h[3], z)
        && IsCodeOf(w, x, y, z, c);
      DigitsAreSmall(h[0], w);
      DigitsAreSmall(h[1], x);
      DigitsAreSmall(h[2], y);
      DigitsAreSmall(h[3], z);
      DigitsAre(h, w, x, y, z);
      CodePointIs(h, w, x, y, z, c);
    }
  }

  lemma AllDigits(h: string)
    requires |h| == 4 && CodePoint(h).Some?
    ensures HexValue(h[0]).Some? && HexValue(h[1]).Some? && HexValue(h[2]).Some? && HexValue(h[3]).Some?
  {
    hide HexValue;
  }

  lemma DigitsAre(h: string, w: nat, x: nat, y: nat, z: nat)
    requires |h| == 4
    ensures HexValue(h[0]) == Some(w) <==> IsDigitOf(h[0], w)
    ensures HexValue(h[1]) == Some(x) <==> IsDigitOf(h[1], x)
    ensures HexValue(h[2]) == Some(y) <==> IsDigitOf(h[2], y)
    ensures HexValue(h[3]) == Some(z) <==> IsDigitOf(h[3], z)
    ensures IsDigitOf(h[0], w) && IsDigitOf(h[1], x) && IsDigitOf(h[2], y) && IsDigitOf(h[3], z) ==>
              w < 16 && x < 16 && y < 16 && z < 16
  {
    hide HexValue, IsDigitOf;
    DigitMeans(h[0], w);
    DigitMeans(h[1], x);
    DigitMeans(h[2], y);
    DigitMeans(h[3], z);
    if IsDigitOf(h[0], w) { DigitsAreSmall(h[0], w); }
    if IsDigitOf(h[1], x) { DigitsAreSmall(h[1], x); }
    if IsDigitOf(h[2], y) { DigitsAreSmall(h[2], y); }
    if IsDigitOf(h[3], z) { DigitsAreSmall(h[3], z); }
  }

  lemma DigitsAreSmall(h: char, n: int)
    requires IsDigitOf(h, n)
    ensures 0 <= n < 16
  {
  }

  /** A piece of a literal that stands for one character. */
  ghost predicate StandsFor(piece: string, c: char) {
    || (piece == [c] && c as int >= 32 && c != '"' && c != '\\')
    || (piece == ['\\', '"'] && c == '"') || (piece == ['\\', '\\'] && c == '\\') || (piece == "\\/" && c == '/')
    || (piece == "\\b" && c as int == 8) || (piece == "\\t" && c as int == 9) || (piece == "\\n" && c as int == 10)
    || (piece == "\\f" && c as int == 12) || (piece == "\\r" && c as int == 13)
    || (|piece| == 6 && piece[..2] == "\\u" && IsCode(piece[2..], c))
  }

  ghost predicate Spells(pieces: seq<string>, v: string) {
    |pieces| == |v| && forall i | 0 <= i < |v| :: StandsFor(pieces[i], v[i])
  }

  /** After the opening quote, a text is a literal for `v` when it is in pieces, and then comes the
      closing quote and nothing more. */
  ghost predicate IsLiteral(s: string, v: string) {
    exists pieces :: s == Flat(pieces) + "\"" && Spells(pieces, v)
  }

  lemma PieceIs(piece: string, c: char, rest: string)
    requires StandsFor(piece, c)
    ensures Unescape(piece + rest) == Prepend(Some(c), Unescape(rest))
  {
    hide IsCode, CodePoint;
    var s := piece + rest;
    assert s[|piece|..] == rest;
    if |piece| == 6 {
      assert s[2..6] == piece[2..];
      CodeMeans(piece[2..], c);
    }
  }

  /** The first piece of what can be read. */
  lemma FirstPiece(s: string) returns (n: nat)
    requires Unescape(s).Some? && s[0] != '"'
    ensures 0 < n <= |s| && Unescape(s).value != ""
    ensures StandsFor(s[..n], Unescape(s).value[0])
    ensures Unescape(s[n..]) == Some(Unescape(s).value[1..])
  {
    hide IsCode, CodePoint;
    if s[0] != '\\' {
      n := 1;
      assert s[..1] == [s[0]];
    } else if s[1] != 'u' {
      n := 2;
      assert s[..2] == [s[0], s[1]];
    } else {
      n := 6;
      assert s[..6][2..] == s[2..6];
      assert s[..6][..2] == "\\u";
      CodeMeans(s[2..6], Unescape(s).value[0]);
    }
  }

  lemma {:induction false} LiteralIsRead(pieces: seq<string>, v: string)
    requires Spells(pieces, v)
    ensures Unescape(Flat(pieces) + "\"") == Some(v)
    decreases |pieces|
  {
    hide StandsFor, Unescape;
    if pieces == [] {
      QuoteEnds();
      assert Flat(pieces) + "\"" == "\"";
    } else {
      LiteralIsRead(pieces[1..], v[1..]);
      PieceIs(pieces[0], v[0], Flat(pieces[1..]) + "\"");
      assert Flat(pieces) + "\"" == pieces[0] + (Flat(pieces[1..]) + "\"");
      assert v == [v[0]] + v[1..];
    }
  }

  lemma QuoteEnds()
    ensures Unescape("\"") == Some("")
  {
  }

  lemma {:induction false} ReadIsLiteral(s: string) returns (pieces: seq<string>)
    requires Unescape(s).Some?
    ensures s == Flat(pieces) + "\"" && Spells(pieces, Unescape(s).value)
    decreases |s|
  {
    hide StandsFor;
    if s[0] == '"' {
      pieces := [];
    } else {
      var n := FirstPiece(s);
      var rest := ReadIsLiteral(s[n..]);
      pieces := [s[..n]] + rest;
      PutInFront(s, n, rest, Unescape(s).value);
    }
  }

  lemma PutInFront(s: string, n: nat, rest: seq<string>, v: string)
    requires n <= |s| && v != "" && s[n..] == Flat(rest) + "\""
    requires StandsFor(s[..n], v[0]) && Spells(rest, v[1..])
    ensures s == Flat([s[..n]] + rest) + "\"" && Spells([s[..n]] + rest, v)
  {
    hide StandsFor;
    var pieces := [s[..n]] + rest;
    assert pieces[1..] == rest;
    assert s == s[..n] + s[n..] == s[..n] + (Flat(rest) + "\"");
    forall i | 0 <= i < |v| ensures StandsFor(pieces[i], v[i]) {
      if i > 0 { assert StandsFor(rest[i - 1], v[1..][i - 1]); }
    }
  }

  /** Reading is exact: it gives `v` just for the literals of `v`. */
  lemma UnescapeMeans(s: string, v: string)
    ensures Unescape(s) == Some(v) <==> IsLiteral(s, v)
  {
    hide Unescape, Spells, StandsFor, Flat;
    if Unescape(s) == Some(v) { var pieces := ReadIsLiteral(s); }
    if pieces :| s == Flat(pieces) + "\"" && Spells(pieces, v) { LiteralIsRead(pieces, v); }
  }

  /** A stored value with white space around it: a literal gives what it stands for, anything else the
      text between the white space. */
  lemma UnquoteMeans(text: string, core: string)
    requires IsCore(core, text)
    ensures core[0] != '"' ==> Unquote(text) == core
    ensures forall v | core[0] == '"' && IsLiteral(core[1..], v) :: Unquote(text) == v
    ensures core[0] == '"' && (forall v :: !IsLiteral(core[1..], v)) ==> Unquote(text) == core
  {
    hide IsCore, IsLiteral, Unescape, Trim;
    TrimExact(text, core);
    CoreIsText(core, text);
    forall v ensures Unescape(core[1..]) == Some(v) <==> IsLiteral(core[1..], v) { UnescapeMeans(core[1..], v); }
    if Unescape(core[1..]).Some? { assert IsLiteral(core[1..], Unescape(core[1..]).value); }
    assert StartsWith(core, "\"") <==> core[0] == '"';
  }

  lemma CoreIsText(core: string, text: string)
    requires IsCore(core, text)
    ensures core != ""
  {
    hide IsSpace;
  }

  /** Without ink it is the empty text. */
  lemma UnquoteOfNothing(text: string)
    requires AllSpace(text)
    ensures Unquote(text) == ""
  {
    hide Trim, AllSpace;
    TrimExact(text, "");
  }
}
