/** Splitting a module's export list at its top-level commas. */
module ExportList {
  import opened Options

  datatype Result = Items(items: seq<string>) | BlockComment | Unbalanced

  // ---------------------------------------------------------------------
  // Strings as Python sees them
  // ---------------------------------------------------------------------

  /** The characters that `splitlines` ends a line at. */
  predicate IsBreak(c: char) {
    || '\n' <= c <= '\r' || '\U{1c}' <= c <= '\U{1e}' || c == '\U{85}' || c == '\U{2028}' || c == '\U{2029}'
  }

  /** The characters that `split` without arguments separates words at. */
  predicate IsSpace(c: char) {
    || IsBreak(c) || c == '\t' || c == '\U{1f}' || c == ' ' || c == '\U{a0}' || c == '\U{1680}'
    || '\U{2000}' <= c <= '\U{200a}' || c == '\U{202f}' || c == '\U{205f}' || c == '\U{3000}'
  }

  /** The same by code point: the ten that `splitlines` knows, and the 29 that `split` knows. */
  lemma SpacesAre(c: char)
    ensures IsBreak(c) <==> c as int in {0xa, 0xb, 0xc, 0xd, 0x1c, 0x1d, 0x1e, 0x85, 0x2028, 0x2029}
    ensures IsSpace(c) <==>
            c as int in {
              0x9, 0xa, 0xb, 0xc, 0xd, 0x1c, 0x1d, 0x1e, 0x1f, 0x20, 0x85, 0xa0, 0x1680,
              0x2000, 0x2001, 0x2002, 0x2003, 0x2004, 0x2005, 0x2006, 0x2007, 0x2008, 0x2009, 0x200a,
              0x2028, 0x2029, 0x202f, 0x205f, 0x3000}
  {
  }

  /** `a + b in s` for two characters. */
  predicate HasPair(s: string, a: char, b: char) {
    exists k :: 0 < k < |s| && s[k - 1] == a && s[k] == b
  }

  function Join(parts: seq<string>, separator: string): string {
    if parts == [] then ""
    else if |parts| == 1 then parts[0]
    else Join(parts[..|parts| - 1], separator) + separator + parts[|parts| - 1]
  }

  function LineLength(s: string): (n: nat)
    ensures n <= |s|
  {
    if s == "" || IsBreak(s[0]) then 0 else 1 + LineLength(s[1..])
  }

  /** `splitlines`: a carriage return and line feed end one line together. */
  function Lines(s: string): seq<string>
    decreases |s|
  {
    if s == "" then []
    else
      var n := LineLength(s);
      if n == |s| then [s]
      else [s[..n]] + Lines(s[if s[n] == '\r' && n + 1 < |s| && s[n + 1] == '\n' then n + 2 else n + 1..])
  }

  function DashesAt(line: string): (n: nat)
    ensures n <= |line|
    ensures !HasPair(line[..n], '-', '-')
  {
    if |line| < 2 then |line|
    else if line[0] == '-' && line[1] == '-' then 0
    else
      var n := 1 + DashesAt(line[1..]);
      assert forall k | 0 < k < n :: line[..n][k] == line[k] && (k > 1 ==> line[1..][..n - 1][k - 1] == line[k]);
      assert forall k {:trigger line[..n][k - 1]} | 1 < k < n :: line[1..][..n - 1][k - 2] == line[k - 1];
      n
  }

  /** A comment starts at the first two dashes next to each other. */
  lemma {:induction false} DashesExact(line: string)
    ensures var n := DashesAt(line);
            && (n < |line| ==> n + 1 < |line| && line[n] == '-' && line[n + 1] == '-')
            && forall k | 0 <= k < n && k + 1 < |line| :: !(line[k] == '-' && line[k + 1] == '-')
  {
    if |line| >= 2 && !(line[0] == '-' && line[1] == '-') {
      DashesExact(line[1..]);
      assert forall k {:trigger line[k]} | 1 <= k < |line| :: line[k] == line[1..][k - 1];
    }
  }

  /** The line without its comment. */
  function BeforeDashes(line: string): string {
    line[..DashesAt(line)]
  }

  function Stripped(lines: seq<string>): seq<string> {
    seq(|lines|, i requires 0 <= i < |lines| => BeforeDashes(lines[i]))
  }

  function Uncommented(text: string): string {
    Join(Stripped(Lines(text)), "\n")
  }

  /** `split`: the words between white space. */
  function Words(s: string): (words: seq<string>)
    ensures s != "" && !IsSpace(s[|s| - 1]) ==> words != []
  {
    if s == "" then []
    else
      var n := |s| - 1;
      var before := Words(s[..n]);
      if IsSpace(s[n]) then before
      else if n == 0 || IsSpace(s[n - 1]) then before + [[s[n]]]
      else before[..|before| - 1] + [before[|before| - 1] + [s[n]]]
  }

  /** The words with single spaces between them. */
  function Normalised(s: string): string {
    Join(Words(s), " ")
  }

  // ---------------------------------------------------------------------
  // Parentheses and commas
  // ---------------------------------------------------------------------

  /** The depth after reading `s` from depth `depth`; none when a parenthesis closes that was not
      open, or, unless `commas`, when a comma is outside all parentheses. */
  function Scan(s: string, depth: nat, commas: bool): Option<nat> {
    if s == "" then Some(depth)
    else if s[0] == '(' then Scan(s[1..], depth + 1, commas)
    else if s[0] == ')' then (if depth == 0 then None else Scan(s[1..], depth - 1, commas))
    else if s[0] == ',' && depth == 0 && !commas then None
    else Scan(s[1..], depth, commas)
  }

  predicate Balanced(s: string) {
    Scan(s, 0, true) == Some(0)
  }

  /** Balanced, and no comma outside the parentheses. */
  predicate Whole(s: string) {
    Scan(s, 0, false) == Some(0)
  }

  /** The text between the top-level commas. */
  function Segments(s: string): (segments: seq<string>)
    ensures segments != []
  {
    if s == "" then [""]
    else
      var n := |s| - 1;
      var before := Segments(s[..n]);
      if s[n] == ',' && Scan(s[..n], 0, true) == Some(0) then before + [""]
      else before[..|before| - 1] + [before[|before| - 1] + [s[n]]]
  }

  function Filled(segments: seq<string>): seq<string> {
    if segments == [] then []
    else
      var item := Normalised(segments[|segments| - 1]);
      Filled(segments[..|segments| - 1]) + (if item != "" then [item] else [])
  }

  function Split(exports: string): Result {
    if HasPair(exports, '{', '-') || HasPair(exports, '-', '}') then BlockComment
    else if !Balanced(Uncommented(exports)) then Unbalanced
    else Items(Filled(Segments(Uncommented(exports))))
  }

  lemma {:induction false} ScanConcat(a: string, b: string, depth: nat, commas: bool)
    ensures Scan(a + b, depth, commas) ==
            match Scan(a, depth, commas) { case Some(d) => Scan(b, d, commas) case None => None }
  {
    if a == "" {
      assert a + b == b;
    } else {
      assert (a + b)[1..] == a[1..] + b;
      if a[0] == '(' { ScanConcat(a[1..], b, depth + 1, commas); }
      else if a[0] == ')' { if depth > 0 { ScanConcat(a[1..], b, depth - 1, commas); } }
      else { ScanConcat(a[1..], b, depth, commas); }
    }
  }

  lemma ScanStep(s: string, c: char, commas: bool)
    ensures Scan(s + [c], 0, commas) ==
            match Scan(s, 0, commas) {
              case None => None
              case Some(d) =>
                if c == '(' then Some(d + 1)
                else if c == ')' then (if d == 0 then None else Some(d - 1))
                else if c == ',' && d == 0 && !commas then None
                else Some(d)
            }
  {
    ScanConcat(s, [c], 0, commas);
    match Scan(s, 0, commas)
    case None =>
    case Some(d) =>
      assert [c][1..] == "";
      assert Scan([c][1..], d, commas) == Some(d);
  }

  /** The loop of the splitter: it reads the text once, keeps the depth, and cuts at depth zero. */
  method SplitTopLevelExports(exports: string) returns (r: Result)
    ensures r == Split(exports)
  {
    hide *;
    SplitIs(exports);
    SegmentsStep("", ',');
    if HasPair(exports, '{', '-') || HasPair(exports, '-', '}') { return BlockComment; }
    var uncommented := Uncommented(exports);
    var items: seq<string> := [];
    var current := "";
    var depth: int := 0;
    ghost var done: seq<string> := [];
    ScanNothing(true);
    FilledStep([], "");
    for i := 0 to |uncommented|
      invariant depth >= 0 && Scan(uncommented[..i], 0, true) == Some(depth)
      invariant Segments(uncommented[..i]) == done + [current]
      invariant items == Filled(done)
    {
      var character := uncommented[i];
      ghost var here := uncommented[..i];
      OneMore(uncommented, i);
      SegmentsOnto(here, character, done, current);
      ScanStep(here, character, true);
      FilledStep(done, current);
      if character == '(' {
        depth := depth + 1;
      } else if character == ')' {
        depth := depth - 1;
        if depth < 0 {
          return Unbalanced;
        }
      }
      if character == ',' && depth == 0 {
        var item := Normalised(current);
        if item != "" { items := items + [item]; }
        done := done + [current];
        current := "";
      } else {
        current := current + [character];
      }
    }
    assert uncommented[..|uncommented|] == uncommented;
    if depth != 0 { return Unbalanced; }
    var item := Normalised(current);
    FilledStep(done, current);
    if item != "" { items := items + [item]; }
    return Items(items);
  }

  lemma SplitIs(exports: string)
    ensures Split(exports) ==
            if HasPair(exports, '{', '-') || HasPair(exports, '-', '}') then BlockComment
            else if Scan(Uncommented(exports), 0, true) != Some(0) then Unbalanced
            else Items(Filled(Segments(Uncommented(exports))))
  {
    hide Scan, Uncommented, HasPair, Filled, Segments;
  }

  /** One character more of a text, and what it costs when the scan fails there. */
  lemma OneMore(s: string, i: nat)
    requires i < |s|
    ensures s[..i + 1] == s[..i] + [s[i]]
    ensures Scan(s[..i + 1], 0, true) == None ==> Scan(s, 0, true) == None
  {
    hide Scan;
    assert s == s[..i + 1] + s[i + 1..];
    ScanConcat(s[..i + 1], s[i + 1..], 0, true);
  }

  lemma SegmentsOnto(s: string, c: char, done: seq<string>, current: string)
    requires Segments(s) == done + [current]
    ensures Segments(s + [c]) ==
            if c == ',' && Scan(s, 0, true) == Some(0) then done + [current] + [""] else done + [current + [c]]
  {
    hide Scan, Segments;
    SegmentsStep(s, c);
    assert (done + [current])[..|done|] == done;
  }

  lemma SegmentsStep(s: string, c: char)
    ensures Segments("") == [""]
    ensures Segments(s + [c]) ==
            var before := Segments(s);
            if c == ',' && Scan(s, 0, true) == Some(0) then before + [""]
            else before[..|before| - 1] + [before[|before| - 1] + [c]]
  {
    hide Scan;
    assert (s + [c])[..|s|] == s;
  }

  lemma FilledStep(done: seq<string>, current: string)
    ensures Filled(done + [current]) == Filled(done) + (if Normalised(current) != "" then [Normalised(current)] else [])
    ensures Filled([]) == []
  {
    assert (done + [current])[..|done|] == done;
  }

  // ---------------------------------------------------------------------
  // What balance and segments mean
  // ---------------------------------------------------------------------

  /** Opening parentheses less closing ones. */
  function Depth(s: string): int {
    if s == "" then 0
    else Depth(s[..|s| - 1]) + (if s[|s| - 1] == '(' then 1 else if s[|s| - 1] == ')' then -1 else 0)
  }

  predicate NeverBelow(s: string) {
    forall k | 0 <= k <= |s| :: Depth(s[..k]) >= 0
  }

  predicate CommasInside(s: string) {
    forall k | 0 <= k < |s| && s[k] == ',' :: Depth(s[..k]) > 0
  }

  /** A scan goes through exactly when no prefix closes more than it opens and, where that matters,
      every comma is inside parentheses; it ends at the difference. */
  lemma {:induction false} ScanMeans(s: string, commas: bool)
    ensures Scan(s, 0, commas).Some? <==> NeverBelow(s) && (commas || CommasInside(s))
    ensures Scan(s, 0, commas).Some? ==> Scan(s, 0, commas).value == Depth(s)
  {
    hide Scan;
    if s == "" {
      ScanNothing(commas);
    } else {
      var n := |s| - 1;
      ScanMeans(s[..n], commas);
      ScanStep(s[..n], s[n], commas);
      assert s == s[..n] + [s[n]] && s[..|s|] == s;
      assert forall k | 0 <= k <= n :: s[..n][..k] == s[..k];
    }
  }

  lemma ScanNothing(commas: bool)
    ensures Scan("", 0, commas) == Some(0) && Depth("") == 0
  {
  }
}
