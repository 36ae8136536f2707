/** The splitter's segments are the one way to cut the text into whole items, and joining what it
    returns and splitting again gives the same items. */
module ExportRoundTrip {
  import opened Options
  import opened ExportList

  // ---------------------------------------------------------------------
  // Segments are the only way to cut
  // ---------------------------------------------------------------------

  lemma JoinStep(parts: seq<string>, separator: string, last: string)
    ensures Join(parts + [last], separator) == if parts == [] then last else Join(parts, separator) + separator + last
  {
    assert (parts + [last])[..|parts|] == parts;
  }

  /** Extending the last part extends the joined text. */
  lemma JoinGrows(parts: seq<string>, separator: string, last: string, more: string)
    ensures Join(parts + [last + more], separator) == Join(parts + [last], separator) + more
  {
    hide Join;
    JoinStep(parts, separator, last);
    JoinStep(parts, separator, last + more);
    if parts != [] {
      assert Join(parts, separator) + separator + (last + more) == Join(parts, separator) + separator + last + more;
    }
  }

  /** Joined by commas, the segments are the text again. All but the last are whole items, and so is
      the last when the text is balanced. */
  lemma {:induction false} SegmentsAre(s: string)
    requires Scan(s, 0, true).Some?
    ensures Join(Segments(s), ",") == s
    ensures forall i | 0 <= i < |Segments(s)| - 1 :: Whole(Segments(s)[i])
    ensures Scan(Segments(s)[|Segments(s)| - 1], 0, false) == Scan(s, 0, true)
  {
    hide Scan, Segments, Join;
    if s == "" {
      SegmentsStep("", ',');
      ScanNothing(true);
      ScanNothing(false);
      JoinStep([], ",", "");
      assert [] + [""] == [""];
    } else {
      var n := |s| - 1;
      var c := s[n];
      assert s == s[..n] + [c];
      ScanStep(s[..n], c, true);
      SegmentsAre(s[..n]);
      SegmentsStep(s[..n], c);
      var before := Segments(s[..n]);
      var init, last := before[..|before| - 1], before[|before| - 1];
      assert before == init + [last];
      ScanStep(last, c, false);
      ScanNothing(false);
      JoinStep(before, ",", "");
      JoinGrows(init, ",", last, [c]);
    }
  }

  /** Reading a whole item more only extends the last segment. */
  lemma {:induction false} SegmentsGrow(s: string, item: string)
    requires Scan(s, 0, true) == Some(0) && Scan(item, 0, false).Some?
    ensures Segments(s + item) == Segments(s)[..|Segments(s)| - 1] + [Segments(s)[|Segments(s)| - 1] + item]
    ensures Scan(s + item, 0, true) == Scan(item, 0, false)
  {
    hide Scan, Segments;
    if item == "" {
      assert s + item == s;
      ScanNothing(false);
      var last := Segments(s)[|Segments(s)| - 1];
      assert last + item == last;
    } else {
      var n := |item| - 1;
      var c := item[n];
      assert item == item[..n] + [c];
      assert s + item == (s + item[..n]) + [c];
      ScanStep(item[..n], c, false);
      SegmentsGrow(s, item[..n]);
      ScanStep(s + item[..n], c, true);
      SegmentsStep(s + item[..n], c);
      var init, last := Segments(s)[..|Segments(s)| - 1], Segments(s)[|Segments(s)| - 1];
      assert (init + [last + item[..n]])[..|init|] == init;
      assert last + item[..n] + [c] == last + item;
    }
  }

  /** There is no other way to cut: whole items joined by commas are cut into just those items. */
  lemma {:induction false} SegmentsOfJoin(parts: seq<string>)
    requires parts != [] && forall i | 0 <= i < |parts| :: Whole(parts[i])
    ensures Segments(Join(parts, ",")) == parts
    ensures Balanced(Join(parts, ","))
  {
    hide Scan, Segments, Join;
    var n := |parts| - 1;
    var init, last := parts[..n], parts[n];
    assert parts == init + [last];
    JoinStep(init, ",", last);
    ScanNothing(true);
    if n == 0 {
      SegmentsStep("", ',');
      SegmentsGrow("", last);
      assert "" + last == last;
    } else {
      SegmentsOfJoin(init);
      var before := Join(init, ",");
      SegmentsStep(before, ',');
      ScanStep(before, ',', true);
      assert before + "," + last == (before + [',']) + last;
      SegmentsGrow(before + [','], last);
      assert "" + last == last;
    }
  }

  // ---------------------------------------------------------------------
  // Normalising
  // ---------------------------------------------------------------------

  predicate EndsInk(s: string) {
    s != "" && !IsSpace(s[|s| - 1])
  }

  lemma NormalisedStep(s: string, c: char)
    ensures Normalised("") == ""
    ensures IsSpace(c) ==> Normalised(s + [c]) == Normalised(s)
    ensures !IsSpace(c) && EndsInk(s) ==> Normalised(s + [c]) == Normalised(s) + [c]
    ensures !IsSpace(c) && !EndsInk(s) ==>
              Normalised(s + [c]) == if Words(s) == [] then [c] else Normalised(s) + " " + [c]
  {
    hide IsSpace, Join;
    assert (s + [c])[..|s|] == s;
    JoinNothing();
    if !IsSpace(c) {
      if EndsInk(s) {
        var words := Words(s);
        assert words == words[..|words| - 1] + [words[|words| - 1]];
        JoinGrows(words[..|words| - 1], " ", words[|words| - 1], [c]);
      } else {
        JoinStep(Words(s), " ", [c]);
      }
    }
  }

  lemma JoinNothing()
    ensures Join([], " ") == "" && Words("") == []
  {
  }

  /** Normalising keeps the last ink, drops everything only of text without ink, and leaves no white
      space but spaces. */
  lemma {:induction false} NormalisedEnds(s: string)
    ensures Normalised(s) == "" <==> Words(s) == []
    ensures Normalised(s) != "" ==> EndsInk(Normalised(s))
    ensures EndsInk(s) ==> Normalised(s) != "" && Normalised(s)[|Normalised(s)| - 1] == s[|s| - 1]
    ensures forall k | 0 <= k < |Normalised(s)| :: IsSpace(Normalised(s)[k]) ==> Normalised(s)[k] == ' '
  {
    hide IsSpace, Normalised;
    if s == "" {
      NormalisedStep("", ' ');
    } else {
      var n := |s| - 1;
      assert s == s[..n] + [s[n]];
      NormalisedEnds(s[..n]);
      NormalisedStep(s[..n], s[n]);
    }
  }

  lemma InkIsNotSpace(c: char)
    requires c == '(' || c == ')' || c == ',' || c == '-' || c == '{' || c == '}'
    ensures !IsSpace(c)
  {
  }

  lemma ScanSpace(s: string, c: char, commas: bool)
    requires IsSpace(c)
    ensures Scan(s + [c], 0, commas) == Scan(s, 0, commas)
  {
    hide Scan, IsSpace;
    ScanStep(s, c, commas);
    if c == '(' || c == ')' || c == ',' { InkIsNotSpace(c); }
  }

  lemma SpaceIsSpace()
    ensures IsSpace(' ')
  {
  }

  /** White space does not matter to balance and commas. */
  lemma {:induction false} ScanNormalised(s: string, commas: bool)
    ensures Scan(Normalised(s), 0, commas) == Scan(s, 0, commas)
  {
    hide Scan, Normalised, IsSpace;
    NormalisedStep("", ' ');
    if s != "" {
      var n := |s| - 1;
      var c := s[n];
      assert s == s[..n] + [c];
      var t := Normalised(s[..n]);
      ScanNormalised(s[..n], commas);
      NormalisedStep(s[..n], c);
      NormalisedEnds(s[..n]);
      ScanStep(s[..n], c, commas);
      ScanStep(t, c, commas);
      SpaceIsSpace();
      ScanSpace(t, ' ', commas);
      assert t + [' '] == t + " ";
      ScanStep(t + " ", c, commas);
      if IsSpace(c) { ScanSpace(s[..n], c, commas); }
      assert "" + [c] == [c];
    }
  }

  /** Normalising twice does no more than normalising once. */
  lemma {:induction false} NormalisedTwice(s: string)
    ensures Normalised(Normalised(s)) == Normalised(s)
  {
    hide Normalised, IsSpace, Words;
    NormalisedStep("", ' ');
    if s != "" {
      var n := |s| - 1;
      var c := s[n];
      assert s == s[..n] + [c];
      var t := Normalised(s[..n]);
      NormalisedTwice(s[..n]);
      NormalisedStep(s[..n], c);
      NormalisedEnds(s[..n]);
      NormalisedEnds(t);
      SpaceIsSpace();
      NormalisedStep(t, c);
      NormalisedStep(t, ' ');
      assert t + [' '] == t + " ";
      NormalisedStep(t + " ", c);
      NormalisedEnds(t + " ");
      NormalisedStep("", c);
      NoWords();
      assert "" + [c] == [c];
    }
  }

  lemma NoWords()
    ensures Words("") == []
  {
  }

  /** A leading space is dropped. */
  lemma {:induction false} LeadingSpace(s: string)
    ensures Words(" " + s) == Words(s)
  {
    hide IsSpace, Join;
    SpaceIsSpace();
    if s == "" {
      assert " " + s == " " && " "[..0] == "";
    } else {
      var n := |s| - 1;
      LeadingSpace(s[..n]);
      assert (" " + s)[..n + 1] == " " + s[..n];
    }
  }

  // ---------------------------------------------------------------------
  // Pairs of characters
  // ---------------------------------------------------------------------

  lemma ConcatPairs(x: string, y: string, a: char, b: char)
    ensures HasPair(x + y, a, b) <==>
            HasPair(x, a, b) || HasPair(y, a, b) || (x != "" && y != "" && x[|x| - 1] == a && y[0] == b)
  {
    var s := x + y;
    if HasPair(x, a, b) {
      var k :| 0 < k < |x| && x[k - 1] == a && x[k] == b;
      assert s[k - 1] == a && s[k] == b;
    }
    if HasPair(y, a, b) {
      var k :| 0 < k < |y| && y[k - 1] == a && y[k] == b;
      assert s[|x| + k - 1] == a && s[|x| + k] == b;
    }
    if x != "" && y != "" && x[|x| - 1] == a && y[0] == b {
      assert s[|x| - 1] == a && s[|x|] == b;
    }
    if HasPair(s, a, b) {
      var k :| 0 < k < |s| && s[k - 1] == a && s[k] == b;
      if k > |x| { assert y[k - |x| - 1] == a && y[k - |x|] == b; }
      else if k < |x| { assert x[k - 1] == a && x[k] == b; }
    }
  }

  lemma SingleHasNoPair(s: string, a: char, b: char)
    requires |s| <= 1
    ensures !HasPair(s, a, b)
  {
  }

  predicate Apart(separator: string, a: char, b: char) {
    separator != "" && a !in separator && b !in separator
  }

  lemma SeparatorHasNoPair(separator: string, a: char, b: char)
    requires Apart(separator, a, b)
    ensures separator != "" && !HasPair(separator, a, b)
    ensures separator[0] != b && separator[|separator| - 1] != a
  {
  }

  /** A pair is in the joined text exactly when it is in a part, if the separator has nothing of it. */
  lemma {:induction false} JoinPairs(parts: seq<string>, separator: string, a: char, b: char)
    requires Apart(separator, a, b)
    ensures HasPair(Join(parts, separator), a, b) <==> exists i :: 0 <= i < |parts| && HasPair(parts[i], a, b)
  {
    hide HasPair, Apart;
    if parts == [] {
      SingleHasNoPair("", a, b);
    } else if |parts| > 1 {
      var n := |parts| - 1;
      var before := Join(parts[..n], separator);
      JoinPairs(parts[..n], separator, a, b);
      SeparatorHasNoPair(separator, a, b);
      ConcatPairs(before, separator, a, b);
      ConcatPairs(before + separator, parts[n], a, b);
      assert (before + separator)[|before + separator| - 1] == separator[|separator| - 1];
      forall i | 0 <= i < n
        ensures HasPair(parts[..n][i], a, b) <==> HasPair(parts[i], a, b)
      {
      }
    }
  }

  /** Normalising brings no two characters together. */
  lemma {:induction false} NormalisedPairs(s: string, a: char, b: char)
    requires !IsSpace(a) && !IsSpace(b) && HasPair(Normalised(s), a, b)
    ensures HasPair(s, a, b)
  {
    hide IsSpace, Normalised, HasPair, Words;
    NormalisedStep("", ' ');
    SingleHasNoPair("", a, b);
    if s != "" {
      var n := |s| - 1;
      var c := s[n];
      var t := Normalised(s[..n]);
      assert s == s[..n] + [c];
      NormalisedStep(s[..n], c);
      NormalisedEnds(s[..n]);
      SpaceIsSpace();
      SingleHasNoPair([c], a, b);
      SingleHasNoPair(" ", a, b);
      ConcatPairs(s[..n], [c], a, b);
      ConcatPairs(t, [c], a, b);
      ConcatPairs(t, " ", a, b);
      ConcatPairs(t + " ", [c], a, b);
      if HasPair(t, a, b) { NormalisedPairs(s[..n], a, b); }
    }
  }

  lemma PrefixPairs(s: string, n: nat, a: char, b: char)
    requires n <= |s| && HasPair(s[..n], a, b)
    ensures HasPair(s, a, b)
  {
    hide HasPair;
    ConcatPairs(s[..n], s[n..], a, b);
    assert s == s[..n] + s[n..];
  }

  lemma SuffixPairs(s: string, n: nat, a: char, b: char)
    requires n <= |s| && HasPair(s[n..], a, b)
    ensures HasPair(s, a, b)
  {
    hide HasPair;
    ConcatPairs(s[..n], s[n..], a, b);
    assert s == s[..n] + s[n..];
  }

  lemma {:induction false} LinesPairs(s: string, i: nat, a: char, b: char)
    requires i < |Lines(s)| && HasPair(Lines(s)[i], a, b)
    ensures HasPair(s, a, b)
    decreases |s|
  {
    hide HasPair, IsBreak;
    var n := LineLength(s);
    if n < |s| {
      var from := if s[n] == '\r' && n + 1 < |s| && s[n + 1] == '\n' then n + 2 else n + 1;
      if i == 0 {
        PrefixPairs(s, n, a, b);
      } else {
        LinesPairs(s[from..], i - 1, a, b);
        SuffixPairs(s, from, a, b);
      }
    }
  }

  /** Without comments there are no dashes next to each other, and stripping brings no characters together. */
  lemma UncommentedPairs(text: string, a: char, b: char)
    requires a != '\n' && b != '\n' && HasPair(Uncommented(text), a, b)
    ensures HasPair(text, a, b) && !(a == '-' && b == '-')
  {
    hide HasPair, Lines, Join, DashesAt;
    var stripped := Stripped(Lines(text));
    JoinPairs(stripped, "\n", a, b);
    var i :| 0 <= i < |stripped| && HasPair(stripped[i], a, b);
    var line := Lines(text)[i];
    assert stripped[i] == line[..DashesAt(line)];
    PrefixPairs(line, DashesAt(line), a, b);
    LinesPairs(text, i, a, b);
  }

  // ---------------------------------------------------------------------
  // Joining and splitting again
  // ---------------------------------------------------------------------

  /** An item as the splitter returns it: not empty, single spaces only, whole, and without the marks
      of comments. */
  predicate IsItem(item: string) {
    && item != "" && Normalised(item) == item && Whole(item)
    && !HasPair(item, '-', '-') && !HasPair(item, '{', '-') && !HasPair(item, '-', '}')
  }

  /** Every item comes from a segment. */
  lemma {:induction false} FilledFrom(segments: seq<string>, i: nat)
    requires i < |Filled(segments)|
    ensures exists j ::
              0 <= j < |segments| && Filled(segments)[i] == Normalised(segments[j]) && Filled(segments)[i] != ""
  {
    hide Normalised;
    var n := |segments| - 1;
    if i < |Filled(segments[..n])| {
      FilledFrom(segments[..n], i);
      var j :| 0 <= j < n && Filled(segments[..n])[i] == Normalised(segments[..n][j]) && Filled(segments[..n])[i] != "";
      assert Filled(segments)[i] == Normalised(segments[j]);
    } else {
      assert Filled(segments)[i] == Normalised(segments[n]);
    }
  }

  lemma SegmentPairs(s: string, j: nat, a: char, b: char)
    requires Balanced(s) && j < |Segments(s)| && a != ',' && b != ',' && HasPair(Segments(s)[j], a, b)
    ensures HasPair(s, a, b)
  {
    hide HasPair, Segments, Join, Scan;
    SegmentsAre(s);
    JoinPairs(Segments(s), ",", a, b);
  }

  /** Nothing in a normalised segment of the uncommented text was not together in the text. */
  lemma ItemPairs(text: string, j: nat, a: char, b: char)
    requires Balanced(Uncommented(text)) && j < |Segments(Uncommented(text))|
    requires !IsSpace(a) && !IsSpace(b) && a != ',' && b != ',' && a != '\n' && b != '\n'
    requires HasPair(Normalised(Segments(Uncommented(text))[j]), a, b)
    ensures HasPair(text, a, b) && !(a == '-' && b == '-')
  {
    hide *;
    NormalisedPairs(Segments(Uncommented(text))[j], a, b);
    SegmentPairs(Uncommented(text), j, a, b);
    UncommentedPairs(text, a, b);
  }

  lemma SegmentIsItem(text: string, j: nat)
    requires !HasPair(text, '{', '-') && !HasPair(text, '-', '}')
    requires Balanced(Uncommented(text)) && j < |Segments(Uncommented(text))|
    requires Normalised(Segments(Uncommented(text))[j]) != ""
    ensures IsItem(Normalised(Segments(Uncommented(text))[j]))
  {
    hide HasPair, Scan, Normalised, Segments, Uncommented, IsSpace;
    var s := Uncommented(text);
    var item := Normalised(Segments(s)[j]);
    InkIsNotSpace('-');
    InkIsNotSpace('{');
    InkIsNotSpace('}');
    NormalisedTwice(Segments(s)[j]);
    SegmentsAre(s);
    ScanNormalised(Segments(s)[j], false);
    if HasPair(item, '-', '-') { ItemPairs(text, j, '-', '-'); }
    if HasPair(item, '{', '-') { ItemPairs(text, j, '{', '-'); }
    if HasPair(item, '-', '}') { ItemPairs(text, j, '-', '}'); }
  }

  /** Whatever the splitter returns are items. */
  lemma SplitGivesItems(text: string, i: nat)
    requires Split(text).Items? && i < |Split(text).items|
    ensures IsItem(Split(text).items[i])
  {
    hide HasPair, Scan, Normalised, Segments, Uncommented, IsItem, Filled;
    SplitIs(text);
    var segments := Segments(Uncommented(text));
    FilledFrom(segments, i);
    var j :| 0 <= j < |segments| && Filled(segments)[i] == Normalised(segments[j]) && Filled(segments)[i] != "";
    SegmentIsItem(text, j);
  }

  // ---------------------------------------------------------------------
  // The other way round
  // ---------------------------------------------------------------------

  lemma {:induction false} PlainLine(s: string)
    requires forall k | 0 <= k < |s| :: !IsBreak(s[k])
    ensures LineLength(s) == |s|
  {
    hide IsBreak;
    if s != "" { PlainLine(s[1..]); }
  }

  lemma {:induction false} NoDashes(line: string)
    requires !HasPair(line, '-', '-')
    ensures DashesAt(line) == |line|
  {
    hide HasPair;
    if |line| >= 2 {
      if line[0] == '-' && line[1] == '-' { DashesFirst(line); }
      if HasPair(line[1..], '-', '-') { SuffixPairs(line, 1, '-', '-'); }
      NoDashes(line[1..]);
    }
  }

  lemma DashesFirst(line: string)
    requires |line| >= 2 && line[0] == '-' && line[1] == '-'
    ensures HasPair(line, '-', '-')
  {
  }

  /** Text of one line without dashes next to each other has no comments to strip. */
  lemma NothingToStrip(text: string)
    requires forall k | 0 <= k < |text| :: !IsBreak(text[k])
    requires !HasPair(text, '-', '-')
    ensures Uncommented(text) == text
  {
    hide IsBreak, HasPair, DashesAt, LineLength;
    PlainLine(text);
    NoDashes(text);
    if text != "" {
      assert Lines(text) == [text];
      assert BeforeDashes(text) == text;
      assert Stripped([text]) == [text];
    }
  }

  predicate NoBreaks(s: string) {
    forall k {:trigger s[k]} | 0 <= k < |s| :: !IsBreak(s[k])
  }

  lemma {:induction false} JoinBreaks(parts: seq<string>, separator: string)
    requires NoBreaks(separator) && forall i | 0 <= i < |parts| :: NoBreaks(parts[i])
    ensures NoBreaks(Join(parts, separator))
  {
    hide IsBreak;
    if |parts| > 1 { JoinBreaks(parts[..|parts| - 1], separator); }
  }

  lemma BreaksAreSpaces(c: char)
    ensures IsBreak(c) ==> IsSpace(c) && c != ' '
  {
  }

  lemma ItemHasNoBreaks(item: string)
    requires IsItem(item)
    ensures NoBreaks(item)
  {
    hide IsBreak, IsSpace, Normalised, Scan, HasPair;
    NormalisedEnds(item);
    forall k | 0 <= k < |item|
      ensures !IsBreak(item[k])
    {
      BreaksAreSpaces(item[k]);
    }
  }

  /** The items with the space that follows each comma. */
  function Spaced(items: seq<string>): seq<string> {
    seq(|items|, i requires 0 <= i < |items| => if i == 0 then items[0] else " " + items[i])
  }

  lemma {:induction false} JoinSpaced(items: seq<string>)
    ensures Join(Spaced(items), ",") == Join(items, ", ")
  {
    if |items| > 1 {
      var n := |items| - 1;
      JoinSpaced(items[..n]);
      assert Spaced(items)[..n] == Spaced(items[..n]);
      var before := Join(items[..n], ", ");
      assert before + "," + (" " + items[n]) == before + ", " + items[n];
    }
  }

  lemma SpacedIsWhole(item: string)
    requires Whole(item)
    ensures Whole(" " + item)
  {
    assert (" " + item)[1..] == item;
  }

  lemma SpacedEnds(items: seq<string>)
    requires items != []
    ensures |Spaced(items)| == |items| && Spaced(items)[..|items| - 1] == Spaced(items[..|items| - 1])
    ensures Normalised(Spaced(items)[|items| - 1]) == Normalised(items[|items| - 1])
  {
    hide Words, Join;
    LeadingSpace(items[|items| - 1]);
  }

  lemma FilledEnd(segments: seq<string>)
    requires segments != [] && Normalised(segments[|segments| - 1]) != ""
    ensures Filled(segments) == Filled(segments[..|segments| - 1]) + [Normalised(segments[|segments| - 1])]
  {
    hide Normalised;
  }

  lemma ItemIsFilled(item: string)
    requires IsItem(item)
    ensures item != "" && Normalised(item) == item
  {
    hide Normalised, HasPair, Scan;
  }

  lemma {:induction false} FilledSpaced(items: seq<string>)
    requires forall i | 0 <= i < |items| :: IsItem(items[i])
    ensures Filled(Spaced(items)) == items
  {
    hide *;
    if items == [] {
      FilledStep([], "");
      NothingSpaced();
    } else {
      var n := |items| - 1;
      FilledSpaced(items[..n]);
      SpacedEnds(items);
      ItemIsFilled(items[n]);
      FilledEnd(Spaced(items));
    }
  }

  lemma NothingSpaced()
    ensures Spaced([]) == []
  {
  }

  lemma JoinedHasNoPair(items: seq<string>, a: char, b: char)
    requires a != ',' && a != ' ' && b != ',' && b != ' '
    requires forall i | 0 <= i < |items| :: !HasPair(items[i], a, b)
    ensures !HasPair(Join(items, ", "), a, b)
  {
    hide HasPair, Join;
    JoinPairs(items, ", ", a, b);
  }

  lemma SegmentsOfText(items: seq<string>)
    requires forall i | 0 <= i < |items| :: IsItem(items[i])
    ensures Balanced(Join(items, ", ")) && Filled(Segments(Join(items, ", "))) == items
  {
    hide HasPair, Join, Scan, Normalised, Segments, Filled;
    if items == [] {
      JoinStep([], ", ", "");
      SegmentsStep("", ',');
      ScanNothing(true);
      NormalisedStep("", ' ');
      FilledStep([], "");
      assert [] + [""] == [""];
      NothingJoined();
    } else {
      forall i | 0 <= i < |items| ensures Whole(Spaced(items)[i]) { SpacedIsWhole(items[i]); }
      JoinSpaced(items);
      SegmentsOfJoin(Spaced(items));
      FilledSpaced(items);
    }
  }

  lemma NothingJoined()
    ensures Join([], ", ") == ""
  {
  }

  /** Items joined by commas and spaces are split into just those items. */
  lemma ItemsAreSplit(items: seq<string>)
    requires forall i | 0 <= i < |items| :: IsItem(items[i])
    ensures Split(Join(items, ", ")) == Items(items)
  {
    hide HasPair, Join, Scan, Normalised, Segments, Uncommented, Filled, IsBreak, Spaced;
    var text := Join(items, ", ");
    JoinedHasNoPair(items, '-', '-');
    JoinedHasNoPair(items, '{', '-');
    JoinedHasNoPair(items, '-', '}');
    SeparatorHasNoBreaks();
    forall i | 0 <= i < |items| ensures NoBreaks(items[i]) { ItemHasNoBreaks(items[i]); }
    JoinBreaks(items, ", ");
    NothingToStrip(text);
    SplitIs(text);
    SegmentsOfText(items);
  }

  lemma SeparatorHasNoBreaks()
    ensures NoBreaks(", ")
  {
  }

  /** Joining and splitting is the identity exactly on the items that the splitter can return. */
  lemma RoundTripExact(items: seq<string>)
    ensures Split(Join(items, ", ")) == Items(items) <==> forall i | 0 <= i < |items| :: IsItem(items[i])
  {
    hide Join, Split, IsItem;
    if Split(Join(items, ", ")) == Items(items) {
      forall i | 0 <= i < |items| ensures IsItem(items[i]) { SplitGivesItems(Join(items, ", "), i); }
    } else if forall i | 0 <= i < |items| :: IsItem(items[i]) {
      ItemsAreSplit(items);
    }
  }

  /** What was split once is split into the same again. */
  lemma SplitTwice(text: string)
    requires Split(text).Items?
    ensures Split(Join(Split(text).items, ", ")) == Split(text)
  {
    hide Join, Split, IsItem;
    var items := Split(text).items;
    forall i | 0 <= i < |items| ensures IsItem(items[i]) { SplitGivesItems(text, i); }
    RoundTripExact(items);
  }
}
