/** What the lines of an export list are, and that a comment on one of them goes up to its end. */
module ExportMeaning {
  import opened Options
  import opened ExportList
  import opened ExportRoundTrip

  /** A line that ends at a break and what comes after it. */
  lemma LinesMean(line: string, rest: string, c: char)
    requires NoBreaks(line) && IsBreak(c)
    ensures Lines("") == [] && (line != "" ==> Lines(line) == [line])
    ensures !(c == '\r' && rest != "" && rest[0] == '\n') ==> Lines(line + [c] + rest) == [line] + Lines(rest)
    ensures Lines(line + "\r\n" + rest) == [line] + Lines(rest)
  {
    hide *;
    NoLines();
    if line != "" {
      PlainIsLine(line);
      LinesStep(line);
    }
    if !(c == '\r' && rest != "" && rest[0] == '\n') { OneBreak(line, rest, c); }
    ReturnAndFeed(line, rest);
  }

  lemma PlainIsLine(line: string)
    requires NoBreaks(line)
    ensures LineLength(line) == |line|
  {
    hide IsBreak;
    PlainLine(line);
  }

  lemma OneBreak(line: string, rest: string, c: char)
    requires NoBreaks(line) && IsBreak(c) && !(c == '\r' && rest != "" && rest[0] == '\n')
    ensures Lines(line + [c] + rest) == [line] + Lines(rest)
  {
    hide *;
    var s := line + [c] + rest;
    BreakEnds(line, c, rest);
    LinesStep(s);
    assert s[..|line|] == line && s[|line|] == c && s[|line| + 1..] == rest;
    if rest != "" { assert s[|line| + 1] == rest[0]; }
  }

  lemma ReturnAndFeed(line: string, rest: string)
    requires NoBreaks(line)
    ensures Lines(line + "\r\n" + rest) == [line] + Lines(rest)
  {
    hide *;
    var s := line + "\r\n" + rest;
    assert s == line + ['\r'] + ("\n" + rest);
    ReturnIsBreak();
    BreakEnds(line, '\r', "\n" + rest);
    LinesStep(s);
    assert s[..|line|] == line && s[|line|] == '\r' && s[|line| + 1] == '\n' && s[|line| + 2..] == rest;
  }

  lemma ReturnIsBreak()
    ensures IsBreak('\r') && IsBreak('\n')
  {
  }

  lemma NoLines()
    ensures Lines("") == []
  {
  }

  lemma LinesStep(s: string)
    requires s != ""
    ensures LineLength(s) == |s| ==> Lines(s) == [s]
    ensures var n := LineLength(s);
            n < |s| ==>
              var next := if s[n] == '\r' && n + 1 < |s| && s[n + 1] == '\n' then n + 2 else n + 1;
              Lines(s) == [s[..n]] + Lines(s[next..])
  {
    hide LineLength;
  }

  lemma {:induction false} BreakEnds(line: string, c: char, rest: string)
    requires NoBreaks(line) && IsBreak(c)
    ensures LineLength(line + [c] + rest) == |line|
  {
    hide IsBreak;
    var s := line + [c] + rest;
    if line == "" {
      assert s[0] == c;
    } else {
      assert s[0] == line[0] && !IsBreak(line[0]);
      assert s[1..] == line[1..] + [c] + rest;
      BreakEnds(line[1..], c, rest);
    }
  }

  /** What is in front of a comment stays, the comment goes, and the rest of the text is read on. */
  lemma CommentMeans(code: string, comment: string, rest: string)
    requires NoBreaks(code) && NoBreaks(comment)
    requires !HasPair(code, '-', '-') && (code != "" ==> code[|code| - 1] != '-')
    ensures Uncommented(code + "--" + comment) == code
    ensures Uncommented(code + "--" + comment + "\n" + rest) ==
            if rest == "" then code else code + "\n" + Uncommented(rest)
  {
    hide IsBreak, HasPair, Lines, DashesAt, Join;
    var line := code + "--" + comment;
    CommentHasNoBreaks(code, comment);
    DashesHere(code, comment);
    ReturnIsBreak();
    LinesMean(line, rest, '\n');
    assert line[..|code|] == code && BeforeDashes(line) == code;
    assert Stripped([line]) == [code];
    assert [] + [code] == [code];
    JoinStep([], "\n", code);
    assert line + ['\n'] + rest == line + "\n" + rest;
    assert Stripped([line] + Lines(rest)) == [code] + Stripped(Lines(rest));
    if rest != "" {
      SomeLines(rest);
      JoinFront(code, Stripped(Lines(rest)));
    } else {
      assert Stripped([line] + []) == [code];
    }
  }

  lemma CommentHasNoBreaks(code: string, comment: string)
    requires NoBreaks(code) && NoBreaks(comment)
    ensures NoBreaks(code + "--" + comment)
  {
    var line := code + "--" + comment;
    forall k | 0 <= k < |line| ensures !IsBreak(line[k]) {
      if k >= |code| + 2 { assert line[k] == comment[k - |code| - 2]; }
      else if k >= |code| { assert line[k] == '-'; }
      else { assert line[k] == code[k]; }
    }
  }

  lemma SomeLines(s: string)
    requires s != ""
    ensures Lines(s) != []
  {
  }

  /** Two dashes after text without any are where the comment starts. */
  lemma {:induction false} DashesHere(code: string, comment: string)
    requires !HasPair(code, '-', '-') && (code != "" ==> code[|code| - 1] != '-')
    ensures DashesAt(code + "--" + comment) == |code|
  {
    hide HasPair;
    var line := code + "--" + comment;
    if code == "" {
      assert line[0] == '-' && line[1] == '-';
    } else {
      assert line[1..] == code[1..] + "--" + comment;
      if HasPair(code[1..], '-', '-') { SuffixPairs(code, 1, '-', '-'); }
      if line[0] == '-' && line[1] == '-' {
        if |code| > 1 { DashesFirst(code); }
        assert false;
      }
      DashesHere(code[1..], comment);
    }
  }

  lemma {:induction false} JoinFront(first: string, parts: seq<string>)
    requires parts != []
    ensures Join([first] + parts, "\n") == first + "\n" + Join(parts, "\n")
  {
    var n := |parts| - 1;
    var all := [first] + parts;
    assert all[..|all| - 1] == [first] + parts[..n];
    if n == 0 {
      assert [first] + parts[..0] == [first];
    } else {
      JoinFront(first, parts[..n]);
      assert Join(all, "\n") == Join([first] + parts[..n], "\n") + "\n" + parts[n];
    }
  }
}
