/** What recording does to the two lists of a plan: the list of the recorded kind gains
    exactly one entry, and the other list keeps its lines unless the lists are entangled. */
module RecordingLaws {
  import opened LineScans
  import opened LineText
  import opened PlanFrontmatter
  import opened EntryReadback

  // ---------------------------------------------------------------------
  // The lines that are put in
  // ---------------------------------------------------------------------

  /** Indented by `width` or more, with ink, and no list key. */
  predicate EntryLine(line: string, width: nat) {
    && !Blank(line) && SpaceRun(line) >= width && width > 0
    && !IsKey(line, ListKey(Review)) && !IsKey(line, ListKey(Revision))
  }

  predicate AllEntryLines(lines: seq<string>, width: nat) {
    forall i {:trigger EntryLine(lines[i], width)} | 0 <= i < |lines| :: EntryLine(lines[i], width)
  }

  predicate IsIndent(indent: string) {
    indent != "" && AllSpace(indent)
  }

  lemma IndentOfIsIndent(line: string)
    requires SpaceRun(line) > 0
    ensures IsIndent(IndentOf(line)) && |IndentOf(line)| == SpaceRun(line)
  {
  }

  lemma ContLineShape(indent: string, f: Field)
    requires IsIndent(indent) && WellFormedField(f) && f.key != "reviews" && f.key != "revisions"
    ensures EntryLine(indent + ("  " + FieldText(f)), |indent|)
  {
    hide SpaceRun, NoBreak, TrimEnd;
    var ink := FieldText(f);
    var line := indent + ("  " + ink);
    assert line == (indent + "  ") + ink;
    assert IsWordChar(ink[0]);
    SpaceRunOfIndented(indent + "  ", ink);
    assert line[|indent| + 2..] == ink;
    forall key | key == "reviews" || key == "revisions"
      ensures !StartsWith(ink, key + ":")
    {
      NotThatKey(f, key);
    }
  }

  lemma NotThatKey(f: Field, key: string)
    requires WellFormedField(f) && IsWord(key) && f.key != key
    ensures !StartsWith(FieldText(f), key + ":")
  {
    hide WordRun, IsWord;
    var ink := FieldText(f);
    assert ink == f.key + (":" + (" " + f.raw));
    WordRunOfKey(f.key, " " + f.raw);
    assert f.key == ink[..WordRun(ink)];
    if StartsWith(ink, key + ":") {
      assert ink == (key + ":") + ink[|key| + 1..] == key + (":" + ink[|key| + 1..]);
      WordRunOfKey(key, ink[|key| + 1..]);
    }
  }

  lemma ItemLineShape(indent: string, f: Field)
    requires IsIndent(indent)
    ensures EntryLine(indent + ("- " + FieldText(f)), |indent|)
    ensures IsDash(indent + ("- " + FieldText(f)))
    ensures IndentOf(indent + ("- " + FieldText(f))) == indent
  {
    var ink := "- " + FieldText(f);
    var line := indent + ink;
    SpaceRunOfIndented(indent, ink);
    assert line[|indent|..] == ink;
    assert line[|indent|] == '-' && line[|indent| + 1] == ' ';
    assert forall key | StartsWith(ink, key) && key != "" :: key[0] == ink[0];
  }

  lemma {:induction false} ContLinesShape(fields: seq<Field>, indent: string)
    requires IsIndent(indent)
    requires forall i | 0 <= i < |fields| ::
               WellFormedField(fields[i]) && fields[i].key != "reviews" && fields[i].key != "revisions"
    ensures AllEntryLines(ContLines(fields, indent), |indent|)
    decreases |fields|
  {
    if fields != [] {
      ContLineShape(indent, fields[0]);
      ContLinesShape(fields[1..], indent);
    }
  }

  lemma FieldKeys(req: Request)
    ensures forall i | 0 <= i < |Fields(req)| ::
              Fields(req)[i].key != "reviews" && Fields(req)[i].key != "revisions"
  {
    var keys := ["model", "harness", "at", "note", JudgmentKey(req.kind)];
    forall i | 0 <= i < |Fields(req)|
      ensures Fields(req)[i].key in keys
    {
    }
    forall key | key in keys
      ensures |key| != 9 && (|key| == 7 ==> key[0] == 'h' || key[0] == 'v')
    {
    }
  }

  lemma EntryLinesShape(req: Request, indent: string)
    requires IsStamp(req.at) && IsIndent(indent)
    ensures AllEntryLines(EntryLines(req, indent), |indent|)
    ensures IsDash(EntryLines(req, indent)[0]) && IndentOf(EntryLines(req, indent)[0]) == indent
  {
    FieldsAreWellFormed(req);
    FieldKeys(req);
    ItemLineShape(indent, Fields(req)[0]);
    ContLinesShape(Fields(req)[1..], indent);
  }

  // ---------------------------------------------------------------------
  // The block and its lists with lines put in
  // ---------------------------------------------------------------------

  predicate BlockLine(line: string) {
    !Blank(line) && SpaceRun(line) > 0
  }

  /** Lines that can be put into the block at `p`: indented, the first one least,
      right after a line with ink. */
  ghost predicate Fits(fm: seq<string>, p: nat, n: seq<string>)
    requires HasBlock(fm)
  {
    && ProvIdx(fm) < p <= End(fm)
    && (p > ProvIdx(fm) + 1 ==> !Blank(fm[p - 1]))
    && n != []
    && (forall i | 0 <= i < |n| :: BlockLine(n[i]) && SpaceRun(n[i]) >= SpaceRun(n[0]))
  }

  lemma BlockLineStays(line: string)
    requires BlockLine(line)
    ensures !LeavesBlock(line) && !Blank(line)
  {
  }

  lemma BlockEndGrows(fm: seq<string>, q: nat, p: nat, n: seq<string>)
    requires q < |fm| && q < p <= BlockEnd(fm, q)
    requires n != [] && forall i | 0 <= i < |n| :: !LeavesBlock(n[i]) && !Blank(n[i])
    ensures BlockEnd(Insert(fm, p, n), q) == BlockEnd(fm, q) + |n|
  {
    hide Blank, LeavesBlock, RunEnd, Insert;
    RunTakesIn(fm, p, n, q + 1, |fm|, LeavesBlock, Blank);
  }

  lemma BlockGrows(fm: seq<string>, p: nat, n: seq<string>)
    requires HasBlock(fm) && Fits(fm, p, n)
    ensures var g := Insert(fm, p, n);
            HasBlock(g) && ProvIdx(g) == ProvIdx(fm) && End(g) == End(fm) + |n|
  {
    hide Blank, SpaceRun, LeavesBlock, RunEnd, First, Insert, InlineBlock, IsProvenance;
    var q := ProvIdx(fm);
    var g := Insert(fm, p, n);
    assert ProvIdx(g) == q && g[q] == fm[q] by {
      FirstBefore(fm, p, n, 0, |fm|, IsProvenance);
    }
    forall i | 0 <= i < |n|
      ensures !LeavesBlock(n[i]) && !Blank(n[i])
    {
      assert BlockLine(n[i]);
      BlockLineStays(n[i]);
    }
    BlockEndGrows(fm, q, p, n);
  }

  /** Lines indented deeper than a list's key are taken into the list. */
  lemma ListTakesIn(s: seq<string>, p: nat, n: seq<string>, h: nat, b: nat)
    requires h < b <= |s| && h < p <= ListEnd(s, h, b)
    requires n != [] && forall i | 0 <= i < |n| :: !Blank(n[i]) && SpaceRun(n[i]) > SpaceRun(s[h])
    ensures ListEnd(Insert(s, p, n), h, b + |n|) == ListEnd(s, h, b) + |n|
  {
    hide Blank, SpaceRun, RunEnd, First, Insert;
    assert Insert(s, p, n)[h] == s[h];
    RunTakesIn(s, p, n, h + 1, b, DedentTest(SpaceRun(s[h])), Blank);
  }

  /** A line indented no deeper than the key ends the list where it stands. */
  lemma ListIsCut(s: seq<string>, p: nat, n: seq<string>, h: nat, b: nat)
    requires h < b <= |s| && h < p <= ListEnd(s, h, b)
    requires n != [] && Dedents(n[0], SpaceRun(s[h]))
    ensures ListEnd(Insert(s, p, n), h, b + |n|) <= p
    ensures (p > h + 1 ==> !Blank(s[p - 1])) ==> ListEnd(Insert(s, p, n), h, b + |n|) == p
  {
    hide Blank, SpaceRun, RunEnd, First, Insert;
    assert Insert(s, p, n)[h] == s[h];
    RunIsCut(s, p, n, h + 1, b, DedentTest(SpaceRun(s[h])), Blank);
  }

  /** A list that ends before the insertion point keeps its end. */
  lemma ListEndsBefore(s: seq<string>, p: nat, n: seq<string>, h: nat, b: nat)
    requires h < b <= |s| && ListEnd(s, h, b) < p <= b
    requires !Blank(s[p - 1])
    ensures ListEnd(Insert(s, p, n), h, b + |n|) == ListEnd(s, h, b)
    ensures First(s, h + 1, b, DedentTest(SpaceRun(s[h]))) < p
  {
    hide Blank, SpaceRun, RunEnd, First, Insert;
    assert Insert(s, p, n)[h] == s[h];
    RunEndsBefore(s, p, n, h + 1, b, DedentTest(SpaceRun(s[h])), Blank);
  }

  /** A list whose key line is at or after the insertion point moves as a whole. */
  lemma ListAfter(s: seq<string>, p: nat, n: seq<string>, h: nat, b: nat)
    requires p <= h < b <= |s|
    ensures Insert(s, p, n)[h + |n|] == s[h]
    ensures ListEnd(Insert(s, p, n), h + |n|, b + |n|) == ListEnd(s, h, b) + |n|
  {
    hide Blank, SpaceRun, Dedents, RunEnd, First, Insert;
    RunMoves(s, p, n, h + 1, b, DedentTest(SpaceRun(s[h])), Blank);
  }

  /** The shape of an entry's lines under an indentation. */
  ghost predicate EntryBlock(n: seq<string>, indent: string) {
    && n != [] && IsIndent(indent) && AllEntryLines(n, |indent|)
    && IsDash(n[0]) && IndentOf(n[0]) == indent
  }

  /** The indentation of the items depends only on the key line's and on the lines of the list. */
  lemma ItemIndentSame(s: seq<string>, h: nat, e: nat, g: seq<string>, h': nat, e': nat)
    requires h < e <= |s| && h' < e' <= |g|
    requires IndentOf(g[h']) == IndentOf(s[h]) && g[h' + 1..e'] == s[h + 1..e]
    ensures ItemIndent(g, h', e') == ItemIndent(s, h, e)
  {
    hide IsDash, SpaceRun, IndentOf;
    var d := First(s, h + 1, e, IsDash);
    assert e' - h' == e - h by { assert |g[h' + 1..e']| == |s[h + 1..e]|; }
    forall i | h + 1 <= i < e
      ensures g[i - h + h'] == s[i]
    {
      assert g[h' + 1..e'][i - h - 1] == s[h + 1..e][i - h - 1];
    }
    forall i {:trigger IsDash(g[i])} | h' + 1 <= i < d - h + h'
      ensures !IsDash(g[i])
    {
      assert g[i - h' + h - h + h'] == s[i - h' + h];
      FirstSkips(s, h + 1, e, IsDash, i - h' + h);
    }
    assert d < e ==> g[d - h + h'] == s[d];
    FirstIs(g, h' + 1, e', IsDash, d - h + h');
  }

  /** With lines appended to a list, the items keep their indentation: it was set by an older
      item, or is the one the appended lines were given. */
  lemma ItemIndentGrows(s: seq<string>, h: nat, e: nat, n: seq<string>, indent: string)
    requires h < e <= |s| && indent == ItemIndent(s, h, e) && EntryBlock(n, indent)
    ensures ItemIndent(Insert(s, e, n), h, e + |n|) == indent
  {
    hide IsDash, SpaceRun, AllEntryLines, IsIndent;
    var g := Insert(s, e, n);
    var d := First(s, h + 1, e, IsDash);
    assert g[h] == s[h];
    if d < e {
      FirstBefore(s, e, n, h + 1, e, IsDash);
      assert g[d] == s[d];
    } else {
      FirstIsNew(s, e, n, h + 1, e, IsDash);
      assert g[e] == n[0];
    }
  }

  // ---------------------------------------------------------------------
  // The list that gets the entry
  // ---------------------------------------------------------------------

  lemma ItemIndentDeeper(s: seq<string>, h: nat, b: nat)
    requires h < b <= |s| && SpaceRun(s[h]) > 0
    ensures var indent := ItemIndent(s, h, ListEnd(s, h, b));
            IsIndent(indent) && |indent| > SpaceRun(s[h])
  {
    var e := ListEnd(s, h, b);
    var d := First(s, h + 1, e, IsDash);
    if d < e {
      FirstSkips(s, h + 1, b, DedentTest(SpaceRun(s[h])), d);
      IndentOfIsIndent(s[d]);
    } else {
      IndentOfIsIndent(s[h]);
    }
  }

  lemma EntryBlockFits(fm: seq<string>, p: nat, n: seq<string>, indent: string)
    requires HasBlock(fm) && EntryBlock(n, indent)
    requires ProvIdx(fm) < p <= End(fm) && !Blank(fm[p - 1])
    ensures Fits(fm, p, n)
  {
    assert |IndentOf(n[0])| == SpaceRun(n[0]);
    assert forall i | 0 <= i < |n| :: EntryLine(n[i], |indent|);
  }

  lemma OneKeyOnly(ink: string, kind: Kind)
    requires StartsWith(ink, ListKey(kind) + ":")
    ensures !StartsWith(ink, ListKey(Other(kind)) + ":")
  {
    assert ink[4] == ink[..|ListKey(kind)| + 1][4] == ListKey(kind)[4];
    assert |ink| > |ListKey(Other(kind))| ==> ink[..|ListKey(Other(kind))| + 1][4] == ink[4];
  }

  lemma KeyHasInk(line: string, kind: Kind)
    requires IsKey(line, ListKey(kind))
    ensures BlockLine(line) && !IsProvenance(line) && !IsDash(line) && !LeavesBlock(line)
    ensures !IsKey(line, ListKey(Other(kind)))
  {
    var n := SpaceRun(line);
    var key := ListKey(kind);
    assert line[n..][..|key| + 1] == key + ":";
    assert line[n] == line[n..][0] == key[0] == 'r';
    OneKeyOnly(line[n..], kind);
  }

  lemma InListUnfold(fm: seq<string>, kind: Kind)
    requires Locate(fm, kind).InList?
    ensures HasBlock(fm) && Header(fm, kind) < End(fm)
    ensures Locate(fm, kind) == InList(Header(fm, kind), ListEnd(fm, Header(fm, kind), End(fm)))
    ensures !InlineList(fm[Header(fm, kind)], ListKey(kind))
  {
  }

  lemma EndHasInk(fm: seq<string>, kind: Kind, h: nat, b: nat)
    requires h < b <= |fm| && IsKey(fm[h], ListKey(kind))
    ensures !Blank(fm[ListEnd(fm, h, b) - 1])
  {
    hide IsKey, SpaceRun, BlockLine, RunEnd;
    KeyHasInk(fm[h], kind);
    InkOfBlockLine(fm[h]);
  }

  lemma FitsRange(fm: seq<string>, p: nat, n: seq<string>)
    requires HasBlock(fm) && Fits(fm, p, n)
    ensures ProvIdx(fm) < p <= End(fm)
  {
  }

  lemma HeaderStays(fm: seq<string>, kind: Kind, p: nat, n: seq<string>)
    requires HasBlock(fm) && Fits(fm, p, n) && Header(fm, kind) < p
    ensures HasBlock(Insert(fm, p, n)) && Header(Insert(fm, p, n), kind) == Header(fm, kind)
    ensures End(Insert(fm, p, n)) == End(fm) + |n|
  {
    hide Fits, HasBlock, End, ProvIdx, ListKey, KeyTest;
    BlockGrows(fm, p, n);
    FitsRange(fm, p, n);
    FirstBefore(fm, p, n, ProvIdx(fm) + 1, End(fm), KeyTest(ListKey(kind)));
  }

  lemma LocateInList(fm: seq<string>, kind: Kind)
    requires HasBlock(fm) && Header(fm, kind) < End(fm)
    requires !InlineList(fm[Header(fm, kind)], ListKey(kind))
    ensures Locate(fm, kind) == InList(Header(fm, kind), ListEnd(fm, Header(fm, kind), End(fm)))
  {
  }

  lemma EntryBlockIsDeep(n: seq<string>, indent: string, width: nat)
    requires EntryBlock(n, indent) && |indent| > width
    ensures forall i | 0 <= i < |n| :: !Blank(n[i]) && SpaceRun(n[i]) > width
  {
    forall i | 0 <= i < |n|
      ensures !Blank(n[i]) && SpaceRun(n[i]) > width
    {
      assert EntryLine(n[i], |indent|);
    }
  }

  lemma ListEndGrows(s: seq<string>, kind: Kind, h: nat, b: nat, e: nat, indent: string, n: seq<string>)
    requires h < b <= |s| && IsKey(s[h], ListKey(kind))
    requires e == ListEnd(s, h, b) && indent == ItemIndent(s, h, e) && EntryBlock(n, indent)
    ensures ListEnd(Insert(s, e, n), h, b + |n|) == e + |n|
  {
    KeyHasInk(s[h], kind);
    ItemIndentDeeper(s, h, b);
    EntryBlockIsDeep(n, indent, SpaceRun(s[h]));
    ListTakesIn(s, e, n, h, b);
  }

  /** An existing list takes the entry's lines in at its end. */
  lemma OwnListGrows(fm: seq<string>, kind: Kind, h: nat, e: nat, indent: string, n: seq<string>)
    requires Locate(fm, kind) == InList(h, e) && indent == ItemIndent(fm, h, e) && EntryBlock(n, indent)
    ensures HasBlock(fm) && Fits(fm, e, n)
    ensures Locate(Insert(fm, e, n), kind) == InList(h, e + |n|)
    ensures ItemIndent(Insert(fm, e, n), h, e + |n|) == indent
  {
    hide *;
    InListUnfold(fm, kind);
    var b := End(fm);
    var g := Insert(fm, e, n);
    assert Fits(fm, e, n) by {
      EndHasInk(fm, kind, h, b);
      EntryBlockFits(fm, e, n, indent);
    }
    HeaderStays(fm, kind, e, n);
    assert g[h] == fm[h];
    LocateInList(g, kind);
    ListEndGrows(fm, kind, h, b, e, indent, n);
    ItemIndentGrows(fm, h, e, n, indent);
  }

  lemma InsertedSlice(fm: seq<string>, h: nat, e: nat, n: seq<string>)
    requires h < e <= |fm|
    ensures Insert(fm, e, n)[h + 1..e + |n|] == fm[h + 1..e] + n
  {
    assert Insert(fm, e, n) == fm[..e] + n + fm[e..];
  }

  lemma KeyLineShape(indent: string, kind: Kind)
    requires IsIndent(indent)
    ensures var line := indent + ListKey(kind) + ":";
            && BlockLine(line) && SpaceRun(line) == |indent| && IndentOf(line) == indent
            && IsKey(line, ListKey(kind)) && KeyTrailing(line, ListKey(kind)) == ""
            && !IsKey(line, ListKey(Other(kind)))
  {
    var ink := ListKey(kind) + ":";
    var line := indent + ListKey(kind) + ":";
    assert line == indent + ink;
    SpaceRunOfIndented(indent, ink);
    assert line[|indent|..] == ink;
    assert line[|line|..] == "";
    OneKeyOnly(ink, kind);
  }

  /** The lines of a new list: its key line and one entry. */
  ghost predicate ListBlock(n: seq<string>, kind: Kind, indent: string) {
    && n != [] && IsIndent(indent)
    && n[0] == indent + ListKey(kind) + ":"
    && EntryBlock(n[1..], indent + "  ")
  }

  lemma ListBlockHead(n: seq<string>, kind: Kind, indent: string)
    requires ListBlock(n, kind, indent)
    ensures n != [] && IsKey(n[0], ListKey(kind)) && !InlineList(n[0], ListKey(kind))
          && !IsKey(n[0], ListKey(Other(kind)))
    ensures BlockLine(n[0])
  {
    KeyLineShape(indent, kind);
  }

  lemma EntryLineIsDeep(line: string, width: nat)
    requires EntryLine(line, width)
    ensures BlockLine(line) && !Blank(line) && SpaceRun(line) >= width
  {
    hide Blank, SpaceRun, IsKey, ListKey;
  }

  lemma ListBlockLines(n: seq<string>, kind: Kind, indent: string)
    requires ListBlock(n, kind, indent)
    ensures |n| > 1 && BlockLine(n[0]) && SpaceRun(n[0]) == |indent| && IndentOf(n[0]) == indent
    ensures IsDash(n[1]) && IndentOf(n[1]) == indent + "  "
    ensures forall i {:trigger n[i]} | 1 <= i < |n| :: BlockLine(n[i]) && !Blank(n[i]) && SpaceRun(n[i]) >= |indent| + 2
  {
    hide Blank, SpaceRun, IsKey, ListKey, KeyTrailing, IsDash, IndentOf, IsIndent, EntryLine, BlockLine, Locate;
    KeyLineShape(indent, kind);
    assert n[1] == n[1..][0];
    forall i {:trigger n[i]} | 1 <= i < |n|
      ensures BlockLine(n[i]) && !Blank(n[i]) && SpaceRun(n[i]) >= |indent| + 2
    {
      assert n[i] == n[1..][i - 1] && EntryLine(n[1..][i - 1], |indent + "  "|);
      EntryLineIsDeep(n[i], |indent| + 2);
    }
  }

  lemma ListBlockFits(fm: seq<string>, p: nat, n: seq<string>, kind: Kind, indent: string)
    requires HasBlock(fm) && ListBlock(n, kind, indent)
    requires ProvIdx(fm) < p <= End(fm) && (p > ProvIdx(fm) + 1 ==> !Blank(fm[p - 1]))
    ensures Fits(fm, p, n)
  {
    hide HasBlock, ProvIdx, End, ListBlock, Blank, SpaceRun, BlockLine, IndentOf, IsDash;
    ListBlockLines(n, kind, indent);
  }

  /** A new list at the end of a block reaches exactly over its own lines. */
  lemma NewListExtent(g: seq<string>, h: nat, n: seq<string>, kind: Kind, indent: string)
    requires ListBlock(n, kind, indent) && h + |n| <= |g| && g[h..h + |n|] == n
    ensures ListEnd(g, h, h + |n|) == h + |n|
    ensures ItemIndent(g, h, h + |n|) == indent + "  "
  {
    hide ListBlock, Blank, SpaceRun, BlockLine, IndentOf, IsDash, First, Back, RunEnd;
    ListBlockLines(n, kind, indent);
    var b := h + |n|;
    var stop := DedentTest(SpaceRun(g[h]));
    forall i | h <= i < b
      ensures g[i] == n[i - h]
    {
      assert g[h..h + |n|][i - h] == n[i - h];
    }
    forall i {:trigger stop(g[i])} | h + 1 <= i < b
      ensures !stop(g[i])
    {
      assert g[i] == n[i - h];
    }
    RunEndIs(g, h + 1, b, stop, Blank, b, b);
    FirstIs(g, h + 1, b, IsDash, h + 1);
  }

  lemma InkIsIndented(line: string)
    requires HasInk(line) && !LeavesBlock(line)
    ensures SpaceRun(line) > 0
  {
  }

  lemma ChildIndentIsIndent(fm: seq<string>)
    requires HasBlock(fm)
    ensures IsIndent(ChildIndent(fm, ProvIdx(fm), End(fm)))
  {
    hide SpaceRun, IndentOf, IsProvenance, InlineBlock, IsIndent;
    var q, b := ProvIdx(fm), End(fm);
    var c := First(fm, q + 1, b, HasInk);
    if c < b {
      FirstSkips(fm, q + 1, |fm|, LeavesBlock, c);
      InkIsIndented(fm[c]);
      IndentOfIsIndent(fm[c]);
    } else {
      TwoSpacesIndent();
    }
  }

  lemma NoListUnfold(fm: seq<string>, kind: Kind)
    requires Locate(fm, kind).NoList?
    ensures HasBlock(fm) && Header(fm, kind) == End(fm)
    ensures Locate(fm, kind) == NoList(End(fm))
  {
  }

  lemma BlockEndHasInk(fm: seq<string>)
    requires HasBlock(fm)
    ensures End(fm) > ProvIdx(fm) + 1 ==> !Blank(fm[End(fm) - 1])
  {
  }

  /** The key line of a new list is its first one. */
  lemma NewHeader(fm: seq<string>, kind: Kind, n: seq<string>)
    requires HasBlock(fm) && Header(fm, kind) == End(fm) && Fits(fm, End(fm), n) && IsKey(n[0], ListKey(kind))
    ensures HasBlock(Insert(fm, End(fm), n)) && Header(Insert(fm, End(fm), n), kind) == End(fm)
    ensures End(Insert(fm, End(fm), n)) == End(fm) + |n|
  {
    hide IsKey, ListKey, BlockEnd, ProvIdx, InlineBlock, First, Insert, BlockLine, Blank, SpaceRun, End, HasBlock;
    BlockGrows(fm, End(fm), n);
    FirstIsNew(fm, End(fm), n, ProvIdx(fm) + 1, End(fm), KeyTest(ListKey(kind)));
  }

  /** A block without the list gets it at its end. */
  lemma OwnListIsCreated(fm: seq<string>, kind: Kind, b: nat, indent: string, n: seq<string>)
    requires Locate(fm, kind) == NoList(b) && ListBlock(n, kind, indent)
    ensures HasBlock(fm) && Fits(fm, b, n)
    ensures Locate(Insert(fm, b, n), kind) == InList(b, b + |n|)
    ensures ItemIndent(Insert(fm, b, n), b, b + |n|) == indent + "  "
  {
    hide *;
    NoListUnfold(fm, kind);
    var g := Insert(fm, b, n);
    BlockEndHasInk(fm);
    ListBlockFits(fm, b, n, kind, indent);
    ListBlockHead(n, kind, indent);
    NewHeader(fm, kind, n);
    assert g[b] == n[0];
    LocateInList(g, kind);
    assert g[b..b + |n|] == n;
    NewListExtent(g, b, n, kind, indent);
  }

  /** The lines of a new block, with all of its list's lines indented. */
  lemma NewBlockScan(g: seq<string>, q: nat, n: seq<string>, kind: Kind)
    requires ListBlock(n, kind, "  ") && q < |g| && g[q] == "provenance:" && g[q + 1..] == n
    requires forall i {:trigger IsProvenance(g[i])} | 0 <= i < q :: !IsProvenance(g[i])
    ensures HasBlock(g) && ProvIdx(g) == q && End(g) == |g|
  {
    hide SpaceRun, Blank, LeavesBlock, IsKey, IsDash, IndentOf, TrimEnd, AllSpace;
    assert g[q][11..] == "";
    EmptyIsNotInline();
    FirstIs(g, 0, |g|, IsProvenance, q);
    TwoSpacesIndent();
    KeyLineShape("  ", kind);
    forall i | q + 1 <= i < |g|
      ensures BlockLine(g[i]) && !LeavesBlock(g[i])
    {
      assert g[i] == g[q + 1..][i - q - 1] == n[i - q - 1];
      if i > q + 1 { assert EntryLine(n[1..][i - q - 2], |"  " + "  "|); }
      BlockLineStays(g[i]);
    }
    assert BlockLine(g[|g| - 1]);
    RunEndIs(g, q + 1, |g|, LeavesBlock, Blank, |g|, |g|);
  }

  lemma EmptyIsNotInline()
    ensures !IsInline(Trim(""))
  {
  }

  lemma TwoSpacesIndent()
    ensures IsIndent("  ")
  {
  }

  lemma NewBlockHeaders(g: seq<string>, q: nat, n: seq<string>, kind: Kind)
    requires ListBlock(n, kind, "  ") && q < |g| && g[q + 1..] == n
    requires HasBlock(g) && ProvIdx(g) == q && End(g) == |g|
    ensures Header(g, kind) == q + 1 && Header(g, Other(kind)) == |g|
    ensures ChildIndent(g, q, |g|) == "  "
  {
    hide SpaceRun, IsKey, HasInk, Blank, IsProvenance, LeavesBlock, InlineBlock, AllSpace;
    KeyLineShape("  ", kind);
    ListBlockHead(n, kind, "  ");
    assert g[q + 1] == g[q + 1..][0] == n[0];
    assert HasInk(g[q + 1]) by { InkOfBlockLine(n[0]); }
    forall i | q + 1 <= i < |g|
      ensures !KeyTest(ListKey(Other(kind)))(g[i])
    {
      assert g[i] == g[q + 1..][i - q - 1] == n[i - q - 1];
      if i > q + 1 {
        assert EntryLine(n[1..][i - q - 2], |"  " + "  "|);
      }
    }
    FirstIs(g, q + 1, |g|, KeyTest(ListKey(Other(kind))), |g|);
    FirstIs(g, q + 1, |g|, KeyTest(ListKey(kind)), q + 1);
    FirstIs(g, q + 1, |g|, HasInk, q + 1);
  }

  lemma InkOfBlockLine(line: string)
    requires BlockLine(line)
    ensures HasInk(line)
  {
  }

  lemma NoBlockAbove(fm: seq<string>, kind: Kind)
    requires Locate(fm, kind).NoBlock?
    ensures forall i {:trigger IsProvenance(fm[i])} | 0 <= i < |fm| :: !IsProvenance(fm[i])
  {
    forall i {:trigger IsProvenance(fm[i])} | 0 <= i < |fm|
      ensures !IsProvenance(fm[i])
    {
      FirstSkips(fm, 0, |fm|, IsProvenance, i);
    }
  }

  lemma LocateNoList(fm: seq<string>, kind: Kind)
    requires HasBlock(fm) && Header(fm, kind) == End(fm)
    ensures Locate(fm, kind) == NoList(End(fm))
  {
  }

  lemma NewBlockLines(top: seq<string>, n: seq<string>, g: seq<string>)
    requires g == top + (["provenance:"] + n) && n != []
    ensures |g| == |top| + 1 + |n| && g[|top|] == "provenance:" && g[|top| + 1] == n[0]
    ensures g[|top| + 1..] == n && g[|top| + 1..|top| + 1 + |n|] == n
    ensures g[..|top|] == top
  {
    hide *;
  }

  lemma FourSpaces()
    ensures "  " + "  " == "    "
  {
  }

  lemma NoBlockInHead(fm: seq<string>, kind: Kind, q: nat, g: seq<string>)
    requires Locate(fm, kind).NoBlock? && q <= |fm| && q <= |g| && g[..q] == fm[..q]
    ensures forall i {:trigger IsProvenance(g[i])} | 0 <= i < q :: !IsProvenance(g[i])
  {
    hide *;
    NoBlockAbove(fm, kind);
    forall i {:trigger IsProvenance(g[i])} | 0 <= i < q
      ensures !IsProvenance(g[i])
    {
      assert g[..q][i] == fm[..q][i];
    }
  }

  lemma NewListIsFound(g: seq<string>, q: nat, n: seq<string>, kind: Kind)
    requires ListBlock(n, kind, "  ") && |g| == q + 1 + |n| && g[q + 1..q + 1 + |n|] == n && g[q + 1] == n[0]
    requires HasBlock(g) && End(g) == |g| && Header(g, kind) == q + 1
    ensures Locate(g, kind) == InList(q + 1, |g|) && ItemIndent(g, q + 1, |g|) == "    "
  {
    hide *;
    ListBlockHead(n, kind, "  ");
    LocateInList(g, kind);
    NewListExtent(g, q + 1, n, kind, "  ");
    FourSpaces();
  }

  /** Without a block, one is written that holds the new list only. */
  lemma BlockIsCreated(fm: seq<string>, kind: Kind, n: seq<string>, q: nat, g: seq<string>)
    requires Locate(fm, kind).NoBlock? && ListBlock(n, kind, "  ")
    requires q == Back(fm, 0, |fm|, Blank) && g == fm[..q] + (["provenance:"] + n)
    ensures Locate(g, kind) == InList(q + 1, |g|) && ItemIndent(g, q + 1, |g|) == "    "
    ensures HasBlock(g) && ProvIdx(g) == q && End(g) == |g| && ChildIndent(g, q, |g|) == "  "
    ensures Locate(g, Other(kind)) == NoList(|g|)
  {
    hide *;
    ListBlockHead(n, kind, "  ");
    NewBlockLines(fm[..q], n, g);
    NewBlockIsRead(fm, kind, n, q, g);
  }

  lemma NewBlockIsRead(fm: seq<string>, kind: Kind, n: seq<string>, q: nat, g: seq<string>)
    requires Locate(fm, kind).NoBlock? && ListBlock(n, kind, "  ") && n != []
    requires q <= |fm| && |g| == q + 1 + |n| && g[..q] == fm[..q] && g[q] == "provenance:" && g[q + 1] == n[0]
    requires g[q + 1..] == n && g[q + 1..q + 1 + |n|] == n
    ensures Locate(g, kind) == InList(q + 1, |g|) && ItemIndent(g, q + 1, |g|) == "    "
    ensures HasBlock(g) && ProvIdx(g) == q && End(g) == |g| && ChildIndent(g, q, |g|) == "  "
    ensures Locate(g, Other(kind)) == NoList(|g|)
  {
    hide *;
    NoBlockInHead(fm, kind, q, g);
    NewBlockScan(g, q, n, kind);
    NewBlockHeaders(g, q, n, kind);
    LocateNoList(g, Other(kind));
    NewListIsFound(g, q, n, kind);
  }
}
