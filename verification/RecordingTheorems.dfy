/** The promises of recording: the recorded kind gains one entry, the other kind is left
    alone, files are accepted again, and whole histories of runs are two appended logs. */
module RecordingTheorems {
  import opened LineScans
  import opened LineText
  import opened PlanFrontmatter
  import opened EntryReadback
  import opened RecordingLaws

  // ---------------------------------------------------------------------
  // The key line without its inline empty list
  // ---------------------------------------------------------------------

  lemma BareHeaderShape(line: string, kind: Kind)
    requires IsKey(line, ListKey(kind))
    ensures var bare := BareHeader(line, ListKey(kind));
            && IsKey(bare, ListKey(kind)) && IndentOf(bare) == IndentOf(line) && SpaceRun(bare) == SpaceRun(line)
            && (!InlineList(line, ListKey(kind)) ==> !InlineList(bare, ListKey(kind)))
  {
    if KeyTrailing(line, ListKey(kind)) == "[]" {
      IndentOfIsIndent(line);
      KeyLineShape(IndentOf(line), kind);
    }
  }

  lemma SwapScan(s: seq<string>, h: nat, x: string, lo: nat, hi: nat, stop: string -> bool)
    requires lo <= hi <= |s| && h < |s| && stop(s[h]) == stop(x) && Blank(s[h]) == Blank(x)
    ensures RunEnd(s[h := x], lo, hi, stop, Blank) == RunEnd(s, lo, hi, stop, Blank)
  {
    hide Blank;
    RunSwap(s, h, x, lo, hi, stop, Blank);
  }

  lemma SwapKeepsBlock(fm: seq<string>, kind: Kind, h: nat, x: string)
    requires HasBlock(fm) && ProvIdx(fm) < h < End(fm)
    requires IsKey(fm[h], ListKey(kind)) && IsKey(x, ListKey(kind)) && SpaceRun(x) == SpaceRun(fm[h])
    ensures var g := fm[h := x];
            HasBlock(g) && ProvIdx(g) == ProvIdx(fm) && End(g) == End(fm)
  {
    hide IsKey, SpaceRun, Blank, LeavesBlock, IsProvenance, InlineBlock;
    KeyHasInk(fm[h], kind);
    KeyHasInk(x, kind);
    BlockLineHasInk(fm[h]);
    BlockLineHasInk(x);
    FirstSwap(fm, h, x, 0, |fm|, IsProvenance);
    SwapScan(fm, h, x, ProvIdx(fm) + 1, |fm|, LeavesBlock);
  }

  lemma BlockLineHasInk(line: string)
    requires BlockLine(line)
    ensures !Blank(line)
  {
  }

  lemma SwapKeepsHeader(fm: seq<string>, kind: Kind, h: nat, x: string, k: Kind)
    requires HasBlock(fm) && ProvIdx(fm) < h < End(fm)
    requires IsKey(fm[h], ListKey(kind)) && IsKey(x, ListKey(kind)) && SpaceRun(x) == SpaceRun(fm[h])
    ensures HasBlock(fm[h := x]) && Header(fm[h := x], k) == Header(fm, k)
  {
    hide IsKey, SpaceRun, HasBlock, End, Blank, LeavesBlock, IsProvenance;
    SwapKeepsBlock(fm, kind, h, x);
    KeyHasInk(fm[h], kind);
    KeyHasInk(x, kind);
    assert k == kind || k == Other(kind);
    FirstSwap(fm, h, x, ProvIdx(fm) + 1, End(fm), KeyTest(ListKey(k)));
  }

  lemma SwapKeepsListEnd(fm: seq<string>, kind: Kind, h: nat, x: string, h2: nat, b: nat)
    requires h2 < b <= |fm| && h < |fm|
    requires IsKey(fm[h], ListKey(kind)) && IsKey(x, ListKey(kind)) && SpaceRun(x) == SpaceRun(fm[h])
    ensures ListEnd(fm[h := x], h2, b) == ListEnd(fm, h2, b)
  {
    hide IsKey, SpaceRun, Blank, RunEnd;
    KeyHasInk(fm[h], kind);
    KeyHasInk(x, kind);
    BlockLineHasInk(fm[h]);
    BlockLineHasInk(x);
    var width := SpaceRun(fm[h2]);
    assert SpaceRun(fm[h := x][h2]) == width;
    SwapScan(fm, h, x, h2 + 1, b, DedentTest(width));
  }

  /** Taking an inline empty list away moves nothing. */
  lemma SwapKeepsPlaces(fm: seq<string>, kind: Kind, h: nat, e: nat)
    requires Locate(fm, kind) == InList(h, e)
    ensures var g := fm[h := BareHeader(fm[h], ListKey(kind))];
            && Locate(g, kind) == InList(h, e) && ItemIndent(g, h, e) == ItemIndent(fm, h, e)
            && Locate(g, Other(kind)) == Locate(fm, Other(kind))
            && HasBlock(fm) && HasBlock(g) && ProvIdx(g) == ProvIdx(fm) && End(g) == End(fm)
            && SpaceRun(g[h]) == SpaceRun(fm[h])
  {
    hide *;
    InListUnfold(fm, kind);
    var x := BareHeader(fm[h], ListKey(kind));
    var g := fm[h := x];
    BareHeaderShape(fm[h], kind);
    SwapKeepsBlock(fm, kind, h, x);
    SwapKeepsHeader(fm, kind, h, x, kind);
    SwapKeepsListEnd(fm, kind, h, x, h, End(fm));
    LocateInList(g, kind);
    assert g[h + 1..e] == fm[h + 1..e];
    ItemIndentSame(fm, h, e, g, h, e);
    SwapKeepsOther(fm, kind, h, x);
  }

  lemma SwapKeepsOther(fm: seq<string>, kind: Kind, h: nat, x: string)
    requires HasBlock(fm) && h == Header(fm, kind) < End(fm)
    requires IsKey(x, ListKey(kind)) && SpaceRun(x) == SpaceRun(fm[h])
    ensures Locate(fm[h := x], Other(kind)) == Locate(fm, Other(kind))
  {
    hide *;
    var o := Other(kind);
    var g := fm[h := x];
    SwapKeepsBlock(fm, kind, h, x);
    SwapKeepsHeader(fm, kind, h, x, o);
    var h2 := Header(fm, o);
    if h2 == End(fm) {
      LocateNoList(fm, o);
      LocateNoList(g, o);
    } else {
      KeyHasInk(fm[h], kind);
      assert g[h2] == fm[h2];
      SwapKeepsListEnd(fm, kind, h, x, h2, End(fm));
      LocateList(fm, o);
      LocateList(g, o);
    }
  }

  lemma LocateList(fm: seq<string>, kind: Kind)
    requires HasBlock(fm) && Header(fm, kind) < End(fm)
    ensures Locate(fm, kind) == if InlineList(fm[Header(fm, kind)], ListKey(kind)) then Refused
                                else InList(Header(fm, kind), ListEnd(fm, Header(fm, kind), End(fm)))
  {
  }

  // ---------------------------------------------------------------------
  // The other list
  // ---------------------------------------------------------------------

  /** Lines put in at `p`, the first one `width` deep, come to lie inside the list of `kind`
      or cut it short. */
  predicate Reaches(fm: seq<string>, kind: Kind, p: nat, width: nat) {
    match Locate(fm, kind)
    case InList(h, e) => h < p && (p < e || (p == e && width > SpaceRun(fm[h])))
    case _ => false
  }

  ghost predicate NoKeys(n: seq<string>, kind: Kind) {
    forall i {:trigger IsKey(n[i], ListKey(kind))} | 0 <= i < |n| :: !IsKey(n[i], ListKey(kind))
  }

  lemma OtherHeader(fm: seq<string>, k: Kind, p: nat, n: seq<string>)
    requires HasBlock(fm) && Fits(fm, p, n) && NoKeys(n, k)
    ensures HasBlock(Insert(fm, p, n))
    ensures Header(Insert(fm, p, n), k) == if Header(fm, k) < p then Header(fm, k) else Header(fm, k) + |n|
  {
    hide IsKey, HasBlock, End, Fits, ListKey, ProvIdx;
    BlockGrows(fm, p, n);
    FitsRange(fm, p, n);
    var b := End(fm);
    if Header(fm, k) < p {
      FirstBefore(fm, p, n, ProvIdx(fm) + 1, b, KeyTest(ListKey(k)));
    } else {
      forall i {:trigger KeyTest(ListKey(k))(n[i])} | 0 <= i < |n|
        ensures !KeyTest(ListKey(k))(n[i])
      {
        assert !IsKey(n[i], ListKey(k));
      }
      FirstAfter(fm, p, n, ProvIdx(fm) + 1, b, KeyTest(ListKey(k)));
    }
  }

  lemma FitsFacts(fm: seq<string>, p: nat, n: seq<string>)
    requires HasBlock(fm) && Fits(fm, p, n)
    ensures ProvIdx(fm) < p <= End(fm) && n != []
    ensures forall i | 0 <= i < |n| :: !Blank(n[i]) && SpaceRun(n[i]) >= SpaceRun(n[0])
    ensures p > ProvIdx(fm) + 1 ==> !Blank(fm[p - 1])
  {
  }

  /** A list before the insertion point keeps its lines exactly when it is not reached. */
  lemma ListBeforeInsertion(s: seq<string>, p: nat, n: seq<string>, h: nat, b: nat, e: nat)
    requires h < p <= b <= |s| && e == ListEnd(s, h, b) && !Blank(s[p - 1]) && n != []
    requires forall i | 0 <= i < |n| :: !Blank(n[i]) && SpaceRun(n[i]) >= SpaceRun(n[0])
    ensures var g := Insert(s, p, n);
            var e' := ListEnd(g, h, b + |n|);
            && (if p < e || (p == e && SpaceRun(n[0]) > SpaceRun(s[h])) then e' != e else e' == e)
            && (p <= e && SpaceRun(n[0]) > SpaceRun(s[h]) ==> e' == e + |n|)
  {
    hide Blank, SpaceRun;
    if p > e {
      ListEndsBefore(s, p, n, h, b);
    } else if SpaceRun(n[0]) > SpaceRun(s[h]) {
      ListTakesIn(s, p, n, h, b);
    } else {
      ListIsCut(s, p, n, h, b);
    }
  }

  lemma ReachedOrNot(fm: seq<string>, k: Kind, p: nat, n: seq<string>)
    requires HasBlock(fm) && Fits(fm, p, n) && NoKeys(n, k)
    ensures var g := Insert(fm, p, n);
            match Locate(fm, k)
            case InList(h, e) =>
              var h' := if h < p then h else h + |n|;
              && Locate(g, k).InList? && Locate(g, k).header == h' && g[h'] == fm[h]
              && (Reaches(fm, k, p, SpaceRun(n[0])) <==> Locate(g, k).end - h' != e - h)
              && (!Reaches(fm, k, p, SpaceRun(n[0])) ==>
                    Locate(g, k).end == (if h < p then e else e + |n|) && (h < p ==> e <= p))
              && (h < p <= e && SpaceRun(n[0]) > SpaceRun(fm[h]) ==> Locate(g, k) == InList(h, e + |n|))
            case NoList(b) => Locate(g, k) == NoList(b + |n|)
            case Refused => Locate(g, k).Refused?
            case NoBlock => false
  {
    hide *;
    BlockGrows(fm, p, n);
    OtherHeader(fm, k, p, n);
    FitsFacts(fm, p, n);
    var g := Insert(fm, p, n);
    var h, b := Header(fm, k), End(fm);
    if h == b {
      LocateNoList(fm, k);
      LocateNoList(g, k);
    } else {
      LocateList(fm, k);
      LocateList(g, k);
      ReachesIs(fm, k, p, SpaceRun(n[0]));
      if h < p {
        assert g[h] == fm[h];
        ListBeforeInsertion(fm, p, n, h, b, ListEnd(fm, h, b));
      } else {
        ListAfter(fm, p, n, h, b);
        assert g[h + |n|] == fm[h];
      }
    }
  }

  lemma ReachesIs(fm: seq<string>, k: Kind, p: nat, width: nat)
    ensures Reaches(fm, k, p, width) <==>
            && Locate(fm, k).InList? && Locate(fm, k).header < p
            && (p < Locate(fm, k).end || (p == Locate(fm, k).end && width > SpaceRun(fm[Locate(fm, k).header])))
  {
    hide SpaceRun, Locate;
  }

  /** What lines under a key line read as. */
  function EntriesUnder(header: string, lines: seq<string>): seq<Entry> {
    ParseFrom([], lines, ItemIndent([header] + lines, 0, |lines| + 1))
  }

  lemma EntriesAreUnder(fm: seq<string>, k: Kind)
    requires Locate(fm, k).InList?
    ensures Entries(fm, k) == EntriesUnder(fm[Locate(fm, k).header], Extent(fm, k))
  {
    hide Locate, ItemIndent, IndentOf, ParseFrom, IsKey;
    var h, e := Locate(fm, k).header, Locate(fm, k).end;
    var under := [fm[h]] + fm[h + 1..e];
    assert under[1..] == fm[h + 1..e];
    ItemIndentSame(fm, h, e, under, 0, e - h);
  }

  lemma EntriesOfSameLines(fm: seq<string>, k: Kind, g: seq<string>)
    requires Locate(fm, k).InList? && Locate(g, k).InList?
    requires g[Locate(g, k).header] == fm[Locate(fm, k).header]
    requires Extent(g, k) == Extent(fm, k)
    ensures Entries(g, k) == Entries(fm, k)
  {
    hide Locate, ItemIndent, IndentOf, ParseFrom, IsKey;
    ItemIndentSame(fm, Locate(fm, k).header, Locate(fm, k).end, g, Locate(g, k).header, Locate(g, k).end);
  }

  lemma ExtentIs(fm: seq<string>, k: Kind)
    ensures Locate(fm, k).InList? ==> Extent(fm, k) == fm[Locate(fm, k).header + 1..Locate(fm, k).end]
    ensures !Locate(fm, k).InList? ==> Extent(fm, k) == [] && Entries(fm, k) == []
  {
    hide Locate, ItemIndent, ParseFrom;
  }

  /** Lines put into a list, deeper than its key, are lines of the list. */
  lemma TakenIn(fm: seq<string>, k: Kind, p: nat, n: seq<string>)
    requires HasBlock(fm) && Fits(fm, p, n) && NoKeys(n, k) && Locate(fm, k).InList?
    requires Locate(fm, k).header < p <= Locate(fm, k).end && SpaceRun(n[0]) > SpaceRun(fm[Locate(fm, k).header])
    ensures var g := Insert(fm, p, n); var h, e := Locate(fm, k).header, Locate(fm, k).end;
            && Locate(g, k) == InList(h, e + |n|) && g[h] == fm[h]
            && Extent(g, k) == Insert(fm[h + 1..e], p - (h + 1), n)
  {
    hide *;
    FitsFacts(fm, p, n);
    ReachedOrNot(fm, k, p, n);
    var g := Insert(fm, p, n);
    var h, e := Locate(fm, k).header, Locate(fm, k).end;
    ExtentIs(g, k);
    InsertInside(fm, h + 1, e, p, n);
  }

  lemma InsertInside(s: seq<string>, lo: nat, hi: nat, p: nat, n: seq<string>)
    requires lo <= p <= hi <= |s|
    ensures Insert(s, p, n)[lo..hi + |n|] == Insert(s[lo..hi], p - lo, n)
  {
    hide *;
  }

  /** The other list has the same lines, and so the same entries, exactly when it is not reached. */
  lemma OtherList(fm: seq<string>, k: Kind, p: nat, n: seq<string>)
    requires HasBlock(fm) && Fits(fm, p, n) && NoKeys(n, k)
    ensures var g := Insert(fm, p, n);
            && (Extent(g, k) == Extent(fm, k) <==> !Reaches(fm, k, p, SpaceRun(n[0])))
            && (Entries(g, k) == Entries(fm, k) <== !Reaches(fm, k, p, SpaceRun(n[0])))
            && (|Extent(g, k)| != |Extent(fm, k)| <== Reaches(fm, k, p, SpaceRun(n[0])))
            && (Locate(g, k).Refused? <==> Locate(fm, k).Refused?)
  {
    hide *;
    FitsFacts(fm, p, n);
    ReachedOrNot(fm, k, p, n);
    ReachesIs(fm, k, p, SpaceRun(n[0]));
    var g := Insert(fm, p, n);
    ExtentIs(fm, k);
    ExtentIs(g, k);
    match Locate(fm, k)
    case InList(h, e) =>
      var h' := if h < p then h else h + |n|;
      if !Reaches(fm, k, p, SpaceRun(n[0])) {
        SliceAside(fm, p, n, h + 1, e);
        EntriesOfSameLines(fm, k, g);
      }
    case _ =>
  }

  // ---------------------------------------------------------------------
  // One recording
  // ---------------------------------------------------------------------

  /** Where the lines of a request are put, and how deep the first of them is. */
  function PutAt(fm: seq<string>, kind: Kind): (nat, nat) {
    match Locate(fm, kind)
    case InList(h, e) => (e, |ItemIndent(fm, h, e)|)
    case NoList(b) => (b, |ChildIndent(fm, ProvIdx(fm), b)|)
    case _ => (Back(fm, 0, |fm|, Blank), 0)
  }

  /** The key lines that are missing before the first entry. */
  function Lead(fm: seq<string>, kind: Kind): seq<string> {
    match Locate(fm, kind)
    case NoBlock => ["provenance:", "  " + ListKey(kind) + ":"]
    case NoList(b) => [ChildIndent(fm, ProvIdx(fm), b) + ListKey(kind) + ":"]
    case _ => []
  }

  /** The indentation of an entry that is put in. */
  function EntryIndent(fm: seq<string>, kind: Kind): string {
    match Locate(fm, kind)
    case InList(h, e) => ItemIndent(fm, h, e)
    case NoList(b) => ChildIndent(fm, ProvIdx(fm), b) + "  "
    case _ => "    "
  }

  /** The lines that are put in: missing key lines, and the entry. */
  function Added(fm: seq<string>, req: Request): seq<string> {
    Lead(fm, req.kind) + EntryLines(req, EntryIndent(fm, req.kind))
  }

  /** The old lines as they stand around the new ones: all of them, except that an inline empty
      list is taken off its key line, and that blank lines at the end go when there was no block. */
  function Kept(fm: seq<string>, kind: Kind): (s: seq<string>) {
    match Locate(fm, kind)
    case InList(h, e) => fm[h := BareHeader(fm[h], ListKey(kind))]
    case NoBlock => fm[..Back(fm, 0, |fm|, Blank)]
    case _ => fm
  }

  /** Recording an entry of `kind` would change the lines of the other list: the place where
      the entry goes lies inside that list, or at its end and deeper than its key. */
  predicate Entangled(fm: seq<string>, kind: Kind) {
    Reaches(fm, Other(kind), PutAt(fm, kind).0, PutAt(fm, kind).1)
  }

  lemma EntryLinesBlock(req: Request, indent: string)
    requires Valid(req) && IsIndent(indent)
    ensures EntryBlock(EntryLines(req, indent), indent)
  {
    EntryLinesShape(req, indent);
  }

  lemma NewListBlock(req: Request, indent: string)
    requires Valid(req) && IsIndent(indent)
    ensures ListBlock([indent + ListKey(req.kind) + ":"] + EntryLines(req, indent + "  "), req.kind, indent)
  {
    hide EntryBlock, AllEntryLines, EntryLines;
    var n := [indent + ListKey(req.kind) + ":"] + EntryLines(req, indent + "  ");
    assert n[1..] == EntryLines(req, indent + "  ");
    EntryLinesBlock(req, indent + "  ");
  }

  lemma EntryBlockNoKeys(n: seq<string>, indent: string, k: Kind)
    requires EntryBlock(n, indent)
    ensures NoKeys(n, k) && n != [] && SpaceRun(n[0]) == |indent|
  {
    assert k == Review || k == Revision;
    forall i {:trigger IsKey(n[i], ListKey(k))} | 0 <= i < |n|
      ensures !IsKey(n[i], ListKey(k))
    {
      assert EntryLine(n[i], |indent|);
    }
    assert |IndentOf(n[0])| == SpaceRun(n[0]);
  }

  lemma ListBlockNoKeys(n: seq<string>, indent: string, kind: Kind)
    requires ListBlock(n, kind, indent)
    ensures NoKeys(n, Other(kind)) && SpaceRun(n[0]) == |indent|
  {
    hide IsKey, SpaceRun, EntryBlock, AllSpace;
    KeyLineShape(indent, kind);
    EntryBlockNoKeys(n[1..], indent + "  ", Other(kind));
    forall i {:trigger IsKey(n[i], ListKey(Other(kind)))} | 0 <= i < |n|
      ensures !IsKey(n[i], ListKey(Other(kind)))
    {
      if i > 0 { assert n[i] == n[1..][i - 1]; assert !IsKey(n[1..][i - 1], ListKey(Other(kind))); }
    }
  }

  lemma ItemIndentOfPlace(fm: seq<string>, kind: Kind, h: nat, e: nat)
    requires Locate(fm, kind) == InList(h, e)
    ensures IsIndent(ItemIndent(fm, h, e)) && |ItemIndent(fm, h, e)| > SpaceRun(fm[h])
  {
    hide *;
    InListUnfold(fm, kind);
    KeyIndented(fm[h], kind);
    ItemIndentDeeper(fm, h, End(fm));
  }

  lemma KeyIndented(line: string, kind: Kind)
    requires IsKey(line, ListKey(kind))
    ensures SpaceRun(line) > 0
  {
  }

  /** The recorded frontmatter of a plan with the list, piece by piece. */
  lemma RecordedInList(fm: seq<string>, req: Request, h: nat, e: nat)
    requires Valid(req) && Locate(fm, req.kind) == InList(h, e)
    ensures var n := EntryLines(req, ItemIndent(fm, h, e));
            var fm1 := fm[h := BareHeader(fm[h], ListKey(req.kind))];
            && Recorded(fm, req) == Insert(fm1, e, n)
            && EntryBlock(n, ItemIndent(fm, h, e))
            && Locate(fm1, req.kind) == InList(h, e) && ItemIndent(fm1, h, e) == ItemIndent(fm, h, e)
            && HasBlock(fm1) && Fits(fm1, e, n)
            && Locate(Recorded(fm, req), req.kind) == InList(h, e + |n|)
            && ItemIndent(Recorded(fm, req), h, e + |n|) == ItemIndent(fm, h, e)
  {
    hide Locate, ItemIndent, EntryLines, BareHeader, IsKey, HasBlock, Fits, EntryBlock, SpaceRun, Valid;
    var indent := ItemIndent(fm, h, e);
    ItemIndentOfPlace(fm, req.kind, h, e);
    EntryLinesBlock(req, indent);
    SwapKeepsPlaces(fm, req.kind, h, e);
    var fm1 := fm[h := BareHeader(fm[h], ListKey(req.kind))];
    OwnListGrows(fm1, req.kind, h, e, indent, EntryLines(req, indent));
  }

  lemma RecordedNoList(fm: seq<string>, req: Request, b: nat, indent: string)
    requires Valid(req) && Locate(fm, req.kind) == NoList(b) && indent == ChildIndent(fm, ProvIdx(fm), b)
    ensures var n := [indent + ListKey(req.kind) + ":"] + EntryLines(req, indent + "  ");
            && Recorded(fm, req) == Insert(fm, b, n)
            && ListBlock(n, req.kind, indent) && IsIndent(indent)
            && HasBlock(fm) && Fits(fm, b, n)
            && Locate(Recorded(fm, req), req.kind) == InList(b, b + |n|)
            && ItemIndent(Recorded(fm, req), b, b + |n|) == indent + "  "
  {
    hide Locate, ItemIndent, ChildIndent, EntryLines, HasBlock, Fits, ListBlock, IsIndent, Valid, End;
    NoListUnfold(fm, req.kind);
    ChildIndentIsIndent(fm);
    NewListBlock(req, indent);
    OwnListIsCreated(fm, req.kind, b, indent, [indent + ListKey(req.kind) + ":"] + EntryLines(req, indent + "  "));
  }

  lemma RecordedNoBlock(fm: seq<string>, req: Request)
    requires Valid(req) && Locate(fm, req.kind).NoBlock?
    ensures var q := Back(fm, 0, |fm|, Blank);
            var n := ["  " + ListKey(req.kind) + ":"] + EntryLines(req, "  " + "  ");
            var g := Recorded(fm, req);
            && g == fm[..q] + (["provenance:"] + n) && ListBlock(n, req.kind, "  ")
            && Locate(g, req.kind) == InList(q + 1, |g|) && ItemIndent(g, q + 1, |g|) == "    "
            && HasBlock(g) && ProvIdx(g) == q && End(g) == |g| && ChildIndent(g, q, |g|) == "  "
            && Locate(g, Other(req.kind)) == NoList(|g|)
            && Locate(fm, Other(req.kind)).NoBlock?
  {
    hide *;
    var q := Back(fm, 0, |fm|, Blank);
    var n := ["  " + ListKey(req.kind) + ":"] + EntryLines(req, "  " + "  ");
    TwoSpaces();
    NewListBlock(req, "  ");
    RecordedAtEnd(fm, req);
    NoBlockForBoth(fm, req.kind);
    assert "  " + "  " == "    ";
    BlockIsCreated(fm, req.kind, n, q, Recorded(fm, req));
  }

  lemma RecordedAtEnd(fm: seq<string>, req: Request)
    requires Locate(fm, req.kind).NoBlock?
    ensures Recorded(fm, req) == fm[..Back(fm, 0, |fm|, Blank)]
              + (["provenance:"] + (["  " + ListKey(req.kind) + ":"] + EntryLines(req, "  " + "  ")))
  {
    hide Locate, EntryLines, ListKey, Back;
    var key := "  " + ListKey(req.kind) + ":";
    assert "  " + "  " == "    ";
    assert ["provenance:", key] + EntryLines(req, "    ") == ["provenance:"] + ([key] + EntryLines(req, "  " + "  "));
  }

  lemma EntriesAre(fm: seq<string>, kind: Kind, h: nat, e: nat)
    requires Locate(fm, kind) == InList(h, e)
    ensures Entries(fm, kind) == ParseFrom([], fm[h + 1..e], ItemIndent(fm, h, e))
  {
    hide Locate, ItemIndent, ParseFrom;
  }

  lemma NoEntries(fm: seq<string>, kind: Kind)
    requires !Locate(fm, kind).InList?
    ensures Entries(fm, kind) == []
  {
    hide Locate;
  }

  lemma ReadbackInList(fm: seq<string>, req: Request, h: nat, e: nat)
    requires Valid(req) && Locate(fm, req.kind) == InList(h, e)
    ensures Entries(Recorded(fm, req), req.kind)
         == ParseFrom(Entries(fm, req.kind), EntryLines(req, ItemIndent(fm, h, e)), ItemIndent(fm, h, e))
  {
    hide *;
    RecordedInList(fm, req, h, e);
    var indent := ItemIndent(fm, h, e);
    var n := EntryLines(req, indent);
    var g := Recorded(fm, req);
    var fm1 := fm[h := BareHeader(fm[h], ListKey(req.kind))];
    EntriesAre(fm, req.kind, h, e);
    EntriesAre(g, req.kind, h, e + |n|);
    InsertedSlice(fm1, h, e, n);
    assert fm1[h + 1..e] == fm[h + 1..e];
    ParseConcat([], fm[h + 1..e], n, indent);
  }

  lemma ReadbackNewList(g: seq<string>, req: Request, b: nat, n: seq<string>, indent: string)
    requires n == [indent + ListKey(req.kind) + ":"] + EntryLines(req, indent + "  ")
    requires b + |n| <= |g| && g[b..b + |n|] == n
    requires Locate(g, req.kind) == InList(b, b + |n|) && ItemIndent(g, b, b + |n|) == indent + "  "
    ensures Entries(g, req.kind) == ParseFrom([], EntryLines(req, indent + "  "), indent + "  ")
  {
    hide *;
    EntriesAre(g, req.kind, b, b + |n|);
    assert g[b + 1..b + |n|] == g[b..b + |n|][1..] == EntryLines(req, indent + "  ");
  }

  /** Reading the recorded list back: the old entries and the new lines, parsed under one indentation. */
  lemma Readback(fm: seq<string>, req: Request) returns (indent: string)
    requires Valid(req) && !Locate(fm, req.kind).Refused?
    ensures IsIndent(indent)
    ensures Locate(Recorded(fm, req), req.kind).InList?
    ensures Entries(Recorded(fm, req), req.kind)
         == ParseFrom(Entries(fm, req.kind), EntryLines(req, indent), indent)
  {
    hide *;
    var g := Recorded(fm, req);
    match Locate(fm, req.kind)
    case InList(h, e) =>
      indent := ItemIndent(fm, h, e);
      RecordedInList(fm, req, h, e);
      ReadbackInList(fm, req, h, e);
      ItemIndentOfPlace(fm, req.kind, h, e);
    case NoList(b) =>
      var child := ChildIndent(fm, ProvIdx(fm), b);
      indent := child + "  ";
      RecordedNoList(fm, req, b, child);
      var n := [child + ListKey(req.kind) + ":"] + EntryLines(req, child + "  ");
      assert g[b..b + |n|] == n by { InsertedRun(fm, b, n); }
      ReadbackNewList(g, req, b, n, child);
      NoEntries(fm, req.kind);
      DeeperIndent(child);
    case NoBlock =>
      indent := "  " + "  ";
      RecordedNoBlock(fm, req);
      var q := Back(fm, 0, |fm|, Blank);
      var n := ["  " + ListKey(req.kind) + ":"] + EntryLines(req, "  " + "  ");
      assert g[q + 1..q + 1 + |n|] == n;
      assert "  " + "  " == "    ";
      ReadbackNewList(g, req, q + 1, n, "  ");
      NoEntries(fm, req.kind);
      TwoSpaces();
      DeeperIndent("  ");
  }

  lemma InsertedRun(s: seq<string>, p: nat, n: seq<string>)
    requires p <= |s|
    ensures Insert(s, p, n)[p..p + |n|] == n
  {
  }

  lemma TwoSpaces()
    ensures IsIndent("  ")
  {
  }

  lemma DeeperIndent(indent: string)
    requires IsIndent(indent)
    ensures IsIndent(indent + "  ")
  {
  }

  lemma IndentIsSpace(indent: string)
    requires IsIndent(indent)
    ensures AllSpace(indent)
  {
  }

  /** The list of the recorded kind is accepted again by the next run, and reading it back gives
      the entries from before and the recorded one, exactly when no stored text holds a raw
      U+2028 or U+2029. */
  lemma RecordedKind(fm: seq<string>, req: Request)
    requires Valid(req) && !Locate(fm, req.kind).Refused?
    ensures Locate(Recorded(fm, req), req.kind).InList?
    ensures Entries(Recorded(fm, req), req.kind) == Entries(fm, req.kind) + [EntryOf(req)] <==> AllLineSafe(req)
  {
    hide *;
    var indent := Readback(fm, req);
    IndentIsSpace(indent);
    ReadbackExact(Entries(fm, req.kind), req, indent);
  }

  lemma EntangledIs(fm: seq<string>, kind: Kind)
    ensures Entangled(fm, kind) <==> Reaches(fm, Other(kind), PutAt(fm, kind).0, PutAt(fm, kind).1)
    ensures Locate(fm, kind).InList? ==>
              PutAt(fm, kind) == (Locate(fm, kind).end,
                                  |ItemIndent(fm, Locate(fm, kind).header, Locate(fm, kind).end)|)
    ensures Locate(fm, kind).NoList? ==>
              PutAt(fm, kind) == (Locate(fm, kind).end,
                                  |ChildIndent(fm, ProvIdx(fm), Locate(fm, kind).end)|)
  {
    hide Locate, Reaches, ItemIndent, ChildIndent;
  }

  lemma AddedIs(fm: seq<string>, req: Request)
    ensures Locate(fm, req.kind).InList? ==>
              var h, e := Locate(fm, req.kind).header, Locate(fm, req.kind).end;
              && Added(fm, req) == EntryLines(req, ItemIndent(fm, h, e))
              && Kept(fm, req.kind) == fm[h := BareHeader(fm[h], ListKey(req.kind))]
    ensures Locate(fm, req.kind).NoList? ==>
              var indent := ChildIndent(fm, ProvIdx(fm), Locate(fm, req.kind).end);
              && Added(fm, req) == [indent + ListKey(req.kind) + ":"] + EntryLines(req, indent + "  ")
              && Kept(fm, req.kind) == fm
    ensures Locate(fm, req.kind).NoBlock? ==>
              && Added(fm, req) == ["provenance:", "  " + ListKey(req.kind) + ":"] + EntryLines(req, "    ")
              && Kept(fm, req.kind) == fm[..Back(fm, 0, |fm|, Blank)]
  {
    hide Locate, EntryLines, ItemIndent, ChildIndent, BareHeader, Back, ListKey, ProvIdx;
    assert Locate(fm, req.kind).InList? ==>
        [] + EntryLines(req, EntryIndent(fm, req.kind)) == EntryLines(req, EntryIndent(fm, req.kind));
  }

  lemma PutIs(fm: seq<string>, kind: Kind)
    ensures Locate(fm, kind).InList? || Locate(fm, kind).NoList? ==> PutAt(fm, kind).0 == Locate(fm, kind).end
    ensures Locate(fm, kind).NoBlock? ==> PutAt(fm, kind).0 == Back(fm, 0, |fm|, Blank)
  {
    hide Locate, ItemIndent, ChildIndent, Back;
  }

  lemma GoesIntoIs(fm: seq<string>, req: Request)
    requires !Locate(fm, req.kind).Refused?
    ensures GoesInto(fm, req) <==>
            var g, o, p := Recorded(fm, req), Other(req.kind), PutAt(fm, req.kind).0;
            && Locate(fm, o).InList? && Locate(fm, o).header < p <= Locate(fm, o).end <= |Kept(fm, req.kind)|
            && var h, e := Locate(fm, o).header, Locate(fm, o).end;
               && Extent(g, o) == Insert(Kept(fm, req.kind)[h + 1..e], p - (h + 1), Added(fm, req))
               && Entries(g, o) == EntriesUnder(fm[h], Extent(g, o))
  {
    hide Recorded, Extent, Kept, Added, EntriesUnder, Locate, PutAt, Entries, Insert;
  }

  /** When a new entry goes into the other list, it is deeper than that list's key. */
  lemma EntangledIsDeeper(fm: seq<string>, kind: Kind)
    requires Entangled(fm, kind) && !Locate(fm, kind).Refused?
    ensures Locate(fm, Other(kind)).InList?
    ensures PutAt(fm, kind).1 > SpaceRun(fm[Locate(fm, Other(kind)).header])
    ensures Locate(fm, Other(kind)).header < PutAt(fm, kind).0 <= Locate(fm, Other(kind)).end
    ensures !Locate(fm, kind).NoBlock?
  {
    hide *;
    var o := Other(kind);
    EntangledIs(fm, kind);
    ReachesIs(fm, o, PutAt(fm, kind).0, PutAt(fm, kind).1);
    NoBlockForBoth(fm, kind);
    InListUnfold(fm, o);
    var h2, e2 := Locate(fm, o).header, Locate(fm, o).end;
    match Locate(fm, kind)
    case InList(h, e) =>
      InListUnfold(fm, kind);
      TwoHeaders(fm, kind);
      OtherTwice(kind);
      if h < h2 {
        NestedListReached(fm, o, h2, e2, h, e);
      } else if h < e2 {
        NestedListReached(fm, kind, h, e, h2, e2);
        ItemIndentOfPlace(fm, kind, h, e);
      }
    case NoList(b) => NoListUnfold(fm, kind);
    case NoBlock =>
  }

  lemma NoBlockForBoth(fm: seq<string>, kind: Kind)
    ensures Locate(fm, kind).NoBlock? ==> Locate(fm, Other(kind)).NoBlock?
  {
  }

  lemma OtherTwice(kind: Kind)
    ensures Other(Other(kind)) == kind
  {
  }

  lemma OtherLinesInList(fm: seq<string>, req: Request, h: nat, e: nat)
    requires Valid(req) && Locate(fm, req.kind) == InList(h, e)
    ensures OtherLinesLaw(fm, req)
  {
    hide *;
    var o := Other(req.kind);
    var indent := ItemIndent(fm, h, e);
    var n := EntryLines(req, indent);
    var x := BareHeader(fm[h], ListKey(req.kind));
    var fm1 := fm[h := x];
    RecordedInList(fm, req, h, e);
    SwapKeepsPlaces(fm, req.kind, h, e);
    EntryBlockNoKeys(n, indent, o);
    OtherList(fm1, o, e, n);
    EntangledIs(fm, req.kind);
    ReachesIs(fm, o, e, |indent|);
    ReachesIs(fm1, o, e, |indent|);
    ExtentIs(fm, o);
    ExtentIs(fm1, o);
    InListUnfold(fm, req.kind);
    if Locate(fm, o).InList? {
      InListUnfold(fm, o);
      var h2, e2 := Locate(fm, o).header, Locate(fm, o).end;
      TwoHeaders(fm, req.kind);
      assert fm1[h2] == fm[h2];
      if h2 < h < e2 {
        NestedListReached(fm, req.kind, h, e, h2, e2);
      } else {
        assert fm1[h2 + 1..e2] == fm[h2 + 1..e2];
        EntriesOfSameLines(fm, o, fm1);
      }
    }
    if Entangled(fm, req.kind) { InListGoesInto(fm, req, h, e); }
    OtherLinesLawIs(fm, req);
  }

  lemma InListGoesInto(fm: seq<string>, req: Request, h: nat, e: nat)
    requires Valid(req) && Locate(fm, req.kind) == InList(h, e) && Entangled(fm, req.kind)
    ensures GoesInto(fm, req)
  {
    hide *;
    var o := Other(req.kind);
    var indent := ItemIndent(fm, h, e);
    var n := EntryLines(req, indent);
    var fm1 := fm[h := BareHeader(fm[h], ListKey(req.kind))];
    RecordedInList(fm, req, h, e);
    SwapKeepsPlaces(fm, req.kind, h, e);
    EntryBlockNoKeys(n, indent, o);
    EntangledIs(fm, req.kind);
    EntangledIsDeeper(fm, req.kind);
    InListUnfold(fm, req.kind);
    InListUnfold(fm, o);
    TwoHeaders(fm, req.kind);
    assert fm1[Locate(fm, o).header] == fm[Locate(fm, o).header];
    TakenIn(fm1, o, e, n);
    EntriesAreUnder(Recorded(fm, req), o);
    AddedIs(fm, req);
    PutIs(fm, req.kind);
    GoesIntoIs(fm, req);
  }

  lemma TwoHeaders(fm: seq<string>, kind: Kind)
    requires HasBlock(fm) && Header(fm, kind) < End(fm) && Header(fm, Other(kind)) < End(fm)
    ensures Header(fm, kind) != Header(fm, Other(kind))
  {
    hide IsKey, HasBlock, End, Header;
    KeyHasInk(fm[Header(fm, kind)], kind);
  }

  /** A list whose key line lies in the other list's lines ends inside that list, deeper than its key. */
  lemma NestedListReached(fm: seq<string>, kind: Kind, h: nat, e: nat, h2: nat, e2: nat)
    requires Locate(fm, kind) == InList(h, e) && Locate(fm, Other(kind)) == InList(h2, e2)
    requires h2 < h < e2
    ensures Reaches(fm, Other(kind), e, |ItemIndent(fm, h, e)|)
    ensures SpaceRun(fm[h]) > SpaceRun(fm[h2]) && e <= e2
  {
    hide *;
    InListUnfold(fm, kind);
    InListUnfold(fm, Other(kind));
    KeyHasInk(fm[h], kind);
    NestedEnds(fm, End(fm), h2, h);
    ItemIndentOfPlace(fm, kind, h, e);
    ReachesIs(fm, Other(kind), e, |ItemIndent(fm, h, e)|);
  }

  lemma NestedEnds(s: seq<string>, b: nat, outer: nat, inner: nat)
    requires outer < inner < b <= |s| && inner < ListEnd(s, outer, b) && BlockLine(s[inner])
    ensures SpaceRun(s[inner]) > SpaceRun(s[outer])
    ensures ListEnd(s, inner, b) <= ListEnd(s, outer, b)
  {
    hide Blank, SpaceRun, First, Back, RunEnd;
    var w, w2 := SpaceRun(s[outer]), SpaceRun(s[inner]);
    InsideList(s, b, outer, inner);
    RunInsideRun(s, outer + 1, inner + 1, b, DedentTest(w), DedentTest(w2), Blank);
  }

  lemma InsideList(s: seq<string>, b: nat, outer: nat, inner: nat)
    requires outer < inner < b <= |s| && inner < ListEnd(s, outer, b) && BlockLine(s[inner])
    ensures SpaceRun(s[inner]) > SpaceRun(s[outer])
  {
    hide Blank, SpaceRun, First, Back;
    FirstSkips(s, outer + 1, b, DedentTest(SpaceRun(s[outer])), inner);
    assert !Dedents(s[inner], SpaceRun(s[outer]));
    BlockLineHasInk(s[inner]);
  }

  lemma OtherLinesNoList(fm: seq<string>, req: Request, b: nat)
    requires Valid(req) && Locate(fm, req.kind) == NoList(b)
    ensures OtherLinesLaw(fm, req)
  {
    hide *;
    var indent := ChildIndent(fm, ProvIdx(fm), b);
    var n := [indent + ListKey(req.kind) + ":"] + EntryLines(req, indent + "  ");
    RecordedNoList(fm, req, b, indent);
    ListBlockNoKeys(n, indent, req.kind);
    OtherList(fm, Other(req.kind), b, n);
    EntangledIs(fm, req.kind);
    if Entangled(fm, req.kind) { NoListGoesInto(fm, req, b); }
    OtherLinesLawIs(fm, req);
  }

  lemma NoListGoesInto(fm: seq<string>, req: Request, b: nat)
    requires Valid(req) && Locate(fm, req.kind) == NoList(b) && Entangled(fm, req.kind)
    ensures GoesInto(fm, req)
  {
    hide *;
    var o := Other(req.kind);
    var indent := ChildIndent(fm, ProvIdx(fm), b);
    var n := [indent + ListKey(req.kind) + ":"] + EntryLines(req, indent + "  ");
    RecordedNoList(fm, req, b, indent);
    ListBlockNoKeys(n, indent, req.kind);
    EntangledIs(fm, req.kind);
    EntangledIsDeeper(fm, req.kind);
    InListUnfold(fm, o);
    TakenIn(fm, o, b, n);
    EntriesAreUnder(Recorded(fm, req), o);
    AddedIs(fm, req);
    PutIs(fm, req.kind);
    GoesIntoIs(fm, req);
  }

  lemma OtherLinesNoBlock(fm: seq<string>, req: Request)
    requires Valid(req) && Locate(fm, req.kind).NoBlock?
    ensures OtherLinesLaw(fm, req)
  {
    hide *;
    RecordedNoBlock(fm, req);
    EntangledIs(fm, req.kind);
    ReachesIs(fm, Other(req.kind), PutAt(fm, req.kind).0, PutAt(fm, req.kind).1);
    ExtentIs(fm, Other(req.kind));
    ExtentIs(Recorded(fm, req), Other(req.kind));
    OtherLinesLawIs(fm, req);
  }

  /** What recording means for the other kind. */
  ghost predicate OtherLinesLaw(fm: seq<string>, req: Request)
    requires !Locate(fm, req.kind).Refused?
  {
    var g, o := Recorded(fm, req), Other(req.kind);
    && (Extent(g, o) == Extent(fm, o) <==> !Entangled(fm, req.kind))
    && (!Entangled(fm, req.kind) ==> Entries(g, o) == Entries(fm, o))
    && (Entangled(fm, req.kind) ==> GoesInto(fm, req))
    && (Locate(g, o).Refused? <==> Locate(fm, o).Refused?)
  }

  /** The new lines go into the other list: it reads as its old lines with the new ones put in. */
  ghost predicate GoesInto(fm: seq<string>, req: Request)
    requires !Locate(fm, req.kind).Refused?
  {
    var g, o, p := Recorded(fm, req), Other(req.kind), PutAt(fm, req.kind).0;
    && Locate(fm, o).InList? && Locate(fm, o).header < p <= Locate(fm, o).end <= |Kept(fm, req.kind)|
    && var h, e := Locate(fm, o).header, Locate(fm, o).end;
       && Extent(g, o) == Insert(Kept(fm, req.kind)[h + 1..e], p - (h + 1), Added(fm, req))
       && Entries(g, o) == EntriesUnder(fm[h], Extent(g, o))
  }

  lemma OtherLinesLawIs(fm: seq<string>, req: Request)
    requires !Locate(fm, req.kind).Refused?
    ensures OtherLinesLaw(fm, req) <==>
            var g, o := Recorded(fm, req), Other(req.kind);
            && (Extent(g, o) == Extent(fm, o) <==> !Entangled(fm, req.kind))
            && (!Entangled(fm, req.kind) ==> Entries(g, o) == Entries(fm, o))
            && (Entangled(fm, req.kind) ==> GoesInto(fm, req))
            && (Locate(g, o).Refused? <==> Locate(fm, o).Refused?)
  {
    hide Recorded, Extent, Entangled, Entries, Locate, GoesInto;
  }

  /** The list of the other kind keeps its lines, and with them its entries, exactly when the
      two lists are not entangled. If they are, it reads as its old lines with the new lines put in
      where they went. Whether it is accepted never changes. */
  lemma OtherKind(fm: seq<string>, req: Request)
    requires Valid(req) && !Locate(fm, req.kind).Refused?
    ensures var g, o := Recorded(fm, req), Other(req.kind);
            && (Extent(g, o) == Extent(fm, o) <==> !Entangled(fm, req.kind))
            && (!Entangled(fm, req.kind) ==> Entries(g, o) == Entries(fm, o))
            && (Entangled(fm, req.kind) ==> GoesInto(fm, req))
            && (Locate(g, o).Refused? <==> Locate(fm, o).Refused?)
  {
    hide *;
    match Locate(fm, req.kind)
    case InList(h, e) => OtherLinesInList(fm, req, h, e); OtherLinesLawIs(fm, req);
    case NoList(b) => OtherLinesNoList(fm, req, b); OtherLinesLawIs(fm, req);
    case NoBlock => OtherLinesNoBlock(fm, req); OtherLinesLawIs(fm, req);
  }
}
