/** Whole histories of runs over the text of a plan: two logs that are only appended to. */
module RecordingHistories {
  import opened LineScans
  import opened LineText
  import opened PlanFrontmatter
  import opened EntryReadback
  import opened RecordingLaws
  import opened RecordingTheorems

  // ---------------------------------------------------------------------
  // Plans whose two lists do not get into each other's way
  // ---------------------------------------------------------------------

  /** The list ends before the end of the block, or a new key line would not be deeper than its key. */
  predicate RoomBehind(fm: seq<string>, h: nat, e: nat, b: nat)
    requires h < |fm| && ProvIdx(fm) < b <= |fm|
  {
    e < b || |ChildIndent(fm, ProvIdx(fm), b)| <= SpaceRun(fm[h])
  }

  /** The two lists do not overlap, and a list still to be made would not come to lie in the other. */
  predicate Apart(fm: seq<string>) {
    match (Locate(fm, Review), Locate(fm, Revision))
    case (InList(h, e), InList(h2, e2)) => e <= h2 || e2 <= h
    case (InList(h, e), NoList(b)) => RoomBehind(fm, h, e, b)
    case (NoList(b), InList(h, e)) => RoomBehind(fm, h, e, b)
    case _ => true
  }

  /** The same, seen from one kind. */
  lemma ApartIs(fm: seq<string>, kind: Kind)
    ensures Apart(fm) <==>
            match (Locate(fm, kind), Locate(fm, Other(kind)))
            case (InList(h, e), InList(h2, e2)) => e <= h2 || e2 <= h
            case (InList(h, e), NoList(b)) => RoomBehind(fm, h, e, b)
            case (NoList(b), InList(h, e)) => RoomBehind(fm, h, e, b)
            case _ => true
  {
    hide Locate, RoomBehind;
  }

  lemma PlacesOfBlock(fm: seq<string>, kind: Kind)
    ensures match Locate(fm, kind)
            case InList(h, e) =>
              HasBlock(fm) && h == Header(fm, kind) < e <= End(fm) && e == ListEnd(fm, h, End(fm))
              && BlockLine(fm[h]) && !Blank(fm[e - 1])
            case NoList(b) => HasBlock(fm) && b == End(fm) && Header(fm, kind) == End(fm)
            case NoBlock => Locate(fm, Other(kind)).NoBlock?
            case Refused => true
  {
    hide *;
    match Locate(fm, kind)
    case InList(h, e) =>
      InListUnfold(fm, kind);
      KeyHasInk(fm[h], kind);
      EndHasInk(fm, kind, h, End(fm));
    case NoList(b) => NoListUnfold(fm, kind);
    case NoBlock => NoBlockForBoth(fm, kind);
    case Refused =>
  }

  lemma OverlapReaches(fm: seq<string>, kind: Kind, h: nat, e: nat, h2: nat, e2: nat)
    requires Locate(fm, kind) == InList(h, e) && Locate(fm, Other(kind)) == InList(h2, e2)
    requires h2 < e && h < e2
    ensures Entangled(fm, kind) || Entangled(fm, Other(kind))
  {
    hide *;
    PlacesOfBlock(fm, kind);
    PlacesOfBlock(fm, Other(kind));
    TwoHeaders(fm, kind);
    OtherTwice(kind);
    EntangledIs(fm, kind);
    EntangledIs(fm, Other(kind));
    if h2 < h {
      NestedListReached(fm, kind, h, e, h2, e2);
    } else {
      NestedListReached(fm, Other(kind), h2, e2, h, e);
    }
  }

  lemma ApartReaches(fm: seq<string>, kind: Kind)
    requires Apart(fm) && !Locate(fm, kind).Refused?
    ensures !Entangled(fm, kind)
  {
    hide *;
    ApartIs(fm, kind);
    EntangledIs(fm, kind);
    ReachesIs(fm, Other(kind), PutAt(fm, kind).0, PutAt(fm, kind).1);
    PlacesOfBlock(fm, kind);
    PlacesOfBlock(fm, Other(kind));
    if Locate(fm, kind).NoList? && Locate(fm, Other(kind)).InList? {
      RoomIs(fm, Locate(fm, Other(kind)).header, Locate(fm, Other(kind)).end, Locate(fm, kind).end);
    }
  }

  lemma RoomIs(fm: seq<string>, h: nat, e: nat, b: nat)
    requires h < |fm| && ProvIdx(fm) < b <= |fm|
    ensures RoomBehind(fm, h, e, b) <==> e < b || |ChildIndent(fm, ProvIdx(fm), b)| <= SpaceRun(fm[h])
  {
    hide ProvIdx, ChildIndent, SpaceRun;
  }

  lemma ReachesWhenNotApart(fm: seq<string>, kind: Kind)
    requires !Apart(fm)
    ensures Entangled(fm, kind) || Entangled(fm, Other(kind))
  {
    hide *;
    ApartIs(fm, kind);
    PlacesOfBlock(fm, kind);
    PlacesOfBlock(fm, Other(kind));
    OtherTwice(kind);
    match (Locate(fm, kind), Locate(fm, Other(kind)))
    case (InList(h, e), InList(h2, e2)) => OverlapReaches(fm, kind, h, e, h2, e2);
    case (InList(h, e), NoList(b)) =>
      EntangledIs(fm, Other(kind));
      RoomIs(fm, h, e, b);
      ReachesIs(fm, kind, b, |ChildIndent(fm, ProvIdx(fm), b)|);
    case (NoList(b), InList(h, e)) =>
      EntangledIs(fm, kind);
      RoomIs(fm, h, e, b);
      ReachesIs(fm, Other(kind), b, |ChildIndent(fm, ProvIdx(fm), b)|);
    case _ =>
  }

  /** Recording leaves the other list alone for both kinds exactly when the lists are apart. */
  lemma ApartExact(fm: seq<string>)
    requires !Locate(fm, Review).Refused? && !Locate(fm, Revision).Refused?
    ensures Apart(fm) <==> !Entangled(fm, Review) && !Entangled(fm, Revision)
  {
    hide *;
    KindsAre();
    if Apart(fm) {
      ApartReaches(fm, Review);
      ApartReaches(fm, Revision);
    } else {
      ReachesWhenNotApart(fm, Review);
    }
  }

  /** Being apart is what it takes: exactly then no request of either kind changes the lines of the
      other list. */
  lemma ApartIffOthersStay(fm: seq<string>)
    requires !Locate(fm, Review).Refused? && !Locate(fm, Revision).Refused?
    ensures Apart(fm) <==>
            forall req | Valid(req) && !Locate(fm, req.kind).Refused? ::
              Extent(Recorded(fm, req), Other(req.kind)) == Extent(fm, Other(req.kind))
  {
    hide Locate, Apart, Entangled, Extent, Recorded, Valid;
    ApartExact(fm);
    forall req | Valid(req) && !Locate(fm, req.kind).Refused?
      ensures Extent(Recorded(fm, req), Other(req.kind)) == Extent(fm, Other(req.kind)) <==> !Entangled(fm, req.kind)
      ensures req.kind == Review || req.kind == Revision
    {
      OtherKind(fm, req);
    }
    SomeRequest(Review);
    SomeRequest(Revision);
  }

  /** There is something to record of either kind. */
  lemma SomeRequest(kind: Kind)
    ensures exists req :: Valid(req) && req.kind == kind
  {
    hide IsStamp;
    var at := "2026-01-31T09:15:00Z";
    AStamp(at);
    var req := Request(kind, "m", "", if kind == Review then "comments" else "other", "", at);
    assert Valid(req) && req.kind == kind;
  }

  lemma AStamp(at: string)
    requires at == "2026-01-31T09:15:00Z"
    ensures IsStamp(at)
  {
  }

  lemma KindsAre()
    ensures Other(Review) == Revision && Other(Revision) == Review
  {
  }

  // ---------------------------------------------------------------------
  // Lists stay apart
  // ---------------------------------------------------------------------

  lemma ChildIndentStays(fm: seq<string>, p: nat, n: seq<string>, h: nat)
    requires HasBlock(fm) && Fits(fm, p, n) && ProvIdx(fm) < h < p && BlockLine(fm[h])
    ensures HasBlock(Insert(fm, p, n))
    ensures ChildIndent(Insert(fm, p, n), ProvIdx(Insert(fm, p, n)), End(Insert(fm, p, n)))
         == ChildIndent(fm, ProvIdx(fm), End(fm))
  {
    hide HasBlock, End, ProvIdx, SpaceRun, IndentOf, HasInk, BlockLine;
    BlockGrows(fm, p, n);
    InkOfBlockLine(fm[h]);
    var q, b := ProvIdx(fm), End(fm);
    var c := First(fm, q + 1, b, HasInk);
    if h < c { FirstSkips(fm, q + 1, b, HasInk, h); assert false; }
    FirstBefore(fm, p, n, q + 1, b, HasInk);
    assert Insert(fm, p, n)[c] == fm[c];
  }

  lemma ChildIndentSwap(fm: seq<string>, kind: Kind, h: nat, e: nat)
    requires Locate(fm, kind) == InList(h, e)
    ensures var g := fm[h := BareHeader(fm[h], ListKey(kind))];
            && HasBlock(fm) && HasBlock(g)
            && ChildIndent(g, ProvIdx(g), End(g)) == ChildIndent(fm, ProvIdx(fm), End(fm))
  {
    hide *;
    SwapKeepsPlaces(fm, kind, h, e);
    BareHeaderShape(fm[h], kind);
    var x := BareHeader(fm[h], ListKey(kind));
    KeyHasInk(fm[h], kind);
    KeyHasInk(x, kind);
    InkOfBlockLine(fm[h]);
    InkOfBlockLine(x);
    ChildIndentOfSwap(fm, ProvIdx(fm), End(fm), h, x);
  }

  lemma ChildIndentOfSwap(s: seq<string>, q: nat, b: nat, h: nat, x: string)
    requires q < b <= |s| && h < |s| && HasInk(s[h]) && HasInk(x) && IndentOf(x) == IndentOf(s[h])
    ensures ChildIndent(s[h := x], q, b) == ChildIndent(s, q, b)
  {
    hide HasInk, IndentOf, First;
    FirstSwap(s, h, x, q + 1, b, HasInk);
  }

  lemma StaysApartInList(fm: seq<string>, req: Request, h: nat, e: nat)
    requires Valid(req) && Locate(fm, req.kind) == InList(h, e) && Apart(fm)
    ensures Apart(Recorded(fm, req))
  {
    hide *;
    var k, o := req.kind, Other(req.kind);
    var indent := ItemIndent(fm, h, e);
    var n := EntryLines(req, indent);
    var fm1 := fm[h := BareHeader(fm[h], ListKey(k))];
    var g := Recorded(fm, req);
    RecordedInList(fm, req, h, e);
    SwapKeepsPlaces(fm, k, h, e);
    EntryBlockNoKeys(n, indent, o);
    ApartIs(fm, k);
    ApartIs(g, k);
    ApartReaches(fm, k);
    EntangledIs(fm, k);
    ReachesIs(fm, o, e, |indent|);
    ReachesIs(fm1, o, e, |indent|);
    ReachedOrNot(fm1, o, e, n);
    PlacesOfBlock(fm1, k);
    PlacesOfBlock(fm, o);
    PlacesOfBlock(g, o);
    match Locate(fm, o)
    case InList(h2, e2) =>
      PlacesOfBlock(fm, k);
      TwoHeaders(fm, k);
      assert h2 != h;
      assert fm1[h2] == fm[h2];
    case NoList(b) =>
      ChildIndentStays(fm1, e, n, h);
      ChildIndentSwap(fm, k, h, e);
      assert g[h] == fm1[h];
      RoomIs(fm, h, e, b);
      RoomIs(g, h, e + |n|, b + |n|);
    case _ =>
  }

  lemma StaysApartNoList(fm: seq<string>, req: Request, b: nat)
    requires Valid(req) && Locate(fm, req.kind) == NoList(b) && Apart(fm)
    ensures Apart(Recorded(fm, req))
  {
    hide *;
    var k, o := req.kind, Other(req.kind);
    var indent := ChildIndent(fm, ProvIdx(fm), b);
    var n := [indent + ListKey(k) + ":"] + EntryLines(req, indent + "  ");
    var g := Recorded(fm, req);
    RecordedNoList(fm, req, b, indent);
    ListBlockNoKeys(n, indent, k);
    ApartIs(fm, k);
    ApartIs(g, k);
    ApartReaches(fm, k);
    EntangledIs(fm, k);
    ReachesIs(fm, o, b, |indent|);
    ReachedOrNot(fm, o, b, n);
    PlacesOfBlock(fm, k);
    PlacesOfBlock(fm, o);
    PlacesOfBlock(g, o);
    PlacesOfBlock(g, k);
    if Locate(fm, o).NoList? {
      NewListChildIndent(fm, b, n, indent);
      assert g[b] == n[0];
      RoomIs(g, b, b + |n|, b + |n|);
    }
  }

  lemma NewListChildIndent(fm: seq<string>, b: nat, n: seq<string>, indent: string)
    requires HasBlock(fm) && b == End(fm) && Fits(fm, b, n) && indent == ChildIndent(fm, ProvIdx(fm), b)
    requires SpaceRun(n[0]) == |indent|
    ensures HasBlock(Insert(fm, b, n))
    ensures |ChildIndent(Insert(fm, b, n), ProvIdx(Insert(fm, b, n)), End(Insert(fm, b, n)))| == |indent|
  {
    hide HasBlock, End, ProvIdx, SpaceRun, HasInk, BlockLine;
    BlockGrows(fm, b, n);
    FitsHead(fm, b, n);
    var q := ProvIdx(fm);
    var c := First(fm, q + 1, b, HasInk);
    if c < b {
      FirstBefore(fm, b, n, q + 1, b, HasInk);
      assert Insert(fm, b, n)[c] == fm[c];
    } else {
      FirstIsNew(fm, b, n, q + 1, b, HasInk);
      assert Insert(fm, b, n)[b] == n[0];
    }
  }

  lemma FitsHead(fm: seq<string>, p: nat, n: seq<string>)
    requires HasBlock(fm) && Fits(fm, p, n)
    ensures n != [] && HasInk(n[0])
  {
  }

  lemma StaysApartNoBlock(fm: seq<string>, req: Request)
    requires Valid(req) && Locate(fm, req.kind).NoBlock?
    ensures Apart(Recorded(fm, req))
  {
    hide *;
    RecordedNoBlock(fm, req);
    var q := Back(fm, 0, |fm|, Blank);
    var n := ["  " + ListKey(req.kind) + ":"] + EntryLines(req, "  " + "  ");
    var g := Recorded(fm, req);
    ApartIs(g, req.kind);
    ListBlockNoKeys(n, "  ", req.kind);
    assert g[q + 1] == n[0];
    RoomIs(g, q + 1, |g|, |g|);
  }

  lemma StaysApart(fm: seq<string>, req: Request)
    requires Valid(req) && !Locate(fm, req.kind).Refused? && Apart(fm)
    ensures Apart(Recorded(fm, req))
  {
    hide *;
    match Locate(fm, req.kind)
    case InList(h, e) => StaysApartInList(fm, req, h, e);
    case NoList(b) => StaysApartNoList(fm, req, b);
    case NoBlock => StaysApartNoBlock(fm, req);
  }

  // ---------------------------------------------------------------------
  // Whole texts
  // ---------------------------------------------------------------------

  function PlanOf(text: string): Plan {
    OpenPlan(SplitLines(text))
  }

  /** A line that can stand in a frontmatter: one line, and not a delimiter. */
  predicate Inner(line: string) {
    OneLine(line) && !IsDelimiter(line)
  }

  ghost predicate AllInner(lines: seq<string>) {
    forall i {:trigger Inner(lines[i])} | 0 <= i < |lines| :: Inner(lines[i])
  }

  lemma OneLineConcat(a: string, b: string)
    ensures OneLine(a + b) <==> OneLine(a) && OneLine(b)
  {
    NoBreakConcat(a, b);
  }

  lemma BlockLineIsNoDelimiter(line: string)
    requires BlockLine(line)
    ensures !IsDelimiter(line)
  {
    assert IsSpace(line[0]) by { if SpaceRun(line) == 0 { assert false; } }
    assert |line| >= 3 ==> line[..3][0] == line[0];
  }

  lemma FieldIsOneLine(f: Field, lead: string)
    requires OneLine(lead) && OneLine(f.key) && OneLine(f.raw)
    ensures OneLine(lead + FieldText(f))
  {
    OneLineConcat(f.key, ": ");
    OneLineConcat(f.key + ": ", f.raw);
    OneLineConcat(lead, FieldText(f));
  }

  predicate OneLineField(f: Field) {
    OneLine(f.key) && OneLine(f.raw)
  }

  lemma KeysAreOneLine(kind: Kind)
    ensures OneLine("model") && OneLine("harness") && OneLine("at") && OneLine("note")
    ensures OneLine(JudgmentKey(kind))
  {
  }

  lemma FieldsAreOneLine(req: Request)
    requires Valid(req)
    ensures forall i | 0 <= i < |Fields(req)| :: OneLineField(Fields(req)[i])
  {
    hide OneLine, Quote, IsStamp, IsJudgment, JudgmentKey, NoBreak, Unquote, IsRaw;
    StampIsRaw(req.at);
    KeysAreOneLine(req.kind);
    QuoteBreaks(req.model);
    QuoteBreaks(req.harness);
    QuoteBreaks(req.judgment);
    QuoteBreaks(req.note);
    var fs := [[Field("model", Quote(req.model))],
               if req.harness != "" then [Field("harness", Quote(req.harness))] else [],
               [Field("at", req.at)], [Field(JudgmentKey(req.kind), Quote(req.judgment))],
               if req.note != "" then [Field("note", Quote(req.note))] else []];
    assert Fields(req) == fs[0] + fs[1] + fs[2] + fs[3] + fs[4];
  }

  lemma {:induction false} ContLinesAreOneLine(fields: seq<Field>, indent: string)
    requires OneLine(indent)
    requires forall i | 0 <= i < |fields| :: OneLineField(fields[i])
    ensures forall i {:trigger OneLine(ContLines(fields, indent)[i])} | 0 <= i < |ContLines(fields, indent)| ::
              OneLine(ContLines(fields, indent)[i])
    decreases |fields|
  {
    if fields != [] {
      FieldIsOneLine(fields[0], "  ");
      OneLineConcat(indent, "  " + FieldText(fields[0]));
      ContLinesAreOneLine(fields[1..], indent);
      var rest := ContLines(fields[1..], indent);
      forall i {:trigger OneLine(ContLines(fields, indent)[i])} | 0 <= i < |ContLines(fields, indent)|
        ensures OneLine(ContLines(fields, indent)[i])
      {
        if i > 0 { assert ContLines(fields, indent)[i] == rest[i - 1]; assert OneLine(rest[i - 1]); }
      }
    }
  }

  lemma EntryLinesAreInner(req: Request, indent: string)
    requires Valid(req) && IsIndent(indent) && OneLine(indent)
    ensures AllInner(EntryLines(req, indent))
  {
    hide IsKey, Valid, IsIndent, OneLine, IsDelimiter, SpaceRun, Blank, Fields;
    var n := EntryLines(req, indent);
    FieldsAreOneLine(req);
    FieldsNotEmpty(req);
    FieldIsOneLine(Fields(req)[0], "- ");
    OneLineConcat(indent, "- " + FieldText(Fields(req)[0]));
    ContLinesAreOneLine(Fields(req)[1..], indent);
    var rest := ContLines(Fields(req)[1..], indent);
    EntryLinesShape2(req, indent);
    forall i {:trigger Inner(n[i])} | 0 <= i < |n|
      ensures Inner(n[i])
    {
      assert EntryLine(n[i], |indent|);
      BlockLineIsNoDelimiter(n[i]);
      if i > 0 { assert n[i] == rest[i - 1]; assert OneLine(rest[i - 1]); }
    }
  }

  lemma FieldsNotEmpty(req: Request)
    ensures Fields(req) != []
    ensures OneLine("- ") && OneLine("  ")
  {
  }

  lemma EntryLinesShape2(req: Request, indent: string)
    requires Valid(req) && IsIndent(indent)
    ensures AllEntryLines(EntryLines(req, indent), |indent|)
  {
    EntryLinesShape(req, indent);
  }

  lemma IndentIsOneLine(line: string)
    requires OneLine(line)
    ensures OneLine(IndentOf(line))
  {
    OneLineConcat(IndentOf(line), line[SpaceRun(line)..]);
    assert line == IndentOf(line) + line[SpaceRun(line)..];
  }

  lemma ItemIndentIsOneLine(fm: seq<string>, h: nat, e: nat)
    requires h < e <= |fm| && AllInner(fm)
    ensures OneLine(ItemIndent(fm, h, e))
  {
    hide IndentOf, IsDash, IsDelimiter, OneLine;
    var d := First(fm, h + 1, e, IsDash);
    assert Inner(fm[h]);
    IndentIsOneLine(fm[h]);
    OneLineConcat(IndentOf(fm[h]), "  ");
    assert OneLine("  ") by { SpacesOneLine(); }
    if d < e {
      assert Inner(fm[d]);
      IndentIsOneLine(fm[d]);
    }
  }

  lemma SpacesOneLine()
    ensures OneLine("  ") && OneLine("provenance:") && !IsDelimiter("provenance:")
  {
  }

  lemma ChildIndentIsOneLine(fm: seq<string>, q: nat, b: nat)
    requires q < b <= |fm| && AllInner(fm)
    ensures OneLine(ChildIndent(fm, q, b))
  {
    hide IndentOf, HasInk, IsDelimiter, OneLine;
    var c := First(fm, q + 1, b, HasInk);
    SpacesOneLine();
    if c < b {
      assert Inner(fm[c]);
      IndentIsOneLine(fm[c]);
    }
  }

  lemma KeyLineIsInner(indent: string, kind: Kind)
    requires IsIndent(indent) && OneLine(indent)
    ensures Inner(indent + ListKey(kind) + ":")
  {
    KeyLineShape(indent, kind);
    BlockLineIsNoDelimiter(indent + ListKey(kind) + ":");
    OneLineConcat(indent, ListKey(kind));
    OneLineConcat(indent + ListKey(kind), ":");
  }

  lemma BareHeaderIsInner(line: string, kind: Kind)
    requires IsKey(line, ListKey(kind)) && Inner(line)
    ensures Inner(BareHeader(line, ListKey(kind)))
  {
    hide IsDelimiter, OneLine, KeyTrailing, IndentOf;
    KeyIndented(line, kind);
    IndentOfIsIndent(line);
    IndentIsOneLine(line);
    KeyLineIsInner(IndentOf(line), kind);
  }

  lemma InnerInsert(s: seq<string>, p: nat, n: seq<string>)
    requires p <= |s| && AllInner(s) && AllInner(n)
    ensures AllInner(Insert(s, p, n))
  {
    hide Inner;
    var g := Insert(s, p, n);
    forall i {:trigger Inner(g[i])} | 0 <= i < |g|
      ensures Inner(g[i])
    {
      if i < p { assert Inner(s[i]); }
      else if i < p + |n| { assert Inner(n[i - p]); }
      else { assert Inner(s[i - |n|]); }
    }
  }

  lemma InnerCons(line: string, n: seq<string>)
    requires Inner(line) && AllInner(n)
    ensures AllInner([line] + n)
  {
    hide Inner;
    var g := [line] + n;
    forall i {:trigger Inner(g[i])} | 0 <= i < |g|
      ensures Inner(g[i])
    {
      if i > 0 { assert Inner(n[i - 1]); }
    }
  }

  /** Recording puts nothing into the frontmatter that would end it early. */
  lemma RecordedIsInner(fm: seq<string>, req: Request)
    requires Valid(req) && !Locate(fm, req.kind).Refused? && AllInner(fm)
    ensures AllInner(Recorded(fm, req))
  {
    hide *;
    var key := ListKey(req.kind);
    match Locate(fm, req.kind)
    case InList(h, e) =>
      RecordedInList(fm, req, h, e);
      ItemIndentOfPlace(fm, req.kind, h, e);
      ItemIndentIsOneLine(fm, h, e);
      EntryLinesAreInner(req, ItemIndent(fm, h, e));
      InnerAt(fm, h);
      BareHeaderIsInner(fm[h], req.kind);
      var fm1 := fm[h := BareHeader(fm[h], key)];
      InnerSwap(fm, h, BareHeader(fm[h], key));
      InnerInsert(fm1, e, EntryLines(req, ItemIndent(fm, h, e)));
    case NoList(b) =>
      var indent := ChildIndent(fm, ProvIdx(fm), b);
      RecordedNoList(fm, req, b, indent);
      ChildIndentIsOneLine(fm, ProvIdx(fm), b);
      NewListIsInner(req, indent);
      InnerInsert(fm, b, [indent + key + ":"] + EntryLines(req, indent + "  "));
    case NoBlock =>
      RecordedNoBlock(fm, req);
      var q := Back(fm, 0, |fm|, Blank);
      var n := ["  " + key + ":"] + EntryLines(req, "  " + "  ");
      TwoSpaces();
      SpacesOneLine();
      NewListIsInner(req, "  ");
      ProvenanceIsInner();
      InnerCons("provenance:", n);
      InnerTake(fm, q);
      assert fm[..q] + (["provenance:"] + n) == Insert(fm[..q], q, ["provenance:"] + n) by {
        InsertAtEnd(fm[..q], ["provenance:"] + n);
      }
      InnerInsert(fm[..q], q, ["provenance:"] + n);
  }

  lemma InsertAtEnd(s: seq<string>, n: seq<string>)
    ensures Insert(s, |s|, n) == s + n
  {
  }

  lemma InnerTake(s: seq<string>, q: nat)
    requires q <= |s| && AllInner(s)
    ensures AllInner(s[..q])
  {
    hide Inner;
    forall i {:trigger Inner(s[..q][i])} | 0 <= i < q
      ensures Inner(s[..q][i])
    {
      assert Inner(s[i]);
    }
  }

  lemma ProvenanceIsInner()
    ensures Inner("provenance:")
  {
    SpacesOneLine();
  }

  lemma InnerAt(s: seq<string>, h: nat)
    requires h < |s| && AllInner(s)
    ensures Inner(s[h])
  {
  }

  lemma InnerSwap(s: seq<string>, h: nat, x: string)
    requires h < |s| && AllInner(s) && Inner(x)
    ensures AllInner(s[h := x])
  {
    hide Inner;
    var g := s[h := x];
    forall i {:trigger Inner(g[i])} | 0 <= i < |g|
      ensures Inner(g[i])
    {
      assert Inner(s[i]);
    }
  }

  lemma NewListIsInner(req: Request, indent: string)
    requires Valid(req) && IsIndent(indent) && OneLine(indent)
    ensures AllInner([indent + ListKey(req.kind) + ":"] + EntryLines(req, indent + "  "))
  {
    hide *;
    SpacesOneLine();
    OneLineConcat(indent, "  ");
    DeeperIndent(indent);
    KeyLineIsInner(indent, req.kind);
    EntryLinesAreInner(req, indent + "  ");
    InnerCons(indent + ListKey(req.kind) + ":", EntryLines(req, indent + "  "));
  }

  lemma OpenedIsInner(text: string)
    requires PlanOf(text).Plan?
    ensures AllInner(PlanOf(text).fm)
    ensures forall i | 0 <= i < |PlanOf(text).rest| :: OneLine(PlanOf(text).rest[i])
  {
    hide IsDelimiter, OneLine;
    var lines := SplitLines(text);
    if IsDelimiter(lines[0]) {
      var close := First(lines, 1, |lines|, IsDelimiter);
      var fm := lines[1..close];
      forall i {:trigger Inner(fm[i])} | 0 <= i < |fm|
        ensures Inner(fm[i])
      {
        assert fm[i] == lines[i + 1];
        FirstSkips(lines, 1, |lines|, IsDelimiter, i + 1);
      }
    }
  }

  /** A rendered plan opens as the same frontmatter and body. */
  lemma OpenOfRender(plan: Plan)
    requires plan.Plan? && AllInner(plan.fm)
    requires forall i | 0 <= i < |plan.rest| :: OneLine(plan.rest[i])
    ensures PlanOf(JoinLines(Render(plan)))
         == Plan(true, plan.fm, (if plan.hadFrontmatter then [] else [""]) + plan.rest)
  {
    hide IsDelimiter, OneLine, SplitLines, JoinLines;
    var lines := Render(plan);
    var rest := (if plan.hadFrontmatter then [] else [""]) + plan.rest;
    assert lines == ["---"] + plan.fm + (["---"] + rest);
    DashesFacts();
    var close := |plan.fm| + 1;
    assert lines[close] == "---";
    forall i | 0 <= i < |lines|
      ensures OneLine(lines[i])
      ensures 1 <= i < close ==> !IsDelimiter(lines[i])
    {
      if 1 <= i < close { assert lines[i] == plan.fm[i - 1]; assert Inner(plan.fm[i - 1]); }
      else if i > close { assert lines[i] == rest[i - close - 1]; }
    }
    SplitOfJoin(lines);
    FirstIs(lines, 1, |lines|, IsDelimiter, close);
    assert lines[1..close] == plan.fm;
    assert lines[close + 1..] == rest;
  }

  lemma DashesFacts()
    ensures IsDelimiter("---") && OneLine("---") && OneLine("")
  {
  }

  /** What a run that writes leaves behind: the recorded frontmatter and the same body. */
  lemma WrittenPlan(text: string, req: Request, allowDuplicate: bool)
    requires Valid(req) && RecordIn(text, req, allowDuplicate).Written?
    ensures PlanOf(text).Plan? && !Locate(PlanOf(text).fm, req.kind).Refused?
    ensures var plan := PlanOf(text);
            PlanOf(RecordIn(text, req, allowDuplicate).text)
              == Plan(true, Recorded(plan.fm, req), (if plan.hadFrontmatter then [] else [""]) + plan.rest)
  {
    hide Locate, Recorded, OpenPlan, SplitLines, JoinLines, Render, IsDuplicate, Entries, Valid;
    var plan := PlanOf(text);
    OpenedIsInner(text);
    RecordedIsInner(plan.fm, req);
    OpenOfRender(plan.(fm := Recorded(plan.fm, req)));
  }

  // ---------------------------------------------------------------------
  // One run
  // ---------------------------------------------------------------------

  function Body(text: string): seq<string>
    requires PlanOf(text).Plan?
  {
    PlanOf(text).rest
  }

  function ReadBack(text: string, kind: Kind): seq<Entry>
    requires PlanOf(text).Plan?
  {
    Entries(PlanOf(text).fm, kind)
  }

  /** A plan that the script can record `kind` in. */
  predicate Open(text: string, kind: Kind) {
    PlanOf(text).Plan? && !Locate(PlanOf(text).fm, kind).Refused?
  }

  /** A plan that the script accepts for both kinds, with its lists apart. */
  predicate Accepted(text: string) {
    Open(text, Review) && Open(text, Revision) && Apart(PlanOf(text).fm)
  }

  lemma AcceptedIs(text: string, kind: Kind)
    ensures Accepted(text) <==> Open(text, kind) && Open(text, Other(kind)) && Apart(PlanOf(text).fm)
    ensures Open(text, kind) <==> PlanOf(text).Plan? && !Locate(PlanOf(text).fm, kind).Refused?
    ensures Open(text, Other(kind)) <==> PlanOf(text).Plan? && !Locate(PlanOf(text).fm, Other(kind)).Refused?
  {
    hide Locate, PlanOf, Apart;
  }

  lemma ReadBackIs(text: string, kind: Kind)
    requires PlanOf(text).Plan?
    ensures ReadBack(text, kind) == Entries(PlanOf(text).fm, kind)
    ensures Body(text) == PlanOf(text).rest
  {
    hide PlanOf, Entries;
  }

  /** The body after a run: as it was, except that a plan without frontmatter gets an empty line
      between the new frontmatter and its text. */
  function BodyAfter(text: string): seq<string>
    requires PlanOf(text).Plan?
  {
    if PlanOf(text).hadFrontmatter then Body(text) else [""] + Body(text)
  }

  lemma OutcomeIs(text: string, req: Request, allowDuplicate: bool)
    ensures RecordIn(text, req, allowDuplicate).Died? <==> !Open(text, req.kind)
    ensures Open(text, req.kind) ==>
              (RecordIn(text, req, allowDuplicate).Skipped? <==>
               !allowDuplicate && IsDuplicate(ReadBack(text, req.kind), req))
  {
    hide Locate, Entries, IsDuplicate, Recorded, OpenPlan, SplitLines, JoinLines, Render;
  }

  /** What a run that writes does to what the script reads: its own list is read on with the request,
      the other list keeps its lines exactly when the lists are not entangled, the body stays, and
      the next run accepts what this one did. */
  lemma OneRun(text: string, req: Request, allowDuplicate: bool)
    requires Valid(req) && RecordIn(text, req, allowDuplicate).Written?
    ensures Open(text, req.kind)
    ensures var t, o := RecordIn(text, req, allowDuplicate).text, Other(req.kind);
            && Open(t, req.kind) && (Open(t, o) <==> Open(text, o)) && PlanOf(t).hadFrontmatter
            && ReadBack(t, req.kind) == ReadOn(ReadBack(text, req.kind), req)
            && (Extent(PlanOf(t).fm, o) == Extent(PlanOf(text).fm, o) <==> !Entangled(PlanOf(text).fm, req.kind))
            && (!Entangled(PlanOf(text).fm, req.kind) ==> ReadBack(t, o) == ReadBack(text, o))
            && (Accepted(text) ==> Accepted(t) && !Entangled(PlanOf(text).fm, req.kind))
            && Body(t) == BodyAfter(text)
  {
    hide *;
    WrittenPlan(text, req, allowDuplicate);
    var t := RecordIn(text, req, allowDuplicate).text;
    var fm := PlanOf(text).fm;
    AcceptedIs(text, req.kind);
    AcceptedIs(t, req.kind);
    var indent := Readback(fm, req);
    IndentIsSpace(indent);
    ParseEntryLines(Entries(fm, req.kind), req, indent);
    OtherKind(fm, req);
    if Accepted(text) {
      ApartReaches(fm, req.kind);
      StaysApart(fm, req);
    }
    ReadBackIs(text, req.kind);
    ReadBackIs(text, Other(req.kind));
    ReadBackIs(t, req.kind);
    ReadBackIs(t, Other(req.kind));
    BodyIs(text);
  }

  lemma BodyIs(text: string)
    requires PlanOf(text).Plan?
    ensures BodyAfter(text) == (if PlanOf(text).hadFrontmatter then [] else [""]) + PlanOf(text).rest
  {
    hide PlanOf;
    assert [] + PlanOf(text).rest == PlanOf(text).rest;
  }

  // ---------------------------------------------------------------------
  // Histories
  // ---------------------------------------------------------------------

  datatype Run = Run(req: Request, allowDuplicate: bool)

  predicate ValidRuns(runs: seq<Run>) {
    forall i | 0 <= i < |runs| :: Valid(runs[i].req)
  }

  /** The text that runs leave one after the other, unless one of them dies. */
  function RunAll(text: string, runs: seq<Run>): Outcome
    decreases |runs|
  {
    if runs == [] then Written(text)
    else
      match RecordIn(text, runs[0].req, runs[0].allowDuplicate)
      case Written(t) => RunAll(t, runs[1..])
      case Skipped => RunAll(text, runs[1..])
      case Died => Died
  }

  /** A log, on its own: a run reads it on, unless the newest entry is a duplicate and none is allowed. */
  function Logged(log: seq<Entry>, run: Run): seq<Entry> {
    if !run.allowDuplicate && IsDuplicate(log, run.req) then log else ReadOn(log, run.req)
  }

  /** A log of one kind after a history: runs of the other kind leave it alone. */
  function Replayed(log: seq<Entry>, runs: seq<Run>, kind: Kind): seq<Entry>
    decreases |runs|
  {
    if runs == [] then log
    else Replayed(if runs[0].req.kind == kind then Logged(log, runs[0]) else log, runs[1..], kind)
  }

  /** One run of a history: it dies on no accepted plan, and both lists read as the logs do. */
  lemma OneRunOfTwoLogs(text: string, run: Run)
    requires Accepted(text) && Valid(run.req)
    ensures Open(text, Review) && Open(text, Revision) && !RecordIn(text, run.req, run.allowDuplicate).Died?
    ensures var t := if RecordIn(text, run.req, run.allowDuplicate).Written?
                     then RecordIn(text, run.req, run.allowDuplicate).text else text;
            && Accepted(t) && Open(t, Review) && Open(t, Revision)
            && (forall kind ::
                  ReadBack(t, kind) ==
                  if run.req.kind == kind then Logged(ReadBack(text, kind), run) else ReadBack(text, kind))
            && PlanOf(t).hadFrontmatter && Body(t) == BodyAfter(text)
  {
    hide *;
    var req := run.req;
    AcceptedIs(text, Review);
    AcceptedIs(text, req.kind);
    KindsAre();
    OutcomeIs(text, req, run.allowDuplicate);
    LoggedIs(ReadBack(text, req.kind), run);
    if RecordIn(text, req, run.allowDuplicate).Written? {
      OneRun(text, req, run.allowDuplicate);
      AcceptedIs(RecordIn(text, req, run.allowDuplicate).text, Review);
    } else {
      SkippedHadFrontmatter(text, req);
    }
    var outcome := RecordIn(text, req, run.allowDuplicate);
    var t := if outcome.Written? then outcome.text else text;
    forall kind: Kind
      ensures ReadBack(t, kind) == if req.kind == kind then Logged(ReadBack(text, kind), run) else ReadBack(text, kind)
    {
      OtherIs(kind, req.kind);
    }
  }

  lemma LoggedIs(log: seq<Entry>, run: Run)
    ensures Logged(log, run) ==
            if !run.allowDuplicate && IsDuplicate(log, run.req) then log else ReadOn(log, run.req)
  {
    hide IsDuplicate, ReadOn;
  }

  lemma NothingToRead(text: string, kind: Kind)
    requires PlanOf(text).Plan?
    ensures !PlanOf(text).hadFrontmatter ==> ReadBack(text, kind) == []
    ensures PlanOf(text).hadFrontmatter ==> Body(text) == BodyAfter(text)
  {
    hide SplitLines, IsDelimiter;
  }

  /** Only a plan with frontmatter has a duplicate to skip for. */
  lemma SkippedHadFrontmatter(text: string, req: Request)
    requires Open(text, req.kind) && IsDuplicate(ReadBack(text, req.kind), req)
    ensures PlanOf(text).hadFrontmatter && Body(text) == BodyAfter(text)
  {
    hide PlanOf, Day, ReadBack, Body, BodyAfter, Locate;
    NothingToRead(text, req.kind);
  }

  /** Any history of runs, each allowing duplicates or not, over a plan the script accepts: no run
      dies, every run accepts what the one before left, and both lists read back as two logs that
      know nothing of each other or of the text around them. */
  lemma {:induction false} HistoryIsTwoLogs(text: string, runs: seq<Run>)
    requires Accepted(text) && ValidRuns(runs)
    ensures RunAll(text, runs).Written? && Accepted(RunAll(text, runs).text)
    ensures Open(text, Review) && Open(RunAll(text, runs).text, Review)
    ensures forall kind :: ReadBack(RunAll(text, runs).text, kind) == Replayed(ReadBack(text, kind), runs, kind)
    ensures Body(RunAll(text, runs).text) == if runs == [] then Body(text) else BodyAfter(text)
    decreases |runs|
  {
    hide Accepted, Open, Valid, Logged, RecordIn, ReadBack, PlanOf, Body, BodyAfter;
    AcceptedIs(text, Review);
    if runs != [] {
      OneRunOfTwoLogs(text, runs[0]);
      var outcome := RecordIn(text, runs[0].req, runs[0].allowDuplicate);
      var t := if outcome.Written? then outcome.text else text;
      HistoryIsTwoLogs(t, runs[1..]);
      AcceptedIs(t, Review);
      BodyStays(t);
    }
  }

  lemma BodyStays(text: string)
    requires PlanOf(text).Plan? && PlanOf(text).hadFrontmatter
    ensures BodyAfter(text) == Body(text)
  {
    hide PlanOf;
  }

  /** Runs of one kind make one log whatever the plan looks like, also when the lists are entangled. */
  lemma {:induction false} HistoryOfOneKind(text: string, runs: seq<Run>, kind: Kind)
    requires Open(text, kind) && ValidRuns(runs) && forall i | 0 <= i < |runs| :: runs[i].req.kind == kind
    ensures RunAll(text, runs).Written? && Open(RunAll(text, runs).text, kind)
    ensures PlanOf(text).Plan?
    ensures ReadBack(RunAll(text, runs).text, kind) == Replayed(ReadBack(text, kind), runs, kind)
    decreases |runs|
  {
    hide Accepted, Open, Valid, RecordIn, ReadBack, PlanOf, Body, BodyAfter, Extent, Entangled, ReadOn, IsDuplicate;
    AcceptedIs(text, kind);
    if runs != [] {
      var outcome := RecordIn(text, runs[0].req, runs[0].allowDuplicate);
      OutcomeIs(text, runs[0].req, runs[0].allowDuplicate);
      if outcome.Written? { OneRun(text, runs[0].req, runs[0].allowDuplicate); }
      HistoryOfOneKind(if outcome.Written? then outcome.text else text, runs[1..], kind);
    }
  }

  // ---------------------------------------------------------------------
  // What a log keeps
  // ---------------------------------------------------------------------

  /** The entries of one kind that a history stands for, in order. */
  function Requested(runs: seq<Run>, kind: Kind): seq<Entry> {
    if runs == [] then []
    else (if runs[0].req.kind == kind then [EntryOf(runs[0].req)] else []) + Requested(runs[1..], kind)
  }

  /** With duplicates allowed, and values that keep to one line, a log is its old entries followed
      by exactly the recorded ones, in order. */
  lemma {:induction false} AllowedRunsAppend(log: seq<Entry>, runs: seq<Run>, kind: Kind)
    requires forall i | 0 <= i < |runs| :: runs[i].allowDuplicate && AllLineSafe(runs[i].req)
    ensures Replayed(log, runs, kind) == log + Requested(runs, kind)
    decreases |runs|
  {
    hide LineSafe, EntryOf, IsDuplicate, Overwritten;
    if runs != [] {
      var run := runs[0];
      OverwrittenIsEntry(run.req);
      var next := if run.req.kind == kind then Logged(log, run) else log;
      AllowedRunsAppend(next, runs[1..], kind);
      assert next == log + (if run.req.kind == kind then [EntryOf(run.req)] else []);
    }
  }

  /** Whatever is recorded, no entry but the newest is ever touched, and none is lost. */
  lemma {:induction false} OlderEntriesStay(log: seq<Entry>, runs: seq<Run>, kind: Kind)
    ensures |Replayed(log, runs, kind)| >= |log|
    ensures log != [] ==> Replayed(log, runs, kind)[..|log| - 1] == log[..|log| - 1]
    decreases |runs|
  {
    hide LineSafe, IsDuplicate, Overwritten;
    if runs != [] {
      var next := if runs[0].req.kind == kind then Logged(log, runs[0]) else log;
      OlderEntriesStay(next, runs[1..], kind);
      if log != [] {
        var end := Replayed(next, runs[1..], kind);
        assert next[..|log| - 1] == log[..|log| - 1];
        assert end[..|log| - 1] == end[..|next| - 1][..|log| - 1] == next[..|next| - 1][..|log| - 1];
      }
    }
  }

  lemma OtherIs(kind: Kind, k: Kind)
    ensures kind != k ==> kind == Other(k)
    ensures Other(k) != k
  {
  }

  // ---------------------------------------------------------------------
  // Running twice on one day
  // ---------------------------------------------------------------------

  /** Two stamps agree in year, month and day: in their first ten characters. */
  predicate SameDay(a: string, b: string) {
    |a| >= 10 && |b| >= 10 && forall i | 0 <= i < 10 :: a[i] == b[i]
  }

  lemma DayIs(a: string, b: string)
    requires |b| >= 10
    ensures Day(a) == Day(b) <==> SameDay(a, b)
  {
    if SameDay(a, b) { assert Day(a) == a[..10] == b[..10] == Day(b); }
    if Day(a) == Day(b) {
      assert |Day(a)| == 10;
      assert forall i | 0 <= i < 10 :: a[i] == Day(a)[i] && b[i] == Day(b)[i];
    }
  }

  /** The second request repeats what the first one reads back as, after the entries `log`. A note
      that does not keep to one line is not read back. If the model does not, the entry before is
      read in its place, with the day, the judgment and the note that were written over it. */
  predicate Repeats(log: seq<Entry>, req: Request, again: Request) {
    && again.judgment == req.judgment && SameDay(again.at, req.at)
    && if LineSafe(req.model) then
         again.model == req.model && again.note == (if LineSafe(req.note) then req.note else "")
       else
         && log != [] && "model" in log[|log| - 1] && again.model == log[|log| - 1]["model"]
         && again.note == if req.note != "" && LineSafe(req.note) then req.note else GetOr(log[|log| - 1], "note", "")
  }

  lemma ReadOnRepeats(log: seq<Entry>, req: Request, again: Request)
    requires again.kind == req.kind && IsStamp(req.at)
    ensures IsDuplicate(ReadOn(log, req), again) <==> Repeats(log, req, again)
  {
    hide LineSafe, Day, SameDay, IsStamp;
    StampIsLong(req.at);
    DayIs(again.at, req.at);
    NothingIsSafe();
    if LineSafe(req.model) {
      OverwrittenRepeats(map["model" := req.model], req, again);
    } else if log != [] {
      OverwrittenRepeats(log[|log| - 1], req, again);
    }
  }

  lemma StampIsLong(at: string)
    requires IsStamp(at)
    ensures |at| == 20
  {
  }

  lemma OverwrittenRepeats(e: Entry, req: Request, again: Request)
    requires again.kind == req.kind
    ensures IsDuplicate([Overwritten(e, req)], again) <==>
            && "model" in e && again.model == e["model"]
            && again.note == (if req.note != "" && LineSafe(req.note) then req.note else GetOr(e, "note", ""))
            && again.judgment == req.judgment && Day(again.at) == Day(req.at)
  {
    hide LineSafe, Day;
  }

  /** After a run, whichever way it had to put its entry in, another run of its kind is skipped
      exactly when it repeats what the first one reads back as. */
  lemma RunAfterRun(text: string, req: Request, allowDuplicate: bool, again: Request)
    requires Valid(req) && RecordIn(text, req, allowDuplicate).Written? && again.kind == req.kind
    ensures Open(text, req.kind)
    ensures RecordIn(RecordIn(text, req, allowDuplicate).text, again, false).Skipped? <==>
            Repeats(ReadBack(text, req.kind), req, again)
  {
    hide *;
    OneRun(text, req, allowDuplicate);
    AcceptedIs(text, req.kind);
    StampOf(req);
    OutcomeIs(RecordIn(text, req, allowDuplicate).text, again, false);
    ReadOnRepeats(ReadBack(text, req.kind), req, again);
  }

  /** A run that repeats the kind, the model, the judgment and the note of the last one on the same
      day is skipped exactly when model and note keep to one line, or when the model does not and
      the entry before happens to have it, with a note that agrees. */
  lemma RepeatIsSkipped(text: string, req: Request, allowDuplicate: bool, again: Request)
    requires Valid(req) && RecordIn(text, req, allowDuplicate).Written?
    requires again.kind == req.kind && again.model == req.model && again.judgment == req.judgment
    requires again.note == req.note && SameDay(again.at, req.at)
    ensures Open(text, req.kind)
    ensures RecordIn(RecordIn(text, req, allowDuplicate).text, again, false).Skipped? <==>
            var log := ReadBack(text, req.kind);
            if LineSafe(req.model) then LineSafe(req.note)
            else
              && log != [] && "model" in log[|log| - 1] && log[|log| - 1]["model"] == req.model
              && ((req.note != "" && LineSafe(req.note)) || GetOr(log[|log| - 1], "note", "") == req.note)
  {
    hide RecordIn, Valid, SameDay, LineSafe, ReadBack, Open;
    RunAfterRun(text, req, allowDuplicate, again);
    NothingIsSafe();
  }
}
