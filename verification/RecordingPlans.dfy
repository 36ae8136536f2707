/** Plans that the script accepts and then reads otherwise than their author meant: a list under the
    other, a list inside the other, and items no deeper than their key. */
module RecordingPlans {
  import opened Options
  import opened LineScans
  import opened LineText
  import opened PlanFrontmatter
  import opened EntryReadback
  import opened RecordingLaws
  import opened RecordingTheorems
  import opened RecordingHistories

  // ---------------------------------------------------------------------
  // Which lines belong to a list
  // ---------------------------------------------------------------------

  /** A line of the block behind the key line belongs to the list exactly when it or a later line
      has ink and no line with ink from the key line up to there is as shallow as the key. */
  lemma InListExact(fm: seq<string>, kind: Kind, i: nat)
    requires Locate(fm, kind).InList? && HasBlock(fm) && Locate(fm, kind).header < i < End(fm)
    ensures i < Locate(fm, kind).end <==>
            exists j :: i <= j < End(fm) && !Blank(fm[j]) && NoDedent(fm, Locate(fm, kind).header, j)
  {
    hide *;
    InListUnfold(fm, kind);
    EndHasInk(fm, kind, Locate(fm, kind).header, End(fm));
    InRunExact(fm, Locate(fm, kind).header, End(fm), i);
  }

  /** No line from behind `h` up to `j` has ink and is as shallow as line `h`. */
  predicate NoDedent(fm: seq<string>, h: nat, j: nat)
    requires h < |fm| && j < |fm|
  {
    forall m | h < m <= j :: !Dedents(fm[m], SpaceRun(fm[h]))
  }

  lemma InRunExact(fm: seq<string>, h: nat, b: nat, i: nat)
    requires h < i < b <= |fm| && (ListEnd(fm, h, b) > h + 1 ==> !Blank(fm[ListEnd(fm, h, b) - 1]))
    ensures i < ListEnd(fm, h, b) <==> exists j :: i <= j < b && !Blank(fm[j]) && NoDedent(fm, h, j)
  {
    hide Blank, SpaceRun, Dedents, First, Back;
    var stop := DedentTest(SpaceRun(fm[h]));
    var raw := First(fm, h + 1, b, stop);
    var e := ListEnd(fm, h, b);
    assert raw < b ==> Dedents(fm[raw], SpaceRun(fm[h]));
    if i < e {
      forall m | h < m <= e - 1
        ensures !Dedents(fm[m], SpaceRun(fm[h]))
      {
        FirstSkips(fm, h + 1, b, stop, m);
      }
      assert NoDedent(fm, h, e - 1);
    }
    forall j | i <= j < b && !Blank(fm[j]) && NoDedent(fm, h, j)
      ensures j < e
    {
      if e <= j && j < raw { BackSkips(fm, h + 1, raw, Blank, j); }
    }
  }

  // ---------------------------------------------------------------------
  // Items no deeper than their key
  // ---------------------------------------------------------------------

  /** Items that are no deeper than their key, which YAML allows, are not read, and a new entry is
      put before them. */
  lemma ShallowItemsAreMissed(fm: seq<string>, req: Request)
    requires Valid(req) && Locate(fm, req.kind).InList?
    requires HasBlock(fm) && Locate(fm, req.kind).header + 1 < End(fm)
    requires Dedents(fm[Locate(fm, req.kind).header + 1], SpaceRun(fm[Locate(fm, req.kind).header]))
    ensures var h := Locate(fm, req.kind).header; var indent := IndentOf(fm[h]) + "  ";
            && Locate(fm, req.kind) == InList(h, h + 1) && Entries(fm, req.kind) == []
            && Recorded(fm, req) ==
               fm[..h] + [BareHeader(fm[h], ListKey(req.kind))] + EntryLines(req, indent) + fm[h + 1..]
            && Entries(Recorded(fm, req), req.kind) == ReadOn([], req)
  {
    hide *;
    var h := Locate(fm, req.kind).header;
    ShallowList(fm, req.kind);
    RecordedInList(fm, req, h, h + 1);
    PutInBehind(fm, h, BareHeader(fm[h], ListKey(req.kind)), EntryLines(req, ItemIndent(fm, h, h + 1)));
    var indent := Readback(fm, req);
    IndentIsSpace(indent);
    ParseEntryLines([], req, indent);
  }

  lemma ShallowList(fm: seq<string>, kind: Kind)
    requires Locate(fm, kind).InList? && HasBlock(fm) && Locate(fm, kind).header + 1 < End(fm)
    requires Dedents(fm[Locate(fm, kind).header + 1], SpaceRun(fm[Locate(fm, kind).header]))
    ensures var h := Locate(fm, kind).header;
            && Locate(fm, kind) == InList(h, h + 1) && Entries(fm, kind) == []
            && ItemIndent(fm, h, h + 1) == IndentOf(fm[h]) + "  "
  {
    hide *;
    var h := Locate(fm, kind).header;
    InListExact(fm, kind, h + 1);
    InListUnfold(fm, kind);
    forall j | h + 1 <= j < End(fm)
      ensures !NoDedent(fm, h, j)
    {
      DedentAt(fm, h, j);
    }
    EntriesAre(fm, kind, h, h + 1);
    NothingUnder(fm, h);
  }

  lemma DedentAt(fm: seq<string>, h: nat, j: nat)
    requires h < j < |fm| && Dedents(fm[h + 1], SpaceRun(fm[h]))
    ensures !NoDedent(fm, h, j)
  {
    hide Dedents;
  }

  lemma NothingUnder(fm: seq<string>, h: nat)
    requires h < |fm|
    ensures ItemIndent(fm, h, h + 1) == IndentOf(fm[h]) + "  "
    ensures ParseFrom([], fm[h + 1..h + 1], ItemIndent(fm, h, h + 1)) == []
  {
    hide IndentOf, IsDash;
    assert fm[h + 1..h + 1] == [];
  }

  lemma PutInBehind(s: seq<string>, h: nat, x: string, n: seq<string>)
    requires h < |s|
    ensures Insert(s[h := x], h + 1, n) == s[..h] + [x] + n + s[h + 1..]
  {
  }

  // ---------------------------------------------------------------------
  // An entry read under the other list
  // ---------------------------------------------------------------------

  /** Lines of an entry that are deeper than the items of the list they come to lie in do not open
      an entry there: all but the first are written over the newest one. */
  lemma ParseDeeper(entries: seq<Entry>, req: Request, indent: string, gap: string)
    requires Valid(req) && AllSpace(indent) && AllSpace(gap) && gap != ""
    ensures ParseFrom(entries, EntryLines(req, indent + gap), indent) == OverNewest(entries, req)
  {
    hide *;
    StampOf(req);
    FieldsAreWellFormed(req);
    var lines := EntryLines(req, indent + gap);
    EntryLinesAre(req, indent + gap);
    ItemIsIgnored(entries, indent, gap, Fields(req)[0]);
    ParseStep(entries, lines, indent);
    if entries == [] {
      ParseDeeperOfNothing(Fields(req)[1..], indent, gap);
    } else {
      ParseDeeperFields(entries, Fields(req)[1..], indent, gap);
      RestFields(entries[|entries| - 1], req);
    }
    OverNewestIs(entries, req);
  }

  lemma EntryLinesAre(req: Request, indent: string)
    ensures EntryLines(req, indent) ==
            [indent + ("- " + FieldText(Fields(req)[0]))] + ContLines(Fields(req)[1..], indent)
  {
    hide Fields, FieldText, ContLines;
  }

  lemma ParseStep(entries: seq<Entry>, lines: seq<string>, indent: string)
    requires lines != []
    ensures ParseFrom(entries, lines, indent) == ParseFrom(Absorb(entries, lines[0], indent), lines[1..], indent)
  {
    hide Absorb;
  }

  lemma ItemIsIgnored(entries: seq<Entry>, indent: string, gap: string, f: Field)
    requires AllSpace(gap) && gap != ""
    ensures Absorb(entries, indent + gap + ("- " + FieldText(f)), indent) == entries
  {
    hide FieldText, MatchField, SpaceRun, AllSpace, StartsWith;
    var ink := "- " + FieldText(f);
    AfterGap(indent, gap, ink);
    SpaceRunOfIndented(gap, ink);
    assert (gap + ink)[|gap|..] == ink;
    NoWordNoField(ink);
  }

  /** Behind the indentation of the items comes more space, so no item starts there. */
  lemma AfterGap(indent: string, gap: string, rest: string)
    requires AllSpace(gap) && gap != ""
    ensures !StartsWith(indent + gap + rest, indent + "-") && StartsWith(indent + gap + rest, indent)
    ensures (indent + gap + rest)[|indent|..] == gap + rest
  {
    var line := indent + gap + rest;
    assert line[|indent|] == gap[0] && IsSpace(gap[0]);
    assert line == indent + (gap + rest);
  }

  lemma NoWordNoField(ink: string)
    requires ink != "" && ink[0] == '-'
    ensures MatchField(ink) == None
  {
  }

  lemma FieldIsOverwritten(entries: seq<Entry>, indent: string, gap: string, f: Field)
    requires AllSpace(gap) && gap != "" && WellFormedField(f)
    ensures Absorb(entries, indent + gap + ("  " + FieldText(f)), indent) ==
            if entries == [] then [] else entries[..|entries| - 1] + [Keep(entries[|entries| - 1], f)]
  {
    hide FieldText, WellFormedField, MatchSpacedField, StartsWith;
    AfterGap(indent, gap, "  " + FieldText(f));
    assert gap + ("  " + FieldText(f)) == (gap + "  ") + FieldText(f);
    MatchSpaced(gap + "  ", f);
    if entries != [] { assert entries == entries[..|entries| - 1] + [entries[|entries| - 1]]; }
  }

  lemma {:induction false} ParseDeeperFields(entries: seq<Entry>, fields: seq<Field>, indent: string, gap: string)
    requires AllSpace(gap) && gap != "" && entries != []
    requires forall i | 0 <= i < |fields| :: WellFormedField(fields[i])
    ensures ParseFrom(entries, ContLines(fields, indent + gap), indent)
         == entries[..|entries| - 1] + [KeepAll(entries[|entries| - 1], fields)]
    decreases |fields|
  {
    hide Absorb, FieldText, WellFormedField, Keep;
    if fields == [] {
      assert entries == entries[..|entries| - 1] + [entries[|entries| - 1]];
    } else {
      FieldIsOverwritten(entries, indent, gap, fields[0]);
      var next := entries[..|entries| - 1] + [Keep(entries[|entries| - 1], fields[0])];
      ParseDeeperFields(next, fields[1..], indent, gap);
      assert next[..|next| - 1] == entries[..|entries| - 1];
      assert ContLines(fields, indent + gap)[1..] == ContLines(fields[1..], indent + gap);
    }
  }

  lemma {:induction false} ParseDeeperOfNothing(fields: seq<Field>, indent: string, gap: string)
    requires AllSpace(gap) && gap != ""
    requires forall i | 0 <= i < |fields| :: WellFormedField(fields[i])
    ensures ParseFrom([], ContLines(fields, indent + gap), indent) == []
    decreases |fields|
  {
    hide Absorb, FieldText, WellFormedField;
    if fields != [] {
      FieldIsOverwritten([], indent, gap, fields[0]);
      ParseDeeperOfNothing(fields[1..], indent, gap);
      assert ContLines(fields, indent + gap)[1..] == ContLines(fields[1..], indent + gap);
    }
  }

  // ---------------------------------------------------------------------
  // What the other list reads then
  // ---------------------------------------------------------------------

  /** A new list put under the other list, which has no lines yet: the script reads the entry there too. */
  lemma ReadUnderTheOther(fm: seq<string>, req: Request)
    requires Valid(req) && Locate(fm, req.kind).NoList? && Entangled(fm, req.kind)
    requires Extent(fm, Other(req.kind)) == []
    ensures Entries(fm, Other(req.kind)) == []
    ensures Entries(Recorded(fm, req), Other(req.kind)) == ReadOn([], req)
  {
    hide *;
    var o, b := Other(req.kind), Locate(fm, req.kind).end;
    var child := ChildIndent(fm, ProvIdx(fm), b);
    OtherKind(fm, req);
    GoesIntoIs(fm, req);
    AddedIs(fm, req);
    PutIs(fm, req.kind);
    ExtentIs(fm, o);
    var h, e := Locate(fm, o).header, Locate(fm, o).end;
    EntriesAre(fm, o, h, e);
    assert |fm[h + 1..e]| == 0;
    NothingUnder(fm, h);
    assert Kept(fm, req.kind)[h + 1..e] == [];
    InsertNothing(Added(fm, req));
    RecordedNoList(fm, req, b, child);
    UnderNewKey(fm[h], child, req);
  }

  lemma InsertNothing(n: seq<string>)
    ensures Insert([], 0, n) == n
  {
  }

  lemma UnderNewKey(header: string, child: string, req: Request)
    requires Valid(req) && IsIndent(child)
    ensures EntriesUnder(header, [child + ListKey(req.kind) + ":"] + EntryLines(req, child + "  ")) == ReadOn([], req)
  {
    hide *;
    var indent := child + "  ";
    var key := child + ListKey(req.kind) + ":";
    var n := EntryLines(req, indent);
    DeeperIndent(child);
    IndentIsSpace(indent);
    StampOf(req);
    EntryLinesShape(req, indent);
    EntryLinesNotEmpty(req, indent);
    KeyIsNoItem(child, req.kind);
    FirstItem(header, key, n, indent);
    ParseStep([], [key] + n, indent);
    assert ([key] + n)[1..] == n;
    ParseEntryLines([], req, indent);
    EntriesUnderIs(header, [key] + n);
  }

  lemma EntriesUnderIs(header: string, lines: seq<string>)
    ensures EntriesUnder(header, lines) == ParseFrom([], lines, ItemIndent([header] + lines, 0, |lines| + 1))
  {
    hide ParseFrom, ItemIndent;
  }

  lemma EntryLinesNotEmpty(req: Request, indent: string)
    ensures EntryLines(req, indent) != []
  {
  }

  /** A key line opens no item, and is not read under deeper items. */
  lemma KeyIsNoItem(child: string, kind: Kind)
    requires IsIndent(child)
    ensures var key := child + ListKey(kind) + ":";
            !IsDash(key) && Absorb([], key, child + "  ") == []
  {
    var ink := ListKey(kind) + ":";
    var key := child + ListKey(kind) + ":";
    assert key == child + ink;
    SpaceRunOfIndented(child, ink);
    assert key[|child|] == 'r';
    assert (child + "  ")[|child|] == ' ';
    assert !StartsWith(key, child + "  ");
    assert !StartsWith(key, child + "  " + "-") by { assert (child + "  " + "-")[|child|] == ' '; }
  }

  lemma FirstItem(header: string, key: string, n: seq<string>, indent: string)
    requires n != [] && !IsDash(key) && IsDash(n[0]) && IndentOf(n[0]) == indent
    ensures ItemIndent([header] + ([key] + n), 0, |[key] + n| + 1) == indent
  {
    hide IsDash, IndentOf;
    var s := [header] + ([key] + n);
    assert s[1] == key && s[2] == n[0];
    FirstIs(s, 1, |s|, IsDash, 2);
  }

  /** The lines of the other list as recording keeps them. */
  function OldLines(fm: seq<string>, kind: Kind): seq<string> {
    match Locate(fm, Other(kind))
    case InList(h, e) => if e <= |Kept(fm, kind)| then Kept(fm, kind)[h + 1..e] else []
    case _ => []
  }

  function OldHeader(fm: seq<string>, kind: Kind): string {
    match Locate(fm, Other(kind))
    case InList(h, _) => fm[h]
    case _ => ""
  }

  function OldIndent(fm: seq<string>, kind: Kind): string {
    ItemIndent([OldHeader(fm, kind)] + OldLines(fm, kind), 0, |OldLines(fm, kind)| + 1)
  }

  /** The list ends where the other one does, and its entries are deeper than the items of that one. */
  predicate EndsInside(fm: seq<string>, kind: Kind, gap: string) {
    && Locate(fm, kind).InList? && Locate(fm, Other(kind)).InList?
    && Locate(fm, kind).end == Locate(fm, Other(kind)).end
    && (exists d :: 0 <= d < |OldLines(fm, kind)| && IsDash(OldLines(fm, kind)[d]))
    && AllSpace(gap) && gap != "" && EntryIndent(fm, kind) == OldIndent(fm, kind) + gap
  }

  lemma EndsInsideIs(fm: seq<string>, kind: Kind, gap: string)
    requires EndsInside(fm, kind, gap) && Locate(fm, kind).end <= |Kept(fm, kind)|
    ensures Locate(fm, kind).InList? && Locate(fm, Other(kind)).InList?
    ensures var h, e := Locate(fm, Other(kind)).header, Locate(fm, Other(kind)).end;
            && Locate(fm, kind).end == e
            && OldHeader(fm, kind) == fm[h] && OldLines(fm, kind) == Kept(fm, kind)[h + 1..e]
            && OldIndent(fm, kind) == ItemIndent([fm[h]] + OldLines(fm, kind), 0, |OldLines(fm, kind)| + 1)
    ensures exists d :: 0 <= d < |OldLines(fm, kind)| && IsDash(OldLines(fm, kind)[d])
    ensures AllSpace(gap) && gap != "" && EntryIndent(fm, kind) == OldIndent(fm, kind) + gap
  {
    hide Locate, Kept, ItemIndent, AllSpace, EntryIndent, IsDash;
  }

  /** A list inside the other one: what is recorded in it opens no entry in the other list, but is
      written over the newest one there. */
  lemma NestedIsOverwritten(fm: seq<string>, req: Request, gap: string)
    requires Valid(req) && EndsInside(fm, req.kind, gap) && Entangled(fm, req.kind)
    ensures !Locate(fm, req.kind).Refused?
    ensures Entries(Recorded(fm, req), Other(req.kind)) ==
            OverNewest(EntriesUnder(OldHeader(fm, req.kind), OldLines(fm, req.kind)), req)
  {
    hide *;
    InListIsOpen(fm, req.kind, gap);
    OtherKind(fm, req);
    GoesIntoIs(fm, req);
    AddedIs(fm, req);
    PutIs(fm, req.kind);
    EndsInsideIs(fm, req.kind, gap);
    var header, lines, n := OldHeader(fm, req.kind), OldLines(fm, req.kind), Added(fm, req);
    InsertAtEnd(lines, n);
    var d :| 0 <= d < |lines| && IsDash(lines[d]);
    var indent := OldIndent(fm, req.kind);
    ItemIndentStays(header, lines, n, d);
    DashIndentIsSpace(header, lines, d);
    EntriesUnderIs(header, lines);
    EntriesUnderIs(header, lines + n);
    ParseConcat([], lines, n, indent);
    EntryIndentIs(fm, req.kind);
    ParseDeeper(ParseFrom([], lines, indent), req, indent, gap);
  }

  lemma InListIsOpen(fm: seq<string>, kind: Kind, gap: string)
    requires EndsInside(fm, kind, gap)
    ensures Locate(fm, kind).InList?
  {
    hide Locate;
  }

  lemma DashIndentIsSpace(header: string, lines: seq<string>, d: nat)
    requires d < |lines| && IsDash(lines[d])
    ensures AllSpace(ItemIndent([header] + lines, 0, |lines| + 1))
  {
    hide IsDash, AllSpace;
    var s := [header] + lines;
    var r := First(s, 1, |s|, IsDash);
    assert s[d + 1] == lines[d];
    if r > d + 1 { FirstSkips(s, 1, |s|, IsDash, d + 1); }
    IndentIsSpaces(s[r]);
  }

  lemma IndentIsSpaces(line: string)
    ensures AllSpace(IndentOf(line))
  {
  }

  lemma EntryIndentIs(fm: seq<string>, kind: Kind)
    requires Locate(fm, kind).InList?
    ensures EntryIndent(fm, kind) == ItemIndent(fm, Locate(fm, kind).header, Locate(fm, kind).end)
  {
    hide Locate, ItemIndent;
  }

  lemma ItemIndentStays(header: string, lines: seq<string>, n: seq<string>, d: nat)
    requires d < |lines| && IsDash(lines[d])
    ensures ItemIndent([header] + (lines + n), 0, |lines + n| + 1) == ItemIndent([header] + lines, 0, |lines| + 1)
  {
    hide IsDash, IndentOf;
    var s, t := [header] + lines, [header] + (lines + n);
    var r := First(s, 1, |s|, IsDash);
    assert s[d + 1] == lines[d];
    if r > d + 1 { FirstSkips(s, 1, |s|, IsDash, d + 1); }
    forall i {:trigger IsDash(t[i])} | 1 <= i < r
      ensures !IsDash(t[i])
    {
      assert t[i] == s[i];
      FirstSkips(s, 1, |s|, IsDash, i);
    }
    assert t[r] == s[r];
    FirstIs(t, 1, |t|, IsDash, r);
  }

  // ---------------------------------------------------------------------
  // Three plans
  // ---------------------------------------------------------------------

  /** A plan whose block opens with a comment deeper than its one list. */
  const COMMENT_PLAN := ["provenance:", "   #", "  reviews:"]

  /** A plan whose list of revisions lies inside a review. */
  const NESTED_PLAN := ["provenance:", "  reviews:", "    - model: \"a\"", "      revisions:"]

  /** A plan whose item is no deeper than its key. */
  const SHALLOW_PLAN := ["provenance:", "  reviews:", "  - model: \"a\""]

  lemma NothingInline()
    ensures !IsInline(Trim(""))
  {
  }

  /** The block of a plan whose first line opens it and whose other lines are all indented. */
  lemma WholeBlock(fm: seq<string>)
    requires |fm| > 1 && fm[0] == "provenance:" && forall i | 1 <= i < |fm| :: BlockLine(fm[i])
    ensures HasBlock(fm) && ProvIdx(fm) == 0 && End(fm) == |fm|
  {
    hide IsInline, Trim, Blank, SpaceRun, LeavesBlock;
    assert fm[0][11..] == "";
    assert IsProvenance(fm[0]);
    NothingInline();
    assert InlineBlock(fm[0]) == IsInline(Trim(""));
    forall i {:trigger LeavesBlock(fm[i])} | 1 <= i < |fm|
      ensures !LeavesBlock(fm[i])
    {
      BlockLineStays(fm[i]);
    }
    RunEndIs(fm, 1, |fm|, LeavesBlock, Blank, |fm|, |fm|);
  }

  /** An indented line with ink, by its parts. */
  lemma LineOf(line: string, indent: string, ink: string)
    requires line == indent + ink && AllSpace(indent) && indent != "" && ink != "" && !IsSpace(ink[0])
    ensures SpaceRun(line) == |indent| && IndentOf(line) == indent && line[|indent|..] == ink && BlockLine(line)
  {
    SpaceRunOfIndented(indent, ink);
  }

  lemma Spaces()
    ensures AllSpace("  ") && AllSpace("   ") && AllSpace("    ") && AllSpace("      ")
    ensures !IsSpace('#') && !IsSpace('r') && !IsSpace('-')
  {
  }

  /** A key line is one of its kind and of no other; a line that starts with another character is none. */
  lemma NoKeyLine(line: string, indent: string, ink: string, kind: Kind)
    requires line == indent + ink && AllSpace(indent) && indent != "" && ink != "" && ink[0] != 'r' && !IsSpace(ink[0])
    ensures !IsKey(line, ListKey(kind))
  {
    LineOf(line, indent, ink);
  }

  lemma CommentPlanPlaces()
    ensures HasBlock(COMMENT_PLAN) && ProvIdx(COMMENT_PLAN) == 0 && End(COMMENT_PLAN) == 3
    ensures Locate(COMMENT_PLAN, Review) == InList(2, 3) && Locate(COMMENT_PLAN, Revision) == NoList(3)
    ensures ChildIndent(COMMENT_PLAN, 0, 3) == "   " && SpaceRun(COMMENT_PLAN[2]) == 2
  {
    hide LeavesBlock, InlineBlock, BlockEnd, ProvIdx, HasBlock, End, IsProvenance, SpaceRun, IndentOf, AllSpace, IsKey;
    var fm := COMMENT_PLAN;
    Spaces();
    assert fm[1] == "   " + "#" && fm[2] == "  " + "reviews:";
    LineOf(fm[1], "   ", "#");
    LineOf(fm[2], "  ", "reviews:");
    WholeBlock(fm);
    NoKeyLine(fm[1], "   ", "#", Review);
    NoKeyLine(fm[1], "   ", "#", Revision);
    TwoSpaces();
    KeyLineShape("  ", Review);
    assert fm[2] == "  " + ListKey(Review) + ":";
    KindsAre();
    InkOfBlockLine(fm[1]);
    FirstIs(fm, 1, 3, KeyTest(ListKey(Review)), 2);
    FirstIs(fm, 1, 3, KeyTest(ListKey(Revision)), 3);
    FirstIs(fm, 1, 3, HasInk, 1);
    LocateInList(fm, Review);
    LocateNoList(fm, Revision);
  }

  /** The first way of being entangled, without any nested list: a revision recorded in this plan is
      put under `reviews`, and is read back as a review. */
  lemma RevisionReadAsReview(req: Request)
    requires Valid(req) && req.kind == Revision
    ensures !Locate(COMMENT_PLAN, Review).Refused? && !Locate(COMMENT_PLAN, Revision).Refused?
    ensures !Apart(COMMENT_PLAN) && Entries(COMMENT_PLAN, Review) == []
    ensures Entries(Recorded(COMMENT_PLAN, req), Review) == ReadOn([], req)
    ensures AllLineSafe(req) ==> Entries(Recorded(COMMENT_PLAN, req), Review) == [EntryOf(req)]
  {
    hide *;
    var fm := COMMENT_PLAN;
    CommentPlanPlaces();
    KindsAre();
    EntangledIs(fm, Revision);
    ReachesIs(fm, Review, 3, 3);
    ApartExact(fm);
    ExtentIs(fm, Review);
    assert |fm[3..3]| == 0;
    ReadUnderTheOther(fm, req);
    ReadOnNothing(req);
  }

  lemma ReadOnNothing(req: Request)
    ensures AllLineSafe(req) ==> ReadOn([], req) == [EntryOf(req)]
  {
    hide LineSafe, EntryOf, Overwritten;
    OverwrittenIsEntry(req);
  }

  lemma NestedPlanLines()
    ensures SpaceRun(NESTED_PLAN[1]) == 2 && SpaceRun(NESTED_PLAN[2]) == 4 && SpaceRun(NESTED_PLAN[3]) == 6
    ensures IndentOf(NESTED_PLAN[2]) == "    " && IndentOf(NESTED_PLAN[3]) == "      "
    ensures BlockLine(NESTED_PLAN[1]) && BlockLine(NESTED_PLAN[2]) && BlockLine(NESTED_PLAN[3])
    ensures IsDash(NESTED_PLAN[2]) && !IsDash(NESTED_PLAN[3])
  {
    hide *;
    Spaces();
    TwoSpaces();
    KeyLineShape("  ", Review);
    KeyLineShape("      ", Revision);
    KeyIsNoItem("      ", Revision);
    NestedPlanKeyLines();
    DashLine(NESTED_PLAN[2], "    ", " model: \"a\"");
  }

  lemma NestedPlanKeyLines()
    ensures NESTED_PLAN[1] == "  " + ListKey(Review) + ":" && NESTED_PLAN[3] == "      " + ListKey(Revision) + ":"
    ensures NESTED_PLAN[2] == "    " + "-" + " model: \"a\"" && IsSpace(" model: \"a\""[0]) && |" model: \"a\""| > 0
    ensures |NESTED_PLAN| == 4 && IsIndent("      ") && IsIndent("    ")
    ensures |"    "| == 4 && |"      "| == 6 && |"  "| == 2
  {
  }

  lemma DashLine(line: string, indent: string, rest: string)
    requires line == indent + "-" + rest && IsIndent(indent) && rest != "" && IsSpace(rest[0])
    ensures IsDash(line) && SpaceRun(line) == |indent| && IndentOf(line) == indent && BlockLine(line)
    ensures forall kind :: !IsKey(line, ListKey(kind))
  {
    hide AllSpace;
    var ink := "-" + rest;
    assert line == indent + ink;
    LineOf(line, indent, ink);
    assert line[|indent|] == '-' && line[|indent| + 1] == rest[0];
    forall kind: Kind ensures !IsKey(line, ListKey(kind)) { NoKeyLine(line, indent, ink, kind); }
  }

  lemma NestedPlanKeys()
    ensures IsKey(NESTED_PLAN[1], ListKey(Review)) && !IsKey(NESTED_PLAN[1], ListKey(Revision))
    ensures IsKey(NESTED_PLAN[3], ListKey(Revision)) && !IsKey(NESTED_PLAN[2], ListKey(Revision))
    ensures !InlineList(NESTED_PLAN[1], ListKey(Review)) && !InlineList(NESTED_PLAN[3], ListKey(Revision))
    ensures BareHeader(NESTED_PLAN[3], ListKey(Revision)) == NESTED_PLAN[3]
  {
    hide *;
    NestedPlanKeyLines();
    KindsAre();
    TwoSpaces();
    BareKeyLine("  ", Review);
    BareKeyLine("      ", Revision);
    DashLine(NESTED_PLAN[2], "    ", " model: \"a\"");
  }

  /** A key line with nothing behind it: of its kind only, not inline, and kept as it is. */
  lemma BareKeyLine(indent: string, kind: Kind)
    requires IsIndent(indent)
    ensures var line := indent + ListKey(kind) + ":";
            && IsKey(line, ListKey(kind)) && !IsKey(line, ListKey(Other(kind)))
            && !InlineList(line, ListKey(kind)) && BareHeader(line, ListKey(kind)) == line
  {
    hide IsKey, ListKey, KeyTrailing;
    KeyLineShape(indent, kind);
  }

  lemma NestedPlanPlaces()
    ensures Locate(NESTED_PLAN, Review) == InList(1, 4) && Locate(NESTED_PLAN, Revision) == InList(3, 4)
    ensures ItemIndent(NESTED_PLAN, 3, 4) == "      " + "  " && Kept(NESTED_PLAN, Revision) == NESTED_PLAN
  {
    hide LeavesBlock, InlineBlock, BlockEnd, ProvIdx, HasBlock, End, IsProvenance, SpaceRun, IndentOf, IsKey, Blank,
      InlineList, IsDash, BareHeader, KeyTrailing;
    var fm := NESTED_PLAN;
    NestedPlanLines();
    NestedPlanKeys();
    WholeBlock(fm);
    FirstIs(fm, 1, 4, KeyTest(ListKey(Review)), 1);
    FirstIs(fm, 1, 4, KeyTest(ListKey(Revision)), 3);
    RunEndIs(fm, 2, 4, DedentTest(2), Blank, 4, 4);
    LocateList(fm, Review);
    LocateList(fm, Revision);
  }

  /** The one review of the nested plan. What the script takes from the key line inside it is a field
      without a value. */
  lemma NestedPlanReviews()
    ensures Entries(NESTED_PLAN, Review) == [map["model" := "a", "revisions" := ""]]
  {
    hide *;
    NestedPlanPlaces();
    NestedPlanLines();
    EntriesAre(NESTED_PLAN, Review, 1, 4);
    NestedItemIndent();
    var lines := [NESTED_PLAN[2], NESTED_PLAN[3]];
    assert NESTED_PLAN[2..4] == lines && lines[1..] == [NESTED_PLAN[3]] && [NESTED_PLAN[3]][1..] == [];
    ParseStep([], lines, "    ");
    NestedItem();
    var first: seq<Entry> := [map["model" := "a"]];
    ParseStep(first, [NESTED_PLAN[3]], "    ");
    NestedKey(first);
    ParseNothing(Absorb(first, NESTED_PLAN[3], "    "), "    ");
  }

  lemma ParseNothing(entries: seq<Entry>, indent: string)
    ensures ParseFrom(entries, [], indent) == entries
  {
  }

  lemma NestedItemIndent()
    ensures ItemIndent(NESTED_PLAN, 1, 4) == "    "
  {
    hide IsDash, IndentOf, BlockLine, SpaceRun;
    NestedPlanLines();
    FirstIs(NESTED_PLAN, 2, 4, IsDash, 2);
  }

  lemma NestedItem()
    ensures Absorb([], NESTED_PLAN[2], "    ") == [map["model" := "a"]]
  {
    hide Absorb, Unquote, NoBreak, IsWord, IsRaw, AllSpace;
    Spaces();
    var f := Field("model", Quote("a"));
    assert EscapeAll("a") == "a" by { assert Escape('a') == "a" && "a"[1..] == ""; }
    assert NESTED_PLAN[2] == "    " + ("- " + FieldText(f));
    KeysAreWords(Review);
    QuoteIsRaw("a");
    QuoteBreaks("a");
    UnquoteOfQuote("a");
    assert LineSafe("a");
    AbsorbItem([], "    ", f);
  }

  lemma NestedKey(first: seq<Entry>)
    requires first == [map["model" := "a"]]
    ensures Absorb(first, NESTED_PLAN[3], "    ") == [map["model" := "a", "revisions" := ""]]
  {
    hide MatchField, AllSpace, Unquote, SpaceRun, StartsWith;
    assert NESTED_PLAN[3] == "    " + "  " + "revisions:" && "    " + "-" == "    -";
    Spaces();
    AfterGap("    ", "  ", "revisions:");
    SpaceRunOfIndented("  ", "revisions:");
    assert ("  " + "revisions:")[2..] == "revisions:";
    RevisionsField();
    assert [map["model" := "a"]["revisions" := ""]] == [map["model" := "a", "revisions" := ""]];
  }

  lemma RevisionsField()
    ensures MatchField("revisions:") == Some(Field("revisions", "")) && Unquote("") == ""
  {
    hide WordRun, IsWord, TrimEnd;
    RevisionsIsWord();
    assert "revisions:" == "revisions" + (":" + "");
    WordRunOfKey("revisions", "");
    assert "revisions:"[9] == ':' && "revisions:"[..9] == "revisions" && "revisions:"[10..] == "";
    NothingTrimmed();
  }

  lemma RevisionsIsWord()
    ensures IsWord("revisions")
  {
  }

  lemma NothingTrimmed()
    ensures Trim("") == ""
  {
  }

  /** The second way: in this plan the revisions are nested in a review. A recorded revision is
      written over that review, which was not asked for. */
  lemma RevisionWrittenOverReview(req: Request)
    requires Valid(req) && req.kind == Revision
    ensures !Locate(NESTED_PLAN, Review).Refused? && !Locate(NESTED_PLAN, Revision).Refused? && !Apart(NESTED_PLAN)
    ensures Entries(NESTED_PLAN, Review) == [map["model" := "a", "revisions" := ""]]
    ensures Entries(Recorded(NESTED_PLAN, req), Review) == [Overwritten(map["model" := "a", "revisions" := ""], req)]
    ensures Entries(Recorded(NESTED_PLAN, req), Review) != Entries(NESTED_PLAN, Review)
  {
    hide *;
    var fm := NESTED_PLAN;
    NestedPlanPlaces();
    NestedPlanReviews();
    NestedPlanLines();
    KindsAre();
    EntangledIs(fm, Revision);
    ReachesIs(fm, Review, 4, 8);
    ApartExact(fm);
    NestedEndsInside();
    NestedIsOverwritten(fm, req, "    ");
    NestedOldLines();
    OverNewestIs(Entries(fm, Review), req);
    OverwrittenHasDate(map["model" := "a", "revisions" := ""], req);
  }

  lemma OverwrittenHasDate(e: Entry, req: Request)
    ensures "at" in Overwritten(e, req)
  {
    hide LineSafe;
  }

  lemma NestedOldLines()
    ensures OldLines(NESTED_PLAN, Revision) == NESTED_PLAN[2..4] && OldHeader(NESTED_PLAN, Revision) == NESTED_PLAN[1]
    ensures EntriesUnder(OldHeader(NESTED_PLAN, Revision), OldLines(NESTED_PLAN, Revision)) ==
            Entries(NESTED_PLAN, Review)
  {
    hide Locate, Kept, Entries, EntriesUnder, Other;
    NestedPlanPlaces();
    KindsAre();
    EntriesAreUnder(NESTED_PLAN, Review);
  }

  lemma NestedEndsInside()
    ensures EndsInside(NESTED_PLAN, Revision, "    ")
  {
    hide *;
    NestedPlanPlaces();
    NestedPlanLines();
    NestedOldLines();
    KindsAre();
    Spaces();
    EntryIndentIs(NESTED_PLAN, Revision);
    OldIndentIs(NESTED_PLAN, Revision);
    NestedOldIndent();
    assert OldLines(NESTED_PLAN, Revision)[0] == NESTED_PLAN[2];
    assert "      " + "  " == "    " + "    ";
    EndsInsideBy(NESTED_PLAN, Revision, "    ", 0);
  }

  lemma OldIndentIs(fm: seq<string>, kind: Kind)
    ensures OldIndent(fm, kind) ==
            ItemIndent([OldHeader(fm, kind)] + OldLines(fm, kind), 0, |OldLines(fm, kind)| + 1)
  {
    hide ItemIndent, OldHeader, OldLines;
  }

  lemma EndsInsideBy(fm: seq<string>, kind: Kind, gap: string, d: nat)
    requires Locate(fm, kind).InList? && Locate(fm, Other(kind)).InList?
    requires Locate(fm, kind).end == Locate(fm, Other(kind)).end
    requires d < |OldLines(fm, kind)| && IsDash(OldLines(fm, kind)[d])
    requires AllSpace(gap) && gap != "" && EntryIndent(fm, kind) == OldIndent(fm, kind) + gap
    ensures EndsInside(fm, kind, gap)
  {
    hide Locate, OldLines, IsDash, AllSpace, EntryIndent, OldIndent;
  }

  lemma NestedOldIndent()
    ensures ItemIndent([NESTED_PLAN[1]] + NESTED_PLAN[2..4], 0, |NESTED_PLAN[2..4]| + 1) == "    "
  {
    hide IsDash, IndentOf, SpaceRun, BlockLine;
    NestedPlanLines();
    var s := [NESTED_PLAN[1]] + NESTED_PLAN[2..4];
    assert s[1] == NESTED_PLAN[2];
    FirstIs(s, 1, 3, IsDash, 1);
  }

  lemma ShallowPlanLines()
    ensures HasBlock(SHALLOW_PLAN) && End(SHALLOW_PLAN) == 3
    ensures Locate(SHALLOW_PLAN, Review).InList? && Locate(SHALLOW_PLAN, Review).header == 1
    ensures Dedents(SHALLOW_PLAN[2], SpaceRun(SHALLOW_PLAN[1]))
    ensures IndentOf(SHALLOW_PLAN[1]) == "  " && BareHeader(SHALLOW_PLAN[1], ListKey(Review)) == SHALLOW_PLAN[1]
  {
    hide LeavesBlock, InlineBlock, BlockEnd, ProvIdx, HasBlock, End, IsProvenance, SpaceRun, IndentOf, IsKey, AllSpace,
      InlineList, BareHeader, KeyTrailing, Blank;
    var fm := SHALLOW_PLAN;
    Spaces();
    assert fm[1] == "  " + "reviews:" && fm[2] == "  " + "- model: \"a\"";
    LineOf(fm[1], "  ", "reviews:");
    LineOf(fm[2], "  ", "- model: \"a\"");
    WholeBlock(fm);
    assert fm[1] == "  " + ListKey(Review) + ":";
    TwoSpaces();
    KeyLineShape("  ", Review);
    BareKeyLine("  ", Review);
    FirstIs(fm, 1, 3, KeyTest(ListKey(Review)), 1);
    LocateList(fm, Review);
  }

  lemma ShallowPlanSplit()
    ensures SHALLOW_PLAN[2..] == [SHALLOW_PLAN[2]] && SHALLOW_PLAN[..1] + [SHALLOW_PLAN[1]] == SHALLOW_PLAN[..2]
  {
  }

  /** The third: the item of this plan is not read, and a recorded review is put before it, so that
      the order of the file is not the order of recording. */
  lemma NewReviewBeforeOldOne(req: Request)
    requires Valid(req) && req.kind == Review
    ensures Locate(SHALLOW_PLAN, Review) == InList(1, 2) && Entries(SHALLOW_PLAN, Review) == []
    ensures Recorded(SHALLOW_PLAN, req) == SHALLOW_PLAN[..2] + EntryLines(req, "    ") + [SHALLOW_PLAN[2]]
    ensures Entries(Recorded(SHALLOW_PLAN, req), Review) == ReadOn([], req)
  {
    hide *;
    ShallowPlanLines();
    ShallowItemsAreMissed(SHALLOW_PLAN, req);
    assert "  " + "  " == "    ";
    ShallowPlanSplit();
  }
}
