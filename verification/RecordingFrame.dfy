/** What stays of a file: everything but one run of lines that is put in, and a few characters that
    are taken off. */
module RecordingFrame {
  import opened LineScans
  import opened LineText
  import opened PlanFrontmatter
  import opened EntryReadback
  import opened RecordingLaws
  import opened RecordingTheorems
  import opened RecordingHistories

  /** How the kept lines differ from the old ones: blank lines at the end are gone if there was no
      block, and the key line of the list has lost an inline empty list. */
  ghost predicate OnlyTrimmed(fm: seq<string>, kept: seq<string>, kind: Kind) {
    && |kept| <= |fm|
    && (|kept| < |fm| ==> Locate(fm, kind).NoBlock?)
    && (forall i {:trigger Blank(fm[i])} | |kept| <= i < |fm| :: Blank(fm[i]))
    && (forall i | 0 <= i < |kept| && kept[i] != fm[i] ::
          i == HeaderAt(fm, kind) && LostEmptyList(fm[i], kept[i], kind))
  }

  /** The index of the list's key line, or the number of lines when there is none. */
  function HeaderAt(fm: seq<string>, kind: Kind): nat {
    match Locate(fm, kind)
    case InList(h, _) => h
    case _ => |fm|
  }

  predicate LostEmptyList(line: string, kept: string, kind: Kind) {
    && IsKey(line, ListKey(kind)) && KeyTrailing(line, ListKey(kind)) == "[]"
    && kept == IndentOf(line) + ListKey(kind) + ":"
  }

  lemma KeptLines(fm: seq<string>, kind: Kind)
    ensures OnlyTrimmed(fm, Kept(fm, kind), kind)
  {
    hide Locate, Blank, KeyTrailing, IsKey, IndentOf, ListKey;
    match Locate(fm, kind)
    case InList(h, e) =>
    case NoBlock =>
      forall i {:trigger Blank(fm[i])} | |Kept(fm, kind)| <= i < |fm|
        ensures Blank(fm[i])
      {
        BackSkips(fm, 0, |fm|, Blank, i);
      }
    case _ =>
  }

  /** Recording puts one run of lines in: behind the list, an entry as deep as its items; behind a
      block without the list, the key line and an entry; behind a frontmatter without a block, the
      block line, the key line and an entry. */
  lemma OnlyOneRunIsPutIn(fm: seq<string>, req: Request)
    requires !Locate(fm, req.kind).Refused?
    ensures PutAt(fm, req.kind).0 <= |Kept(fm, req.kind)|
    ensures Recorded(fm, req) == Insert(Kept(fm, req.kind), PutAt(fm, req.kind).0, Added(fm, req))
    ensures Locate(fm, req.kind).InList? ==>
              var h, e := Locate(fm, req.kind).header, Locate(fm, req.kind).end;
              PutAt(fm, req.kind).0 == e && Added(fm, req) == EntryLines(req, ItemIndent(fm, h, e))
    ensures Locate(fm, req.kind).NoList? ==>
              var b := Locate(fm, req.kind).end; var child := ChildIndent(fm, ProvIdx(fm), b);
              && PutAt(fm, req.kind).0 == b
              && Added(fm, req) == [child + ListKey(req.kind) + ":"] + EntryLines(req, child + "  ")
    ensures Locate(fm, req.kind).NoBlock? ==>
              && PutAt(fm, req.kind).0 == |Kept(fm, req.kind)|
              && Added(fm, req) == ["provenance:", "  " + ListKey(req.kind) + ":"] + EntryLines(req, "    ")
  {
    hide *;
    RecordedParts(fm, req);
    AddedIs(fm, req);
    PutIs(fm, req.kind);
    if Locate(fm, req.kind).NoBlock? { InsertAtEnd(Kept(fm, req.kind), Added(fm, req)); }
  }

  lemma RecordedParts(fm: seq<string>, req: Request)
    requires !Locate(fm, req.kind).Refused?
    ensures Locate(fm, req.kind).InList? ==>
              var h, e := Locate(fm, req.kind).header, Locate(fm, req.kind).end;
              Recorded(fm, req) ==
              Insert(fm[h := BareHeader(fm[h], ListKey(req.kind))], e, EntryLines(req, ItemIndent(fm, h, e)))
    ensures Locate(fm, req.kind).NoList? ==>
              var b := Locate(fm, req.kind).end; var child := ChildIndent(fm, ProvIdx(fm), b);
              Recorded(fm, req) == Insert(fm, b, [child + ListKey(req.kind) + ":"] + EntryLines(req, child + "  "))
    ensures Locate(fm, req.kind).NoBlock? ==>
              Recorded(fm, req) ==
              fm[..Back(fm, 0, |fm|, Blank)]
              + (["provenance:", "  " + ListKey(req.kind) + ":"] + EntryLines(req, "    "))
  {
    hide Locate, EntryLines, ItemIndent, ChildIndent, BareHeader, Back, ListKey, ProvIdx, Insert;
  }

  // ---------------------------------------------------------------------
  // The lines of the file
  // ---------------------------------------------------------------------

  /** The lines of a plan with frontmatter: a delimiter, the frontmatter, the next delimiter, the body. */
  lemma OpenedLines(text: string)
    requires PlanOf(text).Plan?
    ensures var lines, plan := SplitLines(text), PlanOf(text); var c := |plan.fm| + 1;
            if plan.hadFrontmatter then
              && c < |lines| && IsDelimiter(lines[0]) && IsDelimiter(lines[c])
              && (forall i | 1 <= i < c :: !IsDelimiter(lines[i]))
              && plan.fm == lines[1..c] && plan.rest == lines[c + 1..]
            else !IsDelimiter(lines[0]) && plan.fm == [] && plan.rest == lines
  {
    hide IsDelimiter, SplitLines;
    var lines := SplitLines(text);
    if IsDelimiter(lines[0]) {
      var close := First(lines, 1, |lines|, IsDelimiter);
      forall i | 1 <= i < close
        ensures !IsDelimiter(lines[i])
      {
        FirstSkips(lines, 1, |lines|, IsDelimiter, i);
      }
    }
  }

  /** The frame of a run, over the lines of the file before and after it. With frontmatter, the
      lines are the old ones, trimmed at most, with one run put in. Without, the old file follows
      unchanged behind a frontmatter that holds that run, and an empty line. */
  lemma FileFrame(text: string, req: Request, allowDuplicate: bool)
    requires Valid(req) && RecordIn(text, req, allowDuplicate).Written?
    ensures PlanOf(text).Plan? && !Locate(PlanOf(text).fm, req.kind).Refused?
    ensures var before, after := SplitLines(text), SplitLines(RecordIn(text, req, allowDuplicate).text);
            var c := |PlanOf(text).fm| + 1;
            if IsDelimiter(before[0]) then
              && c < |before| && IsDelimiter(before[c]) && !Locate(before[1..c], req.kind).Refused?
              && (forall i | 1 <= i < c :: !IsDelimiter(before[i]))
              && OnlyTrimmed(before[1..c], Kept(before[1..c], req.kind), req.kind)
              && PutAt(before[1..c], req.kind).0 <= |Kept(before[1..c], req.kind)|
              && after == Insert(["---"] + Kept(before[1..c], req.kind) + (["---"] + before[c + 1..]),
                                 1 + PutAt(before[1..c], req.kind).0, Added(before[1..c], req))
            else after == ["---"] + Added([], req) + ["---", ""] + before
  {
    hide *;
    var plan := PlanOf(text);
    WrittenPlan(text, req, allowDuplicate);
    OpenedIsInner(text);
    RecordedIsInner(plan.fm, req);
    WrittenLines(text, req, allowDuplicate);
    KeptLines(plan.fm, req.kind);
    OnlyOneRunIsPutIn(plan.fm, req);
    OpenedLines(text);
    if plan.hadFrontmatter {
      RenderWith(plan, Recorded(plan.fm, req));
      InsertBetween(["---"], Kept(plan.fm, req.kind), ["---"] + plan.rest, PutAt(plan.fm, req.kind).0,
                    Added(plan.fm, req));
    } else {
      RenderWithout(plan, Recorded(plan.fm, req));
      NothingKept(req.kind);
      InsertIntoNothing(Added([], req));
    }
  }

  lemma WrittenLines(text: string, req: Request, allowDuplicate: bool)
    requires RecordIn(text, req, allowDuplicate).Written? && PlanOf(text).Plan?
    requires !Locate(PlanOf(text).fm, req.kind).Refused?
    requires AllInner(Recorded(PlanOf(text).fm, req))
    requires forall i | 0 <= i < |PlanOf(text).rest| :: OneLine(PlanOf(text).rest[i])
    ensures SplitLines(RecordIn(text, req, allowDuplicate).text)
         == Render(PlanOf(text).(fm := Recorded(PlanOf(text).fm, req)))
  {
    hide Locate, Recorded, OpenPlan, SplitLines, JoinLines, Render, IsDuplicate, Entries, OneLine, IsDelimiter;
    var plan := PlanOf(text).(fm := Recorded(PlanOf(text).fm, req));
    RenderedLines(plan);
    SplitOfJoin(Render(plan));
  }

  lemma RenderedLines(plan: Plan)
    requires plan.Plan? && AllInner(plan.fm)
    requires forall i | 0 <= i < |plan.rest| :: OneLine(plan.rest[i])
    ensures forall i | 0 <= i < |Render(plan)| :: OneLine(Render(plan)[i])
  {
    hide IsDelimiter, OneLine;
    DashesFacts();
    var lines := Render(plan);
    var c := |plan.fm| + 1;
    var rest := (if plan.hadFrontmatter then [] else [""]) + plan.rest;
    assert lines == ["---"] + plan.fm + (["---"] + rest);
    forall i | 0 <= i < |lines|
      ensures OneLine(lines[i])
    {
      if 1 <= i < c { assert lines[i] == plan.fm[i - 1]; assert Inner(plan.fm[i - 1]); }
      else if i > c { assert lines[i] == rest[i - c - 1]; }
    }
  }

  lemma RenderWith(plan: Plan, fm: seq<string>)
    requires plan.Plan? && plan.hadFrontmatter
    ensures Render(plan.(fm := fm)) == ["---"] + fm + (["---"] + plan.rest)
  {
  }

  lemma RenderWithout(plan: Plan, fm: seq<string>)
    requires plan.Plan? && !plan.hadFrontmatter
    ensures Render(plan.(fm := fm)) == ["---"] + fm + ["---", ""] + plan.rest
  {
  }

  lemma InsertBetween(a: seq<string>, s: seq<string>, b: seq<string>, p: nat, n: seq<string>)
    requires p <= |s|
    ensures Insert(a + s + b, |a| + p, n) == a + Insert(s, p, n) + b
  {
    assert (a + s + b)[..|a| + p] == a + s[..p];
    assert (a + s + b)[|a| + p..] == s[p..] + b;
  }

  lemma NothingKept(kind: Kind)
    ensures Kept([], kind) == [] && PutAt([], kind).0 == 0
  {
  }

  lemma InsertIntoNothing(n: seq<string>)
    ensures Insert([], 0, n) == n
  {
  }
}
