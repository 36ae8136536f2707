/** The script as it runs: an array of frontmatter lines that is scanned by index loops and
    changed in place. Every loop is proved to find what the specification names. */
module PlanEditor {
  import opened LineScans
  import opened LineText
  import opened PlanFrontmatter
  import opened RecordingLaws
  import opened RecordingTheorems
  import opened RecordingHistories

  /** `entryLines(indent)`, built by pushing. */
  method BuildEntryLines(req: Request, indent: string) returns (out: seq<string>)
    ensures out == EntryLines(req, indent)
  {
    var cont := indent + "  ";
    out := [indent + "- model: " + Quote(req.model)];
    if req.harness != "" { out := out + [cont + "harness: " + Quote(req.harness)]; }
    out := out + [cont + "at: " + req.at];
    out := out + [cont + JudgmentKey(req.kind) + ": " + Quote(req.judgment)];
    if req.note != "" { out := out + [cont + "note: " + Quote(req.note)]; }
    PushedLines(req, indent, out);
  }

  function Pushed(fields: seq<Field>, indent: string): seq<string> {
    seq(|fields|, i requires 0 <= i < |fields| => indent + "  " + fields[i].key + ": " + fields[i].raw)
  }

  lemma {:induction false} PushedIsCont(fields: seq<Field>, indent: string)
    ensures Pushed(fields, indent) == ContLines(fields, indent)
    decreases |fields|
  {
    if fields != [] {
      PushedIsCont(fields[1..], indent);
      assert indent + "  " + fields[0].key + ": " + fields[0].raw == indent + ("  " + FieldText(fields[0]));
      var rest := Pushed(fields[1..], indent);
      assert forall i | 1 <= i < |fields| :: Pushed(fields, indent)[i] == rest[i - 1];
    }
  }

  lemma PushedLines(req: Request, indent: string, out: seq<string>)
    requires var cont := indent + "  ";
             out == [indent + "- model: " + Quote(req.model)]
                    + (if req.harness != "" then [cont + "harness: " + Quote(req.harness)] else [])
                    + [cont + "at: " + req.at]
                    + [cont + JudgmentKey(req.kind) + ": " + Quote(req.judgment)]
                    + (if req.note != "" then [cont + "note: " + Quote(req.note)] else [])
    ensures out == EntryLines(req, indent)
  {
    hide Quote, JudgmentKey, ContLines;
    var fields := Fields(req)[1..];
    PushedIsCont(fields, indent);
    assert indent + "- model: " + Quote(req.model) == indent + ("- " + FieldText(Fields(req)[0]));
    var h := if req.harness != "" then [Field("harness", Quote(req.harness))] else [];
    var n := if req.note != "" then [Field("note", Quote(req.note))] else [];
    var m := [Field("at", req.at), Field(JudgmentKey(req.kind), Quote(req.judgment))];
    assert fields == h + m + n;
    PushedConcat(h, m, indent);
    PushedConcat(h + m, n, indent);
    var cont := indent + "  ";
    assert "harness" + ": " == "harness: " && "at" + ": " == "at: " && "note" + ": " == "note: ";
    assert cont + "harness: " + Quote(req.harness) == cont + "harness" + ": " + Quote(req.harness);
    assert cont + "at: " + req.at == cont + "at" + ": " + req.at;
    assert cont + "note: " + Quote(req.note) == cont + "note" + ": " + Quote(req.note);
    assert out[1..] == Pushed(h, indent) + Pushed(m, indent) + Pushed(n, indent);
  }

  lemma PushedConcat(a: seq<Field>, b: seq<Field>, indent: string)
    ensures Pushed(a + b, indent) == Pushed(a, indent) + Pushed(b, indent)
  {
  }

  /** What the script has in hand between opening a plan and writing it. */
  class Editor {
    var fm: seq<string>
    var rest: seq<string>
    var hadFrontmatter: bool

    constructor ()
      ensures fm == [] && rest == [] && !hadFrontmatter
    {
      fm, rest, hadFrontmatter := [], [], false;
    }

    /** Split the frontmatter off; false when it is never closed. */
    method Open(lines: seq<string>) returns (ok: bool)
      requires lines != []
      modifies this
      ensures ok <==> OpenPlan(lines).Plan?
      ensures ok ==> OpenPlan(lines) == Plan(hadFrontmatter, fm, rest)
    {
      if IsDelimiter(lines[0]) {
        var close := 1;
        while close < |lines| && !IsDelimiter(lines[close])
          invariant 1 <= close <= |lines|
          invariant forall i {:trigger IsDelimiter(lines[i])} | 1 <= i < close :: !IsDelimiter(lines[i])
        {
          close := close + 1;
        }
        FirstIs(lines, 1, |lines|, IsDelimiter, close);
        if close == |lines| { return false; }
        hadFrontmatter, fm, rest := true, lines[1..close], lines[close + 1..];
      } else {
        hadFrontmatter, fm, rest := false, [], lines;
      }
      ok := true;
    }

    /** The first `provenance:` line, or the end of the frontmatter. */
    method FindProvenance() returns (q: nat)
      ensures q == ProvIdx(fm)
    {
      q := 0;
      while q < |fm| && !IsProvenance(fm[q])
        invariant q <= |fm|
        invariant forall i {:trigger IsProvenance(fm[i])} | 0 <= i < q :: !IsProvenance(fm[i])
      {
        q := q + 1;
      }
      FirstIs(fm, 0, |fm|, IsProvenance, q);
    }

    /** Following lines that are blank or indented, without the blank ones at the end. */
    method FindBlockEnd(q: nat) returns (b: nat)
      requires q < |fm|
      ensures b == BlockEnd(fm, q)
    {
      hide Blank, LeavesBlock;
      b := q + 1;
      while b < |fm| && !LeavesBlock(fm[b])
        invariant q < b <= |fm|
        invariant forall i {:trigger LeavesBlock(fm[i])} | q < i < b :: !LeavesBlock(fm[i])
      {
        b := b + 1;
      }
      ghost var raw := b;
      while b > q + 1 && Blank(fm[b - 1])
        invariant q < b <= raw
        invariant forall i {:trigger Blank(fm[i])} | b <= i < raw :: Blank(fm[i])
      {
        b := b - 1;
      }
      RunEndIs(fm, q + 1, |fm|, LeavesBlock, Blank, raw, b);
    }

    /** The list's key line, or the end of the block. */
    method FindHeader(q: nat, b: nat, key: string) returns (h: nat)
      requires q < b <= |fm|
      ensures h == First(fm, q + 1, b, KeyTest(key))
    {
      hide IsKey;
      h := q + 1;
      while h < b && !IsKey(fm[h], key)
        invariant q < h <= b
        invariant forall i {:trigger IsKey(fm[i], key)} | q < i < h :: !IsKey(fm[i], key)
      {
        h := h + 1;
      }
      forall i {:trigger KeyTest(key)(fm[i])} | q + 1 <= i < h
        ensures !KeyTest(key)(fm[i])
      {
        assert !IsKey(fm[i], key);
      }
      FirstIs(fm, q + 1, b, KeyTest(key), h);
    }

    /** The indentation of the block's first line with ink, or two spaces. */
    method FindChildIndent(q: nat, b: nat) returns (indent: string)
      requires q < b <= |fm|
      ensures indent == ChildIndent(fm, q, b)
    {
      hide HasInk, IndentOf;
      var c := q + 1;
      while c < b && !HasInk(fm[c])
        invariant q < c <= b
        invariant forall i {:trigger HasInk(fm[i])} | q < i < c :: !HasInk(fm[i])
      {
        c := c + 1;
      }
      FirstIs(fm, q + 1, b, HasInk, c);
      indent := if c < b then IndentOf(fm[c]) else "  ";
    }

    /** The lines deeper than the list's key, without the blank ones at the end. */
    method FindListEnd(h: nat, b: nat) returns (e: nat)
      requires h < b <= |fm|
      ensures e == ListEnd(fm, h, b)
    {
      hide Blank, SpaceRun;
      var width := SpaceRun(fm[h]);
      e := h + 1;
      while e < b && !Dedents(fm[e], width)
        invariant h < e <= b
        invariant forall i {:trigger Dedents(fm[i], width)} | h < i < e :: !Dedents(fm[i], width)
      {
        e := e + 1;
      }
      ghost var raw := e;
      while e > h + 1 && Blank(fm[e - 1])
        invariant h < e <= raw
        invariant forall i {:trigger Blank(fm[i])} | e <= i < raw :: Blank(fm[i])
      {
        e := e - 1;
      }
      forall i {:trigger DedentTest(width)(fm[i])} | h + 1 <= i < raw
        ensures !DedentTest(width)(fm[i])
      {
        assert !Dedents(fm[i], width);
      }
      RunEndIs(fm, h + 1, b, DedentTest(width), Blank, raw, e);
    }

    /** The indentation of the list's first item, or two spaces more than its key. */
    method FindItemIndent(h: nat, e: nat) returns (indent: string)
      requires h < e <= |fm|
      ensures indent == ItemIndent(fm, h, e)
    {
      hide IsDash, IndentOf;
      var d := h + 1;
      while d < e && !IsDash(fm[d])
        invariant h < d <= e
        invariant forall i {:trigger IsDash(fm[i])} | h < i < d :: !IsDash(fm[i])
      {
        d := d + 1;
      }
      FirstIs(fm, h + 1, e, IsDash, d);
      indent := if d < e then IndentOf(fm[d]) else IndentOf(fm[h]) + "  ";
    }

    /** `parseEntries(from, to, indent)`. */
    method Parse(from: nat, to: nat, indent: string) returns (entries: seq<Entry>)
      requires from <= to <= |fm|
      ensures entries == ParseFrom([], fm[from..to], indent)
    {
      hide Absorb;
      entries := [];
      var i := from;
      while i < to
        invariant from <= i <= to
        invariant ParseFrom([], fm[from..to], indent) == ParseFrom(entries, fm[i..to], indent)
      {
        assert fm[i..to][0] == fm[i] && fm[i..to][1..] == fm[i + 1..to];
        entries := Absorb(entries, fm[i], indent);
        i := i + 1;
      }
    }

    /** No block yet: drop the blank lines at the end and push one with the entry. */
    method PushBlock(req: Request)
      requires ProvIdx(fm) == |fm|
      modifies this`fm
      ensures Locate(old(fm), req.kind).NoBlock?
      ensures fm == Recorded(old(fm), req)
    {
      hide Blank, Quote, ProvIdx, EntryLines;
      ghost var before := fm;
      while |fm| > 0 && Blank(fm[|fm| - 1])
        invariant |fm| <= |before| && fm == before[..|fm|]
        invariant forall i {:trigger Blank(before[i])} | |fm| <= i < |before| :: Blank(before[i])
        decreases |fm|
      {
        fm := fm[..|fm| - 1];
      }
      BackIs(before, 0, |before|, Blank, |fm|);
      var lines := BuildEntryLines(req, "    ");
      fm := fm + (["provenance:", "  " + ListKey(req.kind) + ":"] + lines);
    }

    /** A block without the list: splice a new list in at its end. */
    method SpliceList(req: Request, q: nat, b: nat)
      requires Locate(fm, req.kind) == NoList(b) && q == ProvIdx(fm) < b <= |fm|
      modifies this`fm
      ensures fm == Recorded(old(fm), req)
    {
      hide Locate, ChildIndent, EntryLines, ProvIdx;
      var indent := FindChildIndent(q, b);
      var lines := BuildEntryLines(req, indent + "  ");
      fm := Insert(fm, b, [indent + ListKey(req.kind) + ":"] + lines);
    }

    /** An existing list: take an inline empty list away, find the list's end, and splice the
        entry in, unless it repeats the newest one. */
    method SpliceEntry(req: Request, allowDuplicate: bool, h: nat, b: nat) returns (skipped: bool)
      requires HasBlock(fm) && h == Header(fm, req.kind) < b == End(fm)
      requires !InlineList(fm[h], ListKey(req.kind))
      modifies this`fm
      ensures !Locate(old(fm), req.kind).Refused?
      ensures skipped <==> !allowDuplicate && IsDuplicate(Entries(old(fm), req.kind), req)
      ensures !skipped ==> fm == Recorded(old(fm), req)
    {
      hide *;
      ghost var before := fm;
      LocateInList(fm, req.kind);
      PlacesOfBlock(fm, req.kind);
      SwapKeepsPlaces(fm, req.kind, h, ListEnd(fm, h, b));
      fm := fm[h := BareHeader(fm[h], ListKey(req.kind))];
      PlacesOfBlock(fm, req.kind);
      var e := FindListEnd(h, b);
      var indent := FindItemIndent(h, e);
      var entries := Parse(h + 1, e, indent);
      EntriesAre(before, req.kind, h, e);
      assert fm[h + 1..e] == before[h + 1..e];
      skipped := !allowDuplicate && IsDuplicate(entries, req);
      if !skipped {
        var lines := BuildEntryLines(req, indent);
        fm := Insert(fm, e, lines);
        RecordedIs(before, req, h, e);
      }
    }

    /** One run of the script over the text of a plan. */
    method Record(text: string, req: Request, allowDuplicate: bool) returns (outcome: Outcome)
      modifies this
      ensures outcome == RecordIn(text, req, allowDuplicate)
    {
      hide IsDelimiter, IsProvenance, InlineBlock, InlineList, Header, End, BlockEnd, SplitLines, JoinLines, Render;
      hide Recorded, Entries, IsDuplicate, ListEnd, ChildIndent, IsKey, OpenPlan, ListKey;
      var ok := Open(SplitLines(text));
      if !ok { return Died; }
      ghost var plan := OpenPlan(SplitLines(text));
      var q := FindProvenance();
      if q == |fm| {
        assert Entries(fm, req.kind) == [] by { NoEntries(fm, req.kind); }
        NotDuplicate(req);
        PushBlock(req);
      } else {
        if InlineBlock(fm[q]) { return Died; }
        var b := FindBlockEnd(q);
        assert b == End(fm) by { EndIs(fm); }
        var h := FindHeader(q, b, ListKey(req.kind));
        assert h == Header(fm, req.kind) by { HeaderIs(fm, req.kind); }
        if h == b {
          assert Entries(fm, req.kind) == [] by { NoEntries(fm, req.kind); }
          NotDuplicate(req);
          SpliceList(req, q, b);
        } else {
          if InlineList(fm[h], ListKey(req.kind)) { return Died; }
          var skipped := SpliceEntry(req, allowDuplicate, h, b);
          if skipped { return Skipped; }
        }
      }
      assert fm == Recorded(plan.fm, req);
      outcome := Written(JoinLines(Render(Plan(hadFrontmatter, fm, rest))));
    }
  }

  lemma RecordedIs(fm: seq<string>, req: Request, h: nat, e: nat)
    requires Locate(fm, req.kind) == InList(h, e)
    ensures Recorded(fm, req)
         == Insert(fm[h := BareHeader(fm[h], ListKey(req.kind))], e, EntryLines(req, ItemIndent(fm, h, e)))
  {
    hide Locate, ItemIndent, EntryLines, BareHeader, IsKey;
  }

  lemma NotDuplicate(req: Request)
    ensures !IsDuplicate([], req)
  {
  }

  lemma EndIs(fm: seq<string>)
    requires HasBlock(fm)
    ensures End(fm) == BlockEnd(fm, ProvIdx(fm))
  {
    hide HasBlock, BlockEnd, ProvIdx;
  }

  lemma HeaderIs(fm: seq<string>, kind: Kind)
    requires HasBlock(fm)
    ensures Header(fm, kind) == First(fm, ProvIdx(fm) + 1, End(fm), KeyTest(ListKey(kind)))
  {
    hide HasBlock, ProvIdx, End, First, KeyTest, ListKey;
  }
}
