/** The lines written for an entry, read back by the script's own parser. */
module EntryReadback {
  import opened Options
  import opened LineText
  import opened PlanFrontmatter

  predicate IsWord(s: string) {
    s != "" && forall i | 0 <= i < |s| :: IsWordChar(s[i])
  }

  predicate IsRaw(s: string) {
    s != "" && !IsSpace(s[0])
  }

  predicate WellFormedField(f: Field) {
    IsWord(f.key) && IsRaw(f.raw)
  }

  /** A field as the entry's reader keeps it: dropped when its value has a character `.` does not match. */
  function Keep(e: Entry, f: Field): Entry {
    if NoBreak(f.raw) then e[f.key := Unquote(f.raw)] else e
  }

  function KeepAll(e: Entry, fields: seq<Field>): Entry
    decreases |fields|
  {
    if fields == [] then e else KeepAll(Keep(e, fields[0]), fields[1..])
  }

  lemma {:induction false} WordRunOfKey(key: string, rest: string)
    requires IsWord(key)
    ensures WordRun(key + (":" + rest)) == |key|
  {
    var s := key + (":" + rest);
    assert s[0] == key[0] && IsWordChar(key[0]);
    if |key| == 1 {
      assert s[1..] == ":" + rest;
    } else {
      assert s[1..] == key[1..] + (":" + rest);
      WordRunOfKey(key[1..], rest);
    }
  }

  lemma MatchFieldText(f: Field)
    requires WellFormedField(f)
    ensures MatchField(FieldText(f)) == if NoBreak(f.raw) then Some(f) else None
  {
    var s := FieldText(f);
    assert s == f.key + (":" + (" " + f.raw));
    var n := WordRun(s);
    WordRunOfKey(f.key, " " + f.raw);
    assert s[..n] == f.key;
    assert s[n + 1..] == " " + f.raw;
    SpaceRunOfIndented(" ", f.raw);
    assert s[n + 1..][1..] == f.raw;
  }

  lemma MatchSpaced(indent: string, f: Field)
    requires AllSpace(indent) && indent != "" && WellFormedField(f)
    ensures MatchSpacedField(indent + FieldText(f)) == if NoBreak(f.raw) then Some(f) else None
  {
    var ink := FieldText(f);
    assert ink == [f.key[0]] + ink[1..];
    assert IsWordChar(f.key[0]);
    SpaceRunOfIndented(indent, ink);
    assert (indent + ink)[|indent|..] == ink;
    MatchFieldText(f);
  }

  /** The first line of an entry opens one exactly when its value is on one line for `.`;
      otherwise the reader ignores it. */
  lemma AbsorbItem(entries: seq<Entry>, indent: string, f: Field)
    requires AllSpace(indent) && WellFormedField(f)
    ensures Absorb(entries, indent + ("- " + FieldText(f)), indent)
         == if NoBreak(f.raw) then entries + [map[f.key := Unquote(f.raw)]] else entries
  {
    var line := indent + ("- " + FieldText(f));
    assert line[..|indent| + 1] == indent + "-";
    assert line[|indent| + 1..] == " " + FieldText(f);
    MatchSpaced(" ", f);
    assert line[..|indent|] == indent;
    assert line[|indent|..] == "- " + FieldText(f);
    assert SpaceRun(line[|indent|..]) == 0;
  }

  /** Every further line adds its field to the newest entry. */
  lemma AbsorbCont(entries: seq<Entry>, indent: string, f: Field)
    requires AllSpace(indent) && WellFormedField(f) && entries != []
    ensures Absorb(entries, indent + ("  " + FieldText(f)), indent)
         == entries[..|entries| - 1] + [Keep(entries[|entries| - 1], f)]
  {
    var line := indent + ("  " + FieldText(f));
    assert line[|indent|] == ' ';
    assert !StartsWith(line, indent + "-");
    assert line[..|indent|] == indent;
    assert line[|indent|..] == "  " + FieldText(f);
    MatchSpaced("  ", f);
    assert entries == entries[..|entries| - 1] + [entries[|entries| - 1]];
  }

  lemma {:induction false} ParseCont(entries: seq<Entry>, fields: seq<Field>, indent: string)
    requires AllSpace(indent) && entries != []
    requires forall i | 0 <= i < |fields| :: WellFormedField(fields[i])
    ensures ParseFrom(entries, ContLines(fields, indent), indent)
         == entries[..|entries| - 1] + [KeepAll(entries[|entries| - 1], fields)]
    decreases |fields|
  {
    if fields == [] {
      assert entries == entries[..|entries| - 1] + [entries[|entries| - 1]];
    } else {
      AbsorbCont(entries, indent, fields[0]);
      var next := entries[..|entries| - 1] + [Keep(entries[|entries| - 1], fields[0])];
      ParseCont(next, fields[1..], indent);
      assert next[..|next| - 1] == entries[..|entries| - 1];
      assert ContLines(fields, indent)[1..] == ContLines(fields[1..], indent);
    }
  }

  lemma {:induction false} ParseConcat(entries: seq<Entry>, a: seq<string>, b: seq<string>, indent: string)
    ensures ParseFrom(entries, a + b, indent) == ParseFrom(ParseFrom(entries, a, indent), b, indent)
    decreases |a|
  {
    if a == [] {
      assert a + b == b;
    } else {
      assert (a + b)[0] == a[0] && (a + b)[1..] == a[1..] + b;
      ParseConcat(Absorb(entries, a[0], indent), a[1..], b, indent);
    }
  }

  /** The entry a request stands for. */
  function EntryOf(req: Request): Entry {
    map["model" := req.model, "at" := req.at]
    + map[JudgmentKey(req.kind) := req.judgment]
    + (if req.harness != "" then map["harness" := req.harness] else map[])
    + (if req.note != "" then map["note" := req.note] else map[])
  }

  lemma StampIsRaw(at: string)
    requires IsStamp(at)
    ensures IsRaw(at) && NoBreak(at) && OneLine(at) && Unquote(at) == at
  {
    assert IsStampChar(0, at[0]) && IsStampChar(19, at[19]);
    assert SpaceRun(at) == 0 && at[0..] == at && TrimEnd(at) == at;
    forall i | 0 <= i < |at|
      ensures !IsBreak(at[i])
    {
      assert IsStampChar(i, at[i]);
    }
  }

  lemma KeysAreWords(kind: Kind)
    ensures IsWord("model") && IsWord("harness") && IsWord("at") && IsWord("note")
    ensures IsWord(JudgmentKey(kind))
  {
  }

  lemma QuoteIsRaw(v: string)
    ensures IsRaw(Quote(v))
  {
    assert Quote(v)[0] == '"';
  }

  lemma FieldsAreWellFormed(req: Request)
    requires IsStamp(req.at)
    ensures forall i | 0 <= i < |Fields(req)| :: WellFormedField(Fields(req)[i])
  {
    hide Quote, IsStamp, IsWord, IsRaw;
    StampIsRaw(req.at);
    KeysAreWords(req.kind);
    QuoteIsRaw(req.model);
    QuoteIsRaw(req.harness);
    QuoteIsRaw(req.judgment);
    QuoteIsRaw(req.note);
    var parts := [[Field("model", Quote(req.model))],
                  if req.harness != "" then [Field("harness", Quote(req.harness))] else [],
                  [Field("at", req.at)], [Field(JudgmentKey(req.kind), Quote(req.judgment))],
                  if req.note != "" then [Field("note", Quote(req.note))] else []];
    assert Fields(req) == parts[0] + parts[1] + parts[2] + parts[3] + parts[4];
  }

  predicate AllLineSafe(req: Request) {
    LineSafe(req.model) && LineSafe(req.harness) && LineSafe(req.note)
  }

  lemma JudgmentIsSafe(kind: Kind, judgment: string)
    requires IsJudgment(kind, judgment)
    ensures LineSafe(judgment)
  {
  }

  lemma {:induction false} KeepConcat(e: Entry, a: seq<Field>, b: seq<Field>)
    ensures KeepAll(e, a + b) == KeepAll(KeepAll(e, a), b)
    decreases |a|
  {
    if a == [] {
      assert a + b == b;
    } else {
      assert (a + b)[0] == a[0] && (a + b)[1..] == a[1..] + b;
      KeepConcat(Keep(e, a[0]), a[1..], b);
    }
  }

  function Optional(key: string, v: string): seq<Field> {
    if v != "" then [Field(key, Quote(v))] else []
  }

  lemma KeepOptional(e: Entry, key: string, v: string)
    ensures KeepAll(e, Optional(key, v)) == if v != "" && LineSafe(v) then e[key := v] else e
  {
    QuoteBreaks(v);
    UnquoteOfQuote(v);
    if v != "" {
      assert Optional(key, v)[1..] == [];
    }
  }

  lemma KeepRequired(e: Entry, at: Field, judgment: Field)
    ensures KeepAll(e, [at, judgment]) == Keep(Keep(e, at), judgment)
  {
    assert [at, judgment][1..] == [judgment];
    var e1 := Keep(e, at);
    assert [judgment][1..] == [];
    assert KeepAll(e1, [judgment]) == KeepAll(Keep(e1, judgment), []);
  }

  /** An entry with the fields that follow the model written over it. What does not keep to one
      line is lost. */
  function Overwritten(e: Entry, req: Request): Entry {
    var e1 := if req.harness != "" && LineSafe(req.harness) then e["harness" := req.harness] else e;
    var e2 := e1["at" := req.at][JudgmentKey(req.kind) := req.judgment];
    if req.note != "" && LineSafe(req.note) then e2["note" := req.note] else e2
  }

  /** What a list reads as once the lines of a request follow it: with one more entry, or, when the
      model does not keep to one line, with the rest written over the newest entry there was. */
  function ReadOn(entries: seq<Entry>, req: Request): seq<Entry> {
    if LineSafe(req.model) then entries + [Overwritten(map["model" := req.model], req)]
    else OverNewest(entries, req)
  }

  function OverNewest(entries: seq<Entry>, req: Request): seq<Entry> {
    if entries == [] then []
    else entries[..|entries| - 1] + [Overwritten(entries[|entries| - 1], req)]
  }

  lemma RestFields(e: Entry, req: Request)
    requires Valid(req)
    ensures KeepAll(e, Fields(req)[1..]) == Overwritten(e, req)
  {
    hide Quote, IsStamp, IsJudgment, NoBreak, Unquote, LineSafe, JudgmentKey, KeepAll;
    var harness, note := Optional("harness", req.harness), Optional("note", req.note);
    var at, judgment := Field("at", req.at), Field(JudgmentKey(req.kind), Quote(req.judgment));
    assert Fields(req)[1..] == harness + ([at, judgment] + note);
    KeepConcat(e, harness, [at, judgment] + note);
    KeepOptional(e, "harness", req.harness);
    var e1 := KeepAll(e, harness);
    KeepConcat(e1, [at, judgment], note);
    KeepRequired(e1, at, judgment);
    assert Keep(e1, at) == e1["at" := req.at] by { StampIsRaw(req.at); }
    assert Keep(Keep(e1, at), judgment) == Keep(e1, at)[JudgmentKey(req.kind) := req.judgment] by {
      JudgmentIsSafe(req.kind, req.judgment);
      QuoteBreaks(req.judgment);
      UnquoteOfQuote(req.judgment);
    }
    KeepOptional(KeepAll(e1, [at, judgment]), "note", req.note);
  }

  lemma OverwrittenIsEntry(req: Request)
    ensures Overwritten(map["model" := req.model], req) == EntryOf(req) <==> LineSafe(req.harness) && LineSafe(req.note)
  {
    hide LineSafe;
    var e := Overwritten(map["model" := req.model], req);
    if !LineSafe(req.note) {
      NothingIsSafe();
      assert "note" in EntryOf(req) && "note" !in e;
    } else if !LineSafe(req.harness) {
      NothingIsSafe();
      assert "harness" in EntryOf(req) && "harness" !in e;
    }
  }

  lemma NothingIsSafe()
    ensures LineSafe("")
  {
  }

  lemma StampOf(req: Request)
    requires Valid(req)
    ensures IsStamp(req.at)
  {
  }

  lemma OverNewestIs(entries: seq<Entry>, req: Request)
    ensures OverNewest(entries, req) ==
            if entries == [] then []
            else entries[..|entries| - 1] + [Overwritten(entries[|entries| - 1], req)]
  {
    hide Overwritten;
  }

  /** The lines of a request after the first, read on. */
  lemma ParseRest(entries: seq<Entry>, req: Request, indent: string)
    requires Valid(req) && AllSpace(indent)
    ensures ParseFrom(entries, ContLines(Fields(req)[1..], indent), indent) == OverNewest(entries, req)
  {
    hide *;
    StampOf(req);
    FieldsAreWellFormed(req);
    if entries == [] {
      ParseContOfNothing(Fields(req)[1..], indent);
    } else {
      ParseCont(entries, Fields(req)[1..], indent);
      RestFields(entries[|entries| - 1], req);
    }
    OverNewestIs(entries, req);
  }

  /** The lines written for a request, read after the existing ones. */
  lemma ParseEntryLines(entries: seq<Entry>, req: Request, indent: string)
    requires Valid(req) && AllSpace(indent)
    ensures ParseFrom(entries, EntryLines(req, indent), indent) == ReadOn(entries, req)
  {
    hide Quote, Unquote, NoBreak, ContLines, Absorb, Overwritten, LineSafe, WellFormedField, Valid;
    StampOf(req);
    FieldsAreWellFormed(req);
    QuoteBreaks(req.model);
    UnquoteOfQuote(req.model);
    var model := Fields(req)[0];
    var lines := EntryLines(req, indent);
    AbsorbItem(entries, indent, model);
    assert lines[1..] == ContLines(Fields(req)[1..], indent);
    var begun := Absorb(entries, lines[0], indent);
    ParseRest(begun, req, indent);
    if LineSafe(req.model) {
      assert begun[..|begun| - 1] == entries;
    }
  }

  lemma {:induction false} ParseContOfNothing(fields: seq<Field>, indent: string)
    requires AllSpace(indent)
    requires forall i | 0 <= i < |fields| :: WellFormedField(fields[i])
    ensures ParseFrom([], ContLines(fields, indent), indent) == []
    decreases |fields|
  {
    if fields != [] {
      var line := indent + ("  " + FieldText(fields[0]));
      assert line[|indent|] == ' ';
      assert !StartsWith(line, indent + "-");
      ParseContOfNothing(fields[1..], indent);
      assert ContLines(fields, indent)[1..] == ContLines(fields[1..], indent);
    }
  }

  /** What is read after the list's old lines is the old entries and the recorded one,
      exactly when no stored text holds a raw U+2028 or U+2029. */
  lemma ReadbackExact(entries: seq<Entry>, req: Request, indent: string)
    requires Valid(req) && AllSpace(indent)
    ensures ParseFrom(entries, EntryLines(req, indent), indent) == entries + [EntryOf(req)] <==> AllLineSafe(req)
  {
    hide ParseFrom, EntryLines, LineSafe, Overwritten, EntryOf, Valid, AllSpace;
    ParseEntryLines(entries, req, indent);
    OverwrittenIsEntry(req);
    if LineSafe(req.model) {
      assert ReadOn(entries, req)[|entries|] == Overwritten(map["model" := req.model], req);
      assert (entries + [EntryOf(req)])[|entries|] == EntryOf(req);
    } else {
      assert |ReadOn(entries, req)| == |entries|;
    }
  }
}
