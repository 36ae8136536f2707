/** What is accepted, what is written and what is skipped, with the keys and words as they stand in
    the file. */
module RecordingMeaning {
  import opened Options
  import opened LineText
  import opened PlanFrontmatter
  import opened EntryReadback
  import opened RecordingHistories
  import opened PlanEditor

  // ---------------------------------------------------------------------
  // Requests
  // ---------------------------------------------------------------------

  predicate Numerals(s: string, from: nat, to: nat)
    requires from <= to <= |s|
  {
    forall i | from <= i < to :: s[i] in "0123456789"
  }

  /** `2026-01-31T09:15:00Z`: numerals around fixed marks. */
  predicate LooksLikeStamp(s: string) {
    && |s| == 20
    && Numerals(s, 0, 4) && s[4] == '-' && Numerals(s, 5, 7) && s[7] == '-' && Numerals(s, 8, 10) && s[10] == 'T'
    && Numerals(s, 11, 13) && s[13] == ':' && Numerals(s, 14, 16) && s[16] == ':' && Numerals(s, 17, 19) && s[19] == 'Z'
  }

  lemma NumeralIs(c: char)
    ensures IsDigit(c) <==> c in "0123456789"
  {
    if IsDigit(c) { assert "0123456789"[c as int - '0' as int] == c; }
  }

  lemma StampMeans(s: string)
    ensures IsStamp(s) <==> LooksLikeStamp(s)
  {
    hide IsDigit;
    if |s| == 20 {
      forall i | 0 <= i < 20 ensures IsDigit(s[i]) <==> s[i] in "0123456789" { NumeralIs(s[i]); }
      if LooksLikeStamp(s) {
        forall i | 0 <= i < 20 ensures IsStampChar(i, s[i]) {}
      }
      if IsStamp(s) {
        assert IsStampChar(4, s[4]) && IsStampChar(7, s[7]) && IsStampChar(10, s[10]);
        assert IsStampChar(13, s[13]) && IsStampChar(16, s[16]) && IsStampChar(19, s[19]);
        forall i | 0 <= i < 20 && i !in {4, 7, 10, 13, 16, 19} ensures s[i] in "0123456789" {
          assert IsStampChar(i, s[i]);
        }
      }
    }
  }

  /** What a request has to be: a model, a verdict or a mode as there are, and a stamp. */
  lemma ValidMeans(req: Request)
    ensures Valid(req) <==>
            && req.model != "" && LooksLikeStamp(req.at)
            && req.judgment in if req.kind == Review then ["approved", "changes-requested", "comments"]
                               else ["implement", "update", "discuss", "other"]
  {
    hide IsStamp, LooksLikeStamp;
    StampMeans(req.at);
  }

  // ---------------------------------------------------------------------
  // Entries
  // ---------------------------------------------------------------------

  /** The lines of an entry as they are written. */
  lemma EntryLinesMean(req: Request, indent: string)
    ensures EntryLines(req, indent) ==
            [indent + "- model: " + Quote(req.model)]
            + (if req.harness != "" then [indent + "  harness: " + Quote(req.harness)] else [])
            + [indent + "  at: " + req.at]
            + [indent + (if req.kind == Review then "  verdict: " else "  mode: ") + Quote(req.judgment)]
            + (if req.note != "" then [indent + "  note: " + Quote(req.note)] else [])
  {
    hide Quote, EntryLines;
    var cont := indent + "  ";
    var lines := [indent + "- model: " + Quote(req.model)]
                 + (if req.harness != "" then [cont + "harness: " + Quote(req.harness)] else [])
                 + [cont + "at: " + req.at]
                 + [cont + JudgmentKey(req.kind) + ": " + Quote(req.judgment)]
                 + (if req.note != "" then [cont + "note: " + Quote(req.note)] else []);
    PushedLines(req, indent, lines);
    assert cont + "harness: " + Quote(req.harness) == indent + "  harness: " + Quote(req.harness);
    assert cont + "at: " + req.at == indent + "  at: " + req.at;
    assert cont + "note: " + Quote(req.note) == indent + "  note: " + Quote(req.note);
    if req.kind == Review {
      assert cont + "verdict" + ": " == indent + "  verdict: ";
    } else {
      assert cont + "mode" + ": " == indent + "  mode: ";
    }
  }

  // ---------------------------------------------------------------------
  // Duplicates
  // ---------------------------------------------------------------------

  /** The entry says the same as the request: model, note, verdict or mode, and day. An entry without a
      note has an empty one, and a review without a verdict has comments. */
  predicate SaysTheSame(e: Entry, req: Request) {
    && "model" in e && e["model"] == req.model
    && (if "note" in e then e["note"] == req.note else req.note == "")
    && (if req.kind == Review then
          if "verdict" in e then e["verdict"] == req.judgment else req.judgment == "comments"
        else "mode" in e && e["mode"] == req.judgment)
    && "at" in e && |e["at"]| >= 10 && |req.at| >= 10 && forall i | 0 <= i < 10 :: e["at"][i] == req.at[i]
  }

  lemma DuplicateMeans(entries: seq<Entry>, req: Request)
    requires |req.at| == 20
    ensures IsDuplicate(entries, req) <==> entries != [] && SaysTheSame(entries[|entries| - 1], req)
  {
    hide Day;
    if entries != [] {
      DayIs(GetOr(entries[|entries| - 1], "at", ""), req.at);
    }
  }

  /** On any plan, a run is skipped exactly when it may be and the newest entry says the same. */
  lemma SkippedMeans(text: string, req: Request, allowDuplicate: bool)
    requires Valid(req)
    ensures RecordIn(text, req, allowDuplicate).Skipped? <==>
            && Open(text, req.kind) && !allowDuplicate && ReadBack(text, req.kind) != []
            && SaysTheSame(ReadBack(text, req.kind)[|ReadBack(text, req.kind)| - 1], req)
  {
    hide *;
    AcceptedIs(text, req.kind);
    StampOf(req);
    StampIsLong(req.at);
    OutcomeIs(text, req, allowDuplicate);
    if Open(text, req.kind) { DuplicateMeans(ReadBack(text, req.kind), req); }
  }
}
