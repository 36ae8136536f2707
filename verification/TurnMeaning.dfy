/** What it takes for a session file to name the model of the current turn, said over the JSON of
    its records. */
module TurnMeaning {
  import opened Options
  import opened Json
  import LineText
  import opened TurnModel

  predicate Ink(c: char) {
    c as int !in {
      0x9, 0xa, 0xb, 0xc, 0xd, 0x20, 0xa0, 0x1680,
      0x2000, 0x2001, 0x2002, 0x2003, 0x2004, 0x2005, 0x2006, 0x2007, 0x2008, 0x2009, 0x200a,
      0x2028, 0x2029, 0x202f, 0x205f, 0x3000, 0xfeff}
  }

  predicate NoInk(s: string) {
    forall i | 0 <= i < |s| :: !Ink(s[i])
  }

  predicate SaysUnknown(m: string) {
    && |m| == 7 && m[0] in "uU" && m[1] in "nN" && m[2] in "kK\U{212a}" && m[3] in "nN"
    && m[4] in "oO" && m[5] in "wW" && m[6] in "nN"
  }

  /** `text` names model `m`: with white space around it at most, and `m` neither a placeholder in
      angle brackets nor the word `unknown` in any case. */
  ghost predicate NamesModel(text: string, m: string) {
    && m != "" && Ink(m[0]) && Ink(m[|m| - 1]) && m[0] != '<' && !SaysUnknown(m)
    && exists before, after :: text == before + m + after && NoInk(before) && NoInk(after)
  }

  lemma InkIs(c: char)
    ensures Ink(c) <==> !LineText.IsSpace(c)
  {
    LineText.SpacesAre(c);
  }

  lemma NoInkIs(s: string)
    ensures NoInk(s) <==> LineText.AllSpace(s)
  {
    hide Ink, LineText.IsSpace;
    forall i | 0 <= i < |s| ensures Ink(s[i]) <==> !LineText.IsSpace(s[i]) { InkIs(s[i]); }
  }

  lemma UnknownIs(m: string)
    ensures IsUnknown(m) <==> SaysUnknown(m)
  {
    if |m| == 7 {
      assert IsUnknown(m) <==>
             && Spells(m[0], 'u') && Spells(m[1], 'n') && Spells(m[2], 'k') && Spells(m[3], 'n')
             && Spells(m[4], 'o') && Spells(m[5], 'w') && Spells(m[6], 'n');
    }
  }

  lemma CoreIs(m: string, text: string)
    ensures NamesModel(text, m) <==> LineText.IsCore(m, text) && m[0] != '<' && !IsUnknown(m)
  {
    hide Ink, NoInk, SaysUnknown, IsUnknown, LineText.IsSpace, LineText.AllSpace;
    UnknownIs(m);
    if m != "" {
      InkIs(m[0]);
      InkIs(m[|m| - 1]);
    }
    forall s ensures NoInk(s) <==> LineText.AllSpace(s) { NoInkIs(s); }
  }

  /** A value names a model exactly when it is a text that does. */
  lemma ExactMeans(model: Json, m: string)
    ensures Exact(model) == Some(m) <==> model.Str? && NamesModel(model.s, m)
  {
    hide IsUnknown, LineText.IsCore, LineText.Trim, NamesModel;
    if model.Str? {
      CoreIs(m, model.s);
      LineText.TrimExact(model.s, m);
    }
  }

  predicate Says(line: Line, kind: string) {
    line.Record? && Has(line.value, "type", Str(kind))
  }

  lemma SaysIs(line: Line, kind: string)
    ensures HasType(line, kind) <==> Says(line, kind)
  {
  }

  /** The record is of this session, and of this agent, or, if none is named, of no subagent: without
      an agent's name and not on a side chain. */
  predicate OfSession(j: Json, sessionId: string, agentId: string) {
    && Has(j, "sessionId", Str(sessionId)) && !NoInk(sessionId)
    && if agentId != "" then Has(j, "agentId", Str(agentId))
       else (Lacks(j, "agentId") || Has(j, "agentId", Null)) && !Has(j, "isSidechain", Bool(true))
  }

  lemma OfSessionIs(line: Line, sessionId: string, agentId: string)
    requires line.Record?
    ensures Own(line, sessionId, agentId) <==> OfSession(line.value, sessionId, agentId)
  {
    hide LineText.Trim, NoInk;
    NoInkIs(sessionId);
    LineText.TrimExact(sessionId, "");
  }

  ghost predicate HasContent(j: Json, content: seq<Json>) {
    exists message :: Has(j, "message", message) && Has(message, "content", Arr(content))
  }

  /** The message is a list of results of tools and nothing else. */
  ghost predicate HandsBack(j: Json) {
    exists content :: HasContent(j, content) && content != []
                      && forall i | 0 <= i < |content| :: Has(content[i], "type", Str("tool_result"))
  }

  lemma ContentIs(j: Json, content: seq<Json>)
    ensures Get(Get(j, "message"), "content") == Arr(content) <==> HasContent(j, content)
  {
    if Get(Get(j, "message"), "content") == Arr(content) { assert Has(j, "message", Get(j, "message")); }
  }

  lemma HandsBackIs(line: Line)
    requires line.Record?
    ensures IsToolResult(line) <==> HandsBack(line.value)
  {
    hide Get, HasContent, Has;
    var content := Get(Get(line.value, "message"), "content");
    forall item ensures Get(item, "type") == Str("tool_result") <==> Has(item, "type", Str("tool_result")) {
      GetExact(item, "type", Str("tool_result"));
    }
    if IsToolResult(line) { ContentIs(line.value, content.items); }
    if HandsBack(line.value) {
      var items :| HasContent(line.value, items) && items != []
                   && forall i | 0 <= i < |items| :: Has(items[i], "type", Str("tool_result"));
      ContentIs(line.value, items);
      assert content == Arr(items);
    }
  }

  /** The record stores a text under both keys that names model `m`. */
  ghost predicate Writes(j: Json, outer: string, m: string) {
    exists text :: Under(j, outer, "model", Str(text)) && NamesModel(text, m)
  }

  lemma WritesIs(j: Json, outer: string, m: string)
    ensures Exact(Get(Get(j, outer), "model")) == Some(m) <==> Writes(j, outer, m)
  {
    hide NamesModel, Exact, Under, Get;
    var model := Get(Get(j, outer), "model");
    ExactMeans(model, m);
    forall text: string ensures model == Str(text) <==> Under(j, outer, "model", Str(text)) {
      UnderExact(j, outer, "model", Str(text));
    }
    if model.Str? { assert model == Str(model.s); }
  }

  // ---------------------------------------------------------------------
  // The two kinds of files
  // ---------------------------------------------------------------------

  /** All records can be read, every one of a turn is of the session and agent, and there is a record
      of the assistant that names `m`, after which the user only hands back results of tools. */
  ghost predicate ClaudeSays(lines: seq<Line>, sessionId: string, agentId: string, m: string) {
    && (forall i | 0 <= i < |lines| :: !lines[i].Malformed?)
    && (forall i | 0 <= i < |lines| && (Says(lines[i], "assistant") || Says(lines[i], "user")) ::
          OfSession(lines[i].value, sessionId, agentId))
    && exists k :: 0 <= k < |lines| && Says(lines[k], "assistant") && Writes(lines[k].value, "message", m)
                   && forall j | k < j < |lines| ::
                        !Says(lines[j], "assistant") && (Says(lines[j], "user") ==> HandsBack(lines[j].value))
  }

  lemma ClaudeMeans(lines: seq<Line>, sessionId: string, agentId: string, m: string)
    ensures ClaudeWrote(lines, sessionId, agentId, m) <==> ClaudeSays(lines, sessionId, agentId, m)
  {
    hide HasType, Says, Own, OfSession, IsToolResult, HandsBack, Exact, Writes, Get, ModelOf;
    forall i | 0 <= i < |lines|
      ensures HasType(lines[i], "assistant") <==> Says(lines[i], "assistant")
      ensures HasType(lines[i], "user") <==> Says(lines[i], "user")
      ensures Says(lines[i], "assistant") || Says(lines[i], "user") ==> lines[i].Record?
      ensures !(Says(lines[i], "assistant") && Says(lines[i], "user"))
      ensures lines[i].Record? ==>
                (Own(lines[i], sessionId, agentId) <==> OfSession(lines[i].value, sessionId, agentId))
      ensures lines[i].Record? ==> (IsToolResult(lines[i]) <==> HandsBack(lines[i].value))
      ensures lines[i].Record? ==> (Exact(ModelOf(lines[i])) == Some(m) <==> Writes(lines[i].value, "message", m))
    {
      LineMeans(lines[i], sessionId, agentId, m);
    }
  }

  lemma LineMeans(line: Line, sessionId: string, agentId: string, m: string)
    ensures HasType(line, "assistant") <==> Says(line, "assistant")
    ensures HasType(line, "user") <==> Says(line, "user")
    ensures Says(line, "assistant") || Says(line, "user") ==> line.Record?
    ensures !(Says(line, "assistant") && Says(line, "user"))
    ensures line.Record? ==> (Own(line, sessionId, agentId) <==> OfSession(line.value, sessionId, agentId))
    ensures line.Record? ==> (IsToolResult(line) <==> HandsBack(line.value))
    ensures line.Record? ==> (Exact(ModelOf(line)) == Some(m) <==> Writes(line.value, "message", m))
  {
    hide Own, OfSession, IsToolResult, HandsBack, Exact, Writes, Get;
    SaysIs(line, "assistant");
    SaysIs(line, "user");
    assert "assistant"[0] != "user"[0];
    if line.Record? {
      OfSessionIs(line, sessionId, agentId);
      HandsBackIs(line);
      WritesIs(line.value, "message", m);
    }
  }

  /** All records can be read, one of them alone names a session, the expected one, and the last one
      that sets a turn's context names `m`. */
  ghost predicate CodexSays(lines: seq<Line>, sessionId: string, m: string) {
    && (forall i | 0 <= i < |lines| :: !lines[i].Malformed?) && !NoInk(sessionId)
    && (exists k :: 0 <= k < |lines| && Says(lines[k], "session_meta")
                    && Under(lines[k].value, "payload", "id", Str(sessionId))
                    && forall j | 0 <= j < |lines| && j != k :: !Says(lines[j], "session_meta"))
    && (exists k :: 0 <= k < |lines| && Says(lines[k], "turn_context") && Writes(lines[k].value, "payload", m)
                    && forall j | k < j < |lines| :: !Says(lines[j], "turn_context"))
  }

  lemma CodexMeans(lines: seq<Line>, sessionId: string, m: string)
    ensures CodexWrote(lines, sessionId, m) <==> CodexSays(lines, sessionId, m)
  {
    hide HasType, Says, Exact, Writes, Under, Get, Payload, NoInk, LineText.Trim;
    NoInkIs(sessionId);
    LineText.TrimExact(sessionId, "");
    forall i | 0 <= i < |lines|
      ensures HasType(lines[i], "session_meta") <==> Says(lines[i], "session_meta")
      ensures HasType(lines[i], "turn_context") <==> Says(lines[i], "turn_context")
      ensures Says(lines[i], "session_meta") || Says(lines[i], "turn_context") ==> lines[i].Record?
      ensures lines[i].Record? ==>
                (Payload(lines[i], "id") == Str(sessionId) <==> Under(lines[i].value, "payload", "id", Str(sessionId)))
      ensures lines[i].Record? ==>
                (Exact(Payload(lines[i], "model")) == Some(m) <==> Writes(lines[i].value, "payload", m))
    {
      CodexLineMeans(lines[i], sessionId, m);
    }
  }

  lemma CodexLineMeans(line: Line, sessionId: string, m: string)
    ensures HasType(line, "session_meta") <==> Says(line, "session_meta")
    ensures HasType(line, "turn_context") <==> Says(line, "turn_context")
    ensures Says(line, "session_meta") || Says(line, "turn_context") ==> line.Record?
    ensures line.Record? ==>
              (Payload(line, "id") == Str(sessionId) <==> Under(line.value, "payload", "id", Str(sessionId)))
    ensures line.Record? ==> (Exact(Payload(line, "model")) == Some(m) <==> Writes(line.value, "payload", m))
  {
    hide Exact, Writes, Under, Get;
    SaysIs(line, "session_meta");
    SaysIs(line, "turn_context");
    if line.Record? {
      UnderExact(line.value, "payload", "id", Str(sessionId));
      WritesIs(line.value, "payload", m);
    }
  }
}
