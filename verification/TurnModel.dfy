/** Which model wrote the current turn, read from the records of a session file. */
module TurnModel {
  import opened Options
  import opened Json
  import LineText

  /** A line of a session file, after trying to parse it. */
  datatype Line = Blank | Malformed | Record(value: Json)

  datatype Result = Found(model: string) | Refused

  predicate HasType(line: Line, name: string) {
    line.Record? && Get(line.value, "type") == Str(name)
  }

  /** Lower case as far as it matters here: the Kelvin sign becomes a `k`, like the capital letter. */
  predicate Spells(c: char, lower: char) {
    c == lower || ('a' <= lower <= 'z' && c as int == lower as int - 32) || (lower == 'k' && c == '\U{212a}')
  }

  predicate IsUnknown(s: string) {
    |s| == 7 && forall i | 0 <= i < 7 :: Spells(s[i], "unknown"[i])
  }

  /** The exact model id in a value: the trimmed text, unless there is none, it says unknown, or it is
      a placeholder. */
  function Exact(model: Json): Option<string> {
    if !model.Str? then None
    else
      var id := LineText.Trim(model.s);
      if id == "" || IsUnknown(id) || id[0] == '<' then None else Some(id)
  }

  /** A model that is found has no white space around it, is not a stand-in, and is found again from
      its own text. */
  lemma ExactIsStable(model: Json, m: string)
    requires Exact(model) == Some(m)
    ensures Exact(Str(m)) == Some(m)
    ensures m != "" && !LineText.IsSpace(m[0]) && !LineText.IsSpace(m[|m| - 1]) && m[0] != '<' && !IsUnknown(m)
  {
    hide LineText.IsSpace;
    var s := model.s;
    var from := s[LineText.SpaceRun(s)..];
    assert m == LineText.TrimEnd(from) == from[..|m|];
    assert m[0] == s[LineText.SpaceRun(s)];
    assert m[0..] == m;
  }

  predicate NoneMalformed(lines: seq<Line>) {
    forall i | 0 <= i < |lines| :: !lines[i].Malformed?
  }

  // ---------------------------------------------------------------------
  // Claude transcripts
  // ---------------------------------------------------------------------

  /** A record of a turn: what the assistant or the user said. */
  predicate InTurn(line: Line) {
    HasType(line, "assistant") || HasType(line, "user")
  }

  /** The record belongs to the expected session, and to the expected agent, or to no subagent. */
  predicate Own(line: Line, expectedId: string, agentId: string)
    requires line.Record?
  {
    && LineText.Trim(expectedId) != "" && Get(line.value, "sessionId") == Str(expectedId)
    && (if agentId != "" then Get(line.value, "agentId") == Str(agentId)
        else Get(line.value, "agentId") == Null && Get(line.value, "isSidechain") != Bool(true))
  }

  predicate AllOwn(lines: seq<Line>, expectedId: string, agentId: string) {
    forall i | 0 <= i < |lines| && InTurn(lines[i]) :: Own(lines[i], expectedId, agentId)
  }

  /** A user record that only hands back results of tools, so that the turn goes on. */
  predicate IsToolResult(line: Line)
    requires line.Record?
  {
    var content := Get(Get(line.value, "message"), "content");
    content.Arr? && content.items != []
          && forall item | item in content.items :: Get(item, "type") == Str("tool_result")
  }

  function ModelOf(line: Line): Json
    requires line.Record?
  {
    Get(Get(line.value, "message"), "model")
  }

  /** Record `k` is the assistant's last word: nothing of a turn follows it but results of tools. */
  predicate LastWord(lines: seq<Line>, k: nat)
    requires k < |lines|
  {
    && HasType(lines[k], "assistant")
    && forall j | k < j < |lines| && InTurn(lines[j]) :: !HasType(lines[j], "assistant") && IsToolResult(lines[j])
  }

  /** The current turn was written by model `m`. */
  ghost predicate ClaudeWrote(lines: seq<Line>, expectedId: string, agentId: string, m: string) {
    && NoneMalformed(lines) && AllOwn(lines, expectedId, agentId)
    && exists k :: 0 <= k < |lines| && LastWord(lines, k) && Exact(ModelOf(lines[k])) == Some(m)
  }

  lemma OneLastWord(lines: seq<Line>, j: nat, k: nat)
    requires j < |lines| && k < |lines| && LastWord(lines, j) && LastWord(lines, k)
    ensures j == k
  {
    hide HasType, IsToolResult;
    assert InTurn(lines[j]) && InTurn(lines[k]);
  }

  /** What one more line does to the last word. */
  lemma NextLine(lines: seq<Line>, line: Line, k: nat)
    requires k <= |lines|
    ensures LastWord(lines + [line], k) <==>
            if HasType(line, "assistant") then k == |lines|
            else k < |lines| && LastWord(lines, k) && (HasType(line, "user") ==> IsToolResult(line))
  {
    hide HasType, IsToolResult;
    var more := lines + [line];
    assert more[|lines|] == line;
    if k < |lines| {
      assert more[k] == lines[k];
      assert forall j | 0 <= j < |lines| :: more[j] == lines[j];
    }
  }

  lemma Types(line: Line)
    ensures !(HasType(line, "assistant") && HasType(line, "user"))
    ensures InTurn(line) ==> line.Record?
  {
    assert "assistant"[0] != "user"[0];
  }

  /** `word` is where the last word is, or negative when there is none. */
  predicate WordAt(lines: seq<Line>, word: int) {
    if word >= 0 then word < |lines| && LastWord(lines, word)
    else forall k | 0 <= k < |lines| :: !LastWord(lines, k)
  }

  lemma NextWord(lines: seq<Line>, line: Line, word: int)
    requires WordAt(lines, word)
    ensures WordAt(lines + [line],
                   if HasType(line, "assistant") then |lines|
                   else if HasType(line, "user") && !IsToolResult(line) then -1
                   else word)
  {
    hide HasType, IsToolResult, LastWord;
    Types(line);
    forall k | 0 <= k <= |lines|
      ensures LastWord(lines + [line], k) <==>
              if HasType(line, "assistant") then k == |lines|
              else k < |lines| && LastWord(lines, k) && (HasType(line, "user") ==> IsToolResult(line))
    {
      NextLine(lines, line, k);
    }
  }

  lemma Wrote(lines: seq<Line>, expectedId: string, agentId: string, word: int, m: string)
    requires NoneMalformed(lines) && AllOwn(lines, expectedId, agentId) && WordAt(lines, word)
    ensures ClaudeWrote(lines, expectedId, agentId, m) <==> word >= 0 && Exact(ModelOf(lines[word])) == Some(m)
  {
    hide NoneMalformed, AllOwn, LastWord, Exact, ModelOf;
    if word >= 0 {
      forall k | 0 <= k < |lines| && LastWord(lines, k) ensures k == word { OneLastWord(lines, k, word); }
    }
  }

  /** The loop over a transcript: finds the model exactly when the current turn has one. */
  method ClaudeModel(lines: seq<Line>, expectedId: string, agentId: string) returns (r: Result)
    ensures forall m :: r == Found(m) <==> ClaudeWrote(lines, expectedId, agentId, m)
  {
    hide HasType, IsToolResult, Own, Exact, ModelOf, WordAt;
    var latest := Null;
    ghost var word := -1;
    NoWordYet();
    var i := 0;
    while i < |lines|
      invariant 0 <= i <= |lines|
      invariant NoneMalformed(lines[..i]) && AllOwn(lines[..i], expectedId, agentId)
      invariant WordAt(lines[..i], word) && word < i
      invariant latest == if word >= 0 && lines[word].Record? then ModelOf(lines[word]) else Null
      invariant word >= 0 ==> lines[word].Record?
    {
      var line := lines[i];
      assert lines[..i + 1] == lines[..i] + [line];
      if line.Malformed? { return Refused; }
      Types(line);
      NextWord(lines[..i], line, word);
      if HasType(line, "assistant") || HasType(line, "user") {
        assert InTurn(lines[i]);
        if !Own(line, expectedId, agentId) { return Refused; }
        if HasType(line, "assistant") {
          latest := ModelOf(line);
          word := i;
        } else if !IsToolResult(line) {
          latest := Null;
          word := -1;
        }
      }
      i := i + 1;
    }
    assert lines[..|lines|] == lines;
    NothingExact();
    match Exact(latest) {
      case None => r := Refused;
      case Some(id) => r := Found(id);
    }
    forall m
      ensures r == Found(m) <==> ClaudeWrote(lines, expectedId, agentId, m)
    {
      Wrote(lines, expectedId, agentId, word, m);
    }
  }

  lemma NoWordYet()
    ensures WordAt([], -1)
  {
  }

  lemma NothingExact()
    ensures Exact(Null) == None
  {
  }

  // ---------------------------------------------------------------------
  // How a Claude transcript goes on
  // ---------------------------------------------------------------------

  /** A prompt of the user ends the turn: until the assistant speaks again no model is found. */
  lemma PromptEndsTurn(lines: seq<Line>, prompt: Line, expectedId: string, agentId: string, m: string)
    requires HasType(prompt, "user") && !IsToolResult(prompt)
    ensures !ClaudeWrote(lines + [prompt], expectedId, agentId, m)
  {
    hide HasType, IsToolResult, Own, Exact, ModelOf, LastWord, NoneMalformed, AllOwn;
    Types(prompt);
    forall k | 0 <= k <= |lines| ensures !LastWord(lines + [prompt], k) { NextLine(lines, prompt, k); }
  }

  /** Results of tools, and records that belong to no turn, leave the model as it is. */
  lemma ToolResultKeepsTurn(lines: seq<Line>, more: Line, expectedId: string, agentId: string, m: string)
    requires more.Record? && !HasType(more, "assistant") && (HasType(more, "user") ==> IsToolResult(more))
    requires InTurn(more) ==> Own(more, expectedId, agentId)
    ensures ClaudeWrote(lines + [more], expectedId, agentId, m) <==> ClaudeWrote(lines, expectedId, agentId, m)
  {
    hide HasType, IsToolResult, Own, Exact, ModelOf, LastWord, NoneMalformed, AllOwn;
    Extended(lines, more, expectedId, agentId);
    forall k | 0 <= k < |lines|
      ensures LastWord(lines + [more], k) <==> LastWord(lines, k)
      ensures (lines + [more])[k] == lines[k]
    {
      NextLine(lines, more, k);
    }
    NextLine(lines, more, |lines|);
  }

  /** The assistant's own record decides, whatever came before it. */
  lemma AssistantDecides(lines: seq<Line>, more: Line, expectedId: string, agentId: string, m: string)
    requires HasType(more, "assistant")
    ensures ClaudeWrote(lines + [more], expectedId, agentId, m) <==>
            && NoneMalformed(lines) && AllOwn(lines, expectedId, agentId) && Own(more, expectedId, agentId)
            && Exact(ModelOf(more)) == Some(m)
  {
    hide HasType, IsToolResult, Own, Exact, ModelOf, LastWord, NoneMalformed, AllOwn;
    Types(more);
    Extended(lines, more, expectedId, agentId);
    forall k | 0 <= k <= |lines| ensures LastWord(lines + [more], k) <==> k == |lines| { NextLine(lines, more, k); }
    assert (lines + [more])[|lines|] == more;
  }

  lemma Extended(lines: seq<Line>, more: Line, expectedId: string, agentId: string)
    requires more.Record?
    ensures NoneMalformed(lines + [more]) <==> NoneMalformed(lines)
    ensures AllOwn(lines + [more], expectedId, agentId) <==>
            AllOwn(lines, expectedId, agentId) && (InTurn(more) ==> Own(more, expectedId, agentId))
  {
    hide HasType, Own;
    var both := lines + [more];
    assert both[|lines|] == more;
    assert forall i | 0 <= i < |lines| :: both[i] == lines[i];
  }

  // ---------------------------------------------------------------------
  // Codex sessions
  // ---------------------------------------------------------------------

  function Payload(line: Line, key: string): Json
    requires line.Record?
  {
    Get(Get(line.value, "payload"), key)
  }

  /** The one record that names the session, at `k`. */
  predicate SessionAt(lines: seq<Line>, k: nat)
    requires k < |lines|
  {
    HasType(lines[k], "session_meta") && forall j | 0 <= j < |lines| && HasType(lines[j], "session_meta") :: j == k
  }

  predicate LatestTurn(lines: seq<Line>, k: nat)
    requires k < |lines|
  {
    HasType(lines[k], "turn_context") && forall j | k < j < |lines| :: !HasType(lines[j], "turn_context")
  }

  /** The latest turn of the expected session was given model `m`. */
  ghost predicate CodexWrote(lines: seq<Line>, expectedId: string, m: string) {
    && NoneMalformed(lines) && LineText.Trim(expectedId) != ""
    && (exists k :: 0 <= k < |lines| && SessionAt(lines, k) && Payload(lines[k], "id") == Str(expectedId))
    && (exists k :: 0 <= k < |lines| && LatestTurn(lines, k) && Exact(Payload(lines[k], "model")) == Some(m))
  }

  /** The loop over a session file: finds the model exactly when the one session record is the
      expected one and the latest turn has an exact model. */
  method CodexModel(lines: seq<Line>, expectedId: string) returns (r: Result)
    ensures forall m :: r == Found(m) <==> CodexWrote(lines, expectedId, m)
  {
    hide HasType, Exact, Payload;
    var sessionId := Null;
    var sawSession := false;
    var latest := Null;
    ghost var session, turn := -1, -1;
    var i := 0;
    while i < |lines|
      invariant 0 <= i <= |lines|
      invariant forall j | 0 <= j < i :: !lines[j].Malformed?
      invariant -1 <= session < i && -1 <= turn < i
      invariant sawSession <==> session >= 0
      invariant session >= 0 ==> lines[session].Record? && sessionId == Payload(lines[session], "id")
      invariant session < 0 ==> sessionId == Null
      invariant forall j | 0 <= j < i :: HasType(lines[j], "session_meta") <==> j == session
      invariant turn >= 0 ==>
                  HasType(lines[turn], "turn_context") && lines[turn].Record? && latest == Payload(lines[turn], "model")
      invariant turn < 0 ==> latest == Null
      invariant forall j | 0 <= j < i && HasType(lines[j], "turn_context") :: j <= turn
    {
      var line := lines[i];
      if line.Malformed? { return Refused; }
      CodexTypes(line);
      if HasType(line, "session_meta") {
        if sawSession { return Refused; }
        sawSession := true;
        sessionId := Payload(line, "id");
        session := i;
      }
      if HasType(line, "turn_context") {
        latest := Payload(line, "model");
        turn := i;
      }
      i := i + 1;
    }
    if LineText.Trim(expectedId) == "" || sessionId != Str(expectedId) { return Refused; }
    NothingExact();
    match Exact(latest) {
      case None => r := Refused;
      case Some(id) => r := Found(id);
    }
  }

  lemma CodexTypes(line: Line)
    ensures HasType(line, "session_meta") || HasType(line, "turn_context") ==> line.Record?
  {
  }
}
