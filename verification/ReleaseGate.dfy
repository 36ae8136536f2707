/** The release gate as it runs: an object that works on the files of a workspace. Everything
    it does, with whatever the world does meanwhile, is a legal history of the release machine. */
module ReleaseGate {
  import opened Options
  import opened ReleaseMachine
  import ReleaseInvariant
  import ReleaseTheorems

  /** What the world does while the gate is not looking: time passes, the source may be edited,
      logs may be replaced or deleted. */
  datatype Meanwhile = Meanwhile(elapsed: Time, source: Option<string>, tampered: seq<(Path, Option<Log>)>)

  predicate Possible(m: Meanwhile) {
    m.elapsed >= 0.0
  }

  function Tampers(tampered: seq<(Path, Option<Log>)>): seq<Action> {
    if tampered == [] then [] else [Tamper(tampered[0].0, tampered[0].1)] + Tampers(tampered[1..])
  }

  function Acts(clock: Time, m: Meanwhile): seq<Action> {
    [Tick(clock + m.elapsed)] + (if m.source.Some? then [Edit(m.source.value)] else []) + Tampers(m.tampered)
  }

  /** How a started command goes: what happens meanwhile, and its end if it is not interrupted. */
  datatype Command = Command(before: Meanwhile, delay: Time, during: Meanwhile, output: seq<string>, exit: Option<int>)

  predicate PossibleCommand(c: Command) {
    Possible(c.before) && c.delay > 0.0 && Possible(c.during)
  }

  class Workspace {
    var clock: Time
    var source: string
    var receipts: map<Path, File>
    var logs: map<Path, Log>
    var manifests: map<string, Manifest>
    ghost var gate: Option<GateRun>
    ghost var ledger: map<Path, Attempt>
    ghost var verdicts: map<string, Verdict>

    ghost function View(): State
      reads this
    {
      State(clock, source, receipts, logs, manifests, gate, ledger, verdicts)
    }

    constructor (clock: Time, source: string)
      ensures View() == Empty(clock, source)
    {
      this.clock, this.source := clock, source;
      receipts, logs, manifests := map[], map[], map[];
      gate, ledger, verdicts := None, map[], map[];
    }

    method Elapse(m: Meanwhile)
      requires Possible(m)
      modifies this`clock, this`source, this`logs
      ensures Legal(old(View()), Acts(old(clock), m)) && View() == Run(old(View()), Acts(old(clock), m))
      ensures m.tampered == [] ==> logs == old(logs)
    {
      hide Enabled, Apply, Legal, Run, Acts, Tampers;
      ActsLegal(View(), m);
      clock := clock + m.elapsed;
      if m.source.Some? { source := m.source.value; }
      Meddle(m.tampered);
    }

    /** Logs are replaced or deleted, one after the other. */
    method Meddle(tampered: seq<(Path, Option<Log>)>)
      modifies this`logs
      ensures Legal(old(View()), Tampers(tampered)) && View() == Run(old(View()), Tampers(tampered))
      ensures tampered == [] ==> logs == old(logs)
    {
      hide Enabled, Apply, Legal, Run, Tampers;
      TampersLegal(View(), tampered);
      ghost var final := Run(View(), Tampers(tampered));
      var i := 0;
      while i < |tampered|
        invariant i <= |tampered|
        invariant Legal(View(), Tampers(tampered[i..])) && Run(View(), Tampers(tampered[i..])) == final
        invariant i == 0 ==> logs == old(logs)
      {
        var (p, content) := tampered[i];
        TamperStep(View(), tampered[i..]);
        TamperDoes(View(), p, content);
        assert tampered[i..][1..] == tampered[i + 1..];
        logs := match content case Some(log) => logs[p := log] case None => logs - {p};
        i := i + 1;
      }
      assert tampered[i..] == [];
      NothingLeft(View());
    }

    /** `check_manifest`: stage by stage, with every receipt the stage's pattern selects. */
    method CheckManifest(run: string, inputs: Inputs) returns (accepted: bool)
      ensures accepted <==> Accepts(View(), run, inputs)
    {
      hide Reusable;
      if run !in manifests { return false; }
      var m := manifests[run];
      if m.schema != SCHEMA || m.accepted != Some(true) || m.identity != Sha256(inputs) { return false; }
      var i := 0;
      while i < STAGES
        invariant i <= STAGES
        invariant forall st: Stage | Ordinal(st) < i :: st in m.stages
      {
        if StageAt(i) !in m.stages { MissingStage(View(), run, inputs, StageAt(i)); return false; }
        i := i + 1;
      }
      AllStages();
      i := 0;
      while i < STAGES
        invariant i <= STAGES
        invariant forall st: Stage | Ordinal(st) < i :: StageAccepted(View(), m.stages[st], st, IdentityOf(inputs, st))
      {
        var st := StageAt(i);
        var good := CheckStage(m.stages[st], st, IdentityOf(inputs, st));
        if !good { return false; }
        i := i + 1;
      }
      accepted := true;
    }

    method CheckStage(ref: Reference, stage: Stage, expected: Digest<Identity>) returns (good: bool)
      ensures good <==> StageAccepted(View(), ref, stage, expected)
    {
      hide Reusable;
      if ref.status != Some(0) || ref.receipt !in receipts || Sha256(receipts[ref.receipt]) != ref.sha { return false; }
      if receipts[ref.receipt].Unreadable? { return false; }
      var receipt := receipts[ref.receipt].receipt;
      if !Reusable(receipt, expected, logs, clock) { return false; }
      var todo := receipts.Keys;
      while todo != {}
        invariant todo <= receipts.Keys
        invariant forall p | p in receipts && p !in todo && p.stage == stage ::
                    LaterIsGood(receipts[p], expected, receipt.started, logs, clock)
        decreases |todo|
      {
        var p :| p in todo;
        todo := todo - {p};
        if p.stage == stage && !LaterIsGood(receipts[p], expected, receipt.started, logs, clock) { return false; }
      }
      good := true;
    }
  }

  predicate LaterIsGood(file: File, expected: Digest<Identity>, started: Time, logs: map<Path, Log>, now: Time) {
    && file.Readable?
    && (file.receipt.identity == expected && file.receipt.started > started ==>
          Reusable(file.receipt, expected, logs, now))
  }

  lemma AllStages()
    ensures forall st: Stage :: Ordinal(st) < STAGES
  {
  }

  lemma MissingStage(s: State, run: string, inputs: Inputs, st: Stage)
    requires run in s.manifests && st !in s.manifests[run].stages
    ensures !Accepts(s, run, inputs)
  {
  }

  class Gate {
    const ws: Workspace
    const run: string
    const inputs: Inputs
    const forced: bool
    var manifest: Manifest

    /** This object is the gate that is running in the workspace. */
    ghost predicate Valid()
      reads this, ws
    {
      && ws.gate.Some?
      && ws.gate.value.run == run && ws.gate.value.inputs == inputs && ws.gate.value.forced == forced
      && run in ws.manifests && ws.manifests[run] == manifest
    }

    constructor (ws: Workspace, run: string, inputs: Inputs, forced: bool)
      requires Enabled(ws.View(), Start(run, inputs, forced))
      modifies ws`manifests, ws`gate
      ensures this.ws == ws && this.run == run && this.inputs == inputs && this.forced == forced
      ensures Valid() && ws.View() == Apply(old(ws.View()), Start(run, inputs, forced))
    {
      this.ws, this.run, this.inputs, this.forced := ws, run, inputs, forced;
      manifest := Manifest(SCHEMA, Sha256(inputs), map[], None);
      new;
      ws.manifests := ws.manifests[run := manifest];
      ws.gate := Some(GateRun(run, inputs, forced, 0, false, Ready));
    }

    /** The newest receipt of the stage under the expected identity, picked out of all the files. */
    method NewestAttempt(stage: Stage, expected: Digest<Identity>) returns (best: Option<Path>)
      ensures best.None? ==> forall p | p in ws.receipts :: !IsAttempt(ws.receipts, stage, expected, p)
      ensures best.Some? ==> IsLatest(ws.receipts, stage, expected, best.value)
      ensures best.Some? ==> best.value in ws.receipts && ws.receipts[best.value].Readable?
    {
      best := None;
      var todo := ws.receipts.Keys;
      while todo != {}
        invariant todo <= ws.receipts.Keys
        invariant best.None? ==>
                    forall p | p in ws.receipts && p !in todo :: !IsAttempt(ws.receipts, stage, expected, p)
        invariant best.Some? ==> IsAttempt(ws.receipts, stage, expected, best.value)
        invariant best.Some? ==>
                    forall p | p in ws.receipts && p !in todo && IsAttempt(ws.receipts, stage, expected, p) ::
                      ws.receipts[p].receipt.started <= ws.receipts[best.value].receipt.started
        decreases |todo|
      {
        var p :| p in todo;
        todo := todo - {p};
        if IsAttempt(ws.receipts, stage, expected, p) {
          if best.None? || ws.receipts[p].receipt.started > ws.receipts[best.value].receipt.started {
            best := Some(p);
          }
        }
      }
    }

    /** The receipt of a command about to be started, and the head of its log. */
    method WriteOpenReceipt(stage: Stage, delay: Time)
      requires Valid() && Enabled(ws.View(), Begin(ws.clock + delay)) && stage == StageAt(ws.gate.value.next)
      modifies ws
      ensures ws.View() == Apply(old(ws.View()), Begin(old(ws.clock) + delay)) && Valid()
      ensures Path(run, stage) in ws.logs
    {
      hide Reusable, IsLatest, IsAttempt, Apply, Enabled, StageAt, OpenReceipt;
      BeginDoes(ws.View(), ws.clock + delay);
      var path := Path(run, stage);
      ws.clock := ws.clock + delay;
      ws.receipts := ws.receipts[path := Readable(OpenReceipt(inputs, path, ws.clock))];
      ws.logs := ws.logs[path := [Header(IdentityOf(inputs, stage), CommandOf(stage))]];
      ws.ledger := ws.ledger[path := Attempt(stage, inputs, CommandOf(stage), ws.clock, None)];
      ws.gate := Some(ws.gate.value.(phase := Running));
    }

    /** The command has ended: close the log and finalise the receipt. */
    method CloseReceipt(stage: Stage, exit: int, output: seq<string>) returns (status: int)
      requires Valid() && Enabled(ws.View(), End(exit, output, ws.clock)) && stage == StageAt(ws.gate.value.next)
      modifies ws
      ensures ws.View() == Apply(old(ws.View()), End(exit, output, old(ws.clock))) && Valid()
      ensures status == Status(exit, old(ws.source), inputs)
      ensures Path(run, stage) in ws.receipts && ws.receipts[Path(run, stage)].Readable?
      ensures ws.receipts[Path(run, stage)].receipt.status == Some(status)
      ensures ws.gate == Some(old(ws.gate).value.(phase := Unrecorded(Path(run, stage))))
            && ws.verdicts == old(ws.verdicts)
    {
      hide Outputs, OpenReceipt, IdentityOf, CommandOf, Apply, Enabled, StageAt;
      EndDoes(ws.View(), exit, output, ws.clock);
      var path := Path(run, stage);
      status := exit;
      var log := ws.logs[path] + Outputs(output);
      if ws.source != inputs.source {
        log := log + [SourceChanged];
        status := 1;
      }
      log := log + [StageExit(status)];
      assert log == ws.logs[path] + Outputs(output) + Footer(exit, ws.source, inputs);
      ws.logs := ws.logs[path := log];
      var receipt := ws.receipts[path].receipt.(
        status := Some(status), finished := Some(ws.clock), logDigest := Some(Sha256(log)));
      ws.receipts := ws.receipts[path := Readable(receipt)];
      ws.ledger := ws.ledger[path := ws.ledger[path].(outcome := Some(Outcome(exit, ws.source, ws.clock, log)))];
      ws.gate := Some(ws.gate.value.(phase := Unrecorded(path)));
    }

    /** Enter a stage's receipt into the manifest and save it. */
    method RecordStage(stage: Stage, path: Path)
      requires Valid() && Enabled(ws.View(), ReleaseMachine.Record)
      requires stage == StageAt(ws.gate.value.next) && ws.gate.value.phase == Unrecorded(path)
      modifies this, ws
      ensures ws.View() == Apply(old(ws.View()), ReleaseMachine.Record) && Valid()
      ensures ws.verdicts == old(ws.verdicts)
      ensures ws.gate == Some(old(ws.gate).value.(
                next := old(ws.gate).value.next + 1,
                failed := old(ws.gate).value.failed || old(ws.receipts)[path].receipt.status != Some(0),
                phase := Ready))
    {
      hide Apply, Enabled, StageAt;
      RecordDoes(ws.View());
      var file := ws.receipts[path];
      var reference := Reference(path, path.run != run, file.receipt.status, Sha256(file));
      manifest := manifest.(stages := manifest.stages[stage := reference]);
      ws.manifests := ws.manifests[run := manifest];
      var failed := file.receipt.status != Some(0);
      ws.gate := Some(ws.gate.value.(
        next := ws.gate.value.next + 1, failed := ws.gate.value.failed || failed, phase := Ready));
    }

    /** Take a good newest attempt into the manifest. */
    method ReuseStage(stage: Stage, path: Path) returns (ghost trace: seq<Action>)
      requires Valid() && Enabled(ws.View(), Reuse(path)) && stage == StageAt(ws.gate.value.next)
      modifies this, ws
      ensures trace == [Reuse(path), ReleaseMachine.Record]
      ensures Legal(old(ws.View()), trace) && ws.View() == Run(old(ws.View()), trace)
      ensures Valid() && ws.gate == Some(old(ws.gate).value.(next := old(ws.gate).value.next + 1, phase := Ready))
      ensures ws.verdicts == old(ws.verdicts)
    {
      hide Reusable;
      ghost var start := ws.View();
      ReusableStatus(ws.receipts[path].receipt, Expected(start), ws.logs, ws.clock);
      trace := Extended(start, start, [], Reuse(path));
      ws.gate := Some(ws.gate.value.(phase := Unrecorded(path)));
      trace := Extended(start, ws.View(), trace, ReleaseMachine.Record);
      RecordStage(stage, path);
    }

    /** The command's own steps: its end is entered, unless it was interrupted or lost its log. */
    method CloseStage(stage: Stage, command: Command) returns (status: Option<int>, ghost trace: seq<Action>)
      requires Valid() && ws.gate.value.phase == Running && ws.gate.value.next < STAGES
      requires stage == StageAt(ws.gate.value.next)
      requires Path(run, stage) in ws.receipts && ws.receipts[Path(run, stage)].Readable?
            && Path(run, stage) in ws.ledger
      modifies this, ws
      ensures trace == Closing(old(ws.View()), Path(run, stage), command)
      ensures Legal(old(ws.View()), trace) && ws.View() == Run(old(ws.View()), trace)
      ensures status == if trace == [Interrupt] then None
                        else Some(Status(command.exit.value, old(ws.source), inputs))
      ensures status.None? ==> ws.gate.None? && (command.exit.None? || Path(run, stage) !in old(ws.logs))
      ensures ws.verdicts == old(ws.verdicts)
      ensures status.Some? ==>
                && Valid() && ws.gate == Some(old(ws.gate).value.(
                     next := old(ws.gate).value.next + 1,
                     failed := old(ws.gate).value.failed || status != Some(0), phase := Ready))
    {
      hide Footer, Outputs, Status, Apply, Enabled, Legal, Run, StageAt;
      ghost var start := ws.View();
      NothingYet(start);
      if command.exit.None? || Path(run, stage) !in ws.logs {
        InterruptIs(start);
        trace := Extended(start, start, [], Interrupt);
        ws.gate := None;
        return None, trace;
      }
      CanEnd(start, command.exit.value, command.output, ws.clock);
      trace := Extended(start, start, [], End(command.exit.value, command.output, ws.clock));
      var st := CloseReceipt(stage, command.exit.value, command.output);
      CanRecord(ws.View());
      trace := Extended(start, ws.View(), trace, ReleaseMachine.Record);
      RecordStage(stage, Path(run, stage));
      status := Some(st);
    }

    /** Run a stage's command from its open receipt to its end. */
    method RunStage(stage: Stage, command: Command) returns (status: Option<int>, ghost trace: seq<Action>)
      requires Valid() && PossibleCommand(command) && Enabled(ws.View(), Begin(ws.clock + command.delay))
      requires stage == StageAt(ws.gate.value.next)
      modifies this, ws
      ensures CommandHistory(old(ws.View()), command, trace)
      ensures Legal(old(ws.View()), trace) && ws.View() == Run(old(ws.View()), trace)
      ensures status.Some? ==>
                && Valid() && ws.gate == Some(old(ws.gate).value.(
                     next := old(ws.gate).value.next + 1,
                     failed := old(ws.gate).value.failed || status != Some(0), phase := Ready))
      ensures status.None? ==> ws.gate.None? && (command.exit.None? || command.during.tampered != [])
      ensures ws.verdicts == old(ws.verdicts)
    {
      hide Reusable, IsLatest, IsAttempt, Footer, Outputs, Status, Acts, Legal, Run, Apply, Enabled, StageAt;
      ghost var start := ws.View();
      BeginDoes(start, ws.clock + command.delay);
      ghost var begin := Begin(ws.clock + command.delay);
      RunStep(start, begin);
      WriteOpenReceipt(stage, command.delay);
      ghost var s2 := ws.View();
      ElapseLegal(start, s2, [begin], Acts(ws.clock, command.during), command.during);
      ws.Elapse(command.during);
      ghost var close;
      status, close := CloseStage(stage, command);
      RunConcat(start, [begin] + Acts(s2.clock, command.during), close);
      trace := [begin] + Acts(s2.clock, command.during) + close;
    }

    /** Deal with one stage: reuse its newest attempt where that is good, and run it otherwise.
        There is no status when the gate was interrupted or its log was deleted under it. */
    method Stage(stage: Stage, command: Command) returns (status: Option<int>, ghost trace: seq<Action>)
      requires Valid() && AtStage(ws.View()) && stage == StageAt(ws.gate.value.next) && PossibleCommand(command)
      modifies this, ws
      ensures StageHistory(old(ws.View()), command, trace)
      ensures Legal(old(ws.View()), trace) && ws.View() == Run(old(ws.View()), trace)
      ensures status.Some? ==>
                && Valid() && ws.gate == Some(old(ws.gate).value.(
                     next := old(ws.gate).value.next + 1,
                     failed := old(ws.gate).value.failed || status != Some(0), phase := Ready))
      ensures status.None? ==> ws.gate.None? && (command.exit.None? || command.during.tampered != [])
      ensures ws.verdicts == old(ws.verdicts)
    {
      hide Reusable, IsLatest, IsAttempt, Acts, Legal, Run, CommandHistory, Apply, Enabled, StageAt;
      ghost var start := ws.View();
      ghost var before := Acts(ws.clock, command.before);
      ActsLegal(start, command.before);
      ws.Elapse(command.before);
      ghost var s1 := ws.View();
      var expected := IdentityOf(inputs, stage);
      var best := NewestAttempt(stage, expected);
      ghost var more;
      if best.Some? && !forced && Reusable(ws.receipts[best.value].receipt, expected, ws.logs, ws.clock) {
        CanReuse(s1, best.value);
        more := ReuseStage(stage, best.value);
        status := Some(0);
      } else {
        if best.Some? { LatestIsThere(ws.receipts, stage, expected, best.value); }
        CanBegin(s1, ws.clock + command.delay);
        status, more := RunStage(stage, command);
      }
      RunConcat(start, before, more);
      trace := before + more;
      StageHistoryIs(start, command, before, more);
    }

    /** Save the verdict. */
    method FinishRun(accepted: bool)
      requires Valid() && Enabled(ws.View(), ReleaseMachine.Finish)
      requires accepted <==> ws.gate.value.next == STAGES && !ws.gate.value.failed && ws.source == inputs.source
      modifies this, ws
      ensures ws.View() == Apply(old(ws.View()), ReleaseMachine.Finish)
      ensures run in ws.verdicts && ws.verdicts[run].accepted == accepted && ws.verdicts[run].inputs == inputs
      ensures ws.gate.None?
    {
      ws.verdicts := ws.verdicts[run := Verdict(inputs, accepted, Evidence(manifest))];
      manifest := manifest.(accepted := Some(accepted));
      ws.manifests := ws.manifests[run := manifest];
      ws.gate := None;
    }

    /** A whole gate: correctness first, the guards only when it passed, then the verdict. `last` is
        what the world does before the source is looked at once more. The result is the exit code, 0
        exactly when the gate accepts, or none when it was interrupted. */
    method Execute(commands: seq<Command>, last: Meanwhile) returns (code: Option<int>, ghost trace: seq<Action>)
      requires Valid() && |commands| == STAGES && AllPossible(commands) && Possible(last)
      requires ws.gate.value.next == 0 && !ws.gate.value.failed && ws.gate.value.phase == Ready
      modifies this, ws
      ensures Legal(old(ws.View()), trace) && ws.View() == Run(old(ws.View()), trace)
      ensures ws.gate.None?
      ensures code.Some? ==> GateHistory(old(ws.View()), commands, last, trace)
      ensures code.Some? ==> run in ws.verdicts && ws.verdicts[run].inputs == inputs
      ensures code == Some(0) <==> code.Some? && ws.verdicts[run].accepted
      ensures ReleaseInvariant.Inv(old(ws.View())) && code == Some(0) ==>
                (Accepts(ws.View(), run, inputs) <==> AllStillGood(ws.View(), run))
      ensures code.None? ==> ws.verdicts == old(ws.verdicts)
      ensures code.None? ==> exists c :: c in commands && (c.exit.None? || c.during.tampered != [])
    {
      hide Legal, Run, Enabled, Apply, Acts, InStages, StageHistory, GateHistory, AtStage, HasNext, AllStillGood,
        Accepts, PossibleCommand, Possible, ReleaseInvariant.Inv;
      ghost var start := ws.View();
      var status;
      ReadyForCorrectness(start);
      status, trace := Stage(Correctness, commands[0]);
      if status.None? { return None, trace; }
      FirstStage(start, commands, trace);
      if status != Some(0) {
        ReadyToFinish(ws.View());
        GateHistoryIs(start, commands, last, 1, trace, []);
        assert trace + [] == trace;
        trace := Extended(start, ws.View(), trace, ReleaseMachine.Finish);
        FinishRun(false);
        return Some(1), trace;
      }
      var failed := false;
      var i := 1;
      while i < STAGES
        invariant 1 <= i <= STAGES
        invariant Legal(start, trace) && ws.View() == Run(start, trace)
        invariant Valid() && ws.gate.value.next == i && ws.gate.value.phase == Ready && ws.gate.value.failed == failed
        invariant failed ==> i > 1
        invariant InStages(start, commands[..i], trace)
        invariant ws.verdicts == old(ws.verdicts)
      {
        ghost var more;
        ReadyForGuard(ws.View());
        status, more := Stage(StageAt(i), commands[i]);
        RunConcat(start, trace, more);
        NextStage(start, commands, i, trace, more);
        trace := trace + more;
        if status.None? { return None, trace; }
        failed := failed || status != Some(0);
        i := i + 1;
      }
      ghost var idle := Acts(ws.clock, last);
      ElapseLegal(start, ws.View(), trace, idle, last);
      GateHistoryIs(start, commands, last, STAGES, trace, idle);
      ws.Elapse(last);
      trace := trace + idle;
      ReadyToFinish(ws.View());
      var accepted := !failed && ws.source == inputs.source;
      ghost var s := ws.View();
      if ReleaseInvariant.Inv(start) { ReleaseInvariant.RunKeeps(start, trace); }
      trace := Extended(start, s, trace, ReleaseMachine.Finish);
      FinishRun(accepted);
      if ReleaseInvariant.Inv(start) && accepted { FinishedIsGood(s, run, inputs); }
      code := Some(if accepted then 0 else 1);
    }
  }

  // ---------------------------------------------------------------------
  // Histories of a stage
  // ---------------------------------------------------------------------

  lemma ReadyForCorrectness(s: State)
    requires s.gate.Some? && s.gate.value.next == 0 && s.gate.value.phase == Ready
    ensures AtStage(s) && StageAt(0) == Correctness
  {
  }

  lemma ReadyForGuard(s: State)
    requires s.gate.Some? && 1 <= s.gate.value.next < STAGES && s.gate.value.phase == Ready
    requires s.gate.value.failed ==> s.gate.value.next > 1
    ensures AtStage(s)
  {
  }

  lemma ReadyToFinish(s: State)
    requires s.gate.Some? && s.gate.value.phase == Ready && s.gate.value.run in s.manifests
    requires s.gate.value.next == STAGES || (s.gate.value.next == 1 && s.gate.value.failed)
    ensures Enabled(s, ReleaseMachine.Finish)
  {
  }

  ghost predicate AllPossible(cs: seq<Command>) {
    forall c | c in cs :: PossibleCommand(c)
  }

  /** The steps of the stages so far: one stage's history after the other. */
  ghost predicate InStages(s: State, cs: seq<Command>, trace: seq<Action>)
    requires AllPossible(cs)
    decreases |cs|
  {
    if cs == [] then trace == []
    else
      exists a, b ::
        && trace == a + b && InStages(s, cs[..|cs| - 1], a) && Legal(s, a)
        && StageHistory(Run(s, a), cs[|cs| - 1], b)
  }

  /** The steps of a whole gate that came to its end: correctness, and if it passed the six guards,
      each reused or run as its history says; what happens last; the verdict. */
  ghost predicate GateHistory(s: State, cs: seq<Command>, last: Meanwhile, trace: seq<Action>)
    requires AllPossible(cs) && |cs| == STAGES
  {
    exists k: nat, before, idle ::
      && (k == 1 || k == STAGES) && InStages(s, cs[..k], before) && Legal(s, before)
      && Run(s, before).gate.Some? && Run(s, before).gate.value.next == k
      && (k == 1 ==> Run(s, before).gate.value.failed)
      && idle == (if k == 1 then [] else Acts(Run(s, before).clock, last))
      && trace == before + idle + [ReleaseMachine.Finish]
  }

  lemma FirstStage(s: State, cs: seq<Command>, trace: seq<Action>)
    requires AllPossible(cs) && |cs| == STAGES && StageHistory(s, cs[0], trace)
    ensures InStages(s, cs[..1], trace)
  {
    hide StageHistory;
    assert cs[..1][..0] == [] && cs[..1][0] == cs[0];
    NothingYet(s);
    assert InStages(s, [], []);
    assert trace == [] + trace;
  }

  lemma NextStage(s: State, cs: seq<Command>, i: nat, before: seq<Action>, more: seq<Action>)
    requires AllPossible(cs) && i < |cs| && InStages(s, cs[..i], before) && Legal(s, before)
    requires StageHistory(Run(s, before), cs[i], more)
    ensures InStages(s, cs[..i + 1], before + more)
  {
    hide StageHistory, Run, Legal;
    assert cs[..i + 1][..i] == cs[..i] && cs[..i + 1][i] == cs[i];
  }

  lemma GateHistoryIs(s: State, cs: seq<Command>, last: Meanwhile, k: nat, before: seq<Action>, idle: seq<Action>)
    requires AllPossible(cs) && |cs| == STAGES
    requires (k == 1 || k == STAGES) && InStages(s, cs[..k], before) && Legal(s, before)
    requires Run(s, before).gate.Some? && Run(s, before).gate.value.next == k
    requires k == 1 ==> Run(s, before).gate.value.failed
    requires idle == if k == 1 then [] else Acts(Run(s, before).clock, last)
    ensures GateHistory(s, cs, last, before + idle + [ReleaseMachine.Finish])
  {
    hide InStages, Run, Legal, Acts;
  }

  /** Nothing in the evidence directory is unreadable, and every stage's evidence is fresh, its log
      as it was left. */
  ghost predicate AllStillGood(s: State, run: string) {
    && run in s.verdicts && ReleaseTheorems.NothingUnreadable(s)
    && forall st: Stage ::
         st in s.verdicts[run].evidence && ReleaseTheorems.FreshLog(s, s.verdicts[run].evidence[st])
  }

  lemma FinishedIsGood(s: State, run: string, inputs: Inputs)
    requires ReleaseInvariant.Inv(s) && Enabled(s, ReleaseMachine.Finish)
    requires s.gate.value.run == run && s.gate.value.inputs == inputs
    requires s.gate.value.next == STAGES && !s.gate.value.failed && s.source == inputs.source
    ensures var t := Apply(s, ReleaseMachine.Finish);
            Accepts(t, run, inputs) <==> AllStillGood(t, run)
  {
    hide ReleaseInvariant.Inv, Accepts, ReleaseTheorems.FreshLog, ReleaseTheorems.NothingUnreadable;
    ReleaseTheorems.FinishedIsAccepted(s);
  }

  /** How a started command leaves the gate: interrupted, or ended and recorded. */
  ghost function Closing(s: State, path: Path, c: Command): seq<Action> {
    if c.exit.None? || path !in s.logs then [Interrupt]
    else [End(c.exit.value, c.output, s.clock), ReleaseMachine.Record]
  }

  /** The steps of a command that is run: its open receipt, what happens meanwhile, its end. */
  ghost predicate CommandHistory(s: State, c: Command, trace: seq<Action>)
    requires PossibleCommand(c) && AtStage(s)
  {
    var begin := Begin(s.clock + c.delay);
    Enabled(s, begin) &&
    var s2 := Apply(s, begin);
    var during := Acts(s2.clock, c.during);
    Legal(s2, during) &&
    trace == [begin] + during + Closing(Run(s2, during), Path(s.gate.value.run, StageAt(s.gate.value.next)), c)
  }

  /** The steps of a stage: after what happened before it, a reuse of a good newest attempt, or a
      command run to its end. */
  ghost predicate StageHistory(s: State, c: Command, trace: seq<Action>)
    requires PossibleCommand(c)
  {
    var before := Acts(s.clock, c.before);
    Legal(s, before) &&
    var s1 := Run(s, before);
    exists more ::
      && trace == before + more
      && (|| (exists p :: Enabled(s1, Reuse(p)) && more == [Reuse(p), ReleaseMachine.Record])
          || (AtStage(s1) && CommandHistory(s1, c, more)))
  }

  lemma StageHistoryIs(s: State, c: Command, before: seq<Action>, more: seq<Action>)
    requires PossibleCommand(c) && before == Acts(s.clock, c.before) && Legal(s, before)
    requires var s1 := Run(s, before);
             || (exists p :: Enabled(s1, Reuse(p)) && more == [Reuse(p), ReleaseMachine.Record])
             || (AtStage(s1) && CommandHistory(s1, c, more))
    ensures StageHistory(s, c, before + more)
  {
    hide Enabled, CommandHistory, Legal, Run, Acts;
  }

  lemma ReusableStatus(r: Receipt, expected: Digest<Identity>, logs: map<Path, Log>, now: Time)
    requires Reusable(r, expected, logs, now)
    ensures r.status == Some(0)
  {
  }

  lemma LatestIsThere(receipts: map<Path, File>, stage: Stage, expected: Digest<Identity>, p: Path)
    requires IsLatest(receipts, stage, expected, p)
    ensures p in receipts
  {
  }

  /** A history with one more step. */
  ghost method Extended(start: State, now: State, trace: seq<Action>, a: Action) returns (longer: seq<Action>)
    requires Legal(start, trace) && Run(start, trace) == now && Enabled(now, a)
    ensures longer == trace + [a]
    ensures Legal(start, longer) && Run(start, longer) == Apply(now, a)
  {
    hide Enabled, Apply;
    RunStep(now, a);
    RunConcat(start, trace, [a]);
    longer := trace + [a];
  }

  /** What the world can do in between is always possible. */
  lemma ElapseLegal(start: State, now: State, trace: seq<Action>, acts: seq<Action>, m: Meanwhile)
    requires Legal(start, trace) && Run(start, trace) == now && Possible(m) && acts == Acts(now.clock, m)
    ensures Legal(now, acts)
    ensures Legal(start, trace + acts) && Run(start, trace + acts) == Run(now, acts)
  {
    hide Enabled, Apply;
    ActsLegal(now, m);
    RunConcat(start, trace, acts);
  }

  lemma {:induction false} TampersLegal(s: State, tampered: seq<(Path, Option<Log>)>)
    ensures Legal(s, Tampers(tampered))
    decreases |tampered|
  {
    if tampered != [] {
      var a := Tamper(tampered[0].0, tampered[0].1);
      assert Enabled(s, a);
      TampersLegal(Apply(s, a), tampered[1..]);
      assert Tampers(tampered)[1..] == Tampers(tampered[1..]);
    }
  }

  /** The state after time has passed and the source was edited. */
  function Edited(s: State, m: Meanwhile): State {
    var t := s.(clock := s.clock + m.elapsed);
    if m.source.Some? then t.(source := m.source.value) else t
  }

  lemma EditedSteps(s: State, m: Meanwhile, head: seq<Action>)
    requires Possible(m)
    requires head == [Tick(s.clock + m.elapsed)] + (if m.source.Some? then [Edit(m.source.value)] else [])
    ensures Legal(s, head) && Run(s, head) == Edited(s, m)
  {
    hide Enabled, Apply, Legal, Run;
    var tick := Tick(s.clock + m.elapsed);
    WorldDoes(s, s.clock + m.elapsed, "");
    RunStep(s, tick);
    if m.source.Some? {
      WorldDoes(Apply(s, tick), s.clock + m.elapsed, m.source.value);
      RunStep(Apply(s, tick), Edit(m.source.value));
      RunConcat(s, [tick], [Edit(m.source.value)]);
    } else {
      assert head == [tick];
    }
  }

  lemma ActsLegal(s: State, m: Meanwhile)
    requires Possible(m)
    ensures Legal(s, Acts(s.clock, m))
    ensures Legal(Edited(s, m), Tampers(m.tampered))
    ensures Run(s, Acts(s.clock, m)) == Run(Edited(s, m), Tampers(m.tampered))
  {
    hide Enabled, Apply, Edited, Tampers;
    var head := [Tick(s.clock + m.elapsed)] + (if m.source.Some? then [Edit(m.source.value)] else []);
    EditedSteps(s, m, head);
    TampersLegal(Edited(s, m), m.tampered);
    RunConcat(s, head, Tampers(m.tampered));
  }

  lemma NothingYet(s: State)
    ensures Legal(s, []) && Run(s, []) == s
  {
  }

  lemma InterruptIs(s: State)
    requires s.gate.Some?
    ensures Enabled(s, Interrupt) && Apply(s, Interrupt) == s.(gate := None)
  {
  }

  lemma NothingLeft(s: State)
    ensures Legal(s, Tampers([])) && Run(s, Tampers([])) == s
  {
  }

  lemma TamperStep(s: State, tampered: seq<(Path, Option<Log>)>)
    requires tampered != [] && Legal(s, Tampers(tampered))
    ensures var t := Apply(s, Tamper(tampered[0].0, tampered[0].1));
            Legal(t, Tampers(tampered[1..])) && Run(t, Tampers(tampered[1..])) == Run(s, Tampers(tampered))
  {
    assert Tampers(tampered)[1..] == Tampers(tampered[1..]);
  }
}
