/** What the gate and the check come to in plain terms: the commands by their words, the files by
    their names, and what an accepted manifest says about receipts, logs and runs. */
module ReleaseMeaning {
  import opened Options
  import opened ReleaseMachine
  import opened ReleaseInvariant
  import opened ReleaseTheorems
  import opened ReleaseFiles

  /** The stages as they are spelled in commands and file names. */
  function Spelled(stage: Stage): string {
    match stage
    case Correctness => "correctness"
    case ProducerIdentity => "producer-identity"
    case Outbox => "outbox"
    case Inbox => "inbox"
    case Command => "command"
    case Projection => "projection"
    case ReadModel => "read-model"
  }

  /** What has to run for a stage: the whole verification, or the guard's benchmark. */
  function Demanded(stage: Stage): seq<string> {
    match stage
    case Correctness => ["just", "_verify"]
    case ProducerIdentity => ["scripts/bench-regression.sh", "producer-identity"]
    case Outbox => ["scripts/bench-regression.sh", "outbox"]
    case Inbox => ["scripts/bench-regression.sh", "inbox"]
    case Command => ["scripts/bench-regression.sh", "command"]
    case Projection => ["scripts/bench-regression.sh", "projection"]
    case ReadModel => ["scripts/bench-regression.sh", "read-model"]
  }

  lemma CommandIs(stage: Stage)
    ensures CommandOf(stage) == Demanded(stage)
  {
  }

  lemma DemandsDiffer(a: Stage, b: Stage)
    ensures Demanded(a) == Demanded(b) <==> a == b
  {
    if a != b && a != Correctness && b != Correctness {
      var x, y := Demanded(a)[1], Demanded(b)[1];
      if |x| == |y| { assert x[0] != y[0]; }
    }
  }

  /** Stages with one identity are one stage, under one set of inputs. */
  lemma IdentityIsOfOneStage(a: Inputs, s: Stage, b: Inputs, t: Stage)
    ensures IdentityOf(a, s) == IdentityOf(b, t) <==> a == b && s == t
    ensures IdentityOf(a, s) == Sha256(Identity(a, Demanded(s)))
  {
    CommandIs(s);
    CommandIs(t);
    DemandsDiffer(s, t);
  }

  // ---------------------------------------------------------------------
  // What acceptance rests on
  // ---------------------------------------------------------------------

  /** The attempt ran this command on these inputs, came to a good end on their source within a day,
      and its log is as it was left. */
  predicate Good(s: State, p: Path, command: seq<string>, inputs: Inputs) {
    && p in s.ledger
    && var a := s.ledger[p];
       && a.command == command && a.inputs == inputs
       && a.outcome.Some? && a.outcome.value.exit == 0 && a.outcome.value.source == inputs.source
       && s.clock - 86400.0 <= a.outcome.value.at <= s.clock
       && p in s.logs && s.logs[p] == a.outcome.value.log
  }

  /** A good attempt of the stage, with none later on the same inputs that is not good. */
  ghost predicate Passed(s: State, stage: Stage, command: seq<string>, inputs: Inputs) {
    exists p :: p in s.ledger && p.stage == stage && Good(s, p, command, inputs)
                && forall q | q in s.ledger && q.stage == stage && s.ledger[q].inputs == inputs
                              && s.ledger[q].started > s.ledger[p].started :: Good(s, q, command, inputs)
  }

  lemma RanWellIsGood(s: State, p: Path, stage: Stage, inputs: Inputs)
    ensures RanWell(s, p, stage, inputs) <==>
            p in s.ledger && s.ledger[p].stage == stage && Good(s, p, Demanded(stage), inputs)
  {
    hide CommandOf, Demanded;
    CommandIs(stage);
  }

  lemma EvidencePasses(s: State, stage: Stage, inputs: Inputs)
    requires ReceiptsFaithful(s.receipts, s.ledger, s.clock) && HasEvidence(s, stage, inputs)
    ensures Passed(s, stage, Demanded(stage), inputs)
  {
    hide RanWell, Good, Demanded, Faithful;
    var p :| EvidenceHolds(s, p, stage, inputs);
    RanWellIsGood(s, p, stage, inputs);
    LedgerStage(s, p);
    forall q | q in s.ledger && q.stage == stage && s.ledger[q].inputs == inputs
               && s.ledger[q].started > s.ledger[p].started
      ensures Good(s, q, Demanded(stage), inputs)
    {
      assert IsRunOf(s, q, stage, inputs);
      RanWellIsGood(s, q, stage, inputs);
    }
  }

  lemma LedgerStage(s: State, p: Path)
    requires ReceiptsFaithful(s.receipts, s.ledger, s.clock) && p in s.ledger
    ensures p.stage == s.ledger[p].stage
  {
    assert Faithful(s.receipts[p].receipt, s.ledger[p], p, s.clock);
  }

  /** Over any history, what is accepted has passed the whole verification and the benchmark of each
      of the six guards. */
  lemma AcceptedRanEverything(clock: Time, source: string, trace: seq<Action>, run: string, inputs: Inputs)
    requires Legal(Empty(clock, source), trace)
    requires Accepts(Run(Empty(clock, source), trace), run, inputs)
    ensures var s := Run(Empty(clock, source), trace);
            && Passed(s, Correctness, ["just", "_verify"], inputs)
            && Passed(s, ProducerIdentity, ["scripts/bench-regression.sh", "producer-identity"], inputs)
            && Passed(s, Outbox, ["scripts/bench-regression.sh", "outbox"], inputs)
            && Passed(s, Inbox, ["scripts/bench-regression.sh", "inbox"], inputs)
            && Passed(s, Command, ["scripts/bench-regression.sh", "command"], inputs)
            && Passed(s, Projection, ["scripts/bench-regression.sh", "projection"], inputs)
            && Passed(s, ReadModel, ["scripts/bench-regression.sh", "read-model"], inputs)
  {
    hide Legal, Run, Empty, Accepts, HasEvidence, Passed, Inv, ReceiptsFaithful;
    var s := Run(Empty(clock, source), trace);
    AcceptedRestsOnRuns(clock, source, trace, run, inputs);
    EmptyInv(clock, source);
    RunKeeps(Empty(clock, source), trace);
    ReceiptsAreFaithful(s);
    forall stage: Stage ensures Passed(s, stage, Demanded(stage), inputs) { EvidencePasses(s, stage, inputs); }
    assert Passed(s, Correctness, Demanded(Correctness), inputs);
    assert Passed(s, ProducerIdentity, Demanded(ProducerIdentity), inputs);
    assert Passed(s, Outbox, Demanded(Outbox), inputs);
    assert Passed(s, Inbox, Demanded(Inbox), inputs);
    assert Passed(s, Command, Demanded(Command), inputs);
    assert Passed(s, Projection, Demanded(Projection), inputs);
    assert Passed(s, ReadModel, Demanded(ReadModel), inputs);
  }

  lemma ReceiptsAreFaithful(s: State)
    requires Inv(s)
    ensures ReceiptsFaithful(s.receipts, s.ledger, s.clock)
  {
    hide ReceiptsFaithful, StartsDistinct, ManifestsGood, VerdictsMatch, RunsKnown, GateGood;
  }

  // ---------------------------------------------------------------------
  // What the check looks at
  // ---------------------------------------------------------------------

  /** The receipt is a pass of the command on the inputs, at most a day old, and its log has the
      digest it says. */
  predicate IsPass(r: Receipt, command: seq<string>, inputs: Inputs, logs: map<Path, Log>, now: Time) {
    && r.schema == 1 && r.identity == Sha256(Identity(inputs, command)) && r.status == Some(0)
    && r.finished.Some? && r.finished.value <= now <= r.finished.value + 86400.0
    && r.log in logs && r.logDigest == Some(Sha256(logs[r.log]))
  }

  /** The stage's reference is to an unchanged receipt of a pass; every receipt file of the stage can
      be read, and those of the same command and inputs that were started later are passes too. */
  predicate StagePasses(s: State, ref: Reference, stage: Stage, command: seq<string>, inputs: Inputs) {
    && ref.status == Some(0) && ref.receipt in s.receipts && ref.sha == Sha256(s.receipts[ref.receipt])
    && s.receipts[ref.receipt].Readable? && IsPass(s.receipts[ref.receipt].receipt, command, inputs, s.logs, s.clock)
    && forall p | p in s.receipts && p.stage == stage ::
         && s.receipts[p].Readable?
         && (s.receipts[p].receipt.identity == Sha256(Identity(inputs, command))
             && s.receipts[p].receipt.started > s.receipts[ref.receipt].receipt.started ==>
               IsPass(s.receipts[p].receipt, command, inputs, s.logs, s.clock))
  }

  lemma ReusableIsPass(r: Receipt, stage: Stage, inputs: Inputs, logs: map<Path, Log>, now: Time)
    ensures Reusable(r, IdentityOf(inputs, stage), logs, now) <==> IsPass(r, Demanded(stage), inputs, logs, now)
  {
    hide Demanded, CommandOf;
    CommandIs(stage);
  }

  lemma StagePassesIs(s: State, ref: Reference, stage: Stage, inputs: Inputs)
    ensures StageAccepted(s, ref, stage, IdentityOf(inputs, stage)) <==>
            StagePasses(s, ref, stage, Demanded(stage), inputs)
  {
    hide Reusable, IsPass, Demanded, CommandOf;
    CommandIs(stage);
    forall r: Receipt
      ensures Reusable(r, IdentityOf(inputs, stage), s.logs, s.clock)
            <==> IsPass(r, Demanded(stage), inputs, s.logs, s.clock)
    {
      ReusableIsPass(r, stage, inputs, s.logs, s.clock);
    }
  }

  /** In any workspace, whatever is in it: the check accepts a manifest exactly when it is one of
      schema 1 that says accepted for these inputs and has all seven stages, each passing. */
  lemma AcceptsMeans(s: State, run: string, inputs: Inputs)
    ensures Accepts(s, run, inputs) <==>
            && run in s.manifests
            && var m := s.manifests[run];
               && m.schema == 1 && m.accepted == Some(true) && m.identity == Sha256(inputs)
               && forall st: Stage :: st in m.stages && StagePasses(s, m.stages[st], st, Demanded(st), inputs)
  {
    hide StageAccepted, StagePasses, IdentityOf, Demanded;
    if run in s.manifests {
      var m := s.manifests[run];
      forall st: Stage | st in m.stages
        ensures StageAccepted(s, m.stages[st], st, IdentityOf(inputs, st))
              <==> StagePasses(s, m.stages[st], st, Demanded(st), inputs)
      {
        StagePassesIs(s, m.stages[st], st, inputs);
      }
    }
  }

  // ---------------------------------------------------------------------
  // What the gate writes
  // ---------------------------------------------------------------------

  /** A gate goes through the stages in this order. */
  lemma OrderIs(k: nat)
    requires k < STAGES
    ensures STAGES == 7
    ensures StageAt(k) == [Correctness, ProducerIdentity, Outbox, Inbox, Command, Projection, ReadModel][k]
  {
  }

  /** Before a command is started its receipt is on disk, without a status, and its log has one line. */
  lemma BeginWrites(s: State, at: Time)
    requires Enabled(s, Begin(at))
    ensures var g := s.gate.value; var p := Path(g.run, StageAt(g.next)); var t := Apply(s, Begin(at));
            var identity := Sha256(Identity(g.inputs, Demanded(p.stage)));
            && t.receipts == s.receipts[
                 p := Readable(Receipt(1, identity, Demanded(p.stage), at, None, p, None, None))]
            && t.logs == s.logs[p := [Header(identity, Demanded(p.stage))]]
            && t.ledger == s.ledger[p := Attempt(p.stage, g.inputs, Demanded(p.stage), at, None)]
  {
    hide Enabled, Apply, StageAt, Demanded, CommandOf;
    BeginDoes(s, at);
    CommandIs(StageAt(s.gate.value.next));
  }

  /** When it has ended, all its output is in the log, after it the mark of a changed source if it
      changed, and the exit status, which the receipt has too: the command's own, or 1 if the source
      changed under it. */
  lemma EndWrites(s: State, exit: int, output: seq<string>, at: Time)
    requires Enabled(s, End(exit, output, at))
    ensures var g := s.gate.value; var p := Path(g.run, StageAt(g.next)); var t := Apply(s, End(exit, output, at));
            var changed := s.source != g.inputs.source; var status := if changed then 1 else exit;
            && p in s.logs && p in t.logs && p in t.receipts && t.receipts[p].Readable?
            && (exists middle ::
                  && t.logs[p] == s.logs[p] + middle + (if changed then [SourceChanged] else []) + [StageExit(status)]
                  && |middle| == |output| && forall i | 0 <= i < |output| :: middle[i] == Output(output[i]))
            && t.receipts[p].receipt.status == Some(status) && t.receipts[p].receipt.finished == Some(at)
            && t.receipts[p].receipt.logDigest == Some(Sha256(t.logs[p]))
  {
    hide Enabled, Apply, StageAt;
    EndDoes(s, exit, output, at);
    var g := s.gate.value;
    var p := Path(g.run, StageAt(g.next));
    var middle := Outputs(output);
    var footer := Footer(exit, s.source, g.inputs);
    assert footer == (if s.source != g.inputs.source then [SourceChanged] else [])
                     + [StageExit(if s.source != g.inputs.source then 1 else exit)];
    assert s.logs[p] + middle + footer
        == s.logs[p] + middle + (if s.source != g.inputs.source then [SourceChanged] else [])
           + [StageExit(if s.source != g.inputs.source then 1 else exit)];
  }

  // ---------------------------------------------------------------------
  // Names of files
  // ---------------------------------------------------------------------

  /** The pattern of a stage takes exactly the files that end in a dash and its name. */
  lemma SelectsMeans(stage: Stage, file: string)
    ensures Selects(stage, file) <==> exists run :: file == run + "-" + Spelled(stage) + ".json"
  {
    hide Name, Spelled;
    NameIs(stage);
    var suffix := "-" + Spelled(stage) + ".json";
    if Selects(stage, file) {
      var run := file[..|file| - |suffix|];
      assert file == run + suffix;
      assert file == run + "-" + Spelled(stage) + ".json";
    }
    if run :| file == run + "-" + Spelled(stage) + ".json" {
      assert file == run + suffix;
      assert file[|file| - |suffix|..] == suffix;
    }
  }

  lemma NameIs(stage: Stage)
    ensures Name(stage) == Spelled(stage)
  {
  }

  lemma FilesAre(p: Path, run: string)
    ensures ReceiptFile(p) == p.run + "-" + Spelled(p.stage) + ".json"
    ensures ManifestFile(run) == run + "-manifest.json"
  {
    NameIs(p.stage);
  }
}
