/** An uneventful gate: each stage is run, takes a second and exits with 0. Its manifest is accepted. */
module ReleaseExample {
  import opened Options
  import opened ReleaseMachine
  import opened ReleaseInvariant
  import opened ReleaseTheorems

  /** The gate is at stage `k`, `seconds` have passed, and whatever ended before is as it was left. */
  ghost predicate Smooth(s: State, run: string, inputs: Inputs, k: nat, phase: Phase, seconds: int) {
    && s.gate == Some(GateRun(run, inputs, false, k, false, phase)) && run in s.manifests
    && s.clock == seconds as real && s.source == inputs.source
    && (forall p | p in s.receipts :: p.run == run && s.receipts[p].Readable?)
    && (forall p | p in s.ledger && !(phase.Running? && k < STAGES && p == Path(run, StageAt(k))) :: AsLeft(s, p))
  }

  /** The attempt has ended, not before the first second, and its log is as it was left. */
  predicate AsLeft(s: State, p: Path) {
    && p in s.ledger && s.ledger[p].outcome.Some? && 0.0 <= s.ledger[p].outcome.value.at <= s.clock
    && p in s.logs && s.logs[p] == s.ledger[p].outcome.value.log
  }

  function Steps(run: string, inputs: Inputs, k: nat): seq<Action> {
    if k == 0 then [Start(run, inputs, false)]
    else Steps(run, inputs, k - 1) + [Begin(k as real), End(0, [], k as real), Record]
  }

  lemma Starts(run: string, inputs: Inputs)
    ensures var s := Empty(0.0, inputs.source); var a := Start(run, inputs, false);
            Enabled(s, a) && Smooth(Apply(s, a), run, inputs, 0, Ready, 0)
  {
  }

  lemma Begins(s: State, run: string, inputs: Inputs, k: nat)
    requires Inv(s) && Smooth(s, run, inputs, k, Ready, k) && k < STAGES
    ensures Enabled(s, Begin((k + 1) as real))
    ensures Smooth(Apply(s, Begin((k + 1) as real)), run, inputs, k, Running, k + 1)
    ensures Path(run, StageAt(k)) in Apply(s, Begin((k + 1) as real)).logs
    ensures Path(run, StageAt(k)) in Apply(s, Begin((k + 1) as real)).receipts
    ensures Path(run, StageAt(k)) in Apply(s, Begin((k + 1) as real)).ledger
  {
    hide Reusable, IsLatest, ReceiptsFaithful, StartsDistinct, ManifestsGood, VerdictsMatch, RunsKnown, Covers, Current,
      OpenReceipt, IdentityOf, CommandOf, Apply, Enabled, StageAt;
    StageOrder(k);
    CanBegin(s, (k + 1) as real);
    if Enabled(s, Begin((k + 1) as real)) { BeginDoes(s, (k + 1) as real); }
    forall p | p in s.receipts
      ensures !IsAttempt(s.receipts, StageAt(k), IdentityOf(inputs, StageAt(k)), p)
    {
      assert Ordinal(p.stage) < k;
    }
  }

  lemma Ends(s: State, run: string, inputs: Inputs, k: nat)
    requires Smooth(s, run, inputs, k, Running, k + 1) && k < STAGES
    requires Path(run, StageAt(k)) in s.logs && Path(run, StageAt(k)) in s.receipts && Path(run, StageAt(k)) in s.ledger
    ensures Enabled(s, End(0, [], (k + 1) as real))
    ensures var t := Apply(s, End(0, [], (k + 1) as real)); var p := Path(run, StageAt(k));
            && Smooth(t, run, inputs, k, Unrecorded(p), k + 1)
            && p in t.receipts && t.receipts[p].Readable? && t.receipts[p].receipt.status == Some(0)
  {
    hide Outputs, StageAt;
  }

  lemma Records(s: State, run: string, inputs: Inputs, k: nat)
    requires k < STAGES && Smooth(s, run, inputs, k, Unrecorded(Path(run, StageAt(k))), k + 1)
    requires Path(run, StageAt(k)) in s.receipts && s.receipts[Path(run, StageAt(k))].Readable?
    requires s.receipts[Path(run, StageAt(k))].receipt.status == Some(0)
    ensures Enabled(s, Record) && Smooth(Apply(s, Record), run, inputs, k + 1, Ready, k + 1)
  {
    hide StageAt, AsLeft;
    assert forall p | p in s.ledger :: AsLeft(s, p) ==> AsLeft(Apply(s, Record), p) by { LeftAlone(s); }
  }

  lemma LeftAlone(s: State)
    requires Enabled(s, Record)
    ensures forall p | AsLeft(s, p) :: AsLeft(Apply(s, Record), p)
  {
  }

  /** One more stage. */
  lemma StageGoesWell(s: State, run: string, inputs: Inputs, k: nat)
    requires Inv(s) && Smooth(s, run, inputs, k, Ready, k) && k < STAGES
    ensures var at := (k + 1) as real; var more := [Begin(at), End(0, [], at), Record];
            Legal(s, more) && Smooth(Run(s, more), run, inputs, k + 1, Ready, k + 1)
  {
    hide *;
    var at := (k + 1) as real;
    Begins(s, run, inputs, k);
    var s1 := Apply(s, Begin(at));
    Ends(s1, run, inputs, k);
    var s2 := Apply(s1, End(0, [], at));
    Records(s2, run, inputs, k);
    RunStep(s, Begin(at));
    RunStep(s1, End(0, [], at));
    RunStep(s2, Record);
    RunConcat(s, [Begin(at)], [End(0, [], at)]);
    RunConcat(s, [Begin(at)] + [End(0, [], at)], [Record]);
    assert [Begin(at)] + [End(0, [], at)] + [Record] == [Begin(at), End(0, [], at), Record];
  }

  lemma {:induction false} StagesGoWell(run: string, inputs: Inputs, k: nat)
    requires k <= STAGES
    ensures Legal(Empty(0.0, inputs.source), Steps(run, inputs, k))
    ensures Inv(Run(Empty(0.0, inputs.source), Steps(run, inputs, k)))
    ensures Smooth(Run(Empty(0.0, inputs.source), Steps(run, inputs, k)), run, inputs, k, Ready, k)
  {
    hide Legal, Run, Inv, Smooth, Enabled, Apply, Empty;
    var s := Empty(0.0, inputs.source);
    EmptyInv(0.0, inputs.source);
    if k == 0 {
      Starts(run, inputs);
      RunStep(s, Start(run, inputs, false));
    } else {
      StagesGoWell(run, inputs, k - 1);
      var before := Steps(run, inputs, k - 1);
      StageGoesWell(Run(s, before), run, inputs, k - 1);
      RunConcat(s, before, [Begin(k as real), End(0, [], k as real), Record]);
    }
    RunKeeps(s, Steps(run, inputs, k));
  }

  lemma FinishesWell(s: State, run: string, inputs: Inputs)
    requires Inv(s) && Smooth(s, run, inputs, STAGES, Ready, STAGES)
    ensures Enabled(s, Finish) && Accepts(Apply(s, Finish), run, inputs)
  {
    hide Inv, Accepts, Smooth, AsLeft, FreshLog;
    EndIsThere(s, run, inputs);
    FinishedIsAccepted(s);
    StepKeeps(s, Finish);
    var t := Apply(s, Finish);
    forall st: Stage
      ensures st in t.verdicts[run].evidence && FreshLog(t, t.verdicts[run].evidence[st])
    {
      EvidenceIsFresh(s, run, inputs, st);
    }
  }

  lemma EndIsThere(s: State, run: string, inputs: Inputs)
    requires Smooth(s, run, inputs, STAGES, Ready, STAGES)
    ensures Enabled(s, Finish) && NothingUnreadable(Apply(s, Finish)) && s.source == inputs.source
    ensures s.gate == Some(GateRun(run, inputs, false, STAGES, false, Ready)) && run in s.manifests
  {
    hide AsLeft;
  }

  lemma EvidenceIsFresh(s: State, run: string, inputs: Inputs, st: Stage)
    requires Inv(s) && Smooth(s, run, inputs, STAGES, Ready, STAGES) && Enabled(s, Finish)
    ensures run in Apply(s, Finish).verdicts && st in Apply(s, Finish).verdicts[run].evidence
    ensures FreshLog(Apply(s, Finish), Apply(s, Finish).verdicts[run].evidence[st])
  {
    hide ReceiptsFaithful, StartsDistinct, ManifestsGood, VerdictsMatch, RunsKnown, OwnReceipts, Current;
    assert Ordinal(st) < STAGES;
    assert NewestFor(s.ledger, inputs, s.manifests[run].stages[st].receipt);
    assert AsLeft(s, s.manifests[run].stages[st].receipt);
  }

  /** Acceptance is within reach: this history leads from an empty workspace to an accepted manifest. */
  lemma SomethingIsAccepted(run: string, inputs: Inputs)
    ensures var trace := Steps(run, inputs, STAGES) + [Finish];
            && Legal(Empty(0.0, inputs.source), trace)
            && Accepts(Run(Empty(0.0, inputs.source), trace), run, inputs)
  {
    hide Legal, Run, Inv, Smooth, Enabled, Apply, Empty, Accepts, Steps;
    var s := Empty(0.0, inputs.source);
    StagesGoWell(run, inputs, STAGES);
    var t := Run(s, Steps(run, inputs, STAGES));
    FinishesWell(t, run, inputs);
    RunStep(t, Finish);
    RunConcat(s, Steps(run, inputs, STAGES), [Finish]);
  }
}
