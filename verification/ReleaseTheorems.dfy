/** What an accepted manifest means, when a finished gate is accepted, and which stages a
    gate runs again, over every history of the workspace. */
module ReleaseTheorems {
  import opened Options
  import opened ReleaseMachine
  import opened ReleaseInvariant

  /** The attempt really ran the stage's own command on these inputs, ended with exit code 0
      on the same source, not more than a day ago, and its log is as it was left. */
  predicate RanWell(s: State, p: Path, stage: Stage, inputs: Inputs) {
    && p in s.ledger
    && var a := s.ledger[p];
       && a.stage == stage && a.inputs == inputs && a.command == CommandOf(stage)
       && a.outcome.Some?
       && a.outcome.value.exit == 0 && a.outcome.value.source == inputs.source
       && FreshLog(s, p)
  }

  /** The attempt ended not more than a day ago, and its log is as it was left. */
  predicate FreshLog(s: State, p: Path) {
    && p in s.ledger && s.ledger[p].outcome.Some?
    && 0.0 <= s.clock - s.ledger[p].outcome.value.at <= MAX_AGE
    && p in s.logs && s.logs[p] == s.ledger[p].outcome.value.log
  }

  predicate IsRunOf(s: State, p: Path, stage: Stage, inputs: Inputs) {
    p in s.ledger && p.stage == stage && s.ledger[p].inputs == inputs
  }

  predicate NothingUnreadable(s: State) {
    forall p | p in s.receipts :: s.receipts[p].Readable?
  }

  /** The run of the gate came to an accepting end for these inputs, every stage's evidence is
      good now, and no later attempt of a stage under these inputs is anything but good. */
  predicate Authorized(s: State, run: string, inputs: Inputs) {
    && run in s.verdicts && s.verdicts[run].accepted && s.verdicts[run].inputs == inputs
    && NothingUnreadable(s)
    && forall st: Stage :: st in s.verdicts[run].evidence && EvidenceHolds(s, s.verdicts[run].evidence[st], st, inputs)
  }

  predicate EvidenceHolds(s: State, p: Path, stage: Stage, inputs: Inputs) {
    && RanWell(s, p, stage, inputs)
    && forall q | q in s.ledger && IsRunOf(s, q, stage, inputs) && s.ledger[q].started > s.ledger[p].started ::
         RanWell(s, q, stage, inputs)
  }

  /** A receipt is reusable exactly when its attempt ran well. */
  lemma ReusableExact(s: State, p: Path, inputs: Inputs)
    requires ReceiptsFaithful(s.receipts, s.ledger, s.clock) && p in s.receipts && s.receipts[p].Readable?
    ensures Reusable(s.receipts[p].receipt, IdentityOf(inputs, p.stage), s.logs, s.clock)
        <==> RanWell(s, p, p.stage, inputs)
    ensures s.receipts[p].receipt.identity == IdentityOf(inputs, p.stage) <==> IsRunOf(s, p, p.stage, inputs)
    ensures p in s.ledger && s.receipts[p].receipt.started == s.ledger[p].started
  {
    assert Faithful(s.receipts[p].receipt, s.ledger[p], p, s.clock);
    IdentityDetermines(s.ledger[p].inputs, inputs, p.stage);
  }

  lemma NothingLaterExact(s: State, p: Path, stage: Stage, inputs: Inputs)
    requires ReceiptsFaithful(s.receipts, s.ledger, s.clock) && p in s.ledger && NothingUnreadable(s)
    ensures NothingLaterFailed(s, stage, IdentityOf(inputs, stage), s.ledger[p].started) <==>
            forall q | q in s.ledger && IsRunOf(s, q, stage, inputs) && s.ledger[q].started > s.ledger[p].started ::
              RanWell(s, q, stage, inputs)
  {
    hide RanWell, Reusable, IsRunOf, IdentityOf, Faithful;
    forall q | q in s.receipts && s.receipts[q].Readable? && q.stage == stage
      ensures q in s.ledger && s.receipts[q].receipt.started == s.ledger[q].started
      ensures Reusable(s.receipts[q].receipt, IdentityOf(inputs, stage), s.logs, s.clock)
            <==> RanWell(s, q, stage, inputs)
      ensures s.receipts[q].receipt.identity == IdentityOf(inputs, stage) <==> IsRunOf(s, q, stage, inputs)
    {
      ReusableExact(s, q, inputs);
    }
    LedgerInReceipts(s.receipts, s.ledger, s.clock);
    forall q | q in s.ledger && IsRunOf(s, q, stage, inputs)
      ensures q.stage == stage && q in s.receipts
    {
      RunIsOfStage(s, q, stage, inputs);
    }
  }

  lemma RunIsOfStage(s: State, q: Path, stage: Stage, inputs: Inputs)
    requires IsRunOf(s, q, stage, inputs)
    ensures q.stage == stage
  {
  }

  lemma StageExact(s: State, ref: Reference, stage: Stage, inputs: Inputs)
    requires ReceiptsFaithful(s.receipts, s.ledger, s.clock) && NothingUnreadable(s)
    requires GoodReference(ref, Sha256(inputs), stage, s.receipts, s.ledger) && ref.status == Some(0)
    ensures StageAccepted(s, ref, stage, IdentityOf(inputs, stage)) <==> EvidenceHolds(s, ref.receipt, stage, inputs)
  {
    hide RanWell, Reusable, NothingLaterFailed, IdentityOf, Faithful, IsRunOf;
    ReusableExact(s, ref.receipt, inputs);
    NothingLaterExact(s, ref.receipt, stage, inputs);
  }

  lemma StageNeedsReadable(s: State, ref: Reference, stage: Stage, expected: Digest<Identity>, p: Path)
    requires StageAccepted(s, ref, stage, expected) && p in s.receipts && p.stage == stage
    ensures s.receipts[p].Readable?
  {
    hide Reusable;
  }

  /** In every state of every history, `check_manifest` accepts a manifest for some inputs exactly
      when what really happened authorizes them. */
  lemma AcceptsExact(s: State, run: string, inputs: Inputs)
    requires Inv(s)
    ensures Accepts(s, run, inputs) <==> Authorized(s, run, inputs)
  {
    hide StageAccepted, EvidenceHolds, ReceiptsFaithful, StartsDistinct, RunsKnown, GateGood, GoodReference, IdentityOf;
    hide ManifestsGood, CarriesVerdict;
    if Accepts(s, run, inputs) {
      var m := s.manifests[run];
      forall p | p in s.receipts
        ensures s.receipts[p].Readable?
      {
        StageNeedsReadable(s, m.stages[p.stage], p.stage, IdentityOf(inputs, p.stage), p);
      }
      VerdictOf(s, run);
      forall st: Stage
        ensures EvidenceHolds(s, m.stages[st].receipt, st, inputs)
      {
        ReferenceStage(s, run, st);
        assert StageAccepted(s, m.stages[st], st, IdentityOf(inputs, st));
        StatusOfAccepted(s, m.stages[st], st, IdentityOf(inputs, st));
        StageExact(s, m.stages[st], st, inputs);
      }
    }
    if Authorized(s, run, inputs) {
      VerdictOf(s, run);
      ManifestIs(s, run);
      var m := s.manifests[run];
      forall st: Stage
        ensures st in m.stages && StageAccepted(s, m.stages[st], st, IdentityOf(inputs, st))
      {
        assert EvidenceHolds(s, s.verdicts[run].evidence[st], st, inputs);
        ReferenceStage(s, run, st);
        StageExact(s, m.stages[st], st, inputs);
      }
    }
  }

  lemma StatusOfAccepted(s: State, ref: Reference, stage: Stage, expected: Digest<Identity>)
    requires StageAccepted(s, ref, stage, expected)
    ensures ref.status == Some(0)
  {
    hide Reusable, NothingLaterFailed;
  }

  lemma VerdictOf(s: State, run: string)
    requires VerdictsMatch(s.manifests, s.verdicts)
    requires run in s.verdicts || (run in s.manifests && s.manifests[run].accepted.Some?)
    ensures run in s.verdicts && run in s.manifests
    ensures CarriesVerdict(s.manifests[run], s.verdicts[run])
    ensures s.manifests[run].accepted == Some(s.verdicts[run].accepted)
    ensures s.manifests[run].identity == Sha256(s.verdicts[run].inputs)
    ensures forall st: Stage :: st in s.manifests[run].stages <==> st in s.verdicts[run].evidence
    ensures forall st: Stage | st in s.manifests[run].stages ::
              s.verdicts[run].evidence[st] == s.manifests[run].stages[st].receipt
    ensures s.verdicts[run].accepted ==>
              forall st: Stage :: st in s.manifests[run].stages && s.manifests[run].stages[st].status == Some(0)
  {
    assert CarriesVerdict(s.manifests[run], s.verdicts[run]);
    assert forall st: Stage :: st in s.manifests[run].stages <==> st in Evidence(s.manifests[run]);
  }

  /** Some run of the stage's command under these inputs was good and is, and so is every later one. */
  ghost predicate HasEvidence(s: State, stage: Stage, inputs: Inputs) {
    exists p :: EvidenceHolds(s, p, stage, inputs)
  }

  /** Over any history from an empty workspace: whatever is accepted rests, for each of the seven
      stages, on a run of that stage's command under these very inputs that ended with exit code 0
      on their source, at most a day ago, with its log untouched; and no attempt of the stage under
      these inputs that was started later failed, was interrupted, went stale or was tampered with. */
  lemma AcceptedRestsOnRuns(clock: Time, source: string, trace: seq<Action>, run: string, inputs: Inputs)
    requires Legal(Empty(clock, source), trace)
    requires Accepts(Run(Empty(clock, source), trace), run, inputs)
    ensures var s := Run(Empty(clock, source), trace);
            forall st: Stage :: HasEvidence(s, st, inputs)
  {
    hide Inv, Accepts, EvidenceHolds;
    var s := Run(Empty(clock, source), trace);
    EmptyInv(clock, source);
    RunKeeps(Empty(clock, source), trace);
    AcceptsExact(s, run, inputs);
    forall st: Stage
      ensures HasEvidence(s, st, inputs)
    {
      assert EvidenceHolds(s, s.verdicts[run].evidence[st], st, inputs);
    }
  }

  // ---------------------------------------------------------------------
  // Completeness
  // ---------------------------------------------------------------------

  /** A gate that finished accepting is accepted, right after it finished, exactly when all of its
      evidence is still fresh with untouched logs, and nothing unreadable lies in the directory. */
  lemma FinishedIsAccepted(s: State)
    requires Inv(s) && Enabled(s, Finish)
    requires var g := s.gate.value; g.next == STAGES && !g.failed && s.source == g.inputs.source
    ensures var g := s.gate.value; var t := Apply(s, Finish);
            Accepts(t, g.run, g.inputs) <==>
            && NothingUnreadable(t)
            && forall st: Stage :: st in t.verdicts[g.run].evidence && FreshLog(t, t.verdicts[g.run].evidence[st])
  {
    hide ReceiptsFaithful, StartsDistinct, ManifestsGood, VerdictsMatch, RunsKnown, Accepts, RanWell, NewestFor,
          FreshLog;
    hide OwnReceipts, Current, GoodReference, NothingUnreadable, IsLatest, IsAttempt, Reusable;
    var g := s.gate.value;
    var t := Apply(s, Finish);
    StepKeeps(s, Finish);
    AcceptsExact(t, g.run, g.inputs);
    var m := s.manifests[g.run];
    forall st: Stage
      ensures st in m.stages && t.verdicts[g.run].evidence[st] == m.stages[st].receipt
      ensures EvidenceHolds(t, m.stages[st].receipt, st, g.inputs) <==> FreshLog(t, m.stages[st].receipt)
    {
      hide EvidenceHolds;
      assert Ordinal(st) < STAGES;
      assert NewestFor(s.ledger, g.inputs, m.stages[st].receipt);
      ReferenceStage(s, g.run, st);
      NewestEvidence(t, m.stages[st], st, g.inputs);
    }
  }

  /** For the newest attempt of a stage that ended with status 0, being fresh and untouched is enough. */
  lemma NewestEvidence(s: State, ref: Reference, stage: Stage, inputs: Inputs)
    requires ReceiptsFaithful(s.receipts, s.ledger, s.clock)
    requires GoodReference(ref, Sha256(inputs), stage, s.receipts, s.ledger) && ref.status == Some(0)
    requires NewestFor(s.ledger, inputs, ref.receipt)
    ensures EvidenceHolds(s, ref.receipt, stage, inputs) <==> FreshLog(s, ref.receipt)
  {
    assert Faithful(s.receipts[ref.receipt].receipt, s.ledger[ref.receipt], ref.receipt, s.clock);
  }

  // ---------------------------------------------------------------------
  // Reuse
  // ---------------------------------------------------------------------

  /** The newest attempt of the stage the gate has to deal with, under the gate's inputs. */
  ghost predicate IsNewest(s: State, p: Path)
    requires AtStage(s)
  {
    && IsRunOf(s, p, StageAt(s.gate.value.next), s.gate.value.inputs)
    && NewestFor(s.ledger, s.gate.value.inputs, p)
  }

  lemma LatestExact(s: State, p: Path)
    requires Inv(s) && AtStage(s)
    ensures IsLatest(s.receipts, StageAt(s.gate.value.next), Expected(s), p) <==> IsNewest(s, p)
  {
    hide StartsDistinct, ManifestsGood, VerdictsMatch, RunsKnown, GateGood, CommandOf, Status, IdentityOf;
    var inputs, stage := s.gate.value.inputs, StageAt(s.gate.value.next);
    if IsLatest(s.receipts, stage, Expected(s), p) {
      LatestIsNewest(s.receipts, s.ledger, s.clock, inputs, stage, p);
    }
    if IsNewest(s, p) {
      ReusableExact(s, p, inputs);
      forall q | q in s.receipts && IsAttempt(s.receipts, stage, Expected(s), q)
        ensures s.receipts[q].receipt.started <= s.receipts[p].receipt.started
      {
        ReusableExact(s, q, inputs);
      }
    }
  }

  /** A gate takes an old pass exactly when it was not told to run everything, and the pass is the
      newest attempt of the stage under its inputs and still good: an older pass is never taken
      once a later attempt failed, expired, was tampered with or was interrupted. */
  lemma ReuseExact(s: State, p: Path)
    requires Inv(s) && AtStage(s)
    ensures Enabled(s, Reuse(p)) <==>
            && !s.gate.value.forced && IsNewest(s, p)
            && RanWell(s, p, StageAt(s.gate.value.next), s.gate.value.inputs)
  {
    hide ReceiptsFaithful, StartsDistinct, ManifestsGood, VerdictsMatch, RunsKnown, GateGood, RanWell, IsLatest,
          Reusable, NewestFor, IdentityOf;
    LatestExact(s, p);
    if IsNewest(s, p) {
      LedgerReadable(s, p);
      ReusableExact(s, p, s.gate.value.inputs);
    }
  }

  lemma LedgerReadable(s: State, p: Path)
    requires ReceiptsFaithful(s.receipts, s.ledger, s.clock) && p in s.ledger
    ensures p in s.receipts && s.receipts[p].Readable?
  {
  }

  /** A gate runs a stage's command exactly when it was told to run everything or the stage has no
      good newest attempt. */
  lemma BeginExact(s: State, at: Time)
    requires Inv(s) && AtStage(s)
    ensures Enabled(s, Begin(at)) <==>
            && at > s.clock
            && (s.gate.value.forced
                || !exists p :: IsNewest(s, p) && RanWell(s, p, StageAt(s.gate.value.next), s.gate.value.inputs))
  {
    hide ReceiptsFaithful, StartsDistinct, ManifestsGood, VerdictsMatch, RunsKnown, GateGood, RanWell, Reusable,
          NewestFor, IdentityOf;
    hide IsLatest, IsAttempt, IsRunOf;
    var inputs, stage := s.gate.value.inputs, StageAt(s.gate.value.next);
    forall p
      ensures IsLatest(s.receipts, stage, Expected(s), p) <==> IsNewest(s, p)
      ensures IsNewest(s, p) ==> p in s.receipts && s.receipts[p].Readable?
      ensures IsNewest(s, p) ==>
                (Reusable(s.receipts[p].receipt, Expected(s), s.logs, s.clock) <==> RanWell(s, p, stage, inputs))
    {
      LatestExact(s, p);
      if IsNewest(s, p) { NewestReusable(s, p); }
    }
    forall p, q | IsNewest(s, p) && IsNewest(s, q)
      ensures p == q
    {
      NewestIsOne(s, p, q);
    }
    if exists p | p in s.receipts :: IsAttempt(s.receipts, stage, Expected(s), p) {
      var p :| p in s.receipts && IsAttempt(s.receipts, stage, Expected(s), p);
      var q := SomeLatest(s.receipts, stage, Expected(s), p);
      assert IsNewest(s, q);
    } else {
      forall p
        ensures !IsNewest(s, p)
      {
        LatestIsAttempt(s.receipts, stage, Expected(s), p);
      }
    }
  }

  lemma LatestIsAttempt(receipts: Receipts, stage: Stage, expected: Digest<Identity>, p: Path)
    ensures IsLatest(receipts, stage, expected, p) ==> p in receipts && IsAttempt(receipts, stage, expected, p)
  {
  }

  lemma NewestReusable(s: State, p: Path)
    requires Inv(s) && AtStage(s) && IsNewest(s, p)
    ensures p in s.receipts && s.receipts[p].Readable?
    ensures Reusable(s.receipts[p].receipt, Expected(s), s.logs, s.clock)
        <==> RanWell(s, p, StageAt(s.gate.value.next), s.gate.value.inputs)
  {
    hide ReceiptsFaithful, StartsDistinct, ManifestsGood, VerdictsMatch, RunsKnown, GateGood, RanWell, Reusable,
          NewestFor, IdentityOf;
    LedgerReadable(s, p);
    ReusableExact(s, p, s.gate.value.inputs);
  }

  lemma NewestIsOne(s: State, p: Path, q: Path)
    requires Inv(s) && AtStage(s) && IsNewest(s, p) && IsNewest(s, q)
    ensures p == q
  {
    hide ReceiptsFaithful, ManifestsGood, VerdictsMatch, RunsKnown, GateGood;
  }

  /** Where there is an attempt, there is a latest one. */
  lemma {:induction false} SomeLatest(receipts: Receipts, stage: Stage, expected: Digest<Identity>, p: Path)
    returns (q: Path)
    requires p in receipts && IsAttempt(receipts, stage, expected, p)
    ensures IsLatest(receipts, stage, expected, q)
  {
    var later := set r | r in receipts && IsAttempt(receipts, stage, expected, r)
                           && receipts[r].receipt.started > receipts[p].receipt.started;
    q := LatestAmong(receipts, stage, expected, p, later);
  }

  lemma {:induction false} LatestAmong(receipts: Receipts, stage: Stage, expected: Digest<Identity>, p: Path,
          later: set<Path>)
    returns (q: Path)
    requires p in receipts && IsAttempt(receipts, stage, expected, p)
    requires later == set r | r in receipts && IsAttempt(receipts, stage, expected, r)
                                && receipts[r].receipt.started > receipts[p].receipt.started
    ensures IsLatest(receipts, stage, expected, q)
    decreases |later|
  {
    if later == {} {
      q := p;
      forall r | r in receipts && IsAttempt(receipts, stage, expected, r)
        ensures receipts[r].receipt.started <= receipts[p].receipt.started
      {
        assert r !in later;
      }
    } else {
      var r :| r in later;
      var rest := set x | x in receipts && IsAttempt(receipts, stage, expected, x)
                            && receipts[x].receipt.started > receipts[r].receipt.started;
      assert rest < later by { assert r in later && r !in rest; }
      SmallerSet(rest, later);
      q := LatestAmong(receipts, stage, expected, r, rest);
    }
  }

  lemma {:induction false} SmallerSet(a: set<Path>, b: set<Path>)
    requires a < b
    ensures |a| < |b|
  {
    var x :| x in b && x !in a;
    assert a <= b - {x};
    SubsetSize(a, b - {x});
  }

  lemma {:induction false} SubsetSize(a: set<Path>, b: set<Path>)
    requires a <= b
    ensures |a| <= |b|
  {
    if a != {} {
      var x :| x in a;
      SubsetSize(a - {x}, b - {x});
    }
  }

  /** A gate with a stage to deal with can always take its next step, and never has a choice between
      reusing and running. */
  lemma DecisionIsForced(s: State, at: Time)
    requires Inv(s) && AtStage(s) && at > s.clock
    ensures Enabled(s, Begin(at)) <==> !exists p :: Enabled(s, Reuse(p))
  {
    hide Inv, Enabled, IsNewest, RanWell;
    BeginExact(s, at);
    forall p
      ensures Enabled(s, Reuse(p)) <==>
              && !s.gate.value.forced && IsNewest(s, p)
              && RanWell(s, p, StageAt(s.gate.value.next), s.gate.value.inputs)
    {
      ReuseExact(s, p);
    }
  }

  // ---------------------------------------------------------------------
  // Why starts have to be told apart
  // ---------------------------------------------------------------------

  /** With two attempts started at the same instant, the pass counts as a latest one beside the
      failure, so a gate may reuse it, and a manifest that refers to it is not refused for the failure. */
  lemma TieHidesFailure(inputs: Inputs, stage: Stage, at: Time)
    ensures exists receipts: Receipts, logs, p, q ::
              && IsLatest(receipts, stage, IdentityOf(inputs, stage), p)
              && Reusable(receipts[p].receipt, IdentityOf(inputs, stage), logs, at)
              && IsAttempt(receipts, stage, IdentityOf(inputs, stage), q)
              && receipts[q].receipt.status == Some(1)
              && StageAccepted(State(at, inputs.source, receipts, logs, map[], None, map[], map[]),
                               Reference(p, false, Some(0), Sha256(receipts[p])), stage, IdentityOf(inputs, stage))
  {
    var p, q := Path("a", stage), Path("b", stage);
    var open := OpenReceipt(inputs, p, at);
    var pass := open.(status := Some(0), finished := Some(at), logDigest := Some(Sha256([])));
    var fail := OpenReceipt(inputs, q, at).(status := Some(1), finished := Some(at), logDigest := Some(Sha256([])));
    var receipts: Receipts := map[p := Readable(pass), q := Readable(fail)];
    var logs: map<Path, Log> := map[p := []];
    var s := State(at, inputs.source, receipts, logs, map[], None, map[], map[]);
    assert IsLatest(receipts, stage, IdentityOf(inputs, stage), p);
    assert IsAttempt(receipts, stage, IdentityOf(inputs, stage), q);
    assert StageAccepted(s, Reference(p, false, Some(0), Sha256(receipts[p])), stage, IdentityOf(inputs, stage));
  }
}
