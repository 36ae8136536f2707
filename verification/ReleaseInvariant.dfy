/** What every step of the release gate keeps. */
module ReleaseInvariant {
  import opened Options
  import opened ReleaseMachine

  type Receipts = map<Path, File>
  type Ledger = map<Path, Attempt>

  /** The receipt on disk says what happened, and nothing else. */
  predicate Faithful(r: Receipt, a: Attempt, p: Path, clock: Time) {
    && r.schema == SCHEMA && r.log == p
    && a.stage == p.stage && a.command == CommandOf(p.stage) && r.command == a.command
    && r.identity == IdentityOf(a.inputs, p.stage) && r.started == a.started
    && a.started <= clock
    && match a.outcome
       case None => r.status == None && r.finished == None && r.logDigest == None
       case Some(o) =>
         && r.status == Some(Status(o.exit, o.source, a.inputs))
         && r.finished == Some(o.at) && r.logDigest == Some(Sha256(o.log))
         && a.started <= o.at <= clock
  }

  ghost predicate ReceiptsFaithful(receipts: Receipts, ledger: Ledger, clock: Time) {
    && (forall p :: p in ledger ==> p in receipts && receipts[p].Readable?)
    && (forall p :: p in receipts && receipts[p].Readable? ==>
          p in ledger && Faithful(receipts[p].receipt, ledger[p], p, clock))
  }

  /** Starts are told apart by their times. */
  ghost predicate StartsDistinct(ledger: Ledger) {
    forall p, q :: p in ledger && q in ledger && p != q ==> ledger[p].started != ledger[q].started
  }

  /** A reference is to a finished attempt of the stage under the manifest's inputs. */
  predicate GoodReference(ref: Reference, identity: Digest<Inputs>, stage: Stage, receipts: Receipts, ledger: Ledger) {
    && ref.receipt in ledger && ref.receipt in receipts && ref.receipt.stage == stage
    && ledger[ref.receipt].outcome.Some?
    && ref.sha == Sha256(receipts[ref.receipt])
    && receipts[ref.receipt].Readable? && ref.status == receipts[ref.receipt].receipt.status
    && identity == Sha256(ledger[ref.receipt].inputs)
  }

  ghost predicate ReferencesGood(m: Manifest, receipts: Receipts, ledger: Ledger) {
    && m.schema == SCHEMA
    && forall stage :: stage in m.stages ==> GoodReference(m.stages[stage], m.identity, stage, receipts, ledger)
  }

  ghost predicate ManifestsGood(manifests: map<string, Manifest>, receipts: Receipts, ledger: Ledger) {
    forall run :: run in manifests ==> ReferencesGood(manifests[run], receipts, ledger)
  }

  /** A manifest carries the verdict of the gate that came to its end. */
  predicate CarriesVerdict(m: Manifest, v: Verdict) {
    && m.accepted == Some(v.accepted) && m.identity == Sha256(v.inputs) && Evidence(m) == v.evidence
    && (v.accepted ==> forall st: Stage :: st in m.stages && m.stages[st].status == Some(0))
  }

  ghost predicate VerdictsMatch(manifests: map<string, Manifest>, verdicts: map<string, Verdict>) {
    && (forall run :: run in verdicts ==> run in manifests)
    && (forall run :: run in manifests ==>
          && (manifests[run].accepted.Some? <==> run in verdicts)
          && (run in verdicts ==> CarriesVerdict(manifests[run], verdicts[run])))
  }

  ghost predicate RunsKnown(ledger: Ledger, manifests: map<string, Manifest>) {
    forall p :: p in ledger ==> p.run in manifests
  }

  /** No other attempt of its stage under these inputs was started later. */
  ghost predicate NewestFor(ledger: Ledger, inputs: Inputs, p: Path) {
    && p in ledger
    && forall q :: q in ledger && q.stage == p.stage && ledger[q].inputs == inputs ==>
         ledger[q].started <= ledger[p].started
  }

  /** The running gate's manifest covers the stages done so far, each by the newest attempt. */
  ghost predicate Covers(g: GateRun, m: Manifest, ledger: Ledger) {
    && m.identity == Sha256(g.inputs) && m.accepted == None
    && (forall st: Stage :: st in m.stages <==> Ordinal(st) < g.next)
    && (g.failed <==> exists st: Stage :: st in m.stages && m.stages[st].status != Some(0))
    && (forall st: Stage :: st in m.stages ==> NewestFor(ledger, g.inputs, m.stages[st].receipt))
  }

  /** The gate has written receipts only for the stages it got to. */
  ghost predicate OwnReceipts(g: GateRun, receipts: Receipts) {
    forall p :: p in receipts && p.run == g.run ==>
      Ordinal(p.stage) < g.next || (g.phase != Ready && Ordinal(p.stage) == g.next)
  }

  /** The attempt the gate is dealing with. */
  ghost predicate Current(g: GateRun, ledger: Ledger) {
    g.phase != Ready ==>
      && HasNext(g)
      && var p := if g.phase.Running? then Path(g.run, StageAt(g.next)) else g.phase.path;
         && p in ledger && p.stage == StageAt(g.next) && ledger[p].inputs == g.inputs
         && NewestFor(ledger, g.inputs, p)
         && (g.phase.Running? <==> ledger[p].outcome == None)
  }

  ghost predicate GateGood(g: GateRun, manifests: map<string, Manifest>, verdicts: map<string, Verdict>,
                           receipts: Receipts, ledger: Ledger) {
    && g.next <= STAGES && g.run in manifests && g.run !in verdicts
    && Covers(g, manifests[g.run], ledger) && OwnReceipts(g, receipts) && Current(g, ledger)
  }

  ghost predicate Inv(s: State) {
    && ReceiptsFaithful(s.receipts, s.ledger, s.clock) && StartsDistinct(s.ledger)
    && ManifestsGood(s.manifests, s.receipts, s.ledger) && VerdictsMatch(s.manifests, s.verdicts)
    && RunsKnown(s.ledger, s.manifests)
    && (s.gate.Some? ==> GateGood(s.gate.value, s.manifests, s.verdicts, s.receipts, s.ledger))
  }

  lemma EmptyInv(clock: Time, source: string)
    ensures Inv(Empty(clock, source))
  {
  }

  lemma StageOrder(i: nat)
    requires i < STAGES
    ensures Ordinal(StageAt(i)) == i
  {
  }

  // ---------------------------------------------------------------------
  // The parts of the invariant under changes
  // ---------------------------------------------------------------------

  lemma FaithfulLater(receipts: Receipts, ledger: Ledger, clock: Time, later: Time)
    requires ReceiptsFaithful(receipts, ledger, clock) && clock <= later
    ensures ReceiptsFaithful(receipts, ledger, later)
  {
    hide IdentityOf, CommandOf, Status;
  }

  lemma FaithfulLitter(receipts: Receipts, ledger: Ledger, clock: Time, p: Path)
    requires ReceiptsFaithful(receipts, ledger, clock) && p !in receipts
    ensures ReceiptsFaithful(receipts[p := Unreadable], ledger, clock)
    ensures p !in ledger
  {
    hide Faithful;
  }

  /** References survive whatever leaves the finished receipts alone. */
  lemma ReferencesStay(manifests: map<string, Manifest>, receipts: Receipts, ledger: Ledger,
                       receipts': Receipts, ledger': Ledger)
    requires ManifestsGood(manifests, receipts, ledger)
    requires forall p :: p in ledger && ledger[p].outcome.Some? && p in receipts ==>
               p in ledger' && ledger'[p] == ledger[p] && p in receipts' && receipts'[p] == receipts[p]
    ensures ManifestsGood(manifests, receipts', ledger')
  {
    forall run, stage | run in manifests && stage in manifests[run].stages
      ensures GoodReference(manifests[run].stages[stage], manifests[run].identity, stage, receipts', ledger')
    {
      assert ReferencesGood(manifests[run], receipts, ledger);
      assert GoodReference(manifests[run].stages[stage], manifests[run].identity, stage, receipts, ledger);
    }
    forall run | run in manifests
      ensures ReferencesGood(manifests[run], receipts', ledger')
    {
      assert ReferencesGood(manifests[run], receipts, ledger);
    }
  }

  lemma ManifestChanges(manifests: map<string, Manifest>, receipts: Receipts, ledger: Ledger, run: string, m: Manifest)
    requires ManifestsGood(manifests, receipts, ledger) && ReferencesGood(m, receipts, ledger)
    ensures ManifestsGood(manifests[run := m], receipts, ledger)
  {
    hide ReferencesGood;
  }

  /** A manifest without a verdict may change as long as it claims none. */
  lemma VerdictsStay(manifests: map<string, Manifest>, verdicts: map<string, Verdict>, run: string, m: Manifest)
    requires VerdictsMatch(manifests, verdicts) && run !in verdicts && m.accepted == None
    ensures VerdictsMatch(manifests[run := m], verdicts)
  {
    hide CarriesVerdict;
  }

  lemma VerdictAdded(manifests: map<string, Manifest>, verdicts: map<string, Verdict>, run: string, m: Manifest,
          v: Verdict)
    requires VerdictsMatch(manifests, verdicts) && run !in verdicts && CarriesVerdict(m, v)
    ensures VerdictsMatch(manifests[run := m], verdicts[run := v])
  {
    hide CarriesVerdict;
    CarriesAccepted(m, v);
  }

  lemma CarriesAccepted(m: Manifest, v: Verdict)
    requires CarriesVerdict(m, v)
    ensures m.accepted.Some?
  {
  }

  lemma RunsStay(ledger: Ledger, manifests: map<string, Manifest>, run: string, m: Manifest)
    requires RunsKnown(ledger, manifests)
    ensures RunsKnown(ledger, manifests[run := m])
  {
  }

  // ---------------------------------------------------------------------
  // Every step keeps the invariant
  // ---------------------------------------------------------------------

  lemma WorldKeeps(s: State, a: Action)
    requires Inv(s) && Enabled(s, a) && IsWorld(a)
    ensures Inv(Apply(s, a))
  {
    hide ReceiptsFaithful, StartsDistinct, ManifestsGood, VerdictsMatch, RunsKnown, Covers, Current, IsLatest, Reusable;
    match a
    case Tick(at) => FaithfulLater(s.receipts, s.ledger, s.clock, at);
    case Edit(_) =>
    case Tamper(_, _) =>
    case Litter(p) =>
      FaithfulLitter(s.receipts, s.ledger, s.clock, p);
      ReferencesStay(s.manifests, s.receipts, s.ledger, s.receipts[p := Unreadable], s.ledger);
    case _ =>
  }

  lemma StartKeeps(s: State, a: Action)
    requires Inv(s) && Enabled(s, a) && a.Start?
    ensures Inv(Apply(s, a))
  {
    hide ReceiptsFaithful, StartsDistinct, ManifestsGood, RunsKnown, IsLatest, Reusable, CarriesVerdict;
    var m := Manifest(SCHEMA, Sha256(a.inputs), map[], None);
    ManifestChanges(s.manifests, s.receipts, s.ledger, a.run, m);
    VerdictsStay(s.manifests, s.verdicts, a.run, m);
    RunsStay(s.ledger, s.manifests, a.run, m);
  }

  lemma InterruptKeeps(s: State, a: Action)
    requires Inv(s) && Enabled(s, a) && a.Interrupt?
    ensures Inv(Apply(s, a))
  {
    hide ReceiptsFaithful, StartsDistinct, ManifestsGood, VerdictsMatch, RunsKnown, GateGood, IsLatest, Reusable;
  }

  lemma IdentityDetermines(a: Inputs, b: Inputs, stage: Stage)
    ensures IdentityOf(a, stage) == IdentityOf(b, stage) <==> a == b
  {
  }

  /** The latest readable receipt of a stage under some inputs is the newest attempt there was. */
  lemma LatestIsNewest(receipts: Receipts, ledger: Ledger, clock: Time, inputs: Inputs, stage: Stage, p: Path)
    requires ReceiptsFaithful(receipts, ledger, clock) && IsLatest(receipts, stage, IdentityOf(inputs, stage), p)
    ensures p in ledger && p.stage == stage && ledger[p].inputs == inputs && NewestFor(ledger, inputs, p)
    ensures p in receipts && receipts[p].Readable?
    ensures Faithful(receipts[p].receipt, ledger[p], p, clock)
  {
    hide CommandOf, Status;
    assert Faithful(receipts[p].receipt, ledger[p], p, clock);
    forall q | q in ledger && q.stage == p.stage && ledger[q].inputs == inputs
      ensures ledger[q].started <= ledger[p].started
    {
      assert Faithful(receipts[q].receipt, ledger[q], q, clock);
      assert IsAttempt(receipts, stage, IdentityOf(inputs, stage), q);
    }
  }

  /** A reusable receipt belongs to an attempt that ended. */
  lemma ReusableEnded(r: Receipt, a: Attempt, p: Path, clock: Time, expected: Digest<Identity>, logs: map<Path, Log>,
          now: Time)
    requires Faithful(r, a, p, clock) && Reusable(r, expected, logs, now)
    ensures a.outcome.Some?
  {
  }

  lemma ReuseKeeps(s: State, a: Action)
    requires Inv(s) && Enabled(s, a) && a.Reuse?
    ensures Inv(Apply(s, a))
  {
    hide ReceiptsFaithful, StartsDistinct, ManifestsGood, VerdictsMatch, RunsKnown, IsLatest, Reusable, NewestFor,
          Faithful, IdentityOf;
    var g := s.gate.value;
    LatestIsNewest(s.receipts, s.ledger, s.clock, g.inputs, StageAt(g.next), a.path);
    ReusableEnded(s.receipts[a.path].receipt, s.ledger[a.path], a.path, s.clock, Expected(s), s.logs, s.clock);
  }

  lemma FaithfulBegin(receipts: Receipts, ledger: Ledger, clock: Time, inputs: Inputs, p: Path, at: Time)
    requires ReceiptsFaithful(receipts, ledger, clock) && clock <= at
    ensures ReceiptsFaithful(receipts[p := Readable(OpenReceipt(inputs, p, at))],
                             ledger[p := Attempt(p.stage, inputs, CommandOf(p.stage), at, None)], at)
  {
    hide CommandOf, Status, IdentityOf;
  }

  lemma DistinctBegin(receipts: Receipts, ledger: Ledger, clock: Time, p: Path, a: Attempt)
    requires ReceiptsFaithful(receipts, ledger, clock) && StartsDistinct(ledger) && clock < a.started
    ensures StartsDistinct(ledger[p := a])
    ensures forall q :: q in ledger ==> ledger[q].started < a.started
  {
    hide CommandOf, Status, IdentityOf;
    forall q | q in ledger
      ensures ledger[q].started < a.started
    {
      assert Faithful(receipts[q].receipt, ledger[q], q, clock);
    }
  }

  /** An attempt of another stage does not make an attempt any less the newest of its own. */
  lemma NewestStays(ledger: Ledger, inputs: Inputs, p: Path, q: Path, a: Attempt)
    requires NewestFor(ledger, inputs, p) && q.stage != p.stage
    ensures NewestFor(ledger[q := a], inputs, p)
  {
  }

  /** An attempt started after all others is the newest of its stage. */
  lemma LastIsNewest(ledger: Ledger, inputs: Inputs, p: Path, a: Attempt)
    requires forall q :: q in ledger ==> ledger[q].started < a.started
    ensures NewestFor(ledger[p := a], inputs, p)
  {
  }

  lemma BeginKeeps(s: State, a: Action)
    requires Inv(s) && Enabled(s, a) && a.Begin?
    ensures Inv(Apply(s, a))
  {
    hide ReceiptsFaithful, StartsDistinct, ManifestsGood, VerdictsMatch, IsLatest, IsAttempt, Reusable, IdentityOf,
          CommandOf, OpenReceipt, Apply, Enabled, StageAt, NewestFor;
    BeginDoes(s, a.at);
    var g := s.gate.value;
    var p := Path(g.run, StageAt(g.next));
    var attempt := Attempt(p.stage, g.inputs, CommandOf(p.stage), a.at, None);
    var t := Apply(s, a);
    StageOrder(g.next);
    assert p !in s.receipts;
    assert p !in s.ledger by { LedgerInReceipts(s.receipts, s.ledger, s.clock); }
    FaithfulBegin(s.receipts, s.ledger, s.clock, g.inputs, p, a.at);
    DistinctBegin(s.receipts, s.ledger, s.clock, p, attempt);
    ReferencesStay(s.manifests, s.receipts, s.ledger, t.receipts, t.ledger);
    forall st: Stage | st in s.manifests[g.run].stages
      ensures NewestFor(t.ledger, g.inputs, s.manifests[g.run].stages[st].receipt)
    {
      ReferenceStage(s, g.run, st);
      NewestStays(s.ledger, g.inputs, s.manifests[g.run].stages[st].receipt, p, attempt);
    }
    LastIsNewest(s.ledger, g.inputs, p, attempt);
    assert Current(t.gate.value, t.ledger);
  }

  lemma LedgerInReceipts(receipts: Receipts, ledger: Ledger, clock: Time)
    requires ReceiptsFaithful(receipts, ledger, clock)
    ensures forall p :: p in ledger ==> p in receipts
  {
  }

  lemma ReferenceStage(s: State, run: string, st: Stage)
    requires ManifestsGood(s.manifests, s.receipts, s.ledger) && run in s.manifests && st in s.manifests[run].stages
    ensures GoodReference(s.manifests[run].stages[st], s.manifests[run].identity, st, s.receipts, s.ledger)
    ensures s.manifests[run].stages[st].receipt.stage == st
  {
    assert ReferencesGood(s.manifests[run], s.receipts, s.ledger);
  }

  lemma FaithfulEnd(receipts: Receipts, ledger: Ledger, clock: Time, p: Path, o: Outcome)
    requires ReceiptsFaithful(receipts, ledger, clock) && p in ledger && p in receipts && receipts[p].Readable?
    requires clock <= o.at
    ensures ReceiptsFaithful(
              receipts[p := Readable(receipts[p].receipt.(
                status := Some(Status(o.exit, o.source, ledger[p].inputs)), finished := Some(o.at),
                logDigest := Some(Sha256(o.log))))],
              ledger[p := ledger[p].(outcome := Some(o))], o.at)
  {
    hide CommandOf, Status, IdentityOf;
    assert Faithful(receipts[p].receipt, ledger[p], p, clock);
  }

  /** Ending an attempt changes neither its inputs nor its start. */
  lemma EndedLedger(ledger: Ledger, p: Path, o: Outcome)
    requires p in ledger
    ensures StartsDistinct(ledger) ==> StartsDistinct(ledger[p := ledger[p].(outcome := Some(o))])
    ensures forall inputs, q ::
              NewestFor(ledger, inputs, q) ==> NewestFor(ledger[p := ledger[p].(outcome := Some(o))], inputs, q)
  {
  }

  lemma EndKeeps(s: State, a: Action)
    requires Inv(s) && Enabled(s, a) && a.End?
    ensures Inv(Apply(s, a))
  {
    hide ReceiptsFaithful, StartsDistinct, ManifestsGood, VerdictsMatch, IsLatest, IsAttempt, Reusable, NewestFor,
          Footer, Outputs, Status, Apply, Enabled, StageAt;
    EndDoes(s, a.exit, a.output, a.at);
    var g := s.gate.value;
    var p := Path(g.run, StageAt(g.next));
    var t := Apply(s, a);
    var o := t.ledger[p].outcome.value;
    FaithfulEnd(s.receipts, s.ledger, s.clock, p, o);
    EndedLedger(s.ledger, p, o);
    ReferencesStay(s.manifests, s.receipts, s.ledger, t.receipts, t.ledger);
    assert Covers(t.gate.value, t.manifests[g.run], t.ledger);
  }

  lemma ReferenceAdded(s: State, run: string, stage: Stage, ref: Reference)
    requires ManifestsGood(s.manifests, s.receipts, s.ledger) && run in s.manifests
    requires GoodReference(ref, s.manifests[run].identity, stage, s.receipts, s.ledger)
    ensures ReferencesGood(s.manifests[run].(stages := s.manifests[run].stages[stage := ref]), s.receipts, s.ledger)
  {
    hide ManifestsGood, GoodReference;
    ManifestIs(s, run);
    forall st | st in s.manifests[run].stages && st != stage
      ensures GoodReference(s.manifests[run].stages[st], s.manifests[run].identity, st, s.receipts, s.ledger)
    {
      ReferenceStage(s, run, st);
    }
  }

  lemma RecordKeeps(s: State, a: Action)
    requires Inv(s) && Enabled(s, a) && a.Record?
    ensures Inv(Apply(s, a))
  {
    hide ReceiptsFaithful, StartsDistinct, ManifestsGood, VerdictsMatch, IsLatest, IsAttempt, Reusable, NewestFor,
          ReferencesGood, Apply, Enabled, StageAt;
    RecordDoes(s);
    var g := s.gate.value;
    var t := Apply(s, a);
    var m, m' := s.manifests[g.run], t.manifests[g.run];
    var stage := StageAt(g.next);
    StageOrder(g.next);
    assert GoodReference(m'.stages[stage], m.identity, stage, s.receipts, s.ledger);
    ReferenceAdded(s, g.run, stage, m'.stages[stage]);
    ManifestChanges(s.manifests, s.receipts, s.ledger, g.run, m');
    VerdictsStay(s.manifests, s.verdicts, g.run, m');
    RunsStay(s.ledger, s.manifests, g.run, m');
    RecordCovers(g, m, s.ledger, m'.stages[stage]);
    assert OwnReceipts(t.gate.value, t.receipts);
  }

  lemma ManifestIs(s: State, run: string)
    requires ManifestsGood(s.manifests, s.receipts, s.ledger) && run in s.manifests
    ensures s.manifests[run].schema == SCHEMA
  {
    assert ReferencesGood(s.manifests[run], s.receipts, s.ledger);
  }

  lemma RecordCovers(g: GateRun, m: Manifest, ledger: Ledger, ref: Reference)
    requires g.next < STAGES && Covers(g, m, ledger) && NewestFor(ledger, g.inputs, ref.receipt)
    ensures Covers(g.(next := g.next + 1, failed := g.failed || ref.status != Some(0), phase := Ready),
                   m.(stages := m.stages[StageAt(g.next) := ref]), ledger)
  {
    hide NewestFor;
    StageOrder(g.next);
    var stage := StageAt(g.next);
    var m' := m.(stages := m.stages[stage := ref]);
    forall st: Stage
      ensures st in m'.stages <==> Ordinal(st) < g.next + 1
    {
      if Ordinal(st) == g.next { assert StageAt(Ordinal(st)) == stage; }
    }
    if ref.status != Some(0) { assert stage in m'.stages && m'.stages[stage].status != Some(0); }
    if st: Stage :| st in m.stages && m.stages[st].status != Some(0) {
      assert Ordinal(st) != g.next && m'.stages[st] == m.stages[st];
    }
  }

  lemma FinishKeeps(s: State, a: Action)
    requires Inv(s) && Enabled(s, a) && a.Finish?
    ensures Inv(Apply(s, a))
  {
    hide ReceiptsFaithful, StartsDistinct, ManifestsGood, VerdictsMatch, RunsKnown, IsLatest, IsAttempt, Reusable,
          NewestFor;
    var g := s.gate.value;
    var t := Apply(s, a);
    var m, m' := s.manifests[g.run], t.manifests[g.run];
    var v := t.verdicts[g.run];
    assert CarriesVerdict(m', v);
    assert ReferencesGood(m', s.receipts, s.ledger) by {
      hide Covers;
      ManifestIs(s, g.run);
      forall st | st in m'.stages
        ensures GoodReference(m'.stages[st], m'.identity, st, s.receipts, s.ledger)
      {
        ReferenceStage(s, g.run, st);
      }
    }
    ManifestChanges(s.manifests, s.receipts, s.ledger, g.run, m');
    VerdictAdded(s.manifests, s.verdicts, g.run, m', v);
    RunsStay(s.ledger, s.manifests, g.run, m');
  }

  lemma StepKeeps(s: State, a: Action)
    requires Inv(s) && Enabled(s, a)
    ensures Inv(Apply(s, a))
  {
    hide *;
    match a
    case Tick(_) => WorldKeeps(s, a) by { Worldly(a); }
    case Edit(_) => WorldKeeps(s, a) by { Worldly(a); }
    case Tamper(_, _) => WorldKeeps(s, a) by { Worldly(a); }
    case Litter(_) => WorldKeeps(s, a) by { Worldly(a); }
    case Start(_, _, _) => StartKeeps(s, a);
    case Reuse(_) => ReuseKeeps(s, a);
    case Begin(_) => BeginKeeps(s, a);
    case End(_, _, _) => EndKeeps(s, a);
    case Record => RecordKeeps(s, a);
    case Finish => FinishKeeps(s, a);
    case Interrupt => InterruptKeeps(s, a);
  }

  lemma Worldly(a: Action)
    requires a.Tick? || a.Edit? || a.Tamper? || a.Litter?
    ensures IsWorld(a)
  {
  }

  /** Every history keeps the invariant. */
  lemma {:induction false} RunKeeps(s: State, trace: seq<Action>)
    requires Inv(s) && Legal(s, trace)
    ensures Inv(Run(s, trace))
    decreases |trace|
  {
    hide Inv, Enabled, Apply;
    if trace != [] {
      StepKeeps(s, trace[0]);
      RunKeeps(Apply(s, trace[0]), trace[1..]);
    }
  }
}
