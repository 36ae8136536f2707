/** The release gate's evidence on disk, and every step that can change it: a gate that
    starts, reuses, runs and records stages, and a world that lets time pass, edits the
    source, tampers with logs, leaves unreadable files behind and interrupts the gate. */
module ReleaseMachine {
  import opened Options

  /** A SHA-256 digest, taken to determine what it was computed from. */
  datatype Digest<+T> = Sha256(of: T)

  type Time = real

  const SCHEMA := 1
  const MAX_AGE: Time := 86400.0

  datatype Stage = Correctness | ProducerIdentity | Outbox | Inbox | Command | Projection | ReadModel

  const STAGES := 7

  /** The place of a stage in the order in which a gate runs them: correctness, then the guards. */
  function Ordinal(stage: Stage): (i: nat)
    ensures i < STAGES && StageAt(i) == stage
  {
    match stage
    case Correctness => 0
    case ProducerIdentity => 1
    case Outbox => 2
    case Inbox => 3
    case Command => 4
    case Projection => 5
    case ReadModel => 6
  }

  function StageAt(i: nat): (stage: Stage)
    requires i < STAGES
  {
    if i == 0 then Correctness
    else if i == 1 then ProducerIdentity
    else if i == 2 then Outbox
    else if i == 3 then Inbox
    else if i == 4 then Command
    else if i == 5 then Projection
    else ReadModel
  }

  function Name(stage: Stage): string {
    match stage
    case Correctness => "correctness"
    case ProducerIdentity => "producer-identity"
    case Outbox => "outbox"
    case Inbox => "inbox"
    case Command => "command"
    case Projection => "projection"
    case ReadModel => "read-model"
  }

  function CommandOf(stage: Stage): seq<string> {
    if stage == Correctness then ["just", "_verify"] else ["scripts/bench-regression.sh", Name(stage)]
  }

  /** What a candidate is: its source and everything else that is hashed into the inputs. */
  datatype Inputs = Inputs(source: string, environment: string)

  datatype Identity = Identity(inputs: Inputs, command: seq<string>)

  function IdentityOf(inputs: Inputs, stage: Stage): Digest<Identity> {
    Sha256(Identity(inputs, CommandOf(stage)))
  }

  /** `<run>-<stage>.json`, and the log beside it. */
  datatype Path = Path(run: string, stage: Stage)

  datatype Line =
    | Header(identity: Digest<Identity>, command: seq<string>)
    | Output(text: string)
    | SourceChanged
    | StageExit(status: int)
  type Log = seq<Line>

  datatype Receipt = Receipt(
    schema: int, identity: Digest<Identity>, command: seq<string>, started: Time,
    status: Option<int>, log: Path, finished: Option<Time>, logDigest: Option<Digest<Log>>)

  datatype File = Unreadable | Readable(receipt: Receipt)

  datatype Reference = Reference(receipt: Path, reused: bool, status: Option<int>, sha: Digest<File>)

  datatype Manifest = Manifest(
    schema: int, identity: Digest<Inputs>, stages: map<Stage, Reference>, accepted: Option<bool>)

  // What really happened, whatever the files say.

  datatype Outcome = Outcome(exit: int, source: string, at: Time, log: Log)

  /** A command that was started, and how it ended if it did: its exit code, the source
      found right after it, the time, and the log as it was left. */
  datatype Attempt = Attempt(
    stage: Stage, inputs: Inputs, command: seq<string>, started: Time, outcome: Option<Outcome>)

  /** A gate that came to its end, and the attempts it took as evidence. */
  datatype Verdict = Verdict(inputs: Inputs, accepted: bool, evidence: map<Stage, Path>)

  datatype Phase = Ready | Running | Unrecorded(path: Path)

  datatype GateRun = GateRun(run: string, inputs: Inputs, forced: bool, next: nat, failed: bool, phase: Phase)

  datatype State = State(
    clock: Time, source: string,
    receipts: map<Path, File>, logs: map<Path, Log>, manifests: map<string, Manifest>,
    gate: Option<GateRun>,
    ledger: map<Path, Attempt>, verdicts: map<string, Verdict>)

  // ---------------------------------------------------------------------
  // Judging receipts
  // ---------------------------------------------------------------------

  predicate Reusable(receipt: Receipt, expected: Digest<Identity>, logs: map<Path, Log>, now: Time) {
    && receipt.schema == SCHEMA && receipt.identity == expected
    && receipt.status == Some(0)
    && receipt.finished.Some? && 0.0 <= now - receipt.finished.value <= MAX_AGE
    && receipt.log in logs && receipt.logDigest == Some(Sha256(logs[receipt.log]))
  }

  /** A readable receipt of a stage under one identity. */
  predicate IsAttempt(receipts: map<Path, File>, stage: Stage, expected: Digest<Identity>, p: Path) {
    p in receipts && p.stage == stage && receipts[p].Readable? && receipts[p].receipt.identity == expected
  }

  predicate IsLatest(receipts: map<Path, File>, stage: Stage, expected: Digest<Identity>, p: Path) {
    && IsAttempt(receipts, stage, expected, p)
    && forall q | q in receipts && IsAttempt(receipts, stage, expected, q) ::
         receipts[q].receipt.started <= receipts[p].receipt.started
  }

  // ---------------------------------------------------------------------
  // Steps
  // ---------------------------------------------------------------------

  datatype Action =
    | Tick(at: Time)
    | Edit(source: string)
    | Tamper(path: Path, content: Option<Log>)
    | Litter(path: Path)
    | Start(run: string, inputs: Inputs, forced: bool)
    | Reuse(path: Path)
    | Begin(at: Time)
    | End(exit: int, output: seq<string>, at: Time)
    | Record
    | Finish
    | Interrupt

  predicate IsWorld(a: Action) {
    a.Tick? || a.Edit? || a.Tamper? || a.Litter?
  }

  /** The gate has a stage to deal with: not all are done, and correctness has not failed. */
  predicate HasNext(g: GateRun) {
    g.next < STAGES && !(g.next == 1 && g.failed)
  }

  predicate AtStage(s: State) {
    s.gate.Some? && s.gate.value.phase == Ready && HasNext(s.gate.value)
  }

  function Expected(s: State): Digest<Identity>
    requires AtStage(s)
  {
    IdentityOf(s.gate.value.inputs, StageAt(s.gate.value.next))
  }

  predicate Enabled(s: State, a: Action) {
    match a
    case Tick(at) => at >= s.clock
    case Edit(_) => true
    case Tamper(_, _) => true
    case Litter(p) => p !in s.receipts && p.run !in s.manifests
    case Start(run, _, _) =>
      && s.gate.None? && run !in s.manifests
      && (forall p | p in s.receipts :: p.run != run)
    case Reuse(p) =>
      && AtStage(s) && !s.gate.value.forced
      && IsLatest(s.receipts, StageAt(s.gate.value.next), Expected(s), p)
      && Reusable(s.receipts[p].receipt, Expected(s), s.logs, s.clock)
    case Begin(at) =>
      && AtStage(s) && at > s.clock
      && (|| s.gate.value.forced
          || (forall p | p in s.receipts :: !IsAttempt(s.receipts, StageAt(s.gate.value.next), Expected(s), p))
          || (exists p | p in s.receipts ::
                && IsLatest(s.receipts, StageAt(s.gate.value.next), Expected(s), p)
                && !Reusable(s.receipts[p].receipt, Expected(s), s.logs, s.clock)))
    case End(_, _, at) =>
      && s.gate.Some? && s.gate.value.phase == Running && s.gate.value.next < STAGES
      && at >= s.clock
      && var p := Path(s.gate.value.run, StageAt(s.gate.value.next));
         p in s.logs && p in s.receipts && s.receipts[p].Readable? && p in s.ledger
    case Record =>
      && s.gate.Some? && s.gate.value.phase.Unrecorded? && s.gate.value.next < STAGES
      && s.gate.value.phase.path in s.receipts && s.receipts[s.gate.value.phase.path].Readable?
      && s.gate.value.run in s.manifests
    case Finish =>
      && s.gate.Some? && s.gate.value.phase == Ready && !HasNext(s.gate.value)
      && s.gate.value.run in s.manifests
    case Interrupt => s.gate.Some?
  }

  function Outputs(output: seq<string>): Log {
    seq(|output|, i requires 0 <= i < |output| => Output(output[i]))
  }

  function Status(exit: int, source: string, inputs: Inputs): int {
    if source != inputs.source then 1 else exit
  }

  /** The end of a stage's log. */
  function Footer(exit: int, source: string, inputs: Inputs): Log {
    (if source != inputs.source then [SourceChanged] else []) + [StageExit(Status(exit, source, inputs))]
  }

  /** The receipt written before a command is started. */
  function OpenReceipt(inputs: Inputs, p: Path, at: Time): Receipt {
    Receipt(SCHEMA, IdentityOf(inputs, p.stage), CommandOf(p.stage), at, None, p, None, None)
  }

  function Evidence(m: Manifest): map<Stage, Path> {
    map st | st in m.stages :: m.stages[st].receipt
  }

  function Apply(s: State, a: Action): State
    requires Enabled(s, a)
  {
    match a
    case Tick(at) => s.(clock := at)
    case Edit(source) => s.(source := source)
    case Tamper(p, content) =>
      s.(logs := match content case Some(log) => s.logs[p := log] case None => s.logs - {p})
    case Litter(p) => s.(receipts := s.receipts[p := Unreadable])
    case Start(run, inputs, forced) =>
      s.(manifests := s.manifests[run := Manifest(SCHEMA, Sha256(inputs), map[], None)],
         gate := Some(GateRun(run, inputs, forced, 0, false, Ready)))
    case Reuse(p) => s.(gate := Some(s.gate.value.(phase := Unrecorded(p))))
    case Begin(at) =>
      var g := s.gate.value;
      var p := Path(g.run, StageAt(g.next));
      s.(clock := at,
         receipts := s.receipts[p := Readable(OpenReceipt(g.inputs, p, at))],
         logs := s.logs[p := [Header(IdentityOf(g.inputs, p.stage), CommandOf(p.stage))]],
         ledger := s.ledger[p := Attempt(p.stage, g.inputs, CommandOf(p.stage), at, None)],
         gate := Some(g.(phase := Running)))
    case End(exit, output, at) =>
      var g := s.gate.value;
      var p := Path(g.run, StageAt(g.next));
      var log := s.logs[p] + Outputs(output) + Footer(exit, s.source, g.inputs);
      var receipt := s.receipts[p].receipt.(
        status := Some(Status(exit, s.source, g.inputs)), finished := Some(at), logDigest := Some(Sha256(log)));
      s.(clock := at,
         receipts := s.receipts[p := Readable(receipt)],
         logs := s.logs[p := log],
         ledger := s.ledger[p := s.ledger[p].(outcome := Some(Outcome(exit, s.source, at, log)))],
         gate := Some(g.(phase := Unrecorded(p))))
    case Record =>
      var g := s.gate.value;
      var file := s.receipts[g.phase.path];
      var reference := Reference(g.phase.path, g.phase.path.run != g.run, file.receipt.status, Sha256(file));
      var m := s.manifests[g.run];
      s.(manifests := s.manifests[g.run := m.(stages := m.stages[StageAt(g.next) := reference])],
         gate := Some(g.(next := g.next + 1, failed := g.failed || file.receipt.status != Some(0), phase := Ready)))
    case Finish =>
      var g := s.gate.value;
      var m := s.manifests[g.run];
      var accepted := g.next == STAGES && !g.failed && s.source == g.inputs.source;
      s.(manifests := s.manifests[g.run := m.(accepted := Some(accepted))],
         verdicts := s.verdicts[g.run := Verdict(g.inputs, accepted, Evidence(m))],
         gate := None)
    case Interrupt => s.(gate := None)
  }

  // What single steps do, for proofs that need no other.

  lemma WorldDoes(s: State, at: Time, source: string)
    requires at >= s.clock
    ensures Enabled(s, Tick(at)) && Apply(s, Tick(at)) == s.(clock := at)
    ensures Enabled(s, Edit(source)) && Apply(s, Edit(source)) == s.(source := source)
  {
  }

  lemma TamperDoes(s: State, p: Path, content: Option<Log>)
    ensures Enabled(s, Tamper(p, content))
    ensures Apply(s, Tamper(p, content)) ==
            s.(logs := match content case Some(log) => s.logs[p := log] case None => s.logs - {p})
  {
  }

  lemma CanReuse(s: State, p: Path)
    ensures Enabled(s, Reuse(p)) <==>
            && AtStage(s) && !s.gate.value.forced
            && IsLatest(s.receipts, StageAt(s.gate.value.next), Expected(s), p)
            && Reusable(s.receipts[p].receipt, Expected(s), s.logs, s.clock)
    ensures Enabled(s, Reuse(p)) ==> Apply(s, Reuse(p)) == s.(gate := Some(s.gate.value.(phase := Unrecorded(p))))
  {
    hide IsLatest, IsAttempt, Reusable, StageAt;
  }

  lemma BeginDoes(s: State, at: Time)
    requires Enabled(s, Begin(at))
    ensures AtStage(s) && at > s.clock
    ensures var g := s.gate.value; var p := Path(g.run, StageAt(g.next));
            Apply(s, Begin(at)) == s.(
              clock := at,
              receipts := s.receipts[p := Readable(OpenReceipt(g.inputs, p, at))],
              logs := s.logs[p := [Header(IdentityOf(g.inputs, p.stage), CommandOf(p.stage))]],
              ledger := s.ledger[p := Attempt(p.stage, g.inputs, CommandOf(p.stage), at, None)],
              gate := Some(g.(phase := Running)))
  {
    hide IsLatest, IsAttempt, Reusable, OpenReceipt, IdentityOf, CommandOf, StageAt;
  }

  /** A stage that has no attempt yet, or whose newest is not good, can be begun, or any if forced. */
  lemma CanBegin(s: State, at: Time)
    ensures Enabled(s, Begin(at)) <==>
            && AtStage(s) && at > s.clock
            && (|| s.gate.value.forced
                || (forall p | p in s.receipts :: !IsAttempt(s.receipts, StageAt(s.gate.value.next), Expected(s), p))
                || (exists p | p in s.receipts ::
                      && IsLatest(s.receipts, StageAt(s.gate.value.next), Expected(s), p)
                      && !Reusable(s.receipts[p].receipt, Expected(s), s.logs, s.clock)))
  {
    hide IsLatest, IsAttempt, Reusable, IdentityOf, CommandOf, StageAt;
  }

  lemma EndDoes(s: State, exit: int, output: seq<string>, at: Time)
    requires Enabled(s, End(exit, output, at))
    ensures s.gate.Some? && s.gate.value.phase == Running && s.gate.value.next < STAGES && at >= s.clock
    ensures var g := s.gate.value; var p := Path(g.run, StageAt(g.next));
            && p in s.logs && p in s.receipts && s.receipts[p].Readable? && p in s.ledger
            && var log := s.logs[p] + Outputs(output) + Footer(exit, s.source, g.inputs);
               Apply(s, End(exit, output, at)) == s.(
                 clock := at,
                 receipts := s.receipts[p := Readable(s.receipts[p].receipt.(
                   status := Some(Status(exit, s.source, g.inputs)), finished := Some(at),
                   logDigest := Some(Sha256(log))))],
                 logs := s.logs[p := log],
                 ledger := s.ledger[p := s.ledger[p].(outcome := Some(Outcome(exit, s.source, at, log)))],
                 gate := Some(g.(phase := Unrecorded(p))))
  {
    hide Outputs, Footer, Status, StageAt;
  }

  lemma CanEnd(s: State, exit: int, output: seq<string>, at: Time)
    ensures Enabled(s, End(exit, output, at)) <==>
            && s.gate.Some? && s.gate.value.phase == Running && s.gate.value.next < STAGES && at >= s.clock
            && var p := Path(s.gate.value.run, StageAt(s.gate.value.next));
               p in s.logs && p in s.receipts && s.receipts[p].Readable? && p in s.ledger
  {
    hide StageAt;
  }

  lemma CanRecord(s: State)
    ensures Enabled(s, Record) <==>
            && s.gate.Some? && s.gate.value.phase.Unrecorded? && s.gate.value.next < STAGES
            && s.gate.value.phase.path in s.receipts && s.receipts[s.gate.value.phase.path].Readable?
            && s.gate.value.run in s.manifests
  {
  }

  lemma RecordDoes(s: State)
    requires Enabled(s, Record)
    ensures s.gate.Some? && s.gate.value.phase.Unrecorded? && s.gate.value.next < STAGES
    ensures var g := s.gate.value;
            && g.phase.path in s.receipts && s.receipts[g.phase.path].Readable? && g.run in s.manifests
            && var file, m := s.receipts[g.phase.path], s.manifests[g.run];
               var reference := Reference(g.phase.path, g.phase.path.run != g.run, file.receipt.status, Sha256(file));
               Apply(s, Record) == s.(
                 manifests := s.manifests[g.run := m.(stages := m.stages[StageAt(g.next) := reference])],
                 gate := Some(g.(next := g.next + 1, failed := g.failed || file.receipt.status != Some(0),
                                 phase := Ready)))
  {
    hide StageAt;
  }

  // ---------------------------------------------------------------------
  // Runs
  // ---------------------------------------------------------------------

  predicate Legal(s: State, trace: seq<Action>)
    decreases |trace|
  {
    trace == [] || (Enabled(s, trace[0]) && Legal(Apply(s, trace[0]), trace[1..]))
  }

  function Run(s: State, trace: seq<Action>): State
    requires Legal(s, trace)
    decreases |trace|
  {
    if trace == [] then s else Run(Apply(s, trace[0]), trace[1..])
  }

  /** A workspace without any evidence. */
  function Empty(clock: Time, source: string): State {
    State(clock, source, map[], map[], map[], None, map[], map[])
  }

  lemma {:induction false} RunConcat(s: State, a: seq<Action>, b: seq<Action>)
    requires Legal(s, a) && Legal(Run(s, a), b)
    ensures Legal(s, a + b) && Run(s, a + b) == Run(Run(s, a), b)
    decreases |a|
  {
    if a == [] {
      assert a + b == b;
    } else {
      assert (a + b)[0] == a[0] && (a + b)[1..] == a[1..] + b;
      RunConcat(Apply(s, a[0]), a[1..], b);
    }
  }

  lemma RunStep(s: State, a: Action)
    requires Enabled(s, a)
    ensures Legal(s, [a]) && Run(s, [a]) == Apply(s, a)
  {
    assert [a][1..] == [];
    assert Legal(Apply(s, a), []);
  }

  // ---------------------------------------------------------------------
  // Accepting a manifest
  // ---------------------------------------------------------------------

  /** `check_manifest` accepts: nothing it looks at makes it raise. */
  predicate Accepts(s: State, run: string, inputs: Inputs) {
    && run in s.manifests
    && var m := s.manifests[run];
       && m.schema == SCHEMA && m.accepted == Some(true) && m.identity == Sha256(inputs)
       && (forall st: Stage :: st in m.stages)
       && forall st: Stage :: StageAccepted(s, m.stages[st], st, IdentityOf(inputs, st))
  }

  predicate StageAccepted(s: State, ref: Reference, stage: Stage, expected: Digest<Identity>) {
    && ref.status == Some(0)
    && ref.receipt in s.receipts && Sha256(s.receipts[ref.receipt]) == ref.sha
    && s.receipts[ref.receipt].Readable?
    && Reusable(s.receipts[ref.receipt].receipt, expected, s.logs, s.clock)
    && NothingLaterFailed(s, stage, expected, s.receipts[ref.receipt].receipt.started)
  }

  predicate NothingLaterFailed(s: State, stage: Stage, expected: Digest<Identity>, started: Time) {
    forall p | p in s.receipts && p.stage == stage ::
      && s.receipts[p].Readable?
      && (s.receipts[p].receipt.identity == expected && s.receipts[p].receipt.started > started ==>
            Reusable(s.receipts[p].receipt, expected, s.logs, s.clock))
  }
}
