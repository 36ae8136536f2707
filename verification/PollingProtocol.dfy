/** The threads of the polling client: warm-up, barrier, start signal, stop signal and the join,
    with every way their steps can interleave. */
module PollingProtocol {
  import opened PollingSchedule

  datatype Setup = Setup(clients: nat, views: nat, seconds: int, controlled: bool)

  predicate ValidSetup(u: Setup) {
    u.clients > 0 && u.views > 0
  }

  /** Where a worker is. `polled` counts its own requests; it is kept to say what the total is made of. */
  datatype Worker =
    | Unborn
    | Warming(next: nat)
    | AtBarrier
    | AtGo
    | Waiting(polled: nat)
    | Fetching(polled: nat)
    | Ended(polled: nat, crashed: bool)

  datatype Main =
    | Launching(next: nat)
    | MainAtBarrier
    | Checking
    | AtReadline
    | Measuring
    | Opening
    | Joining
    | Closing
    | Releasing
    | FinalJoin
    | Printed(success: nat, failure: nat)
    | Raised

  datatype State = State(
    main: Main,
    workers: seq<Worker>,
    warmErrors: nat,
    tripped: bool,
    ready: bool,
    measured: bool,
    go: bool,
    stop: bool,
    failing: bool,
    started: real,
    success: nat,
    failure: nat)

  /** What one thread does next. `Crash` is an exception in a worker that its request does not
      catch, `Interrupt` one in the main thread, such as a keyboard interrupt. */
  datatype Step =
    | Launch
    | WarmUp(index: nat, ok: bool)
    | Arrive(index: nat)
    | Trip
    | Leave(index: nat)
    | MainLeaves
    | Check
    | ReadLine(isGo: bool)
    | Measure(now: real)
    | Open
    | Released(index: nat)
    | Proceed(index: nat)
    | Cancel(index: nat)
    | Exhaust(index: nat)
    | Fetched(index: nat, good: bool)
    | Joined
    | Close
    | Release
    | Finish
    | Crash(index: nat)
    | Interrupt

  predicate IsFault(step: Step) {
    step.Crash? || step.Interrupt?
  }

  function Initial(u: Setup, now: real): State {
    State(Launching(0), seq(u.clients, _ => Unborn), 0, false, false, false, false, false, false, now, 0, 0)
  }

  predicate AllEnded(s: State) {
    forall i | 0 <= i < |s.workers| :: s.workers[i].Ended?
  }

  predicate AllAtBarrier(s: State) {
    forall i | 0 <= i < |s.workers| :: s.workers[i].AtBarrier?
  }

  function Views(u: Setup, index: nat): seq<nat>
    requires ValidSetup(u) && index < u.clients
  {
    Assigned(index, u.clients, u.views)
  }

  predicate InTime(u: Setup, s: State, index: nat, iteration: nat)
    requires ValidSetup(u) && index < u.clients
  {
    FirstSlot(index, u.clients, u.views);
    Due(s.started, index, Max(u.clients, u.views), iteration, |Views(u, index)|) < s.started + u.seconds as real
  }

  /** Whether the main thread is inside the block that ends with stopping everyone. */
  predicate Guarded(main: Main) {
    main.MainAtBarrier? || main.Checking? || main.AtReadline? || main.Measuring? || main.Opening? || main.Joining?
  }

  predicate WorkerEnabled(u: Setup, s: State, step: Step, index: nat)
    requires ValidSetup(u) && |s.workers| == u.clients && index < u.clients
  {
    var w := s.workers[index];
    match step
    case WarmUp(_, _) => w.Warming? && w.next < |Views(u, index)|
    case Arrive(_) => w.Warming? && w.next >= |Views(u, index)|
    case Leave(_) => w.AtBarrier? && s.tripped
    case Released(_) => w.AtGo? && s.go
    case Proceed(_) => w.Waiting? && InTime(u, s, index, w.polled) && !s.stop
    case Cancel(_) => w.Waiting? && InTime(u, s, index, w.polled) && s.stop
    case Exhaust(_) => w.Waiting? && !InTime(u, s, index, w.polled)
    case Fetched(_, _) => w.Fetching?
    case Crash(_) => w.Warming? || w.Fetching?
    case _ => false
  }

  predicate MainEnabled(u: Setup, s: State, step: Step) {
    match step
    case Launch => s.main.Launching?
    case Trip => s.main.MainAtBarrier? && !s.tripped && AllAtBarrier(s)
    case MainLeaves => s.main.MainAtBarrier? && s.tripped
    case Check => s.main.Checking?
    case ReadLine(_) => s.main.AtReadline?
    case Measure(_) => s.main.Measuring?
    case Open => s.main.Opening?
    case Joined => s.main.Joining? && AllEnded(s)
    case Close => s.main.Closing?
    case Release => s.main.Releasing?
    case Finish => s.main.FinalJoin? && AllEnded(s)
    case Interrupt => Guarded(s.main)
    case _ => false
  }

  predicate IsWorkerStep(step: Step) {
    step.WarmUp? || step.Arrive? || step.Leave? || step.Released? || step.Proceed? || step.Cancel? || step.Exhaust?
    || step.Fetched? || step.Crash?
  }

  predicate Enabled(u: Setup, s: State, step: Step)
    requires ValidSetup(u) && |s.workers| == u.clients
  {
    if IsWorkerStep(step) then step.index < u.clients && WorkerEnabled(u, s, step, step.index)
    else MainEnabled(u, s, step)
  }

  /** What becomes of the worker that takes a step. */
  function Moved(s: State, step: Step, w: Worker): Worker {
    match step
    case WarmUp(_, _) => if w.Warming? then Warming(w.next + 1) else w
    case Arrive(_) => AtBarrier
    case Leave(_) => AtGo
    case Released(_) => if s.stop then Ended(0, false) else Waiting(0)
    case Proceed(_) => if w.Waiting? then Fetching(w.polled) else w
    case Cancel(_) => if w.Waiting? then Ended(w.polled, false) else w
    case Exhaust(_) => if w.Waiting? then Ended(w.polled, false) else w
    case Fetched(_, _) => if w.Fetching? then Waiting(w.polled + 1) else w
    case Crash(_) => Ended(if w.Fetching? then w.polled else 0, true)
    case _ => w
  }

  function ApplyWorker(s: State, step: Step, index: nat): (t: State)
    requires index < |s.workers|
    ensures |t.workers| == |s.workers|
  {
    s.(workers := s.workers[index := Moved(s, step, s.workers[index])],
       warmErrors := s.warmErrors + (if step.WarmUp? && !step.ok then 1 else 0),
       success := s.success + (if step.Fetched? && step.good then 1 else 0),
       failure := s.failure + (if step.Fetched? && !step.good then 1 else 0))
  }

  /** Where the main thread goes next. */
  function NextMain(u: Setup, s: State, step: Step): Main {
    match step
    case Launch =>
      if s.main.Launching? && s.main.next < u.clients then Launching(s.main.next + 1)
      else if u.controlled then MainAtBarrier else Joining
    case MainLeaves => Checking
    case Check => if s.warmErrors > 0 then Closing else AtReadline
    case ReadLine(isGo) => if isGo then Measuring else Closing
    case Measure(_) => Opening
    case Open => Joining
    case Joined => Closing
    case Close => Releasing
    case Release => FinalJoin
    case Finish => if s.failing then Raised else Printed(s.success, s.failure)
    case Interrupt => Closing
    case _ => s.main
  }

  predicate Fails(s: State, step: Step) {
    (step.Check? && s.warmErrors > 0) || (step.ReadLine? && !step.isGo) || step.Interrupt?
  }

  function ApplyMain(u: Setup, s: State, step: Step): (t: State)
    requires |s.workers| == u.clients
    ensures |t.workers| == |s.workers|
  {
    s.(main := NextMain(u, s, step),
       workers := if step.Launch? && s.main.Launching? && s.main.next < u.clients then
                    s.workers[s.main.next := if u.controlled then Warming(0) else Waiting(0)]
                  else s.workers,
       tripped := s.tripped || step.Trip?,
       ready := s.ready || (step.Check? && s.warmErrors == 0),
       measured := s.measured || step.Measure?,
       started := if step.Measure? then step.now else s.started,
       go := s.go || step.Open? || step.Release?,
       stop := s.stop || step.Close?,
       failing := s.failing || Fails(s, step))
  }

  function Apply(u: Setup, s: State, step: Step): (t: State)
    requires ValidSetup(u) && |s.workers| == u.clients && Enabled(u, s, step)
    ensures |t.workers| == |s.workers|
  {
    if IsWorkerStep(step) then ApplyWorker(s, step, step.index) else ApplyMain(u, s, step)
  }

  predicate Legal(u: Setup, s: State, steps: seq<Step>)
    requires ValidSetup(u) && |s.workers| == u.clients
    decreases |steps|
  {
    steps == [] || (Enabled(u, s, steps[0]) && Legal(u, Apply(u, s, steps[0]), steps[1..]))
  }

  function Run(u: Setup, s: State, steps: seq<Step>): State
    requires ValidSetup(u) && |s.workers| == u.clients && Legal(u, s, steps)
    decreases |steps|
  {
    if steps == [] then s else Run(u, Apply(u, s, steps[0]), steps[1..])
  }

  predicate IsFinal(s: State) {
    s.main.Printed? || s.main.Raised?
  }
}
