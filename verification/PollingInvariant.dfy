/** What every interleaving of the polling client's threads keeps. */
module PollingInvariant {
  import opened PollingSchedule
  import opened PollingProtocol

  /** The measurement has begun: every worker is warm without errors, the parent was told and
      answered, the start time is taken and the gate is open. */
  predicate Begun(s: State) {
    s.tripped && s.warmErrors == 0 && s.ready && s.measured && s.go
  }

  function Share(u: Setup, index: nat): nat
    requires ValidSetup(u) && index < u.clients
  {
    Offered(index, u.clients, u.views, u.seconds)
  }

  predicate WorkerOk(u: Setup, s: State, index: nat, w: Worker)
    requires ValidSetup(u) && index < u.clients
  {
    match w
    case Unborn => s.main.Launching? && s.main.next <= index && !s.tripped
    case Warming(k) => u.controlled && !s.tripped && k <= |Views(u, index)|
    case AtBarrier => u.controlled
    case AtGo => u.controlled && s.tripped
    case Waiting(j) => j <= Share(u, index) && (u.controlled ==> Begun(s))
    case Fetching(j) => j < Share(u, index) && (u.controlled ==> Begun(s))
    case Ended(j, crashed) =>
      && j <= Share(u, index) && (j > 0 && u.controlled ==> Begun(s))
      && (if crashed then (u.controlled && !s.tripped) || j < Share(u, index)
          else (u.controlled ==> s.tripped) && (j == Share(u, index) || s.failing))
  }

  predicate WorkersOk(u: Setup, s: State)
    requires ValidSetup(u) && |s.workers| == u.clients
  {
    forall i | 0 <= i < u.clients :: WorkerOk(u, s, i, s.workers[i])
  }

  /** Workers are started in order. */
  predicate LaunchOk(u: Setup, s: State)
    requires |s.workers| == u.clients
  {
    s.main.Launching? ==> s.main.next <= u.clients && forall i | s.main.next <= i < u.clients :: s.workers[i].Unborn?
  }

  /** The main thread came to its end without an exception, and so did every worker come to its own. */
  predicate WellJoined(u: Setup, s: State) {
    AllEnded(s) && (u.controlled ==> Begun(s))
  }

  predicate MainOk(u: Setup, s: State) {
    match s.main
    case Launching(_) => !s.tripped && !s.ready && !s.measured && !s.go && !s.stop && !s.failing
    case MainAtBarrier => u.controlled && !s.ready && !s.measured && !s.go && !s.stop && !s.failing
    case Checking => u.controlled && s.tripped && !s.measured && !s.go && !s.stop && !s.failing
    case AtReadline => u.controlled && s.tripped && s.warmErrors == 0 && s.ready && !s.measured && !s.go && !s.stop
          && !s.failing
    case Measuring => u.controlled && s.tripped && s.warmErrors == 0 && s.ready && !s.measured && !s.go && !s.stop
          && !s.failing
    case Opening => u.controlled && s.tripped && s.warmErrors == 0 && s.ready && s.measured && !s.go && !s.stop
          && !s.failing
    case Joining => !s.stop && !s.failing && (u.controlled ==> Begun(s))
    case Closing => !s.stop && (s.failing || WellJoined(u, s))
    case Releasing => s.stop && (s.failing || WellJoined(u, s))
    case FinalJoin => s.stop && s.go && (s.failing || WellJoined(u, s))
    case Printed(a, b) => s.stop && s.go && !s.failing && WellJoined(u, s) && a == s.success && b == s.failure
    case Raised => s.stop && s.go && s.failing && AllEnded(s)
  }

  predicate GateOk(u: Setup, s: State) {
    && (s.go && !s.stop && u.controlled ==> Begun(s))
    && (s.tripped ==> u.controlled && !s.main.Launching?)
    && (s.measured ==> s.tripped && s.warmErrors == 0 && s.ready)
    && (s.stop ==> s.main.Releasing? || s.main.FinalJoin? || IsFinal(s))
    && (s.stop && !s.failing ==> AllEnded(s))
  }

  function Polled(w: Worker): nat {
    if w.Waiting? || w.Fetching? || w.Ended? then w.polled else 0
  }

  function SumPolled(workers: seq<Worker>): nat {
    if workers == [] then 0 else SumPolled(workers[..|workers| - 1]) + Polled(workers[|workers| - 1])
  }

  ghost predicate Inv(u: Setup, s: State) {
    && ValidSetup(u) && |s.workers| == u.clients
    && WorkersOk(u, s) && LaunchOk(u, s) && MainOk(u, s) && GateOk(u, s)
    && s.success + s.failure == SumPolled(s.workers)
  }

  lemma {:induction false} SumMoves(workers: seq<Worker>, i: nat, w: Worker)
    requires i < |workers|
    ensures SumPolled(workers[i := w]) == SumPolled(workers) - Polled(workers[i]) + Polled(w)
  {
    hide Polled;
    var n := |workers| - 1;
    if i < n {
      SumMoves(workers[..n], i, w);
      assert workers[i := w][..n] == workers[..n][i := w];
    } else {
      assert workers[i := w][..n] == workers[..n];
    }
  }

  lemma {:induction false} SumOfNone(workers: seq<Worker>)
    requires forall i | 0 <= i < |workers| :: Polled(workers[i]) == 0
    ensures SumPolled(workers) == 0
  {
    hide Polled;
    if workers != [] { SumOfNone(workers[..|workers| - 1]); }
  }

  lemma InitialIsOk(u: Setup, now: real)
    requires ValidSetup(u)
    ensures Inv(u, Initial(u, now))
  {
    hide SumPolled;
    SumOfNone(Initial(u, now).workers);
  }

  lemma InTimeIs(u: Setup, s: State, index: nat, iteration: nat)
    requires ValidSetup(u) && index < u.clients
    ensures InTime(u, s, index, iteration) <==> iteration < Share(u, index)
  {
    hide Due, Assigned, Offered;
    DueInTime(s.started, index, u.clients, u.views, u.seconds, iteration);
  }

  // ---------------------------------------------------------------------
  // A worker's step
  // ---------------------------------------------------------------------

  /** The worker that moves stays in order. */
  lemma MovedOk(u: Setup, s: State, step: Step)
    requires Inv(u, s) && IsWorkerStep(step) && Enabled(u, s, step)
    ensures WorkerOk(u, Apply(u, s, step), step.index, Apply(u, s, step).workers[step.index])
  {
    hide InTime, Share, Views, SumPolled, LaunchOk, MainOk;
    var i := step.index;
    assert WorkerOk(u, s, i, s.workers[i]);
    if s.workers[i].Waiting? { InTimeIs(u, s, i, s.workers[i].polled); }
  }

  /** The worker that moves has been started, has not ended, and if it is warming up or waits at
      the barrier, nothing has begun. */
  lemma MoverIs(u: Setup, s: State, step: Step)
    requires Inv(u, s) && IsWorkerStep(step) && Enabled(u, s, step)
    ensures step.index < |s.workers| && !s.workers[step.index].Ended? && !s.workers[step.index].Unborn?
    ensures step.WarmUp? ==> !s.tripped
  {
    hide InTime, Share, Views, SumPolled, LaunchOk, MainOk, GateOk, Moved;
    assert WorkerOk(u, s, step.index, s.workers[step.index]);
  }

  lemma ApplyFlags(u: Setup, s: State, step: Step)
    requires ValidSetup(u) && |s.workers| == u.clients && IsWorkerStep(step) && Enabled(u, s, step)
    ensures step.index < u.clients
    ensures var t := Apply(u, s, step);
            && t.main == s.main && t.tripped == s.tripped && t.ready == s.ready && t.measured == s.measured
            && t.go == s.go && t.stop == s.stop && t.failing == s.failing
            && (!step.WarmUp? ==> t.warmErrors == s.warmErrors)
            && t.workers == s.workers[step.index := Moved(s, step, s.workers[step.index])]
  {
    hide WorkerEnabled, Moved;
  }

  /** A worker's step leaves the shared flags alone; a warm-up error comes before the barrier trips. */
  lemma FlagsStay(u: Setup, s: State, step: Step)
    requires Inv(u, s) && IsWorkerStep(step) && Enabled(u, s, step)
    ensures step.index < u.clients && !s.workers[step.index].Ended? && !s.workers[step.index].Unborn?
    ensures var t := Apply(u, s, step);
            && t.main == s.main && t.tripped == s.tripped && t.ready == s.ready && t.measured == s.measured
            && t.go == s.go && t.stop == s.stop && t.failing == s.failing
            && (s.tripped ==> t.warmErrors == s.warmErrors) && (Begun(t) <==> Begun(s))
            && t.workers == s.workers[step.index := Moved(s, step, s.workers[step.index])]
  {
    hide Apply, Enabled, Moved, WorkersOk, LaunchOk, MainOk, GateOk, SumPolled;
    MoverIs(u, s, step);
    ApplyFlags(u, s, step);
  }

  lemma WorkerStepKeepsWorkers(u: Setup, s: State, step: Step)
    requires Inv(u, s) && IsWorkerStep(step) && Enabled(u, s, step)
    ensures WorkersOk(u, Apply(u, s, step))
  {
    hide InTime, Share, Views, SumPolled, LaunchOk, MainOk, GateOk, Enabled, Begun, Apply, Moved;
    var t := Apply(u, s, step);
    FlagsStay(u, s, step);
    MovedOk(u, s, step);
    forall j | 0 <= j < u.clients
      ensures WorkerOk(u, t, j, t.workers[j])
    {
      assert WorkerOk(u, s, j, s.workers[j]);
    }
  }

  lemma MoveCounts(u: Setup, s: State, step: Step)
    requires ValidSetup(u) && |s.workers| == u.clients && IsWorkerStep(step) && Enabled(u, s, step)
    ensures var t := Apply(u, s, step);
            && step.index < u.clients
            && t.success + t.failure - Polled(t.workers[step.index])
                  == s.success + s.failure - Polled(s.workers[step.index])
  {
    hide InTime, Views;
  }

  lemma WorkerStepCounts(u: Setup, s: State, step: Step)
    requires Inv(u, s) && IsWorkerStep(step) && Enabled(u, s, step)
    ensures var t := Apply(u, s, step); t.success + t.failure == SumPolled(t.workers)
  {
    hide SumPolled, LaunchOk, MainOk, GateOk, WorkersOk, Apply, Enabled, Moved;
    ApplyFlags(u, s, step);
    MoveCounts(u, s, step);
    SumMoves(s.workers, step.index, Moved(s, step, s.workers[step.index]));
  }

  lemma WorkerStepKeepsMain(u: Setup, s: State, step: Step)
    requires Inv(u, s) && IsWorkerStep(step) && Enabled(u, s, step)
    ensures LaunchOk(u, Apply(u, s, step)) && MainOk(u, Apply(u, s, step)) && GateOk(u, Apply(u, s, step))
  {
    hide InTime, Share, Views, SumPolled, WorkersOk, Begun, Apply, Moved, Enabled;
    FlagsStay(u, s, step);
    assert !AllEnded(s) by { assert !s.workers[step.index].Ended?; }
  }

  // ---------------------------------------------------------------------
  // A step of the main thread
  // ---------------------------------------------------------------------

  lemma LaunchKeeps(u: Setup, s: State)
    requires Inv(u, s) && Enabled(u, s, Launch)
    ensures Inv(u, Apply(u, s, Launch))
  {
    hide InTime, Share, Views, SumPolled;
    var t := Apply(u, s, Launch);
    if s.main.next < u.clients {
      SumMoves(s.workers, s.main.next, t.workers[s.main.next]);
      assert WorkerOk(u, s, s.main.next, s.workers[s.main.next]);
    }
    forall j | 0 <= j < u.clients
      ensures WorkerOk(u, t, j, t.workers[j])
    {
      assert WorkerOk(u, s, j, s.workers[j]);
    }
  }

  lemma TripKeeps(u: Setup, s: State)
    requires Inv(u, s) && Enabled(u, s, Trip)
    ensures Inv(u, Apply(u, s, Trip))
  {
    hide InTime, Share, Views, SumPolled;
    var t := Apply(u, s, Trip);
    forall j | 0 <= j < u.clients
      ensures WorkerOk(u, t, j, t.workers[j])
    {
      assert s.workers[j].AtBarrier?;
    }
  }

  /** Any other step of the main thread leaves the workers and the counts alone. */
  predicate IsPlainMainStep(step: Step) {
    !IsWorkerStep(step) && !step.Launch? && !step.Trip?
  }

  lemma PlainKeepsWorkers(u: Setup, s: State, step: Step)
    requires Inv(u, s) && IsPlainMainStep(step) && Enabled(u, s, step)
    ensures WorkersOk(u, Apply(u, s, step)) && Apply(u, s, step).workers == s.workers
    ensures Apply(u, s, step).success == s.success && Apply(u, s, step).failure == s.failure
  {
    hide InTime, Share, Views, SumPolled, AllEnded, LaunchOk;
    var t := Apply(u, s, step);
    forall j | 0 <= j < u.clients
      ensures WorkerOk(u, t, j, t.workers[j])
    {
      assert WorkerOk(u, s, j, s.workers[j]);
    }
  }

  lemma PlainKeepsMain(u: Setup, s: State, step: Step)
    requires Inv(u, s) && IsPlainMainStep(step) && Enabled(u, s, step)
    ensures LaunchOk(u, Apply(u, s, step)) && MainOk(u, Apply(u, s, step)) && GateOk(u, Apply(u, s, step))
  {
    hide InTime, Share, Views, SumPolled, WorkersOk;
  }

  /** Every step of every thread keeps the invariant. */
  lemma StepKeeps(u: Setup, s: State, step: Step)
    requires Inv(u, s) && Enabled(u, s, step)
    ensures Inv(u, Apply(u, s, step))
  {
    hide Enabled, Apply, WorkersOk, LaunchOk, MainOk, GateOk, SumPolled;
    if IsWorkerStep(step) {
      WorkerStepKeepsWorkers(u, s, step);
      WorkerStepCounts(u, s, step);
      WorkerStepKeepsMain(u, s, step);
    } else if step.Launch? {
      LaunchKeeps(u, s);
    } else if step.Trip? {
      TripKeeps(u, s);
    } else {
      PlainKeepsWorkers(u, s, step);
      PlainKeepsMain(u, s, step);
    }
  }

  /** So does every run, however the threads interleave and whatever goes wrong. */
  lemma {:induction false} RunKeeps(u: Setup, s: State, steps: seq<Step>)
    requires Inv(u, s) && Legal(u, s, steps)
    ensures |Run(u, s, steps).workers| == u.clients
    ensures Inv(u, Run(u, s, steps))
    decreases |steps|
  {
    hide Enabled, Apply, WorkersOk, LaunchOk, MainOk, GateOk, SumPolled;
    if steps != [] {
      StepKeeps(u, s, steps[0]);
      RunKeeps(u, Apply(u, s, steps[0]), steps[1..]);
    }
  }
}
