/** When the polling client comes to an end: every run is bounded, and a run can be completed
    unless a thread was lost before the barrier. */
module PollingProgress {
  import opened PollingSchedule
  import opened PollingProtocol
  import opened PollingInvariant
  import opened PollingTheorems

  // ---------------------------------------------------------------------
  // Every run is bounded
  // ---------------------------------------------------------------------

  /** How many steps a worker can still take, at most. */
  function WorkerRank(u: Setup, index: nat, w: Worker): int
    requires ValidSetup(u) && index < u.clients
  {
    var views, share := |Views(u, index)|, Share(u, index);
    match w
    case Unborn => views + 2 * share + 6
    case Warming(k) => views - k + 2 * share + 5
    case AtBarrier => 2 * share + 4
    case AtGo => 2 * share + 3
    case Waiting(j) => 2 * (share - j) + 2
    case Fetching(j) => 2 * (share - j) + 1
    case Ended(_, _) => 0
  }

  function MainRank(u: Setup, main: Main): int {
    match main
    case Launching(next) => u.clients - next + 11
    case MainAtBarrier => 10
    case Checking => 9
    case AtReadline => 8
    case Measuring => 7
    case Opening => 6
    case Joining => 5
    case Closing => 4
    case Releasing => 3
    case FinalJoin => 2
    case Printed(_, _) => 0
    case Raised => 0
  }

  function RankSum(u: Setup, workers: seq<Worker>): int
    requires ValidSetup(u) && |workers| <= u.clients
  {
    if workers == [] then 0
    else RankSum(u, workers[..|workers| - 1]) + WorkerRank(u, |workers| - 1, workers[|workers| - 1])
  }

  function Rank(u: Setup, s: State): int
    requires ValidSetup(u) && |s.workers| == u.clients
  {
    MainRank(u, s.main) + (if s.tripped then 0 else 1) + RankSum(u, s.workers)
  }

  lemma {:induction false} RankMoves(u: Setup, workers: seq<Worker>, i: nat, w: Worker)
    requires ValidSetup(u) && i < |workers| <= u.clients
    ensures RankSum(u, workers[i := w]) == RankSum(u, workers) - WorkerRank(u, i, workers[i]) + WorkerRank(u, i, w)
  {
    hide WorkerRank;
    var n := |workers| - 1;
    if i < n {
      RankMoves(u, workers[..n], i, w);
      assert workers[i := w][..n] == workers[..n][i := w];
    } else {
      assert workers[i := w][..n] == workers[..n];
    }
  }

  lemma WorkerRankFalls(u: Setup, s: State, step: Step)
    requires Inv(u, s) && IsWorkerStep(step) && Enabled(u, s, step)
    ensures WorkerRank(u, step.index, Moved(s, step, s.workers[step.index]))
              < WorkerRank(u, step.index, s.workers[step.index])
  {
    hide InTime, Share, Views, SumPolled, LaunchOk, MainOk, GateOk;
    assert WorkerOk(u, s, step.index, s.workers[step.index]);
  }

  lemma MainRankFalls(u: Setup, s: State, step: Step)
    requires Inv(u, s) && IsPlainMainStep(step) && Enabled(u, s, step)
    ensures MainRank(u, Apply(u, s, step).main) < MainRank(u, s.main) && Apply(u, s, step).tripped == s.tripped
    ensures Apply(u, s, step).workers == s.workers
  {
    hide AllEnded, SumPolled, WorkersOk, GateOk, MainOk;
  }

  lemma LaunchRankFalls(u: Setup, s: State)
    requires Inv(u, s) && Enabled(u, s, Launch)
    ensures Rank(u, Apply(u, s, Launch)) < Rank(u, s)
  {
    hide RankSum, Share, Views, SumPolled, WorkersOk, MainOk, GateOk;
    if s.main.next < u.clients {
      RankMoves(u, s.workers, s.main.next, Apply(u, s, Launch).workers[s.main.next]);
    }
  }

  lemma StepRankFalls(u: Setup, s: State, step: Step)
    requires Inv(u, s) && Enabled(u, s, step)
    ensures Rank(u, Apply(u, s, step)) < Rank(u, s)
  {
    hide RankSum, WorkerRank, MainRank, Moved, ApplyMain, Enabled, SumPolled, WorkersOk, LaunchOk, MainOk, GateOk,
          Apply;
    if IsWorkerStep(step) {
      ApplyFlags(u, s, step);
      WorkerRankFalls(u, s, step);
      RankMoves(u, s.workers, step.index, Moved(s, step, s.workers[step.index]));
    } else if step.Launch? {
      LaunchRankFalls(u, s);
    } else if step.Trip? {
      TripRankFalls(u, s);
    } else {
      MainRankFalls(u, s, step);
    }
  }

  lemma TripRankFalls(u: Setup, s: State)
    requires Inv(u, s) && Enabled(u, s, Trip)
    ensures Rank(u, Apply(u, s, Trip)) < Rank(u, s)
  {
    hide RankSum, SumPolled, WorkersOk, LaunchOk, MainOk, GateOk, AllAtBarrier;
  }

  lemma {:induction false} RankSumNatural(u: Setup, s: State, n: nat)
    requires Inv(u, s) && n <= u.clients
    ensures RankSum(u, s.workers[..n]) >= 0
  {
    hide SumPolled, LaunchOk, MainOk, GateOk, Share, Views, Begun;
    if n > 0 {
      assert s.workers[..n][..n - 1] == s.workers[..n - 1];
      RankSumNatural(u, s, n - 1);
      assert WorkerOk(u, s, n - 1, s.workers[n - 1]);
    }
  }

  lemma RankNatural(u: Setup, s: State)
    requires Inv(u, s)
    ensures Rank(u, s) >= 0
  {
    hide RankSum, SumPolled, WorkersOk, MainOk, GateOk;
    RankSumNatural(u, s, u.clients);
    assert s.workers[..u.clients] == s.workers;
  }

  /** No run goes on for ever: whatever happens, the number of steps is bounded beforehand. */
  lemma {:induction false} RunsAreBounded(u: Setup, s: State, steps: seq<Step>)
    requires Inv(u, s) && Legal(u, s, steps)
    ensures |steps| <= Rank(u, s)
    decreases |steps|
  {
    hide Rank, Inv, Enabled, Apply;
    RankNatural(u, s);
    if steps != [] {
      InvHasWorkers(u, s);
      StepRankFalls(u, s, steps[0]);
      StepKeeps(u, s, steps[0]);
      RunsAreBounded(u, Apply(u, s, steps[0]), steps[1..]);
    }
  }

  lemma InvHasWorkers(u: Setup, s: State)
    requires Inv(u, s)
    ensures ValidSetup(u) && |s.workers| == u.clients
  {
  }

  // ---------------------------------------------------------------------
  // Coming to the end
  // ---------------------------------------------------------------------

  /** The barrier can never trip, and somebody waits for it: a worker died while the main thread has
      yet to pass, or the main thread has gone on without it while a worker has yet to pass. */
  predicate Blocked(u: Setup, s: State)
    requires |s.workers| == u.clients
  {
    && u.controlled && !s.tripped
    && (if s.main.Launching? || s.main.MainAtBarrier? then exists i | 0 <= i < u.clients :: s.workers[i].Ended?
        else exists i | 0 <= i < u.clients :: !s.workers[i].Ended?)
  }

  predicate Ordinary(steps: seq<Step>) {
    forall i | 0 <= i < |steps| :: !IsFault(steps[i])
  }

  /** The step a worker can take next, if it does not have to wait for others. */
  function WorkerNext(u: Setup, s: State, i: nat): Step
    requires ValidSetup(u) && |s.workers| == u.clients && i < u.clients
  {
    match s.workers[i]
    case Warming(k) => if k < |Views(u, i)| then WarmUp(i, true) else Arrive(i)
    case AtBarrier => Leave(i)
    case AtGo => Released(i)
    case Waiting(j) => if !InTime(u, s, i, j) then Exhaust(i) else if s.stop then Cancel(i) else Proceed(i)
    case Fetching(_) => Fetched(i, true)
    case _ => Launch
  }

  function MainNext(s: State): Step {
    match s.main
    case Launching(_) => Launch
    case MainAtBarrier => if s.tripped then MainLeaves else Trip
    case Checking => Check
    case AtReadline => ReadLine(true)
    case Measuring => Measure(0.0)
    case Opening => Open
    case Joining => Joined
    case Closing => Close
    case Releasing => Release
    case _ => Finish
  }

  /** Whether a worker has to wait: for the barrier, or for the gate. */
  predicate Waits(s: State, w: Worker) {
    w.Unborn? || w.Ended? || (w.AtBarrier? && !s.tripped) || (w.AtGo? && !s.go)
  }

  lemma WorkerCanMove(u: Setup, s: State, i: nat)
    requires ValidSetup(u) && |s.workers| == u.clients && i < u.clients && !Waits(s, s.workers[i])
    ensures Enabled(u, s, WorkerNext(u, s, i)) && !IsFault(WorkerNext(u, s, i))
  {
    hide InTime, Views;
  }

  /** When every worker waits, the main thread can move unless the barrier is lost. */
  lemma MainCanMove(u: Setup, s: State)
    requires Inv(u, s) && !IsFinal(s) && !Blocked(u, s)
    requires forall i | 0 <= i < u.clients :: Waits(s, s.workers[i])
    ensures Enabled(u, s, MainNext(s)) && !IsFault(MainNext(s))
  {
    hide SumPolled, Share, Views, LaunchOk, GateOk;
    if s.main.MainAtBarrier? || s.main.Joining? || s.main.FinalJoin? {
      forall i | 0 <= i < u.clients
        ensures s.main.MainAtBarrier? && !s.tripped ==> s.workers[i].AtBarrier?
        ensures !s.main.MainAtBarrier? ==> s.workers[i].Ended?
      {
        assert WorkerOk(u, s, i, s.workers[i]);
      }
    }
  }

  /** Somebody can go on with ordinary steps. */
  ghost predicate CanMove(u: Setup, s: State)
    requires ValidSetup(u) && |s.workers| == u.clients
  {
    exists step: Step :: Enabled(u, s, step) && !IsFault(step)
  }

  /** No state in which everybody waits for somebody else, unless the barrier is lost. */
  lemma NobodyIsStuck(u: Setup, s: State)
    requires Inv(u, s) && !IsFinal(s) && !Blocked(u, s)
    ensures CanMove(u, s)
  {
    hide Inv, Enabled, WorkerNext, MainNext, Waits, Blocked, IsFinal;
    InvHasWorkers(u, s);
    if i :| 0 <= i < u.clients && !Waits(s, s.workers[i]) {
      WorkerCanMove(u, s, i);
    } else {
      MainCanMove(u, s);
    }
  }

  lemma BeforeTheBarrier(u: Setup, s: State, step: Step)
    requires Inv(u, s) && u.controlled && !s.tripped && IsWorkerStep(step) && Enabled(u, s, step) && !IsFault(step)
    ensures !s.workers[step.index].Ended? && !Moved(s, step, s.workers[step.index]).Ended?
  {
    hide InTime, Views, Share, SumPolled, GateOk, MainOk, LaunchOk;
    assert WorkerOk(u, s, step.index, s.workers[step.index]);
  }

  lemma WorkerBlockedStays(u: Setup, s: State, step: Step)
    requires Inv(u, s) && IsWorkerStep(step) && Enabled(u, s, step) && !IsFault(step)
    ensures Blocked(u, Apply(u, s, step)) <==> Blocked(u, s)
  {
    hide Inv, Enabled, Apply, Moved;
    InvHasWorkers(u, s);
    ApplyFlags(u, s, step);
    if u.controlled && !s.tripped {
      BeforeTheBarrier(u, s, step);
      var t := Apply(u, s, step);
      forall i | 0 <= i < u.clients
        ensures s.workers[i].Ended? <==> t.workers[i].Ended?
      {
      }
    }
  }

  lemma MainBlockedStays(u: Setup, s: State, step: Step)
    requires Inv(u, s) && !IsWorkerStep(step) && Enabled(u, s, step) && !IsFault(step)
    ensures Blocked(u, Apply(u, s, step)) <==> Blocked(u, s)
  {
    hide InTime, Views, Share, SumPolled, GateOk;
    var t := Apply(u, s, step);
    forall i | 0 <= i < u.clients
      ensures s.workers[i].Ended? <==> t.workers[i].Ended?
    {
      assert WorkerOk(u, s, i, s.workers[i]);
    }
  }

  /** Ordinary steps neither lose the barrier nor make up for it. */
  lemma BlockedStays(u: Setup, s: State, step: Step)
    requires Inv(u, s) && Enabled(u, s, step) && !IsFault(step)
    ensures Blocked(u, Apply(u, s, step)) <==> Blocked(u, s)
  {
    hide *;
    if IsWorkerStep(step) { WorkerBlockedStays(u, s, step); } else { MainBlockedStays(u, s, step); }
  }

  lemma FinalIsNotBlocked(u: Setup, s: State)
    requires Inv(u, s) && IsFinal(s)
    ensures !Blocked(u, s)
  {
    hide SumPolled, WorkersOk, GateOk, LaunchOk;
  }

  /** Some ordinary run goes on from here to the end. */
  ghost predicate CanEnd(u: Setup, s: State)
    requires ValidSetup(u) && |s.workers| == u.clients
  {
    exists steps: seq<Step> :: Ordinary(steps) && Legal(u, s, steps) && IsFinal(Run(u, s, steps))
  }

  lemma {:induction false} BlockedNeverEnds(u: Setup, s: State, steps: seq<Step>)
    requires Inv(u, s) && Blocked(u, s) && Ordinary(steps) && Legal(u, s, steps)
    ensures !IsFinal(Run(u, s, steps))
    decreases |steps|
  {
    hide Inv, Enabled, Apply, Blocked, IsFinal, IsFault;
    InvHasWorkers(u, s);
    if IsFinal(s) { FinalIsNotBlocked(u, s); }
    if steps != [] {
      StepKeeps(u, s, steps[0]);
      BlockedStays(u, s, steps[0]);
      BlockedNeverEnds(u, Apply(u, s, steps[0]), steps[1..]);
    }
  }

  lemma {:induction false} OthersEnd(u: Setup, s: State)
    requires Inv(u, s) && !Blocked(u, s)
    ensures CanEnd(u, s)
    decreases Rank(u, s)
  {
    hide Inv, Enabled, Apply, Blocked, IsFinal, IsFault, Rank;
    InvHasWorkers(u, s);
    RankNatural(u, s);
    if IsFinal(s) {
      assert Ordinary([]) && Legal(u, s, []) && Run(u, s, []) == s;
    } else {
      NobodyIsStuck(u, s);
      var step: Step :| Enabled(u, s, step) && !IsFault(step);
      var t := Apply(u, s, step);
      StepKeeps(u, s, step);
      BlockedStays(u, s, step);
      StepRankFalls(u, s, step);
      OthersEnd(u, t);
      var rest :| Ordinary(rest) && Legal(u, t, rest) && IsFinal(Run(u, t, rest));
      var steps := [step] + rest;
      assert steps[1..] == rest;
      assert Ordinary(steps) && Legal(u, s, steps) && Run(u, s, steps) == Run(u, t, rest);
    }
  }

  /** From any state a run leads to, ordinary steps can bring the client to its end exactly when the
      barrier is not lost. Otherwise it waits for ever. */
  lemma EndsExact(u: Setup, now: real, steps: seq<Step>)
    requires ValidSetup(u) && Legal(u, Initial(u, now), steps)
    ensures CanEnd(u, After(u, now, steps)) <==> !Blocked(u, After(u, now, steps))
  {
    hide Inv, Legal, Run, Blocked, IsFinal, Ordinary;
    var s := After(u, now, steps);
    if Blocked(u, s) {
      forall more: seq<Step> | Ordinary(more) && Legal(u, s, more)
        ensures !IsFinal(Run(u, s, more))
      {
        BlockedNeverEnds(u, s, more);
      }
    } else {
      OthersEnd(u, s);
    }
  }

  // ---------------------------------------------------------------------
  // Runs in which nothing goes wrong
  // ---------------------------------------------------------------------

  /** Without faults the client only fails for what the warm-up or the parent say. */
  predicate Faultless(s: State) {
    && (s.failing ==> s.tripped && !s.measured)
    && forall i | 0 <= i < |s.workers| :: s.workers[i].Ended? ==> !s.workers[i].crashed
  }

  lemma FaultlessIsNotBlocked(u: Setup, s: State)
    requires Inv(u, s) && Faultless(s)
    ensures !Blocked(u, s)
  {
    hide SumPolled, Share, Views, GateOk, LaunchOk;
    if u.controlled && !s.tripped {
      forall i | 0 <= i < u.clients
        ensures !s.workers[i].Ended?
      {
        assert WorkerOk(u, s, i, s.workers[i]);
      }
    }
  }

  lemma FaultlessStep(u: Setup, s: State, step: Step)
    requires Inv(u, s) && Faultless(s) && Enabled(u, s, step) && !IsFault(step)
    ensures Faultless(Apply(u, s, step))
  {
    hide SumPolled, Share, Views, WorkersOk, GateOk, LaunchOk, InTime;
  }

  lemma {:induction false} FaultlessRun(u: Setup, s: State, steps: seq<Step>)
    requires Inv(u, s) && Faultless(s) && Ordinary(steps) && Legal(u, s, steps)
    ensures |Run(u, s, steps).workers| == u.clients && Faultless(Run(u, s, steps))
    decreases |steps|
  {
    hide Inv, Enabled, Apply, Faultless, IsFault;
    InvHasWorkers(u, s);
    if steps != [] {
      StepKeeps(u, s, steps[0]);
      FaultlessStep(u, s, steps[0]);
      FaultlessRun(u, Apply(u, s, steps[0]), steps[1..]);
    }
  }

  /** When nothing goes wrong and nobody can go on, the client has ended: either it printed the full
      load, or it failed without a single request counted. */
  lemma FaultlessEnd(u: Setup, now: real, steps: seq<Step>)
    requires ValidSetup(u) && Legal(u, Initial(u, now), steps) && Ordinary(steps)
    requires !CanMove(u, After(u, now, steps))
    ensures var s := After(u, now, steps);
            || (s.main.Printed? && s.main.success + s.main.failure == FullLoad(u))
            || (s.main.Raised? && s.success + s.failure == 0)
  {
    hide Inv, Legal, Run, Faultless, Blocked, CanMove, FullLoad;
    var s := After(u, now, steps);
    InitialIsOk(u, now);
    FaultlessStart(u, now);
    FaultlessRun(u, Initial(u, now), steps);
    FaultlessIsNotBlocked(u, s);
    if !IsFinal(s) { NobodyIsStuck(u, s); }
    if s.main.Printed? {
      assert forall i: nat | i < u.clients :: Crash(i) !in steps;
      LoadIsDelivered(u, now, steps);
    } else {
      RaisedIsEmpty(u, s);
    }
  }

  lemma FaultlessStart(u: Setup, now: real)
    requires ValidSetup(u)
    ensures Faultless(Initial(u, now))
  {
  }

  lemma RaisedIsEmpty(u: Setup, s: State)
    requires Inv(u, s) && Faultless(s) && s.main.Raised?
    ensures s.success + s.failure == 0
  {
    hide SumPolled, WorkersOk, LaunchOk;
    NothingBegunNothingCounted(u, s);
  }

  /** An interrupt of the main thread at the barrier, while its only worker is still warming up,
      leaves the client waiting for ever: the worker waits at the barrier, the main thread for the worker. */
  lemma InterruptAtBarrierHangs(now: real)
    ensures var u, steps := Setup(1, 1, 1, true), [Launch, Launch, Interrupt];
            Legal(u, Initial(u, now), steps) && !CanEnd(u, After(u, now, steps))
  {
    hide Due, Assigned, CanEnd;
    var u := Setup(1, 1, 1, true);
    var s0 := Initial(u, now);
    var s1 := Apply(u, s0, Launch);
    var s2 := Apply(u, s1, Launch);
    var s3 := Apply(u, s2, Interrupt);
    var steps := [Launch, Launch, Interrupt];
    assert steps[1..] == [Launch, Interrupt] && [Launch, Interrupt][1..] == [Interrupt] && [Interrupt][1..] == [];
    assert Legal(u, s3, []);
    assert Legal(u, s2, [Interrupt]);
    assert Legal(u, s1, [Launch, Interrupt]);
    assert Run(u, s2, [Interrupt]) == s3;
    assert Run(u, s1, [Launch, Interrupt]) == s3;
    assert s3.workers[0] == Warming(0);
    EndsExact(u, now, steps);
  }
}
