/** What the steps of a run add up to: every answer is counted once and as what it was, every view is
    warmed up before anything is measured, and nothing is asked for once everyone is told to stop. */
module PollingRecord {
  import opened PollingSchedule
  import opened PollingProtocol
  import opened PollingInvariant
  import opened PollingTheorems

  /** How many requests of a run were answered well, or were not. */
  function Answers(steps: seq<Step>, good: bool): nat {
    if steps == [] then 0
    else (if steps[0].Fetched? && steps[0].good == good then 1 else 0) + Answers(steps[1..], good)
  }

  /** How many of them were worker `i`'s. */
  function AnswersOf(steps: seq<Step>, i: nat): nat {
    if steps == [] then 0
    else (if steps[0].Fetched? && steps[0].index == i then 1 else 0) + AnswersOf(steps[1..], i)
  }

  /** How many requests worker `i` made to warm up. */
  function WarmUpsOf(steps: seq<Step>, i: nat): nat {
    if steps == [] then 0
    else (if steps[0].WarmUp? && steps[0].index == i then 1 else 0) + WarmUpsOf(steps[1..], i)
  }

  lemma {:induction false} NoneOfThese(steps: seq<Step>, good: bool)
    ensures Answers(steps, good) == 0 <==> forall i :: Fetched(i, good) !in steps
  {
    if steps != [] {
      NoneOfThese(steps[1..], good);
      if steps[0].Fetched? && steps[0].good == good { assert Fetched(steps[0].index, good) in steps; }
      assert forall x :: x in steps <==> x == steps[0] || x in steps[1..];
    }
  }

  // ---------------------------------------------------------------------
  // The counters
  // ---------------------------------------------------------------------

  lemma ApplyIs(u: Setup, s: State, step: Step)
    requires ValidSetup(u) && |s.workers| == u.clients && Enabled(u, s, step)
    ensures IsWorkerStep(step) ==> step.index < u.clients && WorkerEnabled(u, s, step, step.index)
    ensures IsWorkerStep(step) ==> Apply(u, s, step) == ApplyWorker(s, step, step.index)
    ensures !IsWorkerStep(step) ==> MainEnabled(u, s, step) && Apply(u, s, step) == ApplyMain(u, s, step)
  {
    hide IsWorkerStep, WorkerEnabled, MainEnabled, ApplyWorker, ApplyMain;
  }

  lemma StepCounts(u: Setup, s: State, step: Step)
    requires ValidSetup(u) && |s.workers| == u.clients && Enabled(u, s, step)
    ensures var t := Apply(u, s, step);
            && t.success == s.success + (if step.Fetched? && step.good then 1 else 0)
            && t.failure == s.failure + (if step.Fetched? && !step.good then 1 else 0)
  {
    hide *;
    ApplyIs(u, s, step);
    WorkerStepsAre(step);
    if IsWorkerStep(step) { WorkerCounts(s, step, step.index); } else { MainCounts(u, s, step); }
  }

  lemma WorkerStepsAre(step: Step)
    ensures IsWorkerStep(step) <==>
            step.WarmUp? || step.Arrive? || step.Leave? || step.Released? || step.Proceed? || step.Cancel?
            || step.Exhaust? || step.Fetched? || step.Crash?
  {
  }

  lemma WorkerCounts(s: State, step: Step, i: nat)
    requires i < |s.workers|
    ensures var t := ApplyWorker(s, step, i);
            && t.success == s.success + (if step.Fetched? && step.good then 1 else 0)
            && t.failure == s.failure + (if step.Fetched? && !step.good then 1 else 0)
            && t.tripped == s.tripped && t.workers == s.workers[i := Moved(s, step, s.workers[i])]
  {
    hide Moved;
  }

  lemma MainCounts(u: Setup, s: State, step: Step)
    requires |s.workers| == u.clients
    ensures var t := ApplyMain(u, s, step);
            && t.success == s.success && t.failure == s.failure && t.tripped == (s.tripped || step.Trip?)
            && t.workers == if step.Launch? && s.main.Launching? && s.main.next < u.clients
                            then s.workers[s.main.next := if u.controlled then Warming(0) else Waiting(0)]
                            else s.workers
  {
    hide NextMain, Fails;
  }

  lemma {:induction false} RunCounts(u: Setup, s: State, steps: seq<Step>)
    requires ValidSetup(u) && |s.workers| == u.clients && Legal(u, s, steps)
    ensures Run(u, s, steps).success == s.success + Answers(steps, true)
    ensures Run(u, s, steps).failure == s.failure + Answers(steps, false)
    decreases |steps|
  {
    hide Enabled, Apply;
    if steps != [] {
      StepCounts(u, s, steps[0]);
      RunCounts(u, Apply(u, s, steps[0]), steps[1..]);
    }
  }

  lemma StepPolls(u: Setup, s: State, step: Step, i: nat)
    requires Inv(u, s) && Enabled(u, s, step) && i < u.clients
    ensures Polled(Apply(u, s, step).workers[i]) ==
            Polled(s.workers[i]) + (if step.Fetched? && step.index == i then 1 else 0)
  {
    hide *;
    InvIs(u, s);
    ApplyIs(u, s, step);
    WorkerStepsAre(step);
    if IsWorkerStep(step) {
      WorkerCounts(s, step, step.index);
      MovePolls(u, s, step);
    } else {
      MainCounts(u, s, step);
      LaunchPolls(u, s, step);
    }
  }

  lemma InvIs(u: Setup, s: State)
    requires Inv(u, s)
    ensures ValidSetup(u) && |s.workers| == u.clients && LaunchOk(u, s)
  {
    hide WorkersOk, LaunchOk, MainOk, GateOk, SumPolled;
  }

  lemma MovePolls(u: Setup, s: State, step: Step)
    requires ValidSetup(u) && |s.workers| == u.clients && IsWorkerStep(step) && step.index < u.clients
    requires WorkerEnabled(u, s, step, step.index)
    ensures Polled(Moved(s, step, s.workers[step.index])) ==
            Polled(s.workers[step.index]) + (if step.Fetched? then 1 else 0)
  {
    hide InTime, Views;
  }

  lemma LaunchPolls(u: Setup, s: State, step: Step)
    requires |s.workers| == u.clients && LaunchOk(u, s)
    ensures step.Launch? && s.main.Launching? && s.main.next < u.clients ==> Polled(s.workers[s.main.next]) == 0
    ensures Polled(if u.controlled then Warming(0) else Waiting(0)) == 0
  {
  }

  lemma {:induction false} RunPolls(u: Setup, s: State, steps: seq<Step>, i: nat)
    requires Inv(u, s) && Legal(u, s, steps) && i < u.clients
    ensures |Run(u, s, steps).workers| == u.clients
    ensures Polled(Run(u, s, steps).workers[i]) == Polled(s.workers[i]) + AnswersOf(steps, i)
    decreases |steps|
  {
    hide Enabled, Apply, WorkersOk, LaunchOk, MainOk, GateOk, SumPolled, Polled;
    if steps != [] {
      StepPolls(u, s, steps[0], i);
      StepKeeps(u, s, steps[0]);
      RunPolls(u, Apply(u, s, steps[0]), steps[1..], i);
    }
  }

  /** What is printed is what happened: as many successes as requests that were answered well, and as
      many failures as requests that were not. Each worker makes no more than its share of requests,
      and all of it exactly when it does not die. */
  lemma PrintedIsCounted(u: Setup, now: real, steps: seq<Step>)
    requires ValidSetup(u) && Legal(u, Initial(u, now), steps)
    requires After(u, now, steps).main.Printed?
    ensures After(u, now, steps).main == Printed(Answers(steps, true), Answers(steps, false))
    ensures forall i | 0 <= i < u.clients ::
              && AnswersOf(steps, i) <= |Assigned(i, u.clients, u.views)| * Max(0, u.seconds)
              && (AnswersOf(steps, i) == |Assigned(i, u.clients, u.views)| * Max(0, u.seconds) <==> Crash(i) !in steps)
  {
    hide Legal, Run, WorkersOk, LaunchOk, GateOk, SumPolled, Crashed, Polled, Heard, Assigned;
    var s := After(u, now, steps);
    InitialIsOk(u, now);
    RunCounts(u, Initial(u, now), steps);
    RunAdds(u, Initial(u, now), steps);
    forall i | 0 <= i < u.clients
      ensures && AnswersOf(steps, i) <= Share(u, i)
              && (AnswersOf(steps, i) == Share(u, i) <==> Crash(i) !in steps)
    {
      RunPolls(u, Initial(u, now), steps, i);
      NothingPolledYet(u, now, i);
      NoneCrashedYet(u, now, i);
      PrintedShares(u, s, i);
    }
  }

  lemma NothingPolledYet(u: Setup, now: real, i: nat)
    requires i < u.clients
    ensures Polled(Initial(u, now).workers[i]) == 0
  {
  }

  // ---------------------------------------------------------------------
  // Warming up
  // ---------------------------------------------------------------------

  /** How far the warm-up of a worker is, after so many requests. */
  predicate WarmedBy(u: Setup, s: State, i: nat, warmUps: nat)
    requires ValidSetup(u) && |s.workers| == u.clients && i < u.clients
  {
    u.controlled ==>
      match s.workers[i]
      case Unborn => warmUps == 0
      case Warming(k) => warmUps == k
      case Ended(_, _) => s.tripped ==> warmUps == |Views(u, i)|
      case _ => warmUps == |Views(u, i)|
  }

  lemma MoveWarms(u: Setup, s: State, step: Step, i: nat, warmUps: nat)
    requires ValidSetup(u) && |s.workers| == u.clients && IsWorkerStep(step) && step.index < u.clients && i < u.clients
    requires WorkerEnabled(u, s, step, step.index) && WorkerOk(u, s, step.index, s.workers[step.index])
    requires WarmedBy(u, s, i, warmUps)
    ensures WarmedBy(u, ApplyWorker(s, step, step.index), i,
                     warmUps + (if step.WarmUp? && step.index == i then 1 else 0))
  {
    hide InTime, Views, Share, Begun;
  }

  lemma MainWarms(u: Setup, s: State, step: Step, i: nat, warmUps: nat)
    requires ValidSetup(u) && |s.workers| == u.clients && i < u.clients && LaunchOk(u, s) && MainEnabled(u, s, step)
    requires WarmedBy(u, s, i, warmUps)
    ensures WarmedBy(u, ApplyMain(u, s, step), i, warmUps)
  {
    hide Views, AllEnded, ApplyMain;
    MainCounts(u, s, step);
  }

  lemma StepWarms(u: Setup, s: State, step: Step, i: nat, warmUps: nat)
    requires Inv(u, s) && Enabled(u, s, step) && i < u.clients && WarmedBy(u, s, i, warmUps)
    ensures WarmedBy(u, Apply(u, s, step), i, warmUps + (if step.WarmUp? && step.index == i then 1 else 0))
  {
    hide *;
    InvIs(u, s);
    ApplyIs(u, s, step);
    WorkerStepsAre(step);
    if IsWorkerStep(step) {
      WorkerIsOk(u, s, step.index);
      MoveWarms(u, s, step, i, warmUps);
    } else {
      MainWarms(u, s, step, i, warmUps);
    }
  }

  lemma WorkerIsOk(u: Setup, s: State, i: nat)
    requires Inv(u, s) && i < u.clients
    ensures |s.workers| == u.clients && WorkerOk(u, s, i, s.workers[i])
  {
    hide WorkerOk, LaunchOk, MainOk, GateOk, SumPolled;
  }

  lemma {:induction false} RunWarms(u: Setup, s: State, steps: seq<Step>, i: nat, warmUps: nat)
    requires Inv(u, s) && Legal(u, s, steps) && i < u.clients && WarmedBy(u, s, i, warmUps)
    ensures |Run(u, s, steps).workers| == u.clients
    ensures WarmedBy(u, Run(u, s, steps), i, warmUps + WarmUpsOf(steps, i))
    decreases |steps|
  {
    hide Enabled, Apply, WorkersOk, LaunchOk, MainOk, GateOk, SumPolled, WarmedBy;
    if steps != [] {
      StepWarms(u, s, steps[0], i, warmUps);
      StepKeeps(u, s, steps[0]);
      var more := if steps[0].WarmUp? && steps[0].index == i then 1 else 0;
      RunWarms(u, Apply(u, s, steps[0]), steps[1..], i, warmUps + more);
    }
  }

  /** Under the parent's control nothing is measured before every worker has asked once for each of
      its views, and every one of these requests was answered well. */
  lemma EveryViewIsWarmed(u: Setup, now: real, steps: seq<Step>, i: nat)
    requires ValidSetup(u) && u.controlled && Legal(u, Initial(u, now), steps) && i < u.clients
    requires Answers(steps, true) + Answers(steps, false) > 0
    ensures WarmUpsOf(steps, i) == |Assigned(i, u.clients, u.views)|
    ensures forall j :: WarmUp(j, false) !in steps
    ensures ReadLine(true) in steps
  {
    hide Legal, Run, WorkersOk, LaunchOk, MainOk, GateOk, SumPolled, Crashed, Polled, Heard, Assigned;
    var s := After(u, now, steps);
    InitialIsOk(u, now);
    RunCounts(u, Initial(u, now), steps);
    NothingTooSoon(u, now, steps, i);
    if !Begun(s) { NothingBegunNothingCounted(u, s); }
    BegunIsWarm(u, s, i);
    RunWarms(u, Initial(u, now), steps, i, 0);
  }

  // ---------------------------------------------------------------------
  // Stopping
  // ---------------------------------------------------------------------

  lemma StopStays(u: Setup, s: State, step: Step)
    requires ValidSetup(u) && |s.workers| == u.clients && Enabled(u, s, step) && s.stop
    ensures Apply(u, s, step).stop && !step.Proceed?
  {
    hide InTime, Views, Moved, NextMain;
  }

  lemma {:induction false} NothingAskedAfterStop(u: Setup, s: State, steps: seq<Step>)
    requires ValidSetup(u) && |s.workers| == u.clients && Legal(u, s, steps) && s.stop
    ensures forall i :: Proceed(i) !in steps
    decreases |steps|
  {
    hide Enabled, Apply;
    if steps != [] {
      StopStays(u, s, steps[0]);
      NothingAskedAfterStop(u, Apply(u, s, steps[0]), steps[1..]);
      assert forall x :: x in steps <==> x == steps[0] || x in steps[1..];
    }
  }

  /** Once the main thread has told everyone to stop, no worker starts another request. */
  lemma {:induction false} StopIsHeeded(u: Setup, s: State, steps: seq<Step>, k: nat, j: nat)
    requires ValidSetup(u) && |s.workers| == u.clients && Legal(u, s, steps)
    requires k < j < |steps| && steps[k] == Close
    ensures !steps[j].Proceed?
    decreases |steps|
  {
    hide Enabled, Apply;
    var t := Apply(u, s, steps[0]);
    if k == 0 {
      CloseStops(u, s);
      NothingAskedAfterStop(u, t, steps[1..]);
      assert steps[j] == steps[1..][j - 1];
    } else {
      StopIsHeeded(u, t, steps[1..], k - 1, j - 1);
    }
  }

  lemma CloseStops(u: Setup, s: State)
    requires ValidSetup(u) && |s.workers| == u.clients && Enabled(u, s, Close)
    ensures Apply(u, s, Close).stop
  {
  }

  // ---------------------------------------------------------------------
  // Starting
  // ---------------------------------------------------------------------

  predicate PastMeasuring(main: Main) {
    || main.Opening? || main.Joining? || main.Closing? || main.Releasing? || main.FinalJoin? || main.Printed?
    || main.Raised?
  }

  lemma StartStays(u: Setup, s: State, step: Step)
    requires ValidSetup(u) && |s.workers| == u.clients && Enabled(u, s, step)
    ensures PastMeasuring(s.main) ==> PastMeasuring(Apply(u, s, step).main) && Apply(u, s, step).started == s.started
    ensures step.Measure? ==> PastMeasuring(Apply(u, s, step).main) && Apply(u, s, step).started == step.now
  {
    hide WorkerEnabled, Moved, AllEnded, AllAtBarrier;
  }

  lemma {:induction false} StartStaysOn(u: Setup, s: State, steps: seq<Step>)
    requires ValidSetup(u) && |s.workers| == u.clients && Legal(u, s, steps) && PastMeasuring(s.main)
    ensures Run(u, s, steps).started == s.started
    decreases |steps|
  {
    hide Enabled, Apply, PastMeasuring;
    if steps != [] {
      StartStays(u, s, steps[0]);
      StartStaysOn(u, Apply(u, s, steps[0]), steps[1..]);
    }
  }

  /** All due times count from the moment that the main thread took after it was told to go. */
  lemma {:induction false} StartIsMeasured(u: Setup, s: State, steps: seq<Step>, k: nat)
    requires ValidSetup(u) && |s.workers| == u.clients && Legal(u, s, steps)
    requires k < |steps| && steps[k].Measure?
    ensures Run(u, s, steps).started == steps[k].now
    decreases |steps|
  {
    hide Enabled, Apply, PastMeasuring;
    StartStays(u, s, steps[0]);
    if k == 0 {
      StartStaysOn(u, Apply(u, s, steps[0]), steps[1..]);
    } else {
      StartIsMeasured(u, Apply(u, s, steps[0]), steps[1..], k - 1);
    }
  }

  // ---------------------------------------------------------------------
  // Faults
  // ---------------------------------------------------------------------

  /** Where things can go wrong: the main thread can be interrupted once all workers are started and
      until it has begun to stop them, and a worker can die in any request. */
  lemma FaultsAre(u: Setup, s: State, i: nat)
    requires ValidSetup(u) && |s.workers| == u.clients
    ensures Enabled(u, s, Interrupt) <==>
            !(s.main.Launching? || s.main.Closing? || s.main.Releasing? || s.main.FinalJoin? || s.main.Printed?
              || s.main.Raised?)
    ensures Enabled(u, s, Crash(i)) <==> i < u.clients && (s.workers[i].Warming? || s.workers[i].Fetching?)
  {
  }
}
