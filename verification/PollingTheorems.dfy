/** The polling client starts nothing too soon, offers exactly its load and always comes to an end
    unless a thread was lost before the barrier. */
module PollingTheorems {
  import opened PollingSchedule
  import opened PollingProtocol
  import opened PollingInvariant

  function After(u: Setup, now: real, steps: seq<Step>): (s: State)
    requires ValidSetup(u) && Legal(u, Initial(u, now), steps)
    ensures |s.workers| == u.clients && Inv(u, s)
  {
    InitialIsOk(u, now);
    RunKeeps(u, Initial(u, now), steps);
    Run(u, Initial(u, now), steps)
  }

  function FullLoad(u: Setup): nat {
    Max(u.clients, u.views) * Max(0, u.seconds)
  }

  // ---------------------------------------------------------------------
  // What a run remembers
  // ---------------------------------------------------------------------

  predicate Heard(s: State) {
    s.main.Measuring? || s.main.Opening? || s.measured
  }

  predicate Crashed(s: State, i: nat) {
    i < |s.workers| && s.workers[i].Ended? && s.workers[i].crashed
  }

  /** What one step adds to what is remembered. */
  ghost predicate Adds(s: State, step: Step, t: State) {
    && |t.workers| == |s.workers|
    && t.warmErrors == s.warmErrors + (if step.WarmUp? && !step.ok then 1 else 0)
    && (Heard(t) ==> Heard(s) || step == ReadLine(true))
    && (forall i: nat :: Crashed(t, i) <==> Crashed(s, i) || (step == Crash(i) && i < |s.workers|))
  }

  lemma MoveCrashes(u: Setup, s: State, step: Step)
    requires ValidSetup(u) && |s.workers| == u.clients && IsWorkerStep(step) && Enabled(u, s, step)
    ensures var w, w' := s.workers[step.index], Moved(s, step, s.workers[step.index]);
            !w.Ended? && (w'.Ended? && w'.crashed <==> step.Crash?)
  {
    hide InTime, Views;
  }

  lemma WorkerStepAdds(u: Setup, s: State, step: Step)
    requires ValidSetup(u) && |s.workers| == u.clients && IsWorkerStep(step) && Enabled(u, s, step)
    ensures Adds(s, step, Apply(u, s, step))
  {
    hide WorkerEnabled, Moved;
    MoveCrashes(u, s, step);
  }

  lemma MainStepAdds(u: Setup, s: State, step: Step)
    requires ValidSetup(u) && |s.workers| == u.clients && LaunchOk(u, s) && !IsWorkerStep(step) && Enabled(u, s, step)
    ensures Adds(s, step, Apply(u, s, step))
  {
    hide AllEnded, AllAtBarrier;
  }

  lemma StepAdds(u: Setup, s: State, step: Step)
    requires ValidSetup(u) && |s.workers| == u.clients && LaunchOk(u, s) && Enabled(u, s, step)
    ensures Adds(s, step, Apply(u, s, step))
  {
    hide *;
    if IsWorkerStep(step) { WorkerStepAdds(u, s, step); } else { MainStepAdds(u, s, step); }
  }

  lemma {:induction false} RunAdds(u: Setup, s: State, steps: seq<Step>)
    requires Inv(u, s) && Legal(u, s, steps)
    ensures |Run(u, s, steps).workers| == u.clients
    ensures s.warmErrors <= Run(u, s, steps).warmErrors
    ensures s.warmErrors == Run(u, s, steps).warmErrors <==> forall i :: WarmUp(i, false) !in steps
    ensures Heard(Run(u, s, steps)) ==> Heard(s) || ReadLine(true) in steps
    ensures forall i: nat | i < u.clients :: Crashed(Run(u, s, steps), i) <==> Crashed(s, i) || Crash(i) in steps
    decreases |steps|
  {
    hide Enabled, Apply, Heard, Crashed, WorkersOk, LaunchOk, MainOk, GateOk, SumPolled;
    if steps != [] {
      var t := Apply(u, s, steps[0]);
      StepAdds(u, s, steps[0]);
      StepKeeps(u, s, steps[0]);
      RunAdds(u, t, steps[1..]);
      assert forall x :: x in steps <==> x == steps[0] || x in steps[1..];
    }
  }

  // ---------------------------------------------------------------------
  // Nothing starts too soon
  // ---------------------------------------------------------------------

  lemma NothingBegunNothingCounted(u: Setup, s: State)
    requires Inv(u, s) && u.controlled && !Begun(s)
    ensures s.success + s.failure == 0
    ensures forall i | 0 <= i < u.clients :: !s.workers[i].Waiting? && !s.workers[i].Fetching?
  {
    hide SumPolled, Begun, Share, Views, LaunchOk, MainOk, GateOk;
    forall i | 0 <= i < u.clients
      ensures Polled(s.workers[i]) == 0 && !s.workers[i].Waiting? && !s.workers[i].Fetching?
    {
      assert WorkerOk(u, s, i, s.workers[i]);
    }
    SumOfNone(s.workers);
  }

  lemma BegunIsWarm(u: Setup, s: State, i: nat)
    requires Inv(u, s) && s.tripped && i < u.clients
    ensures !s.workers[i].Unborn? && !s.workers[i].Warming?
  {
    hide SumPolled, Share, Views, LaunchOk, MainOk, GateOk;
    assert WorkerOk(u, s, i, s.workers[i]);
  }

  /** Under the parent's control no request is made or counted unless every worker has finished
      warming up, none of their warm-up requests failed, and the parent said go. */
  lemma NothingTooSoon(u: Setup, now: real, steps: seq<Step>, i: nat)
    requires ValidSetup(u) && u.controlled && Legal(u, Initial(u, now), steps) && i < u.clients
    ensures var s := After(u, now, steps);
            s.success + s.failure > 0 || s.workers[i].Waiting? || s.workers[i].Fetching? ==>
              && (forall j | 0 <= j < u.clients :: !s.workers[j].Unborn? && !s.workers[j].Warming?)
              && (forall j :: WarmUp(j, false) !in steps)
              && ReadLine(true) in steps
  {
    hide Legal, Run, Inv;
    var s := After(u, now, steps);
    InitialIsOk(u, now);
    RunAdds(u, Initial(u, now), steps);
    if Begun(s) {
      forall j | 0 <= j < u.clients
        ensures !s.workers[j].Unborn? && !s.workers[j].Warming?
      {
        BegunIsWarm(u, s, j);
      }
    } else {
      NothingBegunNothingCounted(u, s);
    }
  }

  // ---------------------------------------------------------------------
  // The load is delivered
  // ---------------------------------------------------------------------

  lemma {:induction false} SumOfShares(u: Setup, workers: seq<Worker>)
    requires ValidSetup(u) && |workers| <= u.clients
    requires forall i | 0 <= i < |workers| :: Polled(workers[i]) <= Share(u, i)
    ensures SumPolled(workers) <= OfferedBy(|workers|, u.clients, u.views, u.seconds)
    ensures SumPolled(workers) == OfferedBy(|workers|, u.clients, u.views, u.seconds) <==>
            forall i | 0 <= i < |workers| :: Polled(workers[i]) == Share(u, i)
  {
    hide Polled, Offered;
    if workers != [] {
      var n := |workers| - 1;
      SumOfShares(u, workers[..n]);
      assert forall i | 0 <= i < n :: workers[..n][i] == workers[i];
    }
  }

  lemma PrintedShares(u: Setup, s: State, i: nat)
    requires Inv(u, s) && s.main.Printed? && i < u.clients
    ensures Polled(s.workers[i]) <= Share(u, i)
    ensures Polled(s.workers[i]) == Share(u, i) <==> !Crashed(s, i)
    ensures s.main.success + s.main.failure == SumPolled(s.workers)
  {
    hide SumPolled, Share, Views, LaunchOk;
    assert WorkerOk(u, s, i, s.workers[i]);
    assert s.workers[i].Ended?;
  }

  /** If the client prints its counts, they add up to the full load exactly when no worker died on
      the way: one request per second and worker or view, whichever are more. */
  lemma LoadIsDelivered(u: Setup, now: real, steps: seq<Step>)
    requires ValidSetup(u) && Legal(u, Initial(u, now), steps)
    requires After(u, now, steps).main.Printed?
    ensures var printed := After(u, now, steps).main;
            && printed.success + printed.failure <= FullLoad(u)
            && (printed.success + printed.failure == FullLoad(u) <==>
                forall i: nat | i < u.clients :: Crash(i) !in steps)
  {
    hide Legal, Run, Inv, Share, Polled, Crashed, SumPolled, OfferedBy, Max;
    var s := After(u, now, steps);
    InitialIsOk(u, now);
    RunAdds(u, Initial(u, now), steps);
    forall i | 0 <= i < u.clients
      ensures Polled(s.workers[i]) <= Share(u, i)
      ensures Polled(s.workers[i]) == Share(u, i) <==> Crash(i) !in steps
      ensures s.main.success + s.main.failure == SumPolled(s.workers)
    {
      PrintedShares(u, s, i);
      NoneCrashedYet(u, now, i);
    }
    assert s.main.success + s.main.failure == SumPolled(s.workers) by { PrintedShares(u, s, 0); }
    SumOfShares(u, s.workers);
    ExactLoad(u.clients, u.views, u.seconds);
  }

  lemma NoneCrashedYet(u: Setup, now: real, i: nat)
    requires ValidSetup(u)
    ensures !Crashed(Initial(u, now), i)
  {
  }
}
