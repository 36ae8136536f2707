/** What the comparison expects each leg to have polled, and what the polling client then delivers. */
module ExpectedPolls {
  import opened PollingSchedule
  import opened PollingProtocol
  import opened PollingInvariant
  import opened PollingTheorems
  import opened PollingRecord

  const DURATION: nat := 20

  /** Views and clients of a mode, as the driver starts the polling client. */
  function Shape(mode: string): (nat, nat) {
    if mode == "active-1" then (1, 1)
    else if mode == "active-32" then (32, 32)
    else if mode == "active-32x1" then (32, 1)
    else if mode == "active-1x256" then (1, 256)
    else if mode == "active-32x256" then (32, 256)
    else (0, 0)
  }

  /** The table that the comparison checks a leg's successful requests against. */
  function Expected(mode: string): nat {
    if mode == "active-1" then 20
    else if mode == "active-32" then 640
    else if mode == "active-32x1" then 640
    else if mode == "active-1x256" then 5120
    else if mode == "active-32x256" then 5120
    else 0
  }

  function SetupOf(mode: string): Setup {
    Setup(Shape(mode).1, Shape(mode).0, DURATION, true)
  }

  lemma ShapesAreValid(mode: string)
    ensures Shape(mode).1 > 0 ==> ValidSetup(SetupOf(mode))
    ensures Expected(mode) == Max(Shape(mode).1, Shape(mode).0) * DURATION
  {
  }

  /** The table agrees with the schedule: for every mode it holds what the workers offer together. */
  lemma ExpectedIsOffered(mode: string)
    requires Shape(mode).1 > 0
    ensures Shape(mode).0 > 0
    ensures Expected(mode) == OfferedBy(Shape(mode).1, Shape(mode).1, Shape(mode).0, DURATION)
  {
    hide Shape, Expected, OfferedBy;
    ShapesAreValid(mode);
    ExactLoad(Shape(mode).1, Shape(mode).0, DURATION);
  }

  function Decimal(n: nat): string {
    if n < 10 then ["0123456789"[n]] else Decimal(n / 10) + ["0123456789"[n % 10]]
  }

  /** The name of an active mode is its views and, where they are not as many, its clients. */
  lemma NamesSayShapes(mode: string)
    requires Shape(mode).1 > 0
    ensures var (views, clients) := Shape(mode);
            mode == "active-" + Decimal(views) + if clients == views then "" else "x" + Decimal(clients)
  {
    assert Decimal(1) == "1";
    assert Decimal(3) == "3" && Decimal(32) == "32";
    assert Decimal(2) == "2" && Decimal(25) == "25" && Decimal(256) == "256";
  }

  /** No leg is measured on a connection or a view that was not warmed up. */
  lemma LegsAreWarm(mode: string, now: real, steps: seq<Step>, i: nat)
    requires Shape(mode).1 > 0 && ValidSetup(SetupOf(mode)) && i < Shape(mode).1
    requires Legal(SetupOf(mode), Initial(SetupOf(mode), now), steps)
    requires Answers(steps, true) + Answers(steps, false) > 0
    ensures WarmUpsOf(steps, i) == |Assigned(i, Shape(mode).1, Shape(mode).0)| && ReadLine(true) in steps
    ensures forall j :: WarmUp(j, false) !in steps
  {
    hide Shape, Legal, Run, Initial, Answers, WarmUpsOf, Assigned, Inv;
    EveryViewIsWarmed(SetupOf(mode), now, steps, i);
  }

  /** A leg whose client ended normally passes the check exactly when every request succeeded and no
      worker died; with a worker lost the count falls short. */
  lemma CheckIsExact(mode: string, now: real, steps: seq<Step>)
    requires Shape(mode).1 > 0 && ValidSetup(SetupOf(mode))
    requires Legal(SetupOf(mode), Initial(SetupOf(mode), now), steps)
    requires After(SetupOf(mode), now, steps).main.Printed?
    ensures var printed := After(SetupOf(mode), now, steps).main;
            printed.failure == 0 && printed.success == Expected(mode) <==>
            && (forall i :: Fetched(i, false) !in steps)
            && (forall i: nat | i < Shape(mode).1 :: Crash(i) !in steps)
  {
    hide Shape, Expected, Legal, Run, Initial, ValidSetup, Inv, Answers, AnswersOf;
    PrintedIsCounted(SetupOf(mode), now, steps);
    NoneOfThese(steps, false);
    ShapesAreValid(mode);
    assert FullLoad(SetupOf(mode)) == Expected(mode);
    LoadIsDelivered(SetupOf(mode), now, steps);
  }
}
