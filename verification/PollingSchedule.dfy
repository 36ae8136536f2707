/** Who polls which view when: the schedule of the paced polling client, in exact arithmetic. */
module PollingSchedule {

  function Max(a: int, b: int): int {
    if a < b then b else a
  }

  /** `range(from, to, step)` as a list. */
  function Stride(from: nat, to: nat, step: nat): seq<nat>
    requires step > 0
    decreases if from < to then to - from else 0
  {
    if from >= to then [] else [from] + Stride(from + step, to, step)
  }

  /** The views of one worker. */
  function Assigned(index: nat, clients: nat, views: nat): seq<nat>
    requires index < clients && views > 0
  {
    if clients <= views then Stride(index, views, clients) else [index % views]
  }

  /** When a worker's next request is due, with `count` views to go round. */
  function Due(started: real, index: nat, slots: int, iteration: nat, count: nat): real
    requires slots > 0 && count > 0
  {
    started + index as real / slots as real + iteration as real / count as real
  }

  /** How many requests a worker makes. */
  function Offered(index: nat, clients: nat, views: nat, seconds: int): nat
    requires index < clients && views > 0
  {
    |Assigned(index, clients, views)| * Max(0, seconds)
  }

  // ---------------------------------------------------------------------
  // One worker
  // ---------------------------------------------------------------------

  /** A stride visits exactly the numbers of its residue class, in order. */
  lemma {:induction false} StrideIs(from: nat, to: nat, step: nat)
    requires step > 0
    ensures from < to ==> |Stride(from, to, step)| > 0
    ensures forall k | 0 <= k < |Stride(from, to, step)| :: Stride(from, to, step)[k] == from + k * step < to
    ensures from + |Stride(from, to, step)| * step >= to
    ensures from < to ==> (|Stride(from, to, step)| - 1) * step < to - from
    decreases if from < to then to - from else 0
  {
    if from < to {
      var rest := Stride(from + step, to, step);
      StrideIs(from + step, to, step);
      assert |Stride(from, to, step)| == |rest| + 1;
      Distribute(|rest|, step);
      forall k | 0 <= k < |rest| + 1
        ensures Stride(from, to, step)[k] == from + k * step < to
      {
        if k > 0 {
          assert Stride(from, to, step)[k] == rest[k - 1];
          Distribute(k - 1, step);
        }
      }
      if from + step < to { Distribute(|rest| - 1, step); }
    }
  }

  lemma Distribute(k: int, step: int)
    ensures (k + 1) * step == k * step + step
  {
  }

  /** A worker's first request is due before its second slot: with n views in turn, n times its
      index stays below the number of slots in a second. */
  lemma FirstSlot(index: nat, clients: nat, views: nat)
    requires index < clients && views > 0
    ensures 0 < |Assigned(index, clients, views)|
    ensures |Assigned(index, clients, views)| * index < Max(clients, views)
  {
    hide Stride;
    if clients <= views {
      StrideIs(index, views, clients);
      var n := |Assigned(index, clients, views)|;
      Packed(n, index, clients, views);
    }
  }

  lemma Packed(n: int, index: int, clients: int, views: int)
    requires 0 <= index < clients <= views && 0 < n
    requires (n - 1) * clients < views - index
    ensures n * index < views
  {
    // clients * n * index <= (views - index + clients - 1) * index < clients * views
    assert n * clients <= views - index + clients - 1;
    Scale(n * clients, views - index + clients - 1, index);
    Scale(clients, views, clients - index);
    if n * index >= views {
      Scale(views, n * index, clients);
      assert clients * (n * index) == (n * clients) * index;
      assert (views - index + clients - 1) * index == views * index + (clients - index) * index - index;
      assert views * clients == views * index + views * (clients - index);
      Scale(index, clients, clients - index);
      assert false;
    }
  }

  lemma Scale(a: int, b: int, c: int)
    requires a <= b && 0 <= c
    ensures a * c <= b * c
  {
  }

  lemma Quotients(a: int, m: int, j: int, n: int, s: int)
    requires 0 < m && 0 < n && 0 <= a && n * a < m
    ensures a as real / m as real + j as real / n as real < s as real <==> j < n * s
  {
    var x, y := a as real / m as real, j as real / n as real;
    assert y * n as real == j as real;
    assert x * m as real == a as real;
    var z := x * n as real;
    assert z * m as real == (n * a) as real;
    Fraction(z, n * a, m);
    assert (x + y) * n as real == z + j as real;
    assert s as real * n as real == (n * s) as real;
    if x + y < s as real { RealScaleStrict(x + y, s as real, n as real); }
    if x + y >= s as real { RealScale(s as real, x + y, n as real); }
  }

  lemma Fraction(z: real, a: int, m: int)
    requires 0 <= a < m && z * m as real == a as real
    ensures 0.0 <= z < 1.0
  {
    if z >= 1.0 { RealScale(1.0, z, m as real); }
    if z < 0.0 { RealScaleStrict(z, 0.0, m as real); }
  }

  lemma RealScale(a: real, b: real, c: real)
    requires a <= b && 0.0 < c
    ensures a * c <= b * c
  {
  }

  lemma RealScaleStrict(a: real, b: real, c: real)
    requires a < b && 0.0 < c
    ensures a * c < b * c
  {
  }

  /** The requests that fall due within the time are exactly the first so many: a worker with n
      views makes n requests for each second, whatever its offset and whenever it started. */
  lemma DueInTime(started: real, index: nat, clients: nat, views: nat, seconds: int, iteration: nat)
    requires index < clients && views > 0
    ensures |Assigned(index, clients, views)| > 0
    ensures Due(started, index, Max(clients, views), iteration, |Assigned(index, clients, views)|)
              < started + seconds as real <==>
            iteration < Offered(index, clients, views, seconds)
  {
    hide Assigned;
    FirstSlot(index, clients, views);
    var n := |Assigned(index, clients, views)|;
    Quotients(index, Max(clients, views), iteration, n, seconds);
    if seconds <= 0 { Scale(seconds, 0, n); }
  }

  lemma Whole(i: int, n: int)
    requires n > 0
    ensures (i + n) as real / n as real == i as real / n as real + 1.0
  {
    var d, x, y := n as real, i as real / n as real, (i + n) as real / n as real;
    assert x * d == i as real;
    assert y * d == (i + n) as real == i as real + d;
    assert (y - x - 1.0) * d == 0.0;
    if y - x - 1.0 > 0.0 { RealScaleStrict(0.0, y - x - 1.0, d); }
    if y - x - 1.0 < 0.0 { RealScaleStrict(y - x - 1.0, 0.0, d); }
  }

  /** The first worker begins at the start, each further one a slot later, and every worker goes on in
      equal steps, as many to the second as it has views. */
  lemma DueIsSpread(started: real, index: nat, slots: int, iteration: nat, count: nat)
    requires slots > 0 && count > 0
    ensures Due(started, 0, slots, 0, count) == started
    ensures var due := Due(started, index, slots, iteration, count);
            && (Due(started, index + 1, slots, iteration, count) - due) * slots as real == 1.0
            && (Due(started, index, slots, iteration + 1, count) - due) * count as real == 1.0
  {
    OneStep(index, slots);
    OneStep(iteration, count);
  }

  lemma OneStep(i: int, n: int)
    requires n > 0
    ensures ((i + 1) as real / n as real - i as real / n as real) * n as real == 1.0
  {
    var x, y := i as real / n as real, (i + 1) as real / n as real;
    assert x * n as real == i as real && y * n as real == (i + 1) as real;
  }

  /** Going round the views once takes one second: each view of a worker comes up once a second. */
  lemma OneRound(started: real, index: nat, slots: int, iteration: nat, count: nat)
    requires slots > 0 && count > 0
    ensures Due(started, index, slots, iteration + count, count) == Due(started, index, slots, iteration, count) + 1.0
  {
    Whole(iteration, count);
  }

  // ---------------------------------------------------------------------
  // The loop of one worker
  // ---------------------------------------------------------------------

  /** The first so many views when going round a list. */
  function Cycle(list: seq<nat>, total: nat): seq<nat>
    requires list != []
  {
    seq(total, j requires 0 <= j < total => list[j % |list|])
  }

  /** The views a worker asks for, in order. */
  function Requests(index: nat, clients: nat, views: nat, seconds: int): seq<nat>
    requires index < clients && views > 0
  {
    FirstSlot(index, clients, views);
    Cycle(Assigned(index, clients, views), Offered(index, clients, views, seconds))
  }

  /** What all workers count together, successes and failures. */
  class Counts {
    var success: nat
    var failure: nat
  }

  function Good(answers: nat -> bool, total: nat): nat {
    if total == 0 then 0 else Good(answers, total - 1) + (if answers(total - 1) then 1 else 0)
  }

  lemma {:induction false} GoodAtMost(answers: nat -> bool, total: nat)
    ensures Good(answers, total) <= total
  {
    if total > 0 { GoodAtMost(answers, total - 1); }
  }

  /** The loop of one worker. `stopped` says before which of its requests it finds the stop signal
      set, and `answers` how each of them comes out. It asks for the scheduled views in order, all of
      them unless it is stopped, and counts every answer once. */
  method Poll(counts: Counts, index: nat, clients: nat, views: nat, started: real, seconds: int,
              stopped: nat -> bool, answers: nat -> bool)
    returns (asked: seq<nat>)
    requires index < clients && views > 0
    modifies counts
    ensures |asked| <= |Requests(index, clients, views, seconds)|
    ensures asked == Requests(index, clients, views, seconds)[..|asked|]
    ensures forall j | 0 <= j < |asked| :: !stopped(j)
    ensures |asked| < |Requests(index, clients, views, seconds)| ==> stopped(|asked|)
    ensures Good(answers, |asked|) <= |asked|
    ensures counts.success == old(counts.success) + Good(answers, |asked|)
    ensures counts.failure == old(counts.failure) + (|asked| - Good(answers, |asked|))
  {
    hide Assigned, Due;
    FirstSlot(index, clients, views);
    var turns := Assigned(index, clients, views);
    asked := [];
    var iteration := 0;
    GoodAtMost(answers, 0);
    DueInTime(started, index, clients, views, seconds, 0);
    while true
      invariant asked == Cycle(turns, iteration) && iteration <= Offered(index, clients, views, seconds)
      invariant forall j | 0 <= j < iteration :: !stopped(j)
      invariant Good(answers, iteration) <= iteration
      invariant counts.success == old(counts.success) + Good(answers, iteration)
      invariant counts.failure == old(counts.failure) + (iteration - Good(answers, iteration))
      decreases Offered(index, clients, views, seconds) - iteration
    {
      DueInTime(started, index, clients, views, seconds, iteration);
      var due := Due(started, index, Max(clients, views), iteration, |turns|);
      if due >= started + seconds as real { break; }
      if stopped(iteration) { break; }
      asked := asked + [turns[iteration % |turns|]];
      var good := answers(iteration);
      if good { counts.success := counts.success + 1; } else { counts.failure := counts.failure + 1; }
      iteration := iteration + 1;
      GoodAtMost(answers, iteration);
    }
  }

  // ---------------------------------------------------------------------
  // All workers together
  // ---------------------------------------------------------------------

  /** What the first so many workers offer together. */
  function OfferedBy(workers: nat, clients: nat, views: nat, seconds: int): nat
    requires workers <= clients && views > 0
  {
    if workers == 0 then 0
    else OfferedBy(workers - 1, clients, views, seconds) + Offered(workers - 1, clients, views, seconds)
  }

  /** How often the first so many workers ask for a view. */
  function AskedBy(workers: nat, view: nat, clients: nat, views: nat, seconds: int): nat
    requires workers <= clients && views > 0
  {
    if workers == 0 then 0
    else
      AskedBy(workers - 1, view, clients, views, seconds)
      + multiset(Requests(workers - 1, clients, views, seconds))[view]
  }

  lemma Remainder(a: int, n: int, q: int, r: int)
    requires 0 <= r < n && a == n * q + r
    ensures a % n == r && a / n == q
  {
    var d := q - a / n;
    assert n * d == n * q - n * (a / n);
    if d >= 1 { Scale(1, d, n); }
    if d <= -1 { Scale(d, -1, n); }
  }

  lemma ResidueStep(from: nat, to: nat, step: nat)
    requires from + step <= to && 0 < step
    ensures (to - from) % step == (to - (from + step)) % step
  {
    var d := to - (from + step);
    assert step * (d / step + 1) == step * (d / step) + step;
    Remainder(d + step, step, d / step + 1, d % step);
  }

  /** One more number belongs to the stride of its residue class. */
  lemma {:induction false} StrideGrows(from: nat, to: nat, step: nat)
    requires step > 0
    ensures Stride(from, to + 1, step) ==
            Stride(from, to, step) + (if from <= to && (to - from) % step == 0 then [to] else [])
    decreases if from < to then to - from else 0
  {
    if from < to {
      StrideGrows(from + step, to, step);
      if from + step <= to { ResidueStep(from, to, step); }
    } else if from == to {
      assert Stride(from + step, to + 1, step) == [];
    }
  }

  lemma Residue(index: nat, n: nat, step: nat)
    requires index < step
    ensures (index <= n && (n - index) % step == 0) <==> n % step == index
  {
    var q, r := n / step, n % step;
    if r >= index {
      if q < 0 { Scale(q, -1, step); }
      Scale(0, q, step);
      Remainder(n - index, step, q, r - index);
    } else if index <= n {
      assert step * (q - 1) == step * q - step;
      Remainder(n - index, step, q - 1, step + r - index);
    }
  }

  function Lengths(strides: nat, views: nat, clients: nat): nat
    requires strides <= clients && clients > 0
  {
    if strides == 0 then 0 else Lengths(strides - 1, views, clients) + |Stride(strides - 1, views, clients)|
  }

  lemma {:induction false} LengthsGrow(strides: nat, views: nat, clients: nat)
    requires strides <= clients && clients > 0
    ensures Lengths(strides, views + 1, clients)
          == Lengths(strides, views, clients) + (if views % clients < strides then 1 else 0)
  {
    hide Stride;
    if strides > 0 {
      LengthsGrow(strides - 1, views, clients);
      StrideGrows(strides - 1, views, clients);
      Residue(strides - 1, views, clients);
    }
  }

  lemma {:induction false} LengthsAre(views: nat, clients: nat)
    requires clients > 0
    ensures Lengths(clients, views, clients) == views
  {
    if views == 0 {
      NoLengths(clients, clients);
    } else {
      LengthsAre(views - 1, clients);
      LengthsGrow(clients, views - 1, clients);
    }
  }

  lemma {:induction false} NoLengths(strides: nat, clients: nat)
    requires strides <= clients && clients > 0
    ensures Lengths(strides, 0, clients) == 0
  {
    if strides > 0 { NoLengths(strides - 1, clients); }
  }

  lemma {:induction false} OfferedByStrides(workers: nat, clients: nat, views: nat, seconds: int)
    requires workers <= clients <= views && views > 0 && clients > 0
    ensures OfferedBy(workers, clients, views, seconds) == Lengths(workers, views, clients) * Max(0, seconds)
  {
    hide Stride;
    if workers > 0 {
      OfferedByStrides(workers - 1, clients, views, seconds);
      Expand(Lengths(workers - 1, views, clients), |Stride(workers - 1, views, clients)|, Max(0, seconds));
    }
  }

  lemma Expand(a: int, b: int, c: int)
    ensures (a + b) * c == a * c + b * c
  {
  }

  lemma {:induction false} OfferedByOnes(workers: nat, clients: nat, views: nat, seconds: int)
    requires workers <= clients && views < clients && views > 0
    ensures OfferedBy(workers, clients, views, seconds) == workers * Max(0, seconds)
  {
    if workers > 0 {
      OfferedByOnes(workers - 1, clients, views, seconds);
      Expand(workers - 1, 1, Max(0, seconds));
    }
  }

  /** The load is exact: the workers together make as many requests per second as there are workers
      or views, whichever is more. */
  lemma ExactLoad(clients: nat, views: nat, seconds: int)
    requires clients > 0 && views > 0
    ensures OfferedBy(clients, clients, views, seconds) == Max(clients, views) * Max(0, seconds)
  {
    if clients <= views {
      OfferedByStrides(clients, clients, views, seconds);
      LengthsAre(views, clients);
    } else {
      OfferedByOnes(clients, clients, views, seconds);
    }
  }

  lemma CycleGrows(list: seq<nat>, total: nat, rounds: nat)
    requires list != [] && total == |list| * rounds
    ensures Cycle(list, total + |list|) == Cycle(list, total) + list
  {
    forall j | 0 <= j < total + |list|
      ensures Cycle(list, total + |list|)[j] == (Cycle(list, total) + list)[j]
    {
      if j >= total { Remainder(j, |list|, rounds, j - total); }
    }
  }

  lemma {:induction false} CycleCounts(list: seq<nat>, rounds: nat, x: nat)
    requires list != []
    ensures multiset(Cycle(list, |list| * rounds))[x] == multiset(list)[x] * rounds
  {
    hide Cycle;
    if rounds == 0 {
      EmptyCycle(list);
    } else {
      var total := |list| * (rounds - 1);
      CycleCounts(list, rounds - 1, x);
      CycleGrows(list, total, rounds - 1);
      Distribute(rounds - 1, |list|);
      Distribute(rounds - 1, multiset(list)[x]);
    }
  }

  lemma EmptyCycle(list: seq<nat>)
    requires list != []
    ensures Cycle(list, 0) == []
  {
  }

  lemma RequestsCount(index: nat, view: nat, clients: nat, views: nat, seconds: int)
    requires index < clients && views > 0
    ensures multiset(Requests(index, clients, views, seconds))[view] ==
            multiset(Assigned(index, clients, views))[view] * Max(0, seconds)
  {
    hide Assigned, Cycle;
    FirstSlot(index, clients, views);
    CycleCounts(Assigned(index, clients, views), Max(0, seconds), view);
  }

  /** A view is in the stride of the worker of its residue class, once, and in no other. */
  lemma {:induction false} StrideHolds(index: nat, views: nat, clients: nat, view: nat)
    requires index < clients
    ensures multiset(Stride(index, views, clients))[view] == if view < views && view % clients == index then 1 else 0
    decreases views
  {
    hide Stride;
    if views == 0 {
      NoStride(index, clients);
    } else {
      StrideHolds(index, views - 1, clients, view);
      OneMoreView(index, views, clients, view);
    }
  }

  lemma OneMoreView(index: nat, views: nat, clients: nat, view: nat)
    requires index < clients && views > 0
    ensures multiset(Stride(index, views, clients))[view] ==
            multiset(Stride(index, views - 1, clients))[view]
            + (if view == views - 1 && view % clients == index then 1 else 0)
  {
    hide Stride;
    StrideGrows(index, views - 1, clients);
    Residue(index, views - 1, clients);
    CountOneMore(Stride(index, views - 1, clients), views - 1, view);
  }

  lemma CountOneMore(list: seq<nat>, next: nat, x: nat)
    ensures multiset(list + [next])[x] == multiset(list)[x] + if x == next then 1 else 0
    ensures list + [] == list
  {
  }

  lemma {:induction false} AskedByStrides(workers: nat, view: nat, clients: nat, views: nat, seconds: int)
    requires workers <= clients <= views && clients > 0 && view < views
    ensures AskedBy(workers, view, clients, views, seconds) == if view % clients < workers then Max(0, seconds) else 0
  {
    hide Requests, Stride;
    if workers > 0 {
      AskedByStrides(workers - 1, view, clients, views, seconds);
      RequestsCount(workers - 1, view, clients, views, seconds);
      StrideHolds(workers - 1, views, clients, view);
    }
  }

  lemma {:induction false} AskedByOnes(workers: nat, view: nat, clients: nat, views: nat, seconds: int)
    requires workers <= clients && view < views < clients
    ensures AskedBy(workers, view, clients, views, seconds) == |Stride(view, workers, views)| * Max(0, seconds)
  {
    hide Requests, Stride;
    if workers > 0 {
      AskedByOnes(workers - 1, view, clients, views, seconds);
      RequestsCount(workers - 1, view, clients, views, seconds);
      StrideGrows(view, workers - 1, views);
      Residue(view, workers - 1, views);
      Expand(|Stride(view, workers - 1, views)|, 1, Max(0, seconds));
    } else {
      StrideIs(view, 0, views);
      assert |Stride(view, 0, views)| == 0 by { NoStride(view, views); }
    }
  }

  lemma NoStride(from: nat, step: nat)
    requires step > 0
    ensures Stride(from, 0, step) == []
  {
  }

  /** With no more workers than views, every view is asked for exactly once per second. With more
      workers, a view is asked for once per second by each of the workers that share it. */
  lemma EachViewPolled(view: nat, clients: nat, views: nat, seconds: int)
    requires clients > 0 && view < views
    ensures clients <= views ==> AskedBy(clients, view, clients, views, seconds) == Max(0, seconds)
    ensures clients > views ==>
              AskedBy(clients, view, clients, views, seconds) == |Stride(view, clients, views)| * Max(0, seconds)
  {
    if clients <= views {
      AskedByStrides(clients, view, clients, views, seconds);
    } else {
      AskedByOnes(clients, view, clients, views, seconds);
    }
  }
}
