/** Finding the load that the baseline can carry: a proposal from its capacity, then fixed reductions
    until one has headroom. */
module RateQualification {

  /** One saturation leg: its throughput, and whether it was paced after all. */
  datatype Capacity = Capacity(throughput: real, paced: bool)

  /** One baseline of an earlier qualification: the rate it ran at, and whether it had headroom there. */
  datatype Earlier = Earlier(offered: int, headroom: bool)

  /** An earlier qualification to take over: whether driver, binary, settings and commit are the
      same, its rate, and the results of its baselines that are there. */
  datatype Reuse = NoReuse | Take(sameSetup: bool, rate: int, baselines: seq<Earlier>)

  datatype Attempt = Attempt(offered: int, passed: bool)

  datatype Outcome =
    | Qualified(rate: int, attempts: seq<Attempt>)
    | WrongCapacities
    | OutsideRange
    | WrongReuse
    | NoneQualifies

  const REDUCTION: real := 0.8

  /** How many baselines an earlier qualification has. */
  const BASELINES := 5

  /** Down to the next multiple of ten. */
  function RoundDown(x: real): int {
    (x / 10.0).Floor * 10
  }

  function Slowest(capacities: seq<Capacity>): real
    requires capacities != []
  {
    if |capacities| == 1 then capacities[0].throughput
    else
      var least := Slowest(capacities[..|capacities| - 1]);
      var last := capacities[|capacities| - 1].throughput;
      if last < least then last else least
  }

  function Proposal(capacities: seq<Capacity>): int
    requires capacities != []
  {
    RoundDown(Slowest(capacities) * 0.75)
  }

  function Reduced(offered: int): int {
    RoundDown(offered as real * REDUCTION)
  }

  /** What is tried as long as nothing passes. */
  function Ladder(offered: int): seq<int>
    requires offered >= 10
    decreases offered
  {
    ReducedFalls(offered);
    if Reduced(offered) < 10 then [offered] else [offered] + Ladder(Reduced(offered))
  }

  /** Rounding down gives the largest multiple of ten that is not above. */
  lemma RoundDownIs(x: real, n: int)
    ensures RoundDown(x) % 10 == 0
    ensures RoundDown(x) as real <= x
    ensures n % 10 == 0 && n as real <= x ==> n <= RoundDown(x)
  {
    var q := (x / 10.0).Floor;
    assert q as real <= x / 10.0 < q as real + 1.0;
    assert RoundDown(x) == q * 10;
    if n % 10 == 0 && n as real <= x {
      var k := n / 10;
      assert n == k * 10;
      assert k as real <= x / 10.0;
      assert k as real < (q + 1) as real;
    }
  }

  lemma ReducedFalls(offered: int)
    requires offered > 0
    ensures Reduced(offered) < offered
  {
    RoundDownIs(offered as real * REDUCTION, 0);
  }

  /** Every rate of the ladder is a multiple of ten, at least ten, and each is the largest such that
      takes off at least a fifth from the one before. */
  lemma {:induction false} LadderIs(offered: int)
    requires offered >= 10 && offered % 10 == 0
    ensures |Ladder(offered)| > 0 && Ladder(offered)[0] == offered
    ensures forall k | 0 <= k < |Ladder(offered)| :: 10 <= Ladder(offered)[k] <= offered && Ladder(offered)[k] % 10 == 0
    ensures forall k | 0 < k < |Ladder(offered)| :: Ladder(offered)[k] == Reduced(Ladder(offered)[k - 1])
    ensures forall j, k | 0 <= j < k < |Ladder(offered)| :: Ladder(offered)[k] < Ladder(offered)[j]
    ensures forall k | 0 <= k < |Ladder(offered)| :: Reduced(Ladder(offered)[k]) < 10 <==> k == |Ladder(offered)| - 1
    decreases offered
  {
    hide Reduced, RoundDown;
    ReducedFalls(offered);
    if Reduced(offered) >= 10 {
      ReducedIsTens(offered);
      LadderIs(Reduced(offered));
      var rest := Ladder(Reduced(offered));
      assert Ladder(offered) == [offered] + rest;
    }
  }

  lemma ReducedIsTens(offered: int)
    ensures Reduced(offered) % 10 == 0
  {
    RoundDownIs(offered as real * REDUCTION, 0);
  }

  lemma {:induction false} SlowestIs(capacities: seq<Capacity>)
    requires capacities != []
    ensures forall c | c in capacities :: Slowest(capacities) <= c.throughput
    ensures exists c :: c in capacities && c.throughput == Slowest(capacities)
  {
    if |capacities| == 1 {
      assert capacities[0] in capacities;
    } else {
      var n := |capacities| - 1;
      SlowestIs(capacities[..n]);
      assert capacities == capacities[..n] + [capacities[n]];
      assert capacities[n] in capacities;
    }
  }

  predicate UsableCapacities(capacities: seq<Capacity>) {
    |capacities| == 5 && forall c | c in capacities :: !c.paced
  }

  predicate UsableReuse(reuse: Reuse, proposal: int)
    requires reuse.Take?
  {
    && reuse.sameSetup && 0 < reuse.rate <= proposal && |reuse.baselines| == BASELINES
    && forall b | b in reuse.baselines :: b.offered == reuse.rate && b.headroom
  }

  /** How far the ladder is climbed down: to the first rate with headroom, or to its end. */
  predicate StopsAt(ladder: seq<int>, headroom: int -> bool, k: nat) {
    && k < |ladder|
    && (forall j | 0 <= j < k :: !headroom(ladder[j]))
    && (headroom(ladder[k]) || k == |ladder| - 1)
  }

  function Attempts(ladder: seq<int>, headroom: int -> bool, count: nat): seq<Attempt>
    requires count <= |ladder|
  {
    seq(count, j requires 0 <= j < count => Attempt(ladder[j], headroom(ladder[j])))
  }

  /** The qualification. Without reuse it takes the first rate of the ladder that has headroom, after
      trying all larger ones in vain, and fails exactly when none has. */
  method Qualify(capacities: seq<Capacity>, reuse: Reuse, headroom: int -> bool) returns (r: Outcome)
    ensures r == WrongCapacities <==> !UsableCapacities(capacities)
    ensures UsableCapacities(capacities) ==> (r == OutsideRange <==> !(1 <= Proposal(capacities) <= 1000))
    ensures UsableCapacities(capacities) && 1 <= Proposal(capacities) <= 1000 ==>
              && Proposal(capacities) >= 10
              && (reuse.Take? ==>
                    r == if UsableReuse(reuse, Proposal(capacities)) then Qualified(reuse.rate, []) else WrongReuse)
              && (reuse.NoReuse? ==>
                    var ladder := Ladder(Proposal(capacities));
                    exists k: nat :: StopsAt(ladder, headroom, k) &&
                      r == (if headroom(ladder[k]) then Qualified(ladder[k], Attempts(ladder, headroom, k + 1))
                            else NoneQualifies))
    ensures r.Qualified? ==> |capacities| == 5 && forall c | c in capacities :: r.rate as real <= 0.75 * c.throughput
    ensures r.Qualified? && reuse.Take? ==>
              && reuse.sameSetup && r.rate == reuse.rate > 0 && |reuse.baselines| == 5
              && forall i | 0 <= i < 5 :: reuse.baselines[i] == Earlier(reuse.rate, true)
    ensures r.Qualified? && reuse.NoReuse? ==> headroom(r.rate) && r.rate % 10 == 0 && r.rate >= 10
  {
    hide Ladder, Reduced, Slowest, Proposal;
    if |capacities| != 5 || exists c :: c in capacities && c.paced { return WrongCapacities; }
    var offered := Proposal(capacities);
    if !(1 <= offered <= 1000) { return OutsideRange; }
    ProposalIsTens(capacities);
    ProposalIsLargest(capacities, offered);
    var attempts: seq<Attempt> := [];
    if reuse.Take? {
      if !reuse.sameSetup || !(0 < reuse.rate <= offered) { return WrongReuse; }
      if |reuse.baselines| != BASELINES { return WrongReuse; }
      for i := 0 to BASELINES
        invariant forall j | 0 <= j < i :: reuse.baselines[j].offered == reuse.rate && reuse.baselines[j].headroom
      {
        if reuse.baselines[i].offered != reuse.rate || !reuse.baselines[i].headroom {
          assert reuse.baselines[i] in reuse.baselines;
          return WrongReuse;
        }
      }
      return Qualified(reuse.rate, attempts);
    }
    ghost var ladder := Ladder(offered);
    ghost var k := 0;
    LadderIs(offered);
    while true
      invariant 0 <= k < |ladder| && offered == ladder[k] && offered > 0
      invariant forall j | 0 <= j < k :: !headroom(ladder[j])
      invariant attempts == Attempts(ladder, headroom, k)
      decreases offered
    {
      var passed := headroom(offered);
      attempts := attempts + [Attempt(offered, passed)];
      assert attempts == Attempts(ladder, headroom, k + 1);
      if passed {
        assert StopsAt(ladder, headroom, k);
        return Qualified(offered, attempts);
      }
      ReducedFalls(offered);
      offered := Reduced(offered);
      if offered < 10 {
        assert StopsAt(ladder, headroom, k);
        return NoneQualifies;
      }
      k := k + 1;
    }
  }

  lemma ProposalIsTens(capacities: seq<Capacity>)
    requires capacities != []
    ensures Proposal(capacities) % 10 == 0
  {
    RoundDownIs(Slowest(capacities) * 0.75, 0);
  }

  /** A multiple of ten is within the proposal exactly when it is at most three quarters of every capacity. */
  lemma ProposalIsLargest(capacities: seq<Capacity>, n: int)
    requires capacities != [] && n % 10 == 0
    ensures n <= Proposal(capacities) <==> forall c | c in capacities :: n as real <= 0.75 * c.throughput
  {
    hide Slowest, RoundDown;
    SlowestIs(capacities);
    RoundDownIs(Slowest(capacities) * 0.75, n);
  }

  /** Each rate of the ladder is at most four fifths of the one before, and less than ten below that. */
  lemma LadderFallsByAFifth(offered: int, k: nat)
    requires offered >= 10 && offered % 10 == 0 && 0 < k < |Ladder(offered)|
    ensures var before, next := Ladder(offered)[k - 1] as real, Ladder(offered)[k] as real;
            next <= 0.8 * before < next + 10.0
  {
    hide Ladder, RoundDown;
    LadderIs(offered);
    var fifths := Ladder(offered)[k - 1] as real * REDUCTION;
    RoundDownIs(fifths, RoundDown(fifths) + 10);
  }

  /** Every rate that is tried is a multiple of ten and at most three quarters of every capacity. */
  lemma TriedRatesAreSafe(capacities: seq<Capacity>, k: nat, c: Capacity)
    requires c in capacities && Proposal(capacities) >= 10 && k < |Ladder(Proposal(capacities))|
    ensures var rate := Ladder(Proposal(capacities))[k];
            rate % 10 == 0 && 10 <= rate && rate as real <= 0.75 * c.throughput
  {
    hide Ladder, Slowest, RoundDown;
    ProposalIsTens(capacities);
    SlowestIs(capacities);
    RoundDownIs(Slowest(capacities) * 0.75, 0);
    LadderIs(Proposal(capacities));
  }

  /** A qualified rate had headroom and no larger rate of the ladder had; nothing smaller was tried. */
  lemma QualifiedIsLargest(offered: int, headroom: int -> bool, k: nat, j: nat)
    requires offered >= 10 && offered % 10 == 0 && j < |Ladder(offered)|
    requires StopsAt(Ladder(offered), headroom, k) && headroom(Ladder(offered)[k])
    ensures headroom(Ladder(offered)[j]) ==> Ladder(offered)[j] <= Ladder(offered)[k]
  {
    hide Ladder;
    LadderIs(offered);
  }
}
