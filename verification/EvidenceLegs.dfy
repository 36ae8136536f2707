/** The legs of the matched comparison: which process runs when, where it writes, and what the
    comparison reads afterwards. */
module EvidenceLegs {
  import opened Options

  datatype Role = Baseline | Candidate

  /** One process: its role, the mode it runs in, and the mode it is the control for, if for one. */
  datatype Leg = Leg(role: Role, mode: string, pairedMode: Option<string>)

  datatype Entry = Entry(trial: nat, leg: Leg)

  const UNMOUNTED := "unmounted"
  const TRIALS: nat := 5

  predicate Distinct<T(==)>(s: seq<T>) {
    forall i, j | 0 <= i < j < |s| :: s[i] != s[j]
  }

  /** The candidate modes as the command line admits them: some, distinct, and not the control. */
  predicate ValidModes(modes: seq<string>) {
    modes != [] && Distinct(modes) && UNMOUNTED !in modes
  }

  /** The control first, then the candidate modes, starting one further in each trial. */
  function Rotation(modes: seq<string>, trial: nat): seq<string>
    requires modes != [] && trial >= 1
  {
    var offset := (trial - 1) % |modes|;
    [UNMOUNTED] + modes[offset..] + modes[..offset]
  }

  /** A candidate with its own control, in the order of the trial. */
  function Pair(mode: string, trial: nat): seq<Leg> {
    var control, candidate := Leg(Baseline, UNMOUNTED, Some(mode)), Leg(Candidate, mode, Some(mode));
    if trial % 2 == 1 then [control, candidate] else [candidate, control]
  }

  function Pairs(modes: seq<string>, trial: nat): seq<Leg> {
    if modes == [] then [] else Pairs(modes[..|modes| - 1], trial) + Pair(modes[|modes| - 1], trial)
  }

  function Candidates(modes: seq<string>): seq<Leg> {
    seq(|modes|, i requires 0 <= i < |modes| => Leg(Candidate, modes[i], None))
  }

  function TrialLegs(modes: seq<string>, paired: bool, trial: nat): seq<Leg>
    requires modes != [] && trial >= 1
  {
    if paired then Pairs(Rotation(modes, trial), trial)
    else [Leg(Baseline, UNMOUNTED, None)] + Candidates(Rotation(modes, trial))
  }

  /** What a trial needs: every mode, the control included, once as a candidate, and a control for
      each, or one for all. */
  predicate Needed(leg: Leg, modes: seq<string>, paired: bool) {
    if paired then
      leg.pairedMode.Some? && leg.pairedMode.value in [UNMOUNTED] + modes
      && leg.mode == (if leg.role.Baseline? then UNMOUNTED else leg.pairedMode.value)
    else
      leg.pairedMode.None? && (if leg.role.Baseline? then leg.mode == UNMOUNTED else leg.mode in [UNMOUNTED] + modes)
  }

  // ---------------------------------------------------------------------
  // Every trial has just the legs it needs
  // ---------------------------------------------------------------------

  lemma RotatedIs(modes: seq<string>, offset: nat)
    requires Distinct(modes) && offset <= |modes|
    ensures var r := modes[offset..] + modes[..offset];
            |r| == |modes| && Distinct(r) && forall m :: m in r <==> m in modes
  {
    var r, n := modes[offset..] + modes[..offset], |modes|;
    forall i | 0 <= i < n
      ensures r[i] == modes[if i < n - offset then i + offset else i - (n - offset)]
    {
    }
    assert modes == modes[..offset] + modes[offset..];
  }

  lemma RotationIs(modes: seq<string>, trial: nat)
    requires ValidModes(modes) && trial >= 1
    ensures |Rotation(modes, trial)| == |modes| + 1 && Distinct(Rotation(modes, trial))
    ensures forall m :: m in Rotation(modes, trial) <==> m in [UNMOUNTED] + modes
  {
    hide Distinct;
    var offset := (trial - 1) % |modes|;
    var r := modes[offset..] + modes[..offset];
    RotatedIs(modes, offset);
    assert Rotation(modes, trial) == [UNMOUNTED] + r;
    SingleIsDistinct(UNMOUNTED);
    DistinctConcat([UNMOUNTED], r);
  }

  /** In trial `t` the candidates follow the control in their own order, each moved `t - 1` places to
      the front, the first ones coming last. */
  lemma RotationAt(modes: seq<string>, trial: nat, i: nat)
    requires modes != [] && trial >= 1 && i < |modes|
    ensures Rotation(modes, trial)[0] == "unmounted"
    ensures |Rotation(modes, trial)| == |modes| + 1
    ensures Rotation(modes, trial)[1 + i] == modes[(trial - 1 + i) % |modes|]
  {
    var n := |modes|;
    var offset := (trial - 1) % n;
    Wraps(trial - 1, i, n);
  }

  lemma Wraps(a: nat, i: nat, n: nat)
    requires i < n
    ensures (a + i) % n == if i < n - a % n then a % n + i else a % n + i - n
  {
    var q, r := a / n, a % n;
    assert a + i == n * q + (r + i);
    if r + i < n {
      Remainder(a + i, n, q, r + i);
    } else {
      assert n * (q + 1) == n * q + n;
      Remainder(a + i, n, q + 1, r + i - n);
    }
  }

  lemma Remainder(a: int, n: int, q: int, r: int)
    requires 0 <= r < n && a == n * q + r
    ensures a % n == r
  {
    var d := q - a / n;
    assert n * d == n * q - n * (a / n);
    if d >= 1 { Scale(1, d, n); }
    if d <= -1 { Scale(d, -1, n); }
  }

  lemma Scale(a: int, b: int, c: int)
    requires a <= b && 0 <= c
    ensures a * c <= b * c
  {
  }

  lemma SingleIsDistinct(m: string)
    ensures Distinct([m])
  {
  }

  /** Legs of a paired trial stand two by two: candidate `k` and its control are neighbours. */
  lemma {:induction false} PairsAt(modes: seq<string>, trial: nat, k: nat)
    requires k < |modes|
    ensures |Pairs(modes, trial)| == 2 * |modes|
    ensures Pairs(modes, trial)[2 * k .. 2 * k + 2] == Pair(modes[k], trial)
  {
    hide Pair;
    PairHasTwo(modes[|modes| - 1], trial);
    var n := |modes| - 1;
    if n > 0 { PairsAt(modes[..n], trial, if k < n then k else 0); }
    if k < n {
      assert Pairs(modes, trial)[2 * k .. 2 * k + 2] == Pairs(modes[..n], trial)[2 * k .. 2 * k + 2];
    }
  }

  /** Where the legs of mode `k` of a paired trial stand, mode 0 being the control itself: the control
      comes first in odd trials and second in even ones. */
  lemma PairStands(modes: seq<string>, trial: nat, k: nat)
    requires modes != [] && trial >= 1 && k <= |modes|
    ensures |TrialLegs(modes, true, trial)| == 2 * |modes| + 2
    ensures var mode := if k == 0 then "unmounted" else modes[(trial - 1 + (k - 1)) % |modes|];
            var control := if trial % 2 == 1 then 2 * k else 2 * k + 1;
            var candidate := if trial % 2 == 1 then 2 * k + 1 else 2 * k;
            && TrialLegs(modes, true, trial)[control] == Leg(Baseline, "unmounted", Some(mode))
            && TrialLegs(modes, true, trial)[candidate] == Leg(Candidate, mode, Some(mode))
  {
    hide Rotation, Pairs;
    RotationAt(modes, trial, if k == 0 then 0 else k - 1);
    var rotated := Rotation(modes, trial);
    PairsAt(rotated, trial, k);
    var pair := Pairs(rotated, trial)[2 * k .. 2 * k + 2];
    assert pair[0] == Pairs(rotated, trial)[2 * k] && pair[1] == Pairs(rotated, trial)[2 * k + 1];
  }

  lemma PairHasTwo(mode: string, trial: nat)
    ensures |Pair(mode, trial)| == 2
    ensures forall leg :: leg in Pair(mode, trial) <==>
              leg == Leg(Baseline, UNMOUNTED, Some(mode)) || leg == Leg(Candidate, mode, Some(mode))
    ensures Distinct(Pair(mode, trial))
  {
  }

  lemma {:induction false} PairsHave(modes: seq<string>, trial: nat)
    requires Distinct(modes)
    ensures forall leg :: leg in Pairs(modes, trial) <==> exists m :: m in modes && leg in Pair(m, trial)
    ensures Distinct(Pairs(modes, trial))
  {
    hide Pair;
    if modes != [] {
      var n := |modes| - 1;
      var init, last := modes[..n], modes[n];
      PairsHave(init, trial);
      PairHasTwo(last, trial);
      assert modes == init + [last];
      var before, added := Pairs(init, trial), Pair(last, trial);
      forall leg
        ensures leg in before + added <==> exists m :: m in modes && leg in Pair(m, trial)
      {
        if leg in before { var m :| m in init && leg in Pair(m, trial); assert m in modes; }
        if leg in added { assert last in modes; }
        if m :| m in modes && leg in Pair(m, trial) { assert m in init || m == last; }
      }
      forall x, y | x in before && y in added
        ensures x != y
      {
        var m :| m in init && x in Pair(m, trial);
        PairHasTwo(m, trial);
      }
      DistinctConcat(before, added);
    }
  }

  lemma DistinctConcat<T>(a: seq<T>, b: seq<T>)
    requires Distinct(a) && Distinct(b) && forall x, y | x in a && y in b :: x != y
    ensures Distinct(a + b)
  {
    forall i, j | 0 <= i < j < |a + b|
      ensures (a + b)[i] != (a + b)[j]
    {
      if i < |a| && j >= |a| { assert (a + b)[i] in a && (a + b)[j] in b; }
    }
  }

  lemma CandidatesHave(modes: seq<string>)
    requires Distinct(modes)
    ensures forall leg :: leg in Candidates(modes) <==> leg.role.Candidate? && leg.pairedMode.None? && leg.mode in modes
    ensures Distinct(Candidates(modes))
  {
    forall leg: Leg | leg.role.Candidate? && leg.pairedMode.None? && leg.mode in modes
      ensures leg in Candidates(modes)
    {
      var i :| 0 <= i < |modes| && modes[i] == leg.mode;
      assert Candidates(modes)[i] == leg;
    }
  }

  /** A trial has exactly the legs it needs, each once, however the modes are rotated. */
  lemma TrialIsComplete(modes: seq<string>, paired: bool, trial: nat)
    requires ValidModes(modes) && trial >= 1
    ensures forall leg :: leg in TrialLegs(modes, paired, trial) <==> Needed(leg, modes, paired)
    ensures Distinct(TrialLegs(modes, paired, trial))
  {
    hide Rotation, Pairs, Pair, Candidates;
    var rotated := Rotation(modes, trial);
    RotationIs(modes, trial);
    if paired {
      PairsHave(rotated, trial);
      forall leg
        ensures leg in Pairs(rotated, trial) <==> Needed(leg, modes, true)
      {
        forall m
          ensures leg in Pair(m, trial) <==>
                  leg == Leg(Baseline, UNMOUNTED, Some(m)) || leg == Leg(Candidate, m, Some(m))
        {
          PairHasTwo(m, trial);
        }
        if Needed(leg, modes, true) { assert leg in Pair(leg.pairedMode.value, trial); }
      }
    } else {
      CandidatesHave(rotated);
      DistinctConcat([Leg(Baseline, UNMOUNTED, None)], Candidates(rotated));
    }
  }

  // ---------------------------------------------------------------------
  // The whole plan
  // ---------------------------------------------------------------------

  function Entries(trial: nat, legs: seq<Leg>): seq<Entry> {
    seq(|legs|, i requires 0 <= i < |legs| => Entry(trial, legs[i]))
  }

  /** The entries of the first so many trials. */
  function Plan(modes: seq<string>, paired: bool, trials: nat): seq<Entry>
    requires modes != []
  {
    if trials == 0 then [] else Plan(modes, paired, trials - 1) + Entries(trials, TrialLegs(modes, paired, trials))
  }

  /** The legs of one trial, built as the script builds them. */
  method PlanTrial(modes: seq<string>, paired: bool, trial: nat) returns (legs: seq<Leg>)
    requires modes != [] && trial >= 1
    ensures legs == TrialLegs(modes, paired, trial)
  {
    var rotated := Rotation(modes, trial);
    if paired {
      legs := [];
      for i := 0 to |rotated|
        invariant legs == Pairs(rotated[..i], trial)
      {
        var pair := [Leg(Baseline, UNMOUNTED, Some(rotated[i])), Leg(Candidate, rotated[i], Some(rotated[i]))];
        assert rotated[..i + 1][..i] == rotated[..i];
        legs := legs + (if trial % 2 == 1 then pair else [pair[1], pair[0]]);
      }
      assert rotated[..|rotated|] == rotated;
    } else {
      legs := [Leg(Baseline, UNMOUNTED, None)];
      for i := 0 to |rotated|
        invariant legs == [Leg(Baseline, UNMOUNTED, None)] + Candidates(rotated[..i])
      {
        legs := legs + [Leg(Candidate, rotated[i], None)];
      }
      assert rotated[..|rotated|] == rotated;
    }
  }

  /** The order in which the manifest lists the legs: trial by trial. */
  method PlanOrder(modes: seq<string>, paired: bool) returns (order: seq<Entry>)
    requires modes != []
    ensures order == Plan(modes, paired, TRIALS)
    ensures ValidModes(modes) ==> forall e :: e in order <==> 1 <= e.trial <= 5 && Needed(e.leg, modes, paired)
  {
    hide TrialLegs, Needed, ValidModes;
    if ValidModes(modes) { PlanHas(modes, paired, TRIALS); }
    order := [];
    for trial := 1 to TRIALS + 1
      invariant order == Plan(modes, paired, trial - 1)
    {
      var legs := PlanTrial(modes, paired, trial);
      ghost var before := order;
      for i := 0 to |legs|
        invariant order == before + Entries(trial, legs[..i])
      {
        order := order + [Entry(trial, legs[i])];
      }
      assert legs[..|legs|] == legs;
    }
  }

  lemma {:induction false} PlanHas(modes: seq<string>, paired: bool, trials: nat)
    requires ValidModes(modes)
    ensures forall e :: e in Plan(modes, paired, trials) <==> 1 <= e.trial <= trials && Needed(e.leg, modes, paired)
    ensures Distinct(Plan(modes, paired, trials))
  {
    hide Needed, TrialLegs;
    if trials > 0 {
      PlanHas(modes, paired, trials - 1);
      TrialIsComplete(modes, paired, trials);
      var legs := TrialLegs(modes, paired, trials);
      EntriesHave(trials, legs);
      DistinctConcat(Plan(modes, paired, trials - 1), Entries(trials, legs));
    }
  }

  lemma EntriesHave(trial: nat, legs: seq<Leg>)
    requires Distinct(legs)
    ensures forall e :: e in Entries(trial, legs) <==> e.trial == trial && e.leg in legs
    ensures Distinct(Entries(trial, legs))
  {
    forall e: Entry | e.trial == trial && e.leg in legs
      ensures e in Entries(trial, legs)
    {
      var i :| 0 <= i < |legs| && legs[i] == e.leg;
      assert Entries(trial, legs)[i] == e;
    }
  }

  // ---------------------------------------------------------------------
  // Where legs write and what the comparison reads
  // ---------------------------------------------------------------------

  function Label(leg: Leg): string {
    if leg.role.Baseline? && leg.pairedMode.Some? then "baseline-for-" + leg.pairedMode.value
    else (if leg.role.Baseline? then "baseline-" else "candidate-") + leg.mode
  }

  function Digit(trial: nat): char
    requires trial < 10
  {
    ('0' as int + trial) as char
  }

  function Directory(e: Entry): string
    requires e.trial < 10
  {
    [Digit(e.trial), '-'] + Label(e.leg)
  }

  /** The file a leg writes its result to. */
  function ResultFile(e: Entry): string
    requires e.trial < 10
  {
    Directory(e) + "/1-" + e.leg.mode + ".json"
  }

  /** The file the comparison reads for the control of a mode. */
  function BaselineRead(trial: nat, mode: string, paired: bool): string
    requires trial < 10
  {
    [Digit(trial), '-'] + (if paired then "baseline-for-" + mode else "baseline-unmounted") + "/1-unmounted.json"
  }

  function CandidateRead(trial: nat, mode: string): string
    requires trial < 10
  {
    [Digit(trial), '-'] + "candidate-" + mode + "/1-" + mode + ".json"
  }

  function ControlOf(mode: string, paired: bool): Leg {
    Leg(Baseline, UNMOUNTED, if paired then Some(mode) else None)
  }

  function CandidateOf(mode: string, paired: bool): Leg {
    Leg(Candidate, mode, if paired then Some(mode) else None)
  }

  lemma SamePrefix(prefix: string, a: string, b: string)
    requires prefix + a == prefix + b
    ensures a == b
  {
    assert (prefix + a)[|prefix|..] == a && (prefix + b)[|prefix|..] == b;
  }

  lemma LabelRole(leg: Leg)
    ensures Label(leg) != "" && (Label(leg)[0] == 'b' <==> leg.role.Baseline?)
  {
  }

  /** No two legs that may run share a label. */
  lemma LabelsDiffer(a: Leg, b: Leg, modes: seq<string>, paired: bool)
    requires Needed(a, modes, paired) && Needed(b, modes, paired) && Label(a) == Label(b)
    ensures a == b
  {
    LabelRole(a);
    LabelRole(b);
    if a.role.Baseline? && paired {
      SamePrefix("baseline-for-", a.pairedMode.value, b.pairedMode.value);
    } else if a.role.Candidate? {
      SamePrefix("candidate-", a.mode, b.mode);
    }
  }

  /** No two legs of the plan write into the same directory. */
  lemma DirectoriesNeverCollide(modes: seq<string>, paired: bool, a: Entry, b: Entry)
    requires ValidModes(modes) && a in Plan(modes, paired, TRIALS) && b in Plan(modes, paired, TRIALS)
    ensures a.trial < 10 && b.trial < 10
    ensures Directory(a) == Directory(b) ==> a == b
  {
    hide Plan, Label, Needed;
    PlanHas(modes, paired, TRIALS);
    if Directory(a) == Directory(b) {
      assert Directory(a)[0] == Directory(b)[0];
      assert Directory(a)[2..] == Label(a.leg) && Directory(b)[2..] == Label(b.leg);
      LabelsDiffer(a.leg, b.leg, modes, paired);
    }
  }

  lemma FileOf(e: Entry, modes: seq<string>, paired: bool)
    requires e.trial < 10 && Needed(e.leg, modes, paired)
    ensures e.leg.role.Baseline? ==>
              ResultFile(e) == BaselineRead(e.trial, if paired then e.leg.pairedMode.value else UNMOUNTED, paired)
    ensures e.leg.role.Candidate? ==> ResultFile(e) == CandidateRead(e.trial, e.leg.mode)
  {
    hide Digit;
    var head := [Digit(e.trial), '-'];
    assert ResultFile(e) == head + Label(e.leg) + "/1-" + e.leg.mode + ".json";
    assert head + ("candidate-" + e.leg.mode) == head + "candidate-" + e.leg.mode;
    assert "/1-" + UNMOUNTED + ".json" == "/1-unmounted.json";
    assert "baseline-" + UNMOUNTED == "baseline-unmounted";
    FileIsParts(head, Label(e.leg), e.leg.mode);
  }

  /** The files of the plan by their names. */
  lemma FilesAre(e: Entry)
    requires 1 <= e.trial <= 5
    ensures var head, tail := ["12345"[e.trial - 1], '-'], "/1-" + e.leg.mode + ".json";
            ResultFile(e) ==
            if e.leg.role.Candidate? then head + "candidate-" + e.leg.mode + tail
            else if e.leg.pairedMode.Some? then head + "baseline-for-" + e.leg.pairedMode.value + tail
            else head + "baseline-" + e.leg.mode + tail
  {
    assert "12345"[e.trial - 1] == Digit(e.trial);
    var head := [Digit(e.trial), '-'];
    assert head + ("candidate-" + e.leg.mode) == head + "candidate-" + e.leg.mode;
    assert head + ("baseline-" + e.leg.mode) == head + "baseline-" + e.leg.mode;
    if e.leg.pairedMode.Some? {
      var mode := e.leg.pairedMode.value;
      assert head + ("baseline-for-" + mode) == head + "baseline-for-" + mode;
    }
  }

  lemma FileIsParts(head: string, label_: string, mode: string)
    ensures head + label_ + "/1-" + mode + ".json" == head + label_ + ("/1-" + mode + ".json")
  {
  }

  lemma SameSuffix(a: string, b: string, suffix: string)
    requires a + suffix == b + suffix
    ensures a == b
  {
    assert |a| == |b|;
    assert (a + suffix)[..|a|] == a && (b + suffix)[..|b|] == b;
  }

  function BaselineName(mode: string, paired: bool): string {
    (if paired then "baseline-for-" + mode else "baseline-unmounted") + "/1-unmounted.json"
  }

  function CandidateName(mode: string): string {
    "candidate-" + mode + "/1-" + mode + ".json"
  }

  lemma Names(trial: nat, mode: string, paired: bool)
    requires trial < 10
    ensures BaselineRead(trial, mode, paired) == [Digit(trial), '-'] + BaselineName(mode, paired)
    ensures CandidateRead(trial, mode) == [Digit(trial), '-'] + CandidateName(mode)
    ensures BaselineName(mode, paired) != "" && BaselineName(mode, paired)[0] == 'b'
    ensures CandidateName(mode) != "" && CandidateName(mode)[0] == 'c'
  {
    hide Digit;
    assert [Digit(trial), '-'] + CandidateName(mode) == CandidateRead(trial, mode);
    assert [Digit(trial), '-'] + BaselineName(mode, paired) == BaselineRead(trial, mode, paired);
  }

  lemma SameCandidate(a: string, b: string)
    requires CandidateName(a) == CandidateName(b)
    ensures a == b
  {
    assert |CandidateName(a)| == 2 * |a| + |CandidateName("")|;
    assert |CandidateName(b)| == 2 * |b| + |CandidateName("")|;
    assert CandidateName(a)[10..10 + |a|] == a && CandidateName(b)[10..10 + |b|] == b;
  }

  lemma SameBaseline(a: string, b: string)
    requires BaselineName(a, true) == BaselineName(b, true)
    ensures a == b
  {
    SameSuffix("baseline-for-" + a, "baseline-for-" + b, "/1-unmounted.json");
    SamePrefix("baseline-for-", a, b);
  }

  lemma SameTrial(s: nat, t: nat, a: string, b: string)
    requires s < 10 && t < 10 && [Digit(s), '-'] + a == [Digit(t), '-'] + b
    ensures s == t && a == b
  {
    assert ([Digit(s), '-'] + a)[0] == ([Digit(t), '-'] + b)[0];
    SamePrefix([Digit(s), '-'], a, b);
  }

  /** Every control result the comparison reads was written by one leg of the plan: the control of
      that mode, or of all, in that trial. */
  lemma ControlsAreWritten(modes: seq<string>, paired: bool, trial: nat, mode: string, e: Entry)
    requires ValidModes(modes) && 1 <= trial <= TRIALS && mode in [UNMOUNTED] + modes
    ensures Entry(trial, ControlOf(mode, paired)) in Plan(modes, paired, TRIALS)
    ensures e in Plan(modes, paired, TRIALS) ==>
              e.trial < 10 && (ResultFile(e) == BaselineRead(trial, mode, paired)
                    <==> e == Entry(trial, ControlOf(mode, paired)))
  {
    hide Plan, ResultFile, BaselineRead, CandidateRead, BaselineName, CandidateName, Digit;
    PlanHas(modes, paired, TRIALS);
    if e in Plan(modes, paired, TRIALS) {
      FileOf(e, modes, paired);
      Names(trial, mode, paired);
      var read := if e.leg.role.Baseline? && paired then e.leg.pairedMode.value else e.leg.mode;
      Names(e.trial, read, paired);
      if ResultFile(e) == BaselineRead(trial, mode, paired) {
        SameTrial(e.trial, trial,
                  if e.leg.role.Baseline? then BaselineName(read, paired) else CandidateName(read),
                  BaselineName(mode, paired));
        if paired && e.leg.role.Baseline? { SameBaseline(read, mode); }
      }
      SharedControl(mode);
    }
  }

  /** One control for all modes has one name. */
  lemma SharedControl(mode: string)
    ensures BaselineName(mode, false) == BaselineName(UNMOUNTED, false)
  {
  }

  /** Every candidate result the comparison reads was written by one leg of the plan: the candidate
      of that mode in that trial. */
  lemma CandidatesAreWritten(modes: seq<string>, paired: bool, trial: nat, mode: string, e: Entry)
    requires ValidModes(modes) && 1 <= trial <= TRIALS && mode in [UNMOUNTED] + modes
    ensures Entry(trial, CandidateOf(mode, paired)) in Plan(modes, paired, TRIALS)
    ensures e in Plan(modes, paired, TRIALS) ==>
              e.trial < 10 && (ResultFile(e) == CandidateRead(trial, mode)
                    <==> e == Entry(trial, CandidateOf(mode, paired)))
  {
    hide Plan, ResultFile, BaselineRead, CandidateRead, BaselineName, CandidateName, Digit;
    PlanHas(modes, paired, TRIALS);
    if e in Plan(modes, paired, TRIALS) {
      FileOf(e, modes, paired);
      Names(trial, mode, paired);
      var read := if e.leg.role.Baseline? && paired then e.leg.pairedMode.value else e.leg.mode;
      Names(e.trial, read, paired);
      if ResultFile(e) == CandidateRead(trial, mode) {
        SameTrial(e.trial, trial,
                  if e.leg.role.Baseline? then BaselineName(read, paired) else CandidateName(read),
                  CandidateName(mode));
        SameCandidate(read, mode);
      }
    }
  }
}
