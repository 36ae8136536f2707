/** The replay-compatibility checker as it runs: validators that append to one list of problems. */
module ReplayChecker {
  import opened Options
  import opened Json
  import opened JsonDifference
  import opened ReplaySpec

  /** What can be wrong. A raised exception counts as a complaint of its own. */
  datatype Complaint =
    | NotAnArray | ItemWithoutKey | RepeatedKey | UnsupportedVersion
    | OmittedSources | UnsupportedSources | CasesNotAnArray | Unverified | ApplicableWithoutCases
    | NoReason | NotApplicableWithCases | UnsupportedApplicability | MalformedCase | ConflictingDefinitions | NoCases
    | WrongRole | OtherBuildPair | OtherInventory | NoMarks | OmittedCase
    | ChangedDefinition | SurfaceNotSelected | NotPassed | EmptyObservation
    | CorpusDiffers | ContractDiffers | InputsDiffer | MarksDiffer | NothingCompared | Diverges(at: seq<Step>)
    | Raised

  datatype Place = Inventory | Report(role: string) | Case(id: string) | Between

  datatype Problem = Problem(what: Complaint, place: Place)

  class Checker {
    var errors: seq<Problem>

    constructor ()
      ensures errors == []
    {
      errors := [];
    }

    /** Append a problem unless the condition holds. */
    method Require(condition: bool, what: Complaint, place: Place)
      modifies this
      ensures errors == old(errors) + if condition then [] else [Problem(what, place)]
    {
      if !condition { errors := errors + [Problem(what, place)]; }
    }

    /** `indexed`: the items by their keys, complaining about missing and repeated ones. */
    method Indexed(items: Json, path: seq<string>, place: Place) returns (table: map<string, Json>, listed: seq<Json>)
      modifies this
      ensures old(errors) <= errors
      ensures errors == old(errors) <==> items.Arr? && Keyed(items.items, path)
      ensures table == Table(Items(items), path) && listed == Listed(Items(items), path)
    {
      hide KeyAt, Keyed;
      table, listed := map[], [];
      Require(items.Arr?, NotAnArray, place);
      if !items.Arr? { return; }
      var xs := items.items;
      assert Keyed(xs[..0], path) by { NothingKeyed(xs[..0], path); }
      var i := 0;
      while i < |xs|
        invariant i <= |xs|
        invariant old(errors) <= errors
        invariant |errors| == |old(errors)| <==> Keyed(xs[..i], path)
        invariant table == Table(xs[..i], path) && listed == Listed(xs[..i], path)
      {
        KeyedStep(xs, path, i);
        assert xs[..i + 1][..i] == xs[..i] && xs[..i + 1][i] == xs[i];
        match KeyAt(xs[i], path) {
          case None => errors := errors + [Problem(ItemWithoutKey, place)];
          case Some(k) =>
            if k in table {
              errors := errors + [Problem(RepeatedKey, place)];
            } else {
              table := table[k := xs[i]];
              listed := listed + [xs[i]];
            }
        }
        i := i + 1;
      }
      assert xs[..i] == xs;
    }

    /** The rules for one contribution, apart from what its cases are. */
    method CheckContribution(contribution: Json) returns (usable: bool)
      modifies this
      ensures old(errors) <= errors
      ensures usable <==> Get(contribution, "cases").Arr?
      ensures errors == old(errors) <==> usable && Applies(contribution)
    {
      var applicability := Get(contribution, "applicability");
      var status := StatusOf(applicability);
      if !Get(contribution, "cases").Arr? {
        errors := errors + [Problem(CasesNotAnArray, Inventory)];
        return false;
      }
      usable := true;
      var cases := CasesOf(contribution);
      if status == Str("unverified") {
        errors := errors + [Problem(Unverified, Inventory)];
      } else if status == Str("applicable") && cases == [] {
        errors := errors + [Problem(ApplicableWithoutCases, Inventory)];
      } else if status == Str("not-applicable") {
        Require(Truthy(Get(applicability, "reason")), NoReason, Inventory);
        Require(cases == [], NotApplicableWithCases, Inventory);
      } else if status.Arr? || status.Obj? {
        errors := errors + [Problem(Raised, Inventory)];
      } else if status != Str("applicable") {
        errors := errors + [Problem(UnsupportedApplicability, Inventory)];
      }
    }

    /** Enter the cases of a contribution, complaining about malformed and conflicting ones. */
    method EnterCases(before: seq<Json>, cases: seq<Json>, table: map<string, Json>)
      returns (entered: map<string, Json>)
      requires table == CaseTable(before)
      modifies this
      ensures old(errors) <= errors
      ensures NoConflict(before) ==>
                (errors == old(errors) <==> (forall c | c in cases :: IsCase(c)) && NoConflict(before + cases))
      ensures entered == CaseTable(before + cases)
    {
      hide IsCase, CaseId, NoConflict, CaseTable;
      entered := table;
      assert before + cases[..0] == before;
      var i := 0;
      while i < |cases|
        invariant i <= |cases|
        invariant old(errors) <= errors
        invariant NoConflict(before) ==>
                    (|errors| == |old(errors)| <==>
                     (forall c | c in cases[..i] :: IsCase(c)) && NoConflict(before + cases[..i]))
        invariant entered == CaseTable(before + cases[..i])
      {
        var c := cases[i];
        OneMoreCase(before + cases[..i], c);
        assert before + cases[..i + 1] == (before + cases[..i]) + [c];
        assert cases[..i + 1] == cases[..i] + [c];
        if !IsCase(c) {
          errors := errors + [Problem(MalformedCase, Inventory)];
        } else if CaseId(c) in entered && entered[CaseId(c)] != c {
          errors := errors + [Problem(ConflictingDefinitions, Case(CaseId(c)))];
        } else {
          entered := entered[CaseId(c) := c];
        }
        i := i + 1;
      }
      assert cases[..i] == cases;
    }

    /** `validate_inventory`. */
    method ValidateInventory(inventory: Json, requireAll: bool) returns (cases: map<string, Json>)
      modifies this
      ensures old(errors) <= errors
      ensures errors == old(errors) <==> InventoryOk(inventory, requireAll)
      ensures cases == Required(inventory)
    {
      hide *;
      InventoryParts(inventory);
      Require(Get(inventory, "inventoryVersion") == Str(INVENTORY_VERSION), UnsupportedVersion, Inventory);
      var contributions, listed := Indexed(Get(inventory, "contributions"), ["source"], Inventory);
      if requireAll {
        Require(SOURCES - contributions.Keys == {}, OmittedSources, Inventory);
        Require(contributions.Keys - SOURCES == {}, UnsupportedSources, Inventory);
        SetsEqual(contributions.Keys, SOURCES);
      }
      ghost var head := errors;
      cases := EnterContributions(listed);
      ghost var body := errors;
      if requireAll {
        Require(cases != map[], NoCases, Inventory);
      }
      InventoryOkIs(inventory, requireAll);
      assert errors == old(errors) <==> head == old(errors) && body == head && errors == body;
    }

    /** The cases of all contributions. */
    method EnterContributions(listed: seq<Json>) returns (cases: map<string, Json>)
      modifies this
      ensures old(errors) <= errors
      ensures errors == old(errors) <==> GoodContributions(listed)
      ensures cases == CaseTable(AllCases(listed))
    {
      hide Get, IsCase, CaseId, Applies, NoConflict, CaseTable, GoodContributions, AllCases;
      cases := map[];
      NoCasesYet();
      assert listed[..0] == [];
      var i := 0;
      while i < |listed|
        invariant i <= |listed|
        invariant old(errors) <= errors
        invariant |errors| == |old(errors)| <==> GoodContributions(listed[..i])
        invariant cases == CaseTable(AllCases(listed[..i]))
      {
        GoodStep(listed, i);
        var usable := CheckContribution(listed[i]);
        if usable {
          cases := EnterCases(AllCases(listed[..i]), CasesOf(listed[i]), cases);
        } else {
          assert CasesOf(listed[i]) == [];
          assert AllCases(listed[..i]) + [] == AllCases(listed[..i]);
        }
        i := i + 1;
      }
      assert listed[..i] == listed;
    }

    /** What kind of report it is, and about which inventory. */
    method ValidateHead(report: Json, role: string, inventory: Json)
      modifies this
      ensures old(errors) <= errors
      ensures errors == old(errors) <==> HeadOk(report, role, inventory)
    {
      hide Get, Same;
      Require(Get(report, "reportVersion") == Str(REPORT_VERSION), UnsupportedVersion, Report(role));
      Require(Get(report, "role") == Str(role), WrongRole, Report(role));
      Require(Same(Get(report, "buildPair"), Get(inventory, "buildPair")), OtherBuildPair, Report(role));
      Require(Same(Get(report, "inventoryId"), Get(inventory, "inventoryId")), OtherInventory, Report(role));
    }

    /** The lists of a report, and the results by their case ids. */
    method ValidateLists(report: Json, role: string) returns (results: map<string, Json>)
      modifies this
      ensures old(errors) <= errors
      ensures errors == old(errors) <==> ListsOk(report)
      ensures results == ResultTable(report)
    {
      hide Get, Keyed, Table, Listed, Loopable, ListsOk, KeyAt;
      var marks, _ := Indexed(Get(report, "highWaterMarks"), ["stream"], Report(role));
      ghost var e1 := errors;
      Require(marks != map[], NoMarks, Report(role));
      TableEmpty(Marks(report), ["stream"]);
      Require(Loopable(report, "selectedSurfaces"), Raised, Report(role));
      ghost var e2 := errors;
      var listed;
      results, listed := Indexed(Get(report, "results"), RESULT_KEY, Report(role));
      ListsParts(report);
      assert errors == old(errors) <==> e1 == old(errors) && e2 == e1 && errors == e2;
    }

    /** `validate_report`. */
    method ValidateReport(report: Json, role: string, inventory: Json, required: map<string, Json>, requireAll: bool)
      returns (results: map<string, Json>)
      modifies this
      ensures old(errors) <= errors
      ensures errors == old(errors) <==> ReportOk(report, role, inventory, required, requireAll)
      ensures results == ResultTable(report)
    {
      hide *;
      ValidateHead(report, role, inventory);
      ghost var e1 := errors;
      results := ValidateLists(report, role);
      ghost var e2 := errors;
      CheckCases(report, required, results, requireAll);
      ReportParts(report, role, inventory, required, requireAll);
      assert errors == old(errors) <==> e1 == old(errors) && e2 == e1 && errors == e2;
    }

    /** The cases the report is held to, against its results. */
    method CheckCases(report: Json, required: map<string, Json>, results: map<string, Json>, requireAll: bool)
      requires results == ResultTable(report)
      modifies this
      ensures old(errors) <= errors
      ensures errors == old(errors) <==> AllCovered(report, required, requireAll)
    {
      hide ResultTable, Covers;
      var todo := required.Keys;
      while todo != {}
        invariant todo <= required.Keys
        invariant old(errors) <= errors
        invariant |errors| == |old(errors)| <==>
                    forall id | id in required && id !in todo && HeldTo(id, required, results, requireAll) ::
                      id in results && Covers(report, required[id], results[id])
        decreases |todo|
      {
        var id :| id in todo;
        todo := todo - {id};
        if requireAll || id in results {
          if id !in results {
            errors := errors + [Problem(OmittedCase, Case(id))];
          } else {
            CheckResult(report, required[id], results[id], id);
          }
        }
      }
    }

    /** One required case against its result. */
    method CheckResult(report: Json, required: Json, result: Json, id: string)
      modifies this
      ensures old(errors) <= errors
      ensures errors == old(errors) <==> Covers(report, required, result)
    {
      hide *;
      CoversParts(report, required, result);
      var status := StatusOf(Get(result, "verdict"));
      Require(Same(Get(result, "requiredCase"), required), ChangedDefinition, Case(id));
      Require(SurfaceSelected(report, Get(required, "surface")), SurfaceNotSelected, Case(id));
      Require(status == Str("passed"), NotPassed, Case(id));
      if status == Str("passed") {
        Require(!ObservationEmpty(Get(result, "observation")), EmptyObservation, Case(id));
      }
    }

    /** `{item["stream"]: item["revision"]}` over the dictionaries of the list; the later of two items
        with one stream counts, and a stream that cannot be a key raises. */
    method MarkMap(report: Json) returns (marks: map<Json, Json>)
      modifies this
      ensures old(errors) <= errors
      ensures errors == old(errors) <==> Mappable(report)
      ensures marks == StreamMap(Marks(report))
    {
      hide Loopable, StreamMap, Hashable, StreamKey;
      marks := map[];
      StreamMapOfNone();
      Require(Loopable(report, "highWaterMarks"), Raised, Between);
      ghost var looped := errors;
      var xs := Marks(report);
      var i := 0;
      while i < |xs|
        invariant i <= |xs|
        invariant looped <= errors
        invariant |errors| == |looped| <==> forall x | x in xs[..i] && x.Obj? :: Hashable(Get(x, "stream"))
        invariant marks == StreamMap(xs[..i])
      {
        StreamMapStep(xs, i);
        assert xs[..i + 1] == xs[..i] + [xs[i]];
        if xs[i].Obj? {
          var stream := Get(xs[i], "stream");
          if !Hashable(stream) {
            errors := errors + [Problem(Raised, Between)];
          } else {
            marks := marks[StreamKey(stream) := Get(xs[i], "revision")];
          }
        }
        i := i + 1;
      }
      assert xs[..i] == xs;
    }

    /** What has to be equal between the reports apart from the observations. */
    method CompareHeads(baseline: Json, candidate: Json)
      modifies this
      ensures old(errors) <= errors
      ensures errors == old(errors) <==> HeadsAgree(baseline, candidate)
    {
      hide Get, Same, Mappable, StreamMap, Marks;
      Require(Same(Get(baseline, "corpusHash"), Get(candidate, "corpusHash")), CorpusDiffers, Between);
      Require(Same(Get(baseline, "observationContractVersion"), Get(candidate, "observationContractVersion")),
              ContractDiffers, Between);
      Require(Same(Get(baseline, "determinismInputs"), Get(candidate, "determinismInputs")), InputsDiffer, Between);
      var a := MarkMap(baseline);
      var b := MarkMap(candidate);
      Require(SameMarks(a, b), MarksDiffer, Between);
    }

    /** The observations of the cases both reports have results for. */
    method CompareObservations(ids: set<string>, old_: map<string, Json>, new_: map<string, Json>)
      modifies this
      ensures old(errors) <= errors
      ensures errors == old(errors) <==>
                forall id | id in old_ && id in new_ && id in ids :: ObservationsEqual(id, old_, new_)
    {
      hide Get, FirstDifference;
      var todo := ids;
      while todo != {}
        invariant todo <= ids
        invariant old(errors) <= errors
        invariant |errors| == |old(errors)| <==>
                    forall id | id in old_ && id in new_ && id in ids
                          && id !in todo :: ObservationsEqual(id, old_, new_)
        decreases |todo|
      {
        var id :| id in todo;
        todo := todo - {id};
        if id in old_ && id in new_ {
          var difference := FirstDifference(Get(old_[id], "observation"), Get(new_[id], "observation"));
          NoneIffEqual(Get(old_[id], "observation"), Get(new_[id], "observation"));
          if difference.Some? {
            errors := errors + [Problem(Diverges(difference.value.path), Case(id))];
          }
        }
      }
    }

    /** `compare_reports`. */
    method CompareReports(baseline: Json, candidate: Json, required: map<string, Json>,
                          old_: map<string, Json>, new_: map<string, Json>, requireAll: bool)
      modifies this
      ensures old(errors) <= errors
      ensures errors == old(errors) <==>
                && HeadsAgree(baseline, candidate) && SomethingCompared(required, old_, new_, requireAll)
                && forall id | id in old_ && id in new_ && Compared(id, required, old_, new_, requireAll) ::
                     ObservationsEqual(id, old_, new_)
    {
      hide Get, HeadsAgree, ObservationsEqual;
      ghost var e0 := errors;
      CompareHeads(baseline, candidate);
      ghost var e1 := errors;
      var ids := if requireAll then required.Keys else old_.Keys * new_.Keys;
      Require(ids != {}, NothingCompared, Between);
      ghost var e2 := errors;
      CompareObservations(ids, old_, new_);
      assert errors == e0 <==> e1 == e0 && e2 == e1 && errors == e2;
    }

    /** `check`: the problems of the inventory, of both reports, and between them. */
    method Check(baseline: Json, candidate: Json, inventory: Json, requireAll: bool) returns (accepted: bool)
      modifies this
      ensures accepted <==> Compatible(baseline, candidate, inventory, requireAll)
      ensures accepted <==> errors == []
    {
      hide *;
      CompatibleParts(baseline, candidate, inventory, requireAll);
      BothParts(baseline, candidate, inventory, requireAll);
      errors := [];
      var required := ValidateInventory(inventory, requireAll);
      ghost var e1 := errors;
      var old_ := ValidateReport(baseline, "baseline", inventory, required, requireAll);
      ghost var e2 := errors;
      var new_ := ValidateReport(candidate, "candidate", inventory, required, requireAll);
      ghost var e3 := errors;
      CompareReports(baseline, candidate, required, old_, new_, requireAll);
      accepted := errors == [];
      if accepted { assert |e1| == |e2| == |e3| == 0; }
      if e1 == [] && e2 == e1 && e3 == e2 {
        ReportIsKeyed(baseline, "baseline", inventory, required, requireAll);
        ReportIsKeyed(candidate, "candidate", inventory, required, requireAll);
        ComparedIs(baseline, candidate, required, requireAll);
      }
    }
  }

  predicate MarksKeyed(report: Json) {
    Get(report, "highWaterMarks").Arr? && Keyed(Marks(report), ["stream"])
  }

  /** Lists and dictionaries cannot be keys of a dictionary. */
  predicate Hashable(j: Json) {
    !j.Arr? && !j.Obj?
  }

  /** As keys of a dictionary, numbers and booleans count by their value. */
  function StreamKey(stream: Json): Json {
    if IsNumber(stream) then Float(Number(stream)) else stream
  }

  /** The dictionary from streams to revisions: the later of two items with one stream counts. */
  function StreamMap(marks: seq<Json>): map<Json, Json> {
    if marks == [] then map[]
    else
      var rest, last := StreamMap(marks[..|marks| - 1]), marks[|marks| - 1];
      if last.Obj? && Hashable(Get(last, "stream")) then rest[StreamKey(Get(last, "stream")) := Get(last, "revision")]
      else rest
  }

  lemma StreamMapOfNone()
    ensures StreamMap([]) == map[]
  {
  }

  lemma StreamMapStep(marks: seq<Json>, i: nat)
    requires i < |marks|
    ensures StreamMap(marks[..i + 1]) ==
            if marks[i].Obj? && Hashable(Get(marks[i], "stream"))
            then StreamMap(marks[..i])[StreamKey(Get(marks[i], "stream")) := Get(marks[i], "revision")]
            else StreamMap(marks[..i])
  {
    hide Hashable, StreamKey;
    assert marks[..i + 1][..i] == marks[..i];
  }

  /** The dictionary can be made. */
  predicate Mappable(report: Json) {
    && Loopable(report, "highWaterMarks")
    && forall x | x in Marks(report) && x.Obj? :: Hashable(Get(x, "stream"))
  }

  ghost predicate CannotBeKey(mark: Json) {
    (exists xs :: Has(mark, "stream", Arr(xs))) || exists fields :: Has(mark, "stream", Obj(fields))
  }

  lemma HashableMeans(mark: Json)
    ensures mark.Obj? && !Hashable(Get(mark, "stream")) <==> CannotBeKey(mark)
  {
    var stream := Get(mark, "stream");
    if mark.Obj? && stream.Arr? { assert Has(mark, "stream", Arr(stream.items)); }
    if mark.Obj? && stream.Obj? { assert Has(mark, "stream", Obj(stream.fields)); }
  }

  /** It can, unless the marks cannot be gone through or one of them has a list or a dictionary for
      its stream. */
  lemma MappableMeans(report: Json)
    ensures Mappable(report) <==>
            Loopable(report, "highWaterMarks") && forall mark | mark in Marks(report) :: !CannotBeKey(mark)
  {
    hide Loopable, Marks, CannotBeKey, Hashable, Get;
    forall mark: Json
      ensures mark.Obj? && !Hashable(Get(mark, "stream")) <==> CannotBeKey(mark)
    {
      HashableMeans(mark);
    }
  }

  /** Two streams are one key exactly when they are equal. */
  lemma StreamKeyMeans(a: Json, b: Json)
    requires Hashable(a) && Hashable(b)
    ensures StreamKey(a) == StreamKey(b) <==> Same(a, b)
  {
  }

  /** The mark stands under this key. */
  predicate StandsUnder(mark: Json, stream: Json) {
    mark.Obj? && Hashable(Get(mark, "stream")) && StreamKey(Get(mark, "stream")) == stream
  }

  /** The revision of a stream is that of its last mark. */
  lemma {:induction false} StreamMapMeans(marks: seq<Json>, stream: Json, revision: Json)
    ensures stream in StreamMap(marks) && StreamMap(marks)[stream] == revision <==>
            exists i :: 0 <= i < |marks| && StandsUnder(marks[i], stream) && Get(marks[i], "revision") == revision
                        && forall j | i < j < |marks| :: !StandsUnder(marks[j], stream)
  {
    hide Get, Hashable, StreamKey;
    if marks != [] {
      var n := |marks| - 1;
      StreamMapMeans(marks[..n], stream, revision);
      assert forall i | 0 <= i < n :: marks[..n][i] == marks[i];
    }
  }

  predicate SameMarks(a: map<Json, Json>, b: map<Json, Json>) {
    a.Keys == b.Keys && forall k | k in a :: Same(a[k], b[k])
  }

  /** Corpus, contract, inputs and marks agree, whatever the reports look like otherwise. */
  predicate HeadsAgree(baseline: Json, candidate: Json) {
    && Same(Get(baseline, "corpusHash"), Get(candidate, "corpusHash"))
    && Same(Get(baseline, "observationContractVersion"), Get(candidate, "observationContractVersion"))
    && Same(Get(baseline, "determinismInputs"), Get(candidate, "determinismInputs"))
    && Mappable(baseline) && Mappable(candidate)
    && SameMarks(StreamMap(Marks(baseline)), StreamMap(Marks(candidate)))
  }

  lemma KeyedHeads(baseline: Json, candidate: Json)
    requires MarksKeyed(baseline) && MarksKeyed(candidate)
    ensures HeadsAgree(baseline, candidate) <==> SameHeads(baseline, candidate)
  {
    hide Get, Same, Revisions, SameRevisions, MarksKeyed, Mappable, StreamMap, Streams, Marks;
    KeyedStreams(baseline);
    KeyedStreams(candidate);
    SameStreams(Revisions(baseline), Revisions(candidate));
  }

  /** For reports whose marks have distinct keys, this is what compatibility asks. */
  lemma ComparedIs(baseline: Json, candidate: Json, required: map<string, Json>, requireAll: bool)
    requires MarksKeyed(baseline) && MarksKeyed(candidate)
    ensures CompareOk(baseline, candidate, required, requireAll) <==>
            var old_, new_ := ResultTable(baseline), ResultTable(candidate);
            && HeadsAgree(baseline, candidate) && SomethingCompared(required, old_, new_, requireAll)
            && forall id | id in old_ && id in new_ && Compared(id, required, old_, new_, requireAll) ::
                 ObservationsEqual(id, old_, new_)
  {
    hide *;
    CompareParts(baseline, candidate, required, requireAll);
    KeyedHeads(baseline, candidate);
  }

  // ---------------------------------------------------------------------
  // Facts the loops need
  // ---------------------------------------------------------------------

  lemma NothingKeyed(items: seq<Json>, path: seq<string>)
    requires items == []
    ensures Keyed(items, path) && Table(items, path) == map[] && Listed(items, path) == []
  {
  }

  lemma SetsEqual(a: set<string>, b: set<string>)
    ensures (b - a == {} && a - b == {}) <==> a == b
  {
    if b - a == {} && a - b == {} {
      assert forall x | x in a :: x in b || x in a - b;
      assert forall x | x in b :: x in a || x in b - a;
    }
  }

  /** Every contribution is right, and no two cases of them conflict. */
  ghost predicate GoodContributions(contributions: seq<Json>) {
    (forall c | c in contributions :: ContributionOk(c)) && NoConflict(AllCases(contributions))
  }

  lemma NoCasesYet()
    ensures GoodContributions([]) && CaseTable(AllCases([])) == map[]
  {
  }

  lemma GoodStep(contributions: seq<Json>, i: nat)
    requires i < |contributions|
    ensures var c := contributions[i]; var before := AllCases(contributions[..i]);
            && AllCases(contributions[..i + 1]) == before + CasesOf(c)
            && (GoodContributions(contributions[..i + 1]) <==>
                  && GoodContributions(contributions[..i])
                  && Get(c, "cases").Arr? && Applies(c) && (forall x | x in CasesOf(c) :: IsCase(x))
                  && NoConflict(before + CasesOf(c)))
            && (GoodContributions(contributions[..i]) ==> NoConflict(before))
  {
    hide IsCase, CaseId, Applies, CasesOf;
    var c := contributions[i];
    var before := AllCases(contributions[..i]);
    assert contributions[..i + 1] == contributions[..i] + [c];
    assert contributions[..i + 1][..i] == contributions[..i];
    assert forall x :: x in contributions[..i + 1] <==> x in contributions[..i] || x == c;
    assert AllCases(contributions[..i + 1]) == before + CasesOf(c);
    assert ContributionOk(c) <==> Get(c, "cases").Arr? && Applies(c) && forall x | x in CasesOf(c) :: IsCase(x);
    if NoConflict(before + CasesOf(c)) {
      forall x, y | x in before && y in before && IsCase(x) && IsCase(y) && CaseId(x) == CaseId(y)
        ensures x == y
      {
        assert x in before + CasesOf(c) && y in before + CasesOf(c);
      }
    }
  }

  lemma {:induction false} CasesAreCases(contributions: seq<Json>)
    requires forall c | c in contributions :: ContributionOk(c)
    ensures forall x | x in AllCases(contributions) :: IsCase(x)
  {
    hide IsCase, Applies;
    if contributions != [] {
      var rest := contributions[..|contributions| - 1];
      assert forall c | c in rest :: c in contributions;
      CasesAreCases(rest);
      assert ContributionOk(contributions[|contributions| - 1]);
    }
  }

  lemma InventoryParts(inventory: Json)
    ensures Contributions(inventory) == Items(Get(inventory, "contributions"))
    ensures Get(inventory, "contributions").Arr? ==> Contributions(inventory) == Get(inventory, "contributions").items
    ensures Required(inventory) == CaseTable(AllCases(Listed(Contributions(inventory), ["source"])))
  {
    hide Get, CaseTable, AllCases, Listed;
  }

  lemma InventoryOkIs(inventory: Json, requireAll: bool)
    ensures var listed := Listed(Contributions(inventory), ["source"]);
            InventoryOk(inventory, requireAll) <==>
            && Get(inventory, "inventoryVersion") == Str(INVENTORY_VERSION)
            && Get(inventory, "contributions").Arr? && Keyed(Contributions(inventory), ["source"])
            && (requireAll ==> Table(Contributions(inventory), ["source"]).Keys == SOURCES)
            && GoodContributions(listed)
            && (requireAll ==> CaseTable(AllCases(listed)) != map[])
  {
    hide KeyAt, Table, Listed, IsCase, CaseId, ContributionOk, NoConflict, CaseTable, Keyed;
    var contributions := Contributions(inventory);
    if Keyed(contributions, ["source"]) {
      KeyedListed(contributions, ["source"]);
      if GoodContributions(contributions) {
        CasesAreCases(contributions);
        CaseTableEmpty(AllCases(contributions));
      }
    }
  }

  /** What one more case does to the table and to the conflicts. */
  lemma OneMoreCase(cases: seq<Json>, c: Json)
    ensures CaseTable(cases + [c]) ==
            if IsCase(c) && CaseId(c) !in CaseTable(cases) then CaseTable(cases)[CaseId(c) := c] else CaseTable(cases)
    ensures NoConflict(cases + [c]) <==>
            NoConflict(cases) && (IsCase(c) && CaseId(c) in CaseTable(cases) ==> CaseTable(cases)[CaseId(c)] == c)
  {
    hide IsCase, CaseId, NoConflict;
    var all := cases + [c];
    assert all[..|cases|] == cases && all[..|cases| + 1] == all;
    NoConflictStep(all, |cases|);
  }

  lemma CaseTableEmpty(cases: seq<Json>)
    requires forall x | x in cases :: IsCase(x)
    ensures CaseTable(cases) == map[] <==> cases == []
  {
    hide IsCase, CaseId, CaseTable;
    CaseTableHas(cases);
    if cases != [] { assert CaseId(cases[0]) in CaseTable(cases); }
    else { assert CaseTable(cases).Keys == {}; }
  }

  lemma TableEmpty(items: seq<Json>, path: seq<string>)
    ensures Keyed(items, path) ==> (Table(items, path) == map[] <==> items == [])
  {
    hide KeyAt, Table;
    TableHas(items, path);
    if Keyed(items, path) {
      if items != [] {
        assert KeyAt(items[0], path).value in Table(items, path);
      } else {
        assert Table(items, path).Keys == {};
      }
    }
  }

  // Streams as dictionary keys.

  function Streams(revisions: map<string, Json>): map<Json, Json> {
    map k | k in (set s | s in revisions :: Str(s)) :: revisions[k.s]
  }

  function RevisionsOf(marks: seq<Json>): map<string, Json> {
    var table := Table(marks, ["stream"]);
    map stream | stream in table :: Get(table[stream], "revision")
  }

  /** Marks with distinct keys make the dictionary of their revisions. */
  lemma KeyedStreams(report: Json)
    requires MarksKeyed(report)
    ensures Mappable(report) && StreamMap(Marks(report)) == Streams(Revisions(report))
  {
    hide Get, KeyAt, Keyed, Table, StreamMap, Streams;
    var xs := Marks(report);
    KeyedStreamMap(xs, |xs|);
    assert xs[..|xs|] == xs;
    forall x | x in xs && x.Obj?
      ensures Hashable(Get(x, "stream"))
    {
      var i :| 0 <= i < |xs| && xs[i] == x;
      StreamStep(xs, i);
    }
  }

  lemma {:induction false} KeyedStreamMap(marks: seq<Json>, n: nat)
    requires n <= |marks| && Keyed(marks, ["stream"])
    ensures StreamMap(marks[..n]) == Streams(RevisionsOf(marks[..n]))
  {
    hide Get, KeyAt, Keyed, Table, Streams, RevisionsOf;
    if n == 0 {
      NoStreams();
      assert marks[..0] == [];
    } else {
      KeyedStreamMap(marks, n - 1);
      StreamStep(marks, n - 1);
      assert marks[..n][..n - 1] == marks[..n - 1] && marks[..n][n - 1] == marks[n - 1];
    }
  }

  lemma NoStreams()
    ensures Streams(RevisionsOf([])) == map[]
  {
    assert Table([], ["stream"]) == map[];
  }

  lemma StreamStep(marks: seq<Json>, i: nat)
    requires i < |marks| && Keyed(marks, ["stream"])
    ensures marks[i].Obj? && Get(marks[i], "stream").Str?
    ensures Streams(RevisionsOf(marks[..i + 1]))
         == Streams(RevisionsOf(marks[..i]))[Get(marks[i], "stream") := Get(marks[i], "revision")]
  {
    hide *;
    KeyIsStream(marks[i]);
    KeysOfKeyed(marks, ["stream"], i);
    NewRevision(marks[..i], marks[i], Get(marks[i], "stream").s);
    assert marks[..i + 1] == marks[..i] + [marks[i]];
    StreamsUpdate(RevisionsOf(marks[..i]), Get(marks[i], "stream").s, Get(marks[i], "revision"));
  }

  lemma KeyIsStream(mark: Json)
    ensures KeyAt(mark, ["stream"]).Some? ==>
              mark.Obj? && Get(mark, "stream").Str? && KeyAt(mark, ["stream"]).value == Get(mark, "stream").s
  {
    hide Get;
    assert ["stream"][1..] == [];
    assert Walk(mark, ["stream"]) == if mark.Obj? then Get(mark, "stream") else Null;
  }

  /** In a keyed list each item has a key that is not in the table of the items before it. */
  lemma KeysOfKeyed(items: seq<Json>, path: seq<string>, i: nat)
    requires i < |items| && Keyed(items, path)
    ensures KeyAt(items[i], path).Some? && KeyAt(items[i], path).value !in Table(items[..i], path)
  {
    hide KeyAt, Table;
    TableHas(items[..i], path);
    forall j | 0 <= j < i
      ensures KeyAt(items[..i][j], path) != KeyAt(items[i], path)
    {
      assert KeyAt(items[j], path) != KeyAt(items[i], path);
    }
  }

  lemma NewRevision(before: seq<Json>, mark: Json, k: string)
    requires KeyAt(mark, ["stream"]) == Some(k) && k !in Table(before, ["stream"])
    ensures RevisionsOf(before + [mark]) == RevisionsOf(before)[k := Get(mark, "revision")]
  {
    hide Get, KeyAt;
    assert (before + [mark])[..|before|] == before;
  }

  lemma StreamsUpdate(revisions: map<string, Json>, k: string, v: Json)
    ensures Streams(revisions[k := v]) == Streams(revisions)[Str(k) := v]
  {
  }

  lemma SameStreams(a: map<string, Json>, b: map<string, Json>)
    ensures SameRevisions(a, b) <==>
            Streams(a).Keys == Streams(b).Keys && forall k | k in Streams(a) :: Same(Streams(a)[k], Streams(b)[k])
  {
    hide Same;
    var s, t := Streams(a), Streams(b);
    assert forall k :: k in a <==> Str(k) in s;
    assert forall k :: k in b <==> Str(k) in t;
    if s.Keys == t.Keys && forall k | k in s :: Same(s[k], t[k]) {
      forall k
        ensures k in a <==> k in b
        ensures k in a ==> Same(a[k], b[k])
      {
        assert Str(k) in s <==> Str(k) in t;
      }
    }
  }

  lemma ReportIsKeyed(report: Json, role: string, inventory: Json, required: map<string, Json>, requireAll: bool)
    requires ReportOk(report, role, inventory, required, requireAll)
    ensures MarksKeyed(report)
  {
    hide Keyed, KeyAt, Table, Same, Covers;
  }
}
