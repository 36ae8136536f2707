/** What a compatible pair of reports looks like, said over their JSON field by field. */
module ReplayMeaning {
  import opened Options
  import opened Json
  import opened ReplaySpec

  // ---------------------------------------------------------------------
  // Names in lists
  // ---------------------------------------------------------------------

  /** Going down the path, the item stores this text. */
  predicate Named(item: Json, path: seq<string>, name: string)
    decreases |path|
  {
    if path == [] then item == Str(name)
    else item.Obj? && path[0] in item.fields && Named(item.fields[path[0]], path[1..], name)
  }

  ghost predicate HasName(item: Json, path: seq<string>) {
    exists name :: name != "" && Named(item, path, name)
  }

  /** Each item has a name that is not empty, and no two have the same. */
  ghost predicate WellNamed(items: seq<Json>, path: seq<string>) {
    && (forall i | 0 <= i < |items| :: HasName(items[i], path))
    && (forall i, j, name | 0 <= i < j < |items| && Named(items[i], path, name) :: !Named(items[j], path, name))
  }

  lemma {:induction false} KeyIsName(item: Json, path: seq<string>, name: string)
    ensures KeyAt(item, path) == Some(name) <==> name != "" && Named(item, path, name)
    decreases |path|
  {
    if path != [] && item.Obj? {
      if path[0] in item.fields {
        KeyIsName(item.fields[path[0]], path[1..], name);
      } else {
        WalkNull(path[1..]);
      }
    }
  }

  lemma {:induction false} WalkNull(path: seq<string>)
    ensures Walk(Null, path) == Null
    decreases |path|
  {
  }

  lemma KeyedIsNamed(items: seq<Json>, path: seq<string>)
    ensures Keyed(items, path) <==> WellNamed(items, path)
  {
    hide KeyAt, Named;
    forall item, name
      ensures KeyAt(item, path) == Some(name) <==> name != "" && Named(item, path, name)
    {
      KeyIsName(item, path, name);
    }
    if Keyed(items, path) {
      forall i | 0 <= i < |items| ensures HasName(items[i], path) {
        assert Named(items[i], path, KeyAt(items[i], path).value);
      }
      forall i, j, name | 0 <= i < j < |items| && Named(items[i], path, name)
        ensures !Named(items[j], path, name)
      {
        assert KeyAt(items[i], path) != KeyAt(items[j], path);
        OneName(items[i], path, name, KeyAt(items[i], path).value);
      }
    }
    if WellNamed(items, path) {
      forall i | 0 <= i < |items| ensures KeyAt(items[i], path).Some? {
        assert HasName(items[i], path);
        var name :| name != "" && Named(items[i], path, name);
        assert KeyAt(items[i], path) == Some(name);
      }
      forall i, j | 0 <= i < j < |items| ensures KeyAt(items[i], path) != KeyAt(items[j], path) {
        assert Named(items[i], path, KeyAt(items[i], path).value);
      }
    }
  }

  lemma {:induction false} OneName(item: Json, path: seq<string>, a: string, b: string)
    requires Named(item, path, a) && Named(item, path, b)
    ensures a == b
    decreases |path|
  {
    if path != [] { OneName(item.fields[path[0]], path[1..], a, b); }
  }

  /** The item of the list that has this name. */
  predicate Carries(items: seq<Json>, path: seq<string>, name: string, item: Json) {
    name != "" && item in items && Named(item, path, name)
  }

  ghost predicate IsCarried(items: seq<Json>, path: seq<string>, name: string) {
    exists item :: Carries(items, path, name, item)
  }

  lemma TableCarries(items: seq<Json>, path: seq<string>)
    requires Keyed(items, path)
    ensures forall name, x ::
              (name in Table(items, path) && Table(items, path)[name] == x) <==> Carries(items, path, name, x)
  {
    hide Keyed, Table, KeyAt, Named;
    forall name, x
      ensures (name in Table(items, path) && Table(items, path)[name] == x) <==> Carries(items, path, name, x)
    {
      KeyedTable(items, path, name, x);
      KeyIsName(x, path, name);
    }
  }

  // ---------------------------------------------------------------------
  // The inventory
  // ---------------------------------------------------------------------

  /** The case stands in the cases of a contribution, under this id. */
  ghost predicate IsListed(contributions: seq<Json>, id: string, c: Json) {
    Has(c, "caseId", Str(id)) && exists contribution, cases ::
      contribution in contributions && Has(contribution, "cases", Arr(cases)) && c in cases
  }

  ghost predicate AllCasesOf(contribution: Json, cases: seq<Json>) {
    Has(contribution, "cases", Arr(cases)) && forall c | c in cases :: exists id :: Has(c, "caseId", Str(id))
  }

  predicate SaysSomething(j: Json) {
    j !in {Null, Bool(false), Int(0), Float(0.0), Str(""), Arr([]), Obj(map[])}
  }

  ghost predicate GivesReason(contribution: Json) {
    exists reason :: Under(contribution, "applicability", "reason", reason) && SaysSomething(reason)
  }

  /** A contribution has a list of cases, each with an id. Either it applies and has some, or it says
      why it does not and has none. */
  ghost predicate ContributionFits(contribution: Json) {
    exists cases :: AllCasesOf(contribution, cases) &&
      if cases != [] then Under(contribution, "applicability", "status", Str("applicable"))
      else Under(contribution, "applicability", "status", Str("not-applicable")) && GivesReason(contribution)
  }

  ghost predicate SourcesFit(contributions: seq<Json>) {
    forall source :: IsCarried(contributions, ["source"], source) <==>
      || source == "baseline-persisted-surfaces" || source == "candidate-persisted-surfaces"
      || source == "ordinary-compatibility-findings" || source == "aggregate-replay-impacts"
      || source == "mapped-consequences" || source == "checked-process-reactions"
      || source == "application-owned-obligations"
  }

  /** The inventory is of the known version. Its contributions have distinct sources and fit. No id
      stands for two cases. If all is demanded, the sources are the seven there are, and there is a case. */
  ghost predicate InventoryFits(inventory: Json, contributions: seq<Json>, requireAll: bool) {
    && Has(inventory, "inventoryVersion", Str("keiro.replay-compatibility/inventory/v1"))
    && Has(inventory, "contributions", Arr(contributions)) && WellNamed(contributions, ["source"])
    && (forall c | c in contributions :: ContributionFits(c))
    && (forall id, c, d | IsListed(contributions, id, c) && IsListed(contributions, id, d) :: c == d)
    && (requireAll ==> SourcesFit(contributions) && exists id, c :: IsListed(contributions, id, c))
  }

  lemma CaseIs(c: Json)
    ensures IsCase(c) <==> exists id :: Has(c, "caseId", Str(id))
    ensures forall id :: IsCase(c) && CaseId(c) == id <==> Has(c, "caseId", Str(id))
  {
    if IsCase(c) { assert Has(c, "caseId", Str(CaseId(c))); }
  }

  lemma CasesAre(contribution: Json, c: Json)
    ensures c in CasesOf(contribution) <==> exists cases :: Has(contribution, "cases", Arr(cases)) && c in cases
  {
    if c in CasesOf(contribution) {
      assert Has(contribution, "cases", Arr(CasesOf(contribution)));
    }
  }

  lemma {:induction false} AllCasesHas(contributions: seq<Json>, c: Json)
    ensures c in AllCases(contributions) <==>
            exists contribution :: contribution in contributions && c in CasesOf(contribution)
  {
    hide CasesOf;
    if contributions != [] {
      var n := |contributions| - 1;
      AllCasesHas(contributions[..n], c);
      assert contributions == contributions[..n] + [contributions[n]];
    }
  }

  lemma ListedIs(contributions: seq<Json>, id: string, c: Json)
    ensures IsListed(contributions, id, c) <==> c in AllCases(contributions) && IsCase(c) && CaseId(c) == id
  {
    hide IsCase, CaseId, CasesOf, AllCases, Has;
    CaseIs(c);
    AllCasesHas(contributions, c);
    if c in AllCases(contributions) {
      var contribution :| contribution in contributions && c in CasesOf(contribution);
      CasesAre(contribution, c);
    }
    if IsListed(contributions, id, c) {
      var contribution, cases :|
        contribution in contributions && Has(contribution, "cases", Arr(cases)) && c in cases;
      CasesAre(contribution, c);
    }
  }

  lemma ReasonIs(contribution: Json)
    ensures Truthy(Get(Get(contribution, "applicability"), "reason")) <==> GivesReason(contribution)
  {
    hide Truthy;
    var reason := Get(Get(contribution, "applicability"), "reason");
    TruthyExact(reason);
    if SaysSomething(reason) { assert Under(contribution, "applicability", "reason", reason); }
  }

  lemma ContributionIs(contribution: Json)
    ensures ContributionOk(contribution) <==> ContributionFits(contribution)
  {
    hide Truthy, IsCase, GivesReason, SaysSomething;
    ReasonIs(contribution);
    UnderExact(contribution, "applicability", "status", Str("applicable"));
    UnderExact(contribution, "applicability", "status", Str("not-applicable"));
    forall c ensures IsCase(c) <==> exists id :: Has(c, "caseId", Str(id)) { CaseIs(c); }
    if ContributionOk(contribution) { assert AllCasesOf(contribution, CasesOf(contribution)); }
  }

  lemma SourcesAre(contributions: seq<Json>)
    requires Keyed(contributions, ["source"])
    ensures Table(contributions, ["source"]).Keys == SOURCES <==> SourcesFit(contributions)
  {
    hide Keyed, Table, Carries;
    TableCarries(contributions, ["source"]);
    var table := Table(contributions, ["source"]);
    forall source ensures source in table <==> IsCarried(contributions, ["source"], source) {
      if source in table { assert Carries(contributions, ["source"], source, table[source]); }
    }
    assert table.Keys == SOURCES <==> forall source :: source in table <==> source in SOURCES;
  }

  lemma ConflictsAre(contributions: seq<Json>)
    ensures NoConflict(AllCases(contributions)) <==>
            forall id, c, d | IsListed(contributions, id, c) && IsListed(contributions, id, d) :: c == d
    ensures (forall c | c in contributions :: ContributionOk(c)) ==>
              (AllCases(contributions) != [] <==> exists id, c :: IsListed(contributions, id, c))
  {
    hide IsCase, CaseId, AllCases, IsListed, ContributionOk;
    forall id, c
      ensures IsListed(contributions, id, c) <==> c in AllCases(contributions) && IsCase(c) && CaseId(c) == id
    {
      ListedIs(contributions, id, c);
    }
    if forall id, c, d | IsListed(contributions, id, c) && IsListed(contributions, id, d) :: c == d {
      forall x, y | x in AllCases(contributions) && y in AllCases(contributions) && IsCase(x) && IsCase(y)
                    && CaseId(x) == CaseId(y)
        ensures x == y
      {
        assert IsListed(contributions, CaseId(x), x) && IsListed(contributions, CaseId(x), y);
      }
    }
    if forall c | c in contributions :: ContributionOk(c) {
      AllAreCases(contributions);
      if AllCases(contributions) != [] {
        var c := AllCases(contributions)[0];
        assert IsListed(contributions, CaseId(c), c);
      }
    }
  }

  lemma AllAreCases(contributions: seq<Json>)
    requires forall c | c in contributions :: ContributionOk(c)
    ensures forall c | c in AllCases(contributions) :: IsCase(c)
  {
    hide IsCase, AllCases, Applies;
    forall c | c in AllCases(contributions) ensures IsCase(c) { AllCasesHas(contributions, c); }
  }

  lemma InventoryIs(inventory: Json, requireAll: bool)
    ensures InventoryOk(inventory, requireAll) <==>
            exists contributions :: InventoryFits(inventory, contributions, requireAll)
  {
    hide Keyed, WellNamed, Table, ContributionOk, ContributionFits, NoConflict, AllCases, IsListed, SourcesFit;
    var contributions := Contributions(inventory);
    KeyedIsNamed(contributions, ["source"]);
    forall c ensures ContributionOk(c) <==> ContributionFits(c) { ContributionIs(c); }
    ConflictsAre(contributions);
    if Keyed(contributions, ["source"]) { SourcesAre(contributions); }
    if InventoryOk(inventory, requireAll) {
      assert InventoryFits(inventory, contributions, requireAll);
    }
    if found :| InventoryFits(inventory, found, requireAll) { assert found == contributions; }
  }

  /** Which cases are required. */
  lemma RequiredIs(inventory: Json, contributions: seq<Json>, requireAll: bool)
    requires InventoryFits(inventory, contributions, requireAll)
    ensures contributions == Contributions(inventory)
    ensures forall id, c ::
              (id in Required(inventory) && Required(inventory)[id] == c) <==> IsListed(contributions, id, c)
  {
    hide Keyed, Table, Listed, WellNamed, NoConflict, AllCases, IsListed, CaseTable, IsCase, CaseId, SourcesFit,
      ContributionFits;
    KeyedIsNamed(contributions, ["source"]);
    KeyedListed(contributions, ["source"]);
    ConflictsAre(contributions);
    forall id, c
      ensures (id in Required(inventory) && Required(inventory)[id] == c) <==> IsListed(contributions, id, c)
    {
      CaseTableIs(AllCases(contributions), id, c);
      ListedIs(contributions, id, c);
    }
  }

  // ---------------------------------------------------------------------
  // One report
  // ---------------------------------------------------------------------

  predicate Stores(j: Json, key: string, v: Json) {
    Has(j, key, v) || (v == Null && Lacks(j, key))
  }

  /** Two values have equal things under a key, or nothing. */
  ghost predicate Alike(a: Json, b: Json, key: string) {
    exists v, w :: Stores(a, key, v) && Stores(b, key, w) && Plain(v) == Plain(w)
  }

  lemma AlikeIs(a: Json, b: Json, key: string)
    ensures Same(Get(a, key), Get(b, key)) <==> Alike(a, b, key)
  {
    hide Plain;
    SameExact(Get(a, key), Get(b, key));
    assert Stores(a, key, Get(a, key)) && Stores(b, key, Get(b, key));
  }

  ghost predicate Defines(result: Json, required: Json) {
    exists c :: Has(result, "requiredCase", c) && Plain(c) == Plain(required)
  }

  ghost predicate Selects(report: Json, required: Json) {
    exists surface, selected ::
      && Has(required, "surface", surface) && surface.Obj?
      && Has(report, "selectedSurfaces", Arr(selected)) && surface in selected
  }

  ghost predicate Observed(result: Json, field: string) {
    exists v :: Under(result, "observation", field, v) && SaysSomething(v)
  }

  /** The result is about this very case, on a surface that the report has selected; it passed, and
      something was observed. */
  ghost predicate Fulfils(report: Json, required: Json, result: Json) {
    && Defines(result, required) && Selects(report, required)
    && Under(result, "verdict", "status", Str("passed"))
    && (|| Observed(result, "durableState") || Observed(result, "continuations")
        || Observed(result, "durableIdentities") || Observed(result, "freshAllocations"))
  }

  lemma ObservedIs(result: Json, field: string)
    ensures Get(result, "observation").Obj? && Truthy(Get(Get(result, "observation"), field)) <==>
            Observed(result, field)
  {
    hide Truthy;
    var v := Get(Get(result, "observation"), field);
    TruthyExact(v);
    if SaysSomething(v) { assert Under(result, "observation", field, v); }
  }

  lemma DefinesIs(result: Json, required: Json)
    requires IsCase(required)
    ensures Same(Get(result, "requiredCase"), required) <==> Defines(result, required)
  {
    hide Plain;
    var c := Get(result, "requiredCase");
    SameExact(c, required);
    if Same(c, required) {
      assert c.Obj?;
      assert Has(result, "requiredCase", c);
    }
  }

  lemma SelectsIs(report: Json, required: Json)
    ensures SurfaceSelected(report, Get(required, "surface")) <==> Selects(report, required)
  {
    var surface := Get(required, "surface");
    if SurfaceSelected(report, surface) {
      assert Has(required, "surface", surface);
      assert Has(report, "selectedSurfaces", Arr(Items(Get(report, "selectedSurfaces"))));
    }
  }

  lemma FulfilsIs(report: Json, required: Json, result: Json)
    requires IsCase(required)
    ensures Covers(report, required, result) <==> Fulfils(report, required, result)
  {
    hide Same, Truthy, Observed, Defines, Selects, SurfaceSelected, IsCase;
    DefinesIs(result, required);
    SelectsIs(report, required);
    UnderExact(result, "verdict", "status", Str("passed"));
    ObservedIs(result, "durableState");
    ObservedIs(result, "continuations");
    ObservedIs(result, "durableIdentities");
    ObservedIs(result, "freshAllocations");
  }

  /** The report is of the known version, has this role, and is about the inventory and its build pair. */
  ghost predicate HeadFits(report: Json, role: string, inventory: Json) {
    && Has(report, "reportVersion", Str("keiro.replay-compatibility/report/v1")) && Has(report, "role", Str(role))
    && Alike(report, inventory, "buildPair") && Alike(report, inventory, "inventoryId")
  }

  /** It has marks with distinct streams and results for distinct cases, and selected surfaces, if
      any, that can be gone through. */
  ghost predicate ListsFit(report: Json, marks: seq<Json>, results: seq<Json>) {
    && Has(report, "highWaterMarks", Arr(marks)) && marks != [] && WellNamed(marks, ["stream"])
    && Has(report, "results", Arr(results)) && WellNamed(results, ["requiredCase", "caseId"])
    && (|| Lacks(report, "selectedSurfaces") || (exists xs :: Has(report, "selectedSurfaces", Arr(xs)))
        || (exists s :: Has(report, "selectedSurfaces", Str(s)))
        || (exists fields :: Has(report, "selectedSurfaces", Obj(fields))))
  }

  predicate ResultOf(results: seq<Json>, id: string, result: Json) {
    Carries(results, ["requiredCase", "caseId"], id, result)
  }

  /** Every listed case is fulfilled by its result; if not all is demanded, those that have one are. */
  ghost predicate CasesFit(report: Json, contributions: seq<Json>, results: seq<Json>, requireAll: bool) {
    && (forall id, c, r | IsListed(contributions, id, c) && ResultOf(results, id, r) :: Fulfils(report, c, r))
    && (requireAll ==>
          forall id, c | IsListed(contributions, id, c) :: IsCarried(results, ["requiredCase", "caseId"], id))
  }

  ghost predicate ReportFits(report: Json, role: string, inventory: Json, contributions: seq<Json>,
                             marks: seq<Json>, results: seq<Json>, requireAll: bool)
  {
    && HeadFits(report, role, inventory) && ListsFit(report, marks, results)
    && CasesFit(report, contributions, results, requireAll)
  }

  lemma HeadIs(report: Json, role: string, inventory: Json)
    ensures HeadOk(report, role, inventory) <==> HeadFits(report, role, inventory)
  {
    hide Same, Alike;
    AlikeIs(report, inventory, "buildPair");
    AlikeIs(report, inventory, "inventoryId");
  }

  lemma LoopableIs(report: Json)
    ensures Loopable(report, "selectedSurfaces") <==>
            || Lacks(report, "selectedSurfaces") || (exists xs :: Has(report, "selectedSurfaces", Arr(xs)))
            || (exists s :: Has(report, "selectedSurfaces", Str(s)))
            || (exists fields :: Has(report, "selectedSurfaces", Obj(fields)))
  {
    var v := Get(report, "selectedSurfaces");
    if v.Arr? { assert Has(report, "selectedSurfaces", Arr(v.items)); }
    if v.Str? { assert Has(report, "selectedSurfaces", Str(v.s)); }
    if v.Obj? { assert Has(report, "selectedSurfaces", Obj(v.fields)); }
  }

  lemma ListsAre(report: Json, marks: seq<Json>, results: seq<Json>)
    ensures ListsFit(report, marks, results) <==>
            && ListsOk(report) && marks == Marks(report) && results == Results(report)
            && Get(report, "highWaterMarks").Arr? && Get(report, "results").Arr?
  {
    hide Keyed, WellNamed, Loopable;
    LoopableIs(report);
    KeyedIsNamed(marks, ["stream"]);
    KeyedIsNamed(results, ["requiredCase", "caseId"]);
  }

  lemma CasesFitIs(report: Json, contributions: seq<Json>, required: map<string, Json>, requireAll: bool)
    requires forall id, c :: (id in required && required[id] == c) <==> IsListed(contributions, id, c)
    requires Keyed(Results(report), RESULT_KEY)
    ensures AllCovered(report, required, requireAll) <==> CasesFit(report, contributions, Results(report), requireAll)
  {
    hide Keyed, IsListed, Carries, Covers, Fulfils, Results, IsCase, Table;
    var results := Results(report);
    TableCarries(results, ["requiredCase", "caseId"]);
    var table := ResultTable(report);
    forall id, c | IsListed(contributions, id, c) ensures IsCase(c) { CaseOfListed(contributions, id, c); }
    forall id, r ensures (id in table && table[id] == r) <==> ResultOf(results, id, r) {}
    forall id, c, r | IsListed(contributions, id, c)
      ensures Covers(report, c, r) <==> Fulfils(report, c, r)
    {
      FulfilsIs(report, c, r);
    }
    if AllCovered(report, required, requireAll) {
      forall id, c | IsListed(contributions, id, c) && requireAll
        ensures IsCarried(results, ["requiredCase", "caseId"], id)
      {
        assert ResultOf(results, id, table[id]);
      }
    }
    if CasesFit(report, contributions, results, requireAll) {
      forall id | id in required && HeldTo(id, required, table, requireAll)
        ensures id in table && Covers(report, required[id], table[id])
      {
        assert IsListed(contributions, id, required[id]);
        if id in table { assert ResultOf(results, id, table[id]); }
      }
    }
  }

  lemma CaseOfListed(contributions: seq<Json>, id: string, c: Json)
    requires IsListed(contributions, id, c)
    ensures IsCase(c)
  {
  }

  lemma ReportIs(report: Json, role: string, inventory: Json, contributions: seq<Json>, required: map<string, Json>,
                 requireAll: bool)
    requires forall id, c :: (id in required && required[id] == c) <==> IsListed(contributions, id, c)
    ensures ReportOk(report, role, inventory, required, requireAll) <==>
            exists marks, results :: ReportFits(report, role, inventory, contributions, marks, results, requireAll)
    ensures forall marks, results :: ReportFits(report, role, inventory, contributions, marks, results, requireAll) ==>
              marks == Marks(report) && results == Results(report) && ListsOk(report)
  {
    hide HeadOk, HeadFits, ListsOk, ListsFit, AllCovered, CasesFit, IsListed, Marks, Results;
    HeadIs(report, role, inventory);
    forall marks, results
      ensures ListsFit(report, marks, results) <==>
              && ListsOk(report) && marks == Marks(report) && results == Results(report)
              && Get(report, "highWaterMarks").Arr? && Get(report, "results").Arr?
    {
      ListsAre(report, marks, results);
    }
    if ListsOk(report) {
      ListsAreKeyed(report);
      CasesFitIs(report, contributions, required, requireAll);
      if ReportOk(report, role, inventory, required, requireAll) {
        assert ReportFits(report, role, inventory, contributions, Marks(report), Results(report), requireAll);
      }
    }
  }

  lemma ListsAreKeyed(report: Json)
    requires ListsOk(report)
    ensures Keyed(Results(report), RESULT_KEY) && Keyed(Marks(report), ["stream"])
    ensures Get(report, "highWaterMarks").Arr? && Get(report, "results").Arr?
  {
    hide Keyed;
  }

  // ---------------------------------------------------------------------
  // Two reports
  // ---------------------------------------------------------------------

  /** The same streams, each at the same revision. */
  ghost predicate MarksFit(a: seq<Json>, b: seq<Json>) {
    && (forall stream :: IsCarried(a, ["stream"], stream) <==> IsCarried(b, ["stream"], stream))
    && (forall stream, m, n | Carries(a, ["stream"], stream, m) && Carries(b, ["stream"], stream, n) ::
          Alike(m, n, "revision"))
  }

  /** There are cases to compare: if all is demanded, the listed ones, and else those that both
      reports have results for. */
  ghost predicate SomethingToCompare(contributions: seq<Json>, a: seq<Json>, b: seq<Json>, requireAll: bool) {
    if requireAll then exists id, c :: IsListed(contributions, id, c)
    else exists id, r, s :: ResultOf(a, id, r) && ResultOf(b, id, s)
  }

  ghost predicate SameObservation(r: Json, s: Json) {
    exists v :: Stores(r, "observation", v) && Stores(s, "observation", v)
  }

  /** Equal corpora, contracts and determinism inputs, equal marks, something to compare, and the very
      same observation, numbers and all, for each case compared. */
  ghost predicate PairFits(baseline: Json, candidate: Json, contributions: seq<Json>, marks: (seq<Json>, seq<Json>),
                           results: (seq<Json>, seq<Json>), requireAll: bool)
  {
    && Alike(baseline, candidate, "corpusHash") && Alike(baseline, candidate, "observationContractVersion")
    && Alike(baseline, candidate, "determinismInputs") && MarksFit(marks.0, marks.1)
    && SomethingToCompare(contributions, results.0, results.1, requireAll)
    && forall id, r, s | ResultOf(results.0, id, r) && ResultOf(results.1, id, s)
                         && (requireAll ==> exists c :: IsListed(contributions, id, c)) :: SameObservation(r, s)
  }

  lemma RevisionsAre(report: Json)
    requires Keyed(Marks(report), ["stream"])
    ensures forall stream :: stream in Revisions(report) <==> IsCarried(Marks(report), ["stream"], stream)
    ensures forall stream, m | Carries(Marks(report), ["stream"], stream, m) ::
              stream in Revisions(report) && Revisions(report)[stream] == Get(m, "revision")
  {
    hide Keyed, Table, Carries, Marks, Get;
    var marks := Marks(report);
    TableCarries(marks, ["stream"]);
    var table := Table(marks, ["stream"]);
    forall stream ensures stream in table <==> IsCarried(marks, ["stream"], stream) {
      if stream in table { assert Carries(marks, ["stream"], stream, table[stream]); }
    }
  }

  lemma MarksAre(a: Json, b: Json)
    requires Keyed(Marks(a), ["stream"]) && Keyed(Marks(b), ["stream"])
    ensures SameRevisions(Revisions(a), Revisions(b)) <==> MarksFit(Marks(a), Marks(b))
  {
    hide Keyed, Carries, Revisions, Same, Alike, Marks, Get;
    RevisionsAre(a);
    RevisionsAre(b);
    forall m, n ensures Same(Get(m, "revision"), Get(n, "revision")) <==> Alike(m, n, "revision") {
      AlikeIs(m, n, "revision");
    }
    if MarksFit(Marks(a), Marks(b)) {
      forall stream | stream in Revisions(a) ensures Same(Revisions(a)[stream], Revisions(b)[stream]) {
        var m :| Carries(Marks(a), ["stream"], stream, m);
        var n :| Carries(Marks(b), ["stream"], stream, n);
        assert Alike(m, n, "revision");
      }
    }
    if SameRevisions(Revisions(a), Revisions(b)) {
      forall stream
        ensures IsCarried(Marks(a), ["stream"], stream) <==> IsCarried(Marks(b), ["stream"], stream)
      {
        assert stream in Revisions(a).Keys <==> stream in Revisions(b).Keys;
      }
    }
  }

  lemma ObservationIs(r: Json, s: Json)
    ensures Get(r, "observation") == Get(s, "observation") <==> SameObservation(r, s)
  {
    assert Stores(r, "observation", Get(r, "observation")) && Stores(s, "observation", Get(s, "observation"));
  }

  lemma ResultsAre(report: Json)
    requires Keyed(Results(report), RESULT_KEY)
    ensures forall id, r ::
              (id in ResultTable(report) && ResultTable(report)[id] == r) <==> ResultOf(Results(report), id, r)
  {
    hide Keyed, Table, Carries, Results;
    TableCarries(Results(report), RESULT_KEY);
  }

  lemma ComparedAre(baseline: Json, candidate: Json, contributions: seq<Json>, required: map<string, Json>,
                    requireAll: bool)
    requires forall id, c :: (id in required && required[id] == c) <==> IsListed(contributions, id, c)
    requires Keyed(Results(baseline), RESULT_KEY) && Keyed(Results(candidate), RESULT_KEY)
    ensures var old_, new_ := ResultTable(baseline), ResultTable(candidate);
            (forall id | id in old_ && id in new_ && Compared(id, required, old_, new_, requireAll) ::
               ObservationsEqual(id, old_, new_)) <==>
            forall id, r, s | ResultOf(Results(baseline), id, r) && ResultOf(Results(candidate), id, s)
                              && (requireAll ==> exists c :: IsListed(contributions, id, c)) :: SameObservation(r, s)
    ensures var old_, new_ := ResultTable(baseline), ResultTable(candidate);
            SomethingCompared(required, old_, new_, requireAll) <==>
            SomethingToCompare(contributions, Results(baseline), Results(candidate), requireAll)
  {
    hide Keyed, IsListed, ResultOf, Results, ResultTable, SameObservation, Get;
    ResultsAre(baseline);
    ResultsAre(candidate);
    var old_, new_ := ResultTable(baseline), ResultTable(candidate);
    forall id ensures id in required <==> exists c :: IsListed(contributions, id, c) {
      if id in required { assert IsListed(contributions, id, required[id]); }
    }
    forall r, s
      ensures Get(r, "observation") == Get(s, "observation") <==> SameObservation(r, s)
    {
      ObservationIs(r, s);
    }
    if forall id, r, s | ResultOf(Results(baseline), id, r) && ResultOf(Results(candidate), id, s)
                         && (requireAll ==> exists c :: IsListed(contributions, id, c)) :: SameObservation(r, s) {
      forall id | id in old_ && id in new_ && Compared(id, required, old_, new_, requireAll)
        ensures ObservationsEqual(id, old_, new_)
      {
        assert ResultOf(Results(baseline), id, old_[id]) && ResultOf(Results(candidate), id, new_[id]);
        assert SameObservation(old_[id], new_[id]);
      }
    }
    AnyCompared(contributions, required, old_, new_, Results(baseline), Results(candidate), requireAll);
  }

  lemma AnyCompared(contributions: seq<Json>, required: map<string, Json>, old_: map<string, Json>,
                    new_: map<string, Json>, a: seq<Json>, b: seq<Json>, requireAll: bool)
    requires forall id, c :: (id in required && required[id] == c) <==> IsListed(contributions, id, c)
    requires forall id, r :: (id in old_ && old_[id] == r) <==> ResultOf(a, id, r)
    requires forall id, r :: (id in new_ && new_[id] == r) <==> ResultOf(b, id, r)
    ensures SomethingCompared(required, old_, new_, requireAll) <==> SomethingToCompare(contributions, a, b, requireAll)
  {
    hide IsListed, ResultOf;
    if requireAll {
      if id :| id in required.Keys { assert IsListed(contributions, id, required[id]); }
      if id, c :| IsListed(contributions, id, c) { assert id in required.Keys; }
    } else {
      if id :| id in old_.Keys * new_.Keys { assert ResultOf(a, id, old_[id]) && ResultOf(b, id, new_[id]); }
      if id, r, s :| ResultOf(a, id, r) && ResultOf(b, id, s) { assert id in old_.Keys * new_.Keys; }
    }
  }

  lemma HeadsAre(baseline: Json, candidate: Json)
    requires Keyed(Marks(baseline), ["stream"]) && Keyed(Marks(candidate), ["stream"])
    ensures SameHeads(baseline, candidate) <==>
            && Alike(baseline, candidate, "corpusHash") && Alike(baseline, candidate, "observationContractVersion")
            && Alike(baseline, candidate, "determinismInputs") && MarksFit(Marks(baseline), Marks(candidate))
  {
    hide Same, Alike, SameRevisions, Revisions, MarksFit, Marks, Keyed, Get;
    AlikeIs(baseline, candidate, "corpusHash");
    AlikeIs(baseline, candidate, "observationContractVersion");
    AlikeIs(baseline, candidate, "determinismInputs");
    MarksAre(baseline, candidate);
  }

  lemma PairIs(baseline: Json, candidate: Json, contributions: seq<Json>, required: map<string, Json>, requireAll: bool)
    requires forall id, c :: (id in required && required[id] == c) <==> IsListed(contributions, id, c)
    requires ListsOk(baseline) && ListsOk(candidate)
    ensures CompareOk(baseline, candidate, required, requireAll) <==>
            PairFits(baseline, candidate, contributions, (Marks(baseline), Marks(candidate)),
                     (Results(baseline), Results(candidate)), requireAll)
  {
    hide *;
    ListsAreKeyed(baseline);
    ListsAreKeyed(candidate);
    HeadsAre(baseline, candidate);
    ComparedAre(baseline, candidate, contributions, required, requireAll);
    CompareParts(baseline, candidate, required, requireAll);
    PairParts(baseline, candidate, contributions, Marks(baseline), Marks(candidate), Results(baseline),
              Results(candidate), requireAll);
  }

  lemma PairParts(baseline: Json, candidate: Json, contributions: seq<Json>, m: seq<Json>, n: seq<Json>,
                  r: seq<Json>, s: seq<Json>, requireAll: bool)
    ensures PairFits(baseline, candidate, contributions, (m, n), (r, s), requireAll) <==>
            && Alike(baseline, candidate, "corpusHash") && Alike(baseline, candidate, "observationContractVersion")
            && Alike(baseline, candidate, "determinismInputs") && MarksFit(m, n)
            && SomethingToCompare(contributions, r, s, requireAll)
            && forall id, x, y | ResultOf(r, id, x) && ResultOf(s, id, y)
                                 && (requireAll ==> exists c :: IsListed(contributions, id, c)) :: SameObservation(x, y)
  {
    hide Alike, MarksFit, SomethingToCompare, ResultOf, IsListed, SameObservation;
  }

  // ---------------------------------------------------------------------
  // The verdict
  // ---------------------------------------------------------------------

  /** Inventory and reports fit, each for itself and the reports to each other. */
  ghost predicate Fits(baseline: Json, candidate: Json, inventory: Json, contributions: seq<Json>,
                       marks: (seq<Json>, seq<Json>), results: (seq<Json>, seq<Json>), requireAll: bool)
  {
    && InventoryFits(inventory, contributions, requireAll)
    && ReportFits(baseline, "baseline", inventory, contributions, marks.0, results.0, requireAll)
    && ReportFits(candidate, "candidate", inventory, contributions, marks.1, results.1, requireAll)
    && PairFits(baseline, candidate, contributions, marks, results, requireAll)
  }

  /** The checker accepts exactly what fits. */
  lemma CompatibleMeans(baseline: Json, candidate: Json, inventory: Json, requireAll: bool)
    ensures Compatible(baseline, candidate, inventory, requireAll) <==>
            exists contributions, marks, results ::
              Fits(baseline, candidate, inventory, contributions, marks, results, requireAll)
  {
    hide *;
    CompatibleParts(baseline, candidate, inventory, requireAll);
    BothParts(baseline, candidate, inventory, requireAll);
    InventoryIs(inventory, requireAll);
    if Compatible(baseline, candidate, inventory, requireAll) {
      var contributions :| InventoryFits(inventory, contributions, requireAll);
      OneInventory(baseline, candidate, inventory, contributions, requireAll);
    }
    if contributions, marks, results :|
         Fits(baseline, candidate, inventory, contributions, marks, results, requireAll) {
      FitsParts(baseline, candidate, inventory, contributions, marks, results, requireAll);
      OneInventory(baseline, candidate, inventory, contributions, requireAll);
    }
  }

  lemma FitsParts(baseline: Json, candidate: Json, inventory: Json, contributions: seq<Json>,
                  marks: (seq<Json>, seq<Json>), results: (seq<Json>, seq<Json>), requireAll: bool)
    ensures Fits(baseline, candidate, inventory, contributions, marks, results, requireAll) <==>
            && InventoryFits(inventory, contributions, requireAll)
            && ReportFits(baseline, "baseline", inventory, contributions, marks.0, results.0, requireAll)
            && ReportFits(candidate, "candidate", inventory, contributions, marks.1, results.1, requireAll)
            && PairFits(baseline, candidate, contributions, marks, results, requireAll)
  {
    hide InventoryFits, ReportFits, PairFits;
  }

  lemma OneInventory(baseline: Json, candidate: Json, inventory: Json, contributions: seq<Json>, requireAll: bool)
    requires InventoryFits(inventory, contributions, requireAll)
    ensures BothOk(baseline, candidate, inventory, requireAll)
              && CompareOk(baseline, candidate, Required(inventory), requireAll) <==>
            exists marks, results :: Fits(baseline, candidate, inventory, contributions, marks, results, requireAll)
  {
    hide *;
    var required := Required(inventory);
    RequiredIs(inventory, contributions, requireAll);
    BothParts(baseline, candidate, inventory, requireAll);
    ReportIs(baseline, "baseline", inventory, contributions, required, requireAll);
    ReportIs(candidate, "candidate", inventory, contributions, required, requireAll);
    if BothOk(baseline, candidate, inventory, requireAll) {
      var m, r :| ReportFits(baseline, "baseline", inventory, contributions, m, r, requireAll);
      var n, s :| ReportFits(candidate, "candidate", inventory, contributions, n, s, requireAll);
      PairIs(baseline, candidate, contributions, required, requireAll);
      FitsParts(baseline, candidate, inventory, contributions, (m, n), (r, s), requireAll);
    }
    if marks, results :| Fits(baseline, candidate, inventory, contributions, marks, results, requireAll) {
      FitsParts(baseline, candidate, inventory, contributions, marks, results, requireAll);
      PairIs(baseline, candidate, contributions, required, requireAll);
      assert marks == (Marks(baseline), Marks(candidate)) && results == (Results(baseline), Results(candidate));
    }
  }

  // ---------------------------------------------------------------------
  // What that comes to for texts
  // ---------------------------------------------------------------------

  /** Texts cannot be told apart by less than their characters. */
  lemma TextsAgree(a: Json, b: Json, key: string, s: string)
    requires Alike(a, b, key)
    ensures Has(a, key, Str(s)) <==> Has(b, key, Str(s))
  {
    var v, w :| Stores(a, key, v) && Stores(b, key, w) && Plain(v) == Plain(w);
    assert v == Str(s) <==> Plain(v) == Str(s);
    assert w == Str(s) <==> Plain(w) == Str(s);
  }

  /** What is accepted has one corpus hash, one observation contract and one inventory id, if these
      are texts. */
  lemma AcceptedAgree(baseline: Json, candidate: Json, inventory: Json, requireAll: bool, s: string)
    requires Compatible(baseline, candidate, inventory, requireAll)
    ensures Has(baseline, "corpusHash", Str(s)) <==> Has(candidate, "corpusHash", Str(s))
    ensures Has(baseline, "observationContractVersion", Str(s)) <==>
            Has(candidate, "observationContractVersion", Str(s))
    ensures Has(baseline, "inventoryId", Str(s)) <==> Has(inventory, "inventoryId", Str(s))
    ensures Has(candidate, "inventoryId", Str(s)) <==> Has(inventory, "inventoryId", Str(s))
  {
    hide *;
    CompatibleMeans(baseline, candidate, inventory, requireAll);
    var contributions, marks, results :|
      Fits(baseline, candidate, inventory, contributions, marks, results, requireAll);
    FitsParts(baseline, candidate, inventory, contributions, marks, results, requireAll);
    PairParts(baseline, candidate, contributions, marks.0, marks.1, results.0, results.1, requireAll);
    ReportHead(baseline, "baseline", inventory, contributions, marks.0, results.0, requireAll);
    ReportHead(candidate, "candidate", inventory, contributions, marks.1, results.1, requireAll);
    TextsAgree(baseline, candidate, "corpusHash", s);
    TextsAgree(baseline, candidate, "observationContractVersion", s);
    TextsAgree(baseline, inventory, "inventoryId", s);
    TextsAgree(candidate, inventory, "inventoryId", s);
  }

  lemma ReportHead(report: Json, role: string, inventory: Json, contributions: seq<Json>, marks: seq<Json>,
                   results: seq<Json>, requireAll: bool)
    requires ReportFits(report, role, inventory, contributions, marks, results, requireAll)
    ensures Alike(report, inventory, "inventoryId") && Alike(report, inventory, "buildPair")
  {
    hide Alike, ListsFit, CasesFit;
  }

  /** A result that fulfils a case without numbers and booleans stores that very case. */
  lemma CaseStaysItself(report: Json, required: Json, result: Json)
    requires Fulfils(report, required, result) && NoNumbers(required)
    ensures Has(result, "requiredCase", required)
  {
    hide Plain, NoNumbers, Selects, Observed;
    var c :| Has(result, "requiredCase", c) && Plain(c) == Plain(required);
    PlainKeepsRest(required);
    PlainKeepsRest(c);
  }

  /** In what is accepted, every required case without numbers and booleans stands unchanged in each
      of its results. */
  lemma AcceptedKeepCases(baseline: Json, candidate: Json, inventory: Json, requireAll: bool,
                          contributions: seq<Json>, old_: seq<Json>, new_: seq<Json>, id: string, c: Json, r: Json)
    requires Compatible(baseline, candidate, inventory, requireAll)
    requires Has(inventory, "contributions", Arr(contributions)) && IsListed(contributions, id, c) && NoNumbers(c)
    requires Has(baseline, "results", Arr(old_)) && Has(candidate, "results", Arr(new_))
    requires ResultOf(old_, id, r) || ResultOf(new_, id, r)
    ensures Has(r, "requiredCase", c)
  {
    hide *;
    CompatibleMeans(baseline, candidate, inventory, requireAll);
    var found, marks, results :| Fits(baseline, candidate, inventory, found, marks, results, requireAll);
    FitsParts(baseline, candidate, inventory, found, marks, results, requireAll);
    FoundIn(inventory, found, contributions, requireAll);
    ReportCases(baseline, "baseline", inventory, found, marks.0, results.0, old_, requireAll, id, c, r);
    ReportCases(candidate, "candidate", inventory, found, marks.1, results.1, new_, requireAll, id, c, r);
    CaseStaysItself(if ResultOf(old_, id, r) then baseline else candidate, c, r);
  }

  lemma FoundIn(inventory: Json, found: seq<Json>, contributions: seq<Json>, requireAll: bool)
    requires InventoryFits(inventory, found, requireAll) && Has(inventory, "contributions", Arr(contributions))
    ensures found == contributions
  {
    hide WellNamed, ContributionFits, IsListed, SourcesFit;
  }

  lemma ReportCases(report: Json, role: string, inventory: Json, contributions: seq<Json>, marks: seq<Json>,
                    found: seq<Json>, results: seq<Json>, requireAll: bool, id: string, c: Json, r: Json)
    requires ReportFits(report, role, inventory, contributions, marks, found, requireAll)
    requires Has(report, "results", Arr(results)) && IsListed(contributions, id, c)
    ensures ResultOf(results, id, r) ==> Fulfils(report, c, r)
  {
    hide HeadFits, WellNamed, IsListed, Carries, Fulfils;
  }
}
