/** Two reports and an inventory that the checker accepts while demanding every case. */
module ReplayExample {
  import opened Options
  import opened Json
  import opened ReplaySpec
  import opened ReplayLaws

  const NAMES := [
    "application-owned-obligations", "baseline-persisted-surfaces", "candidate-persisted-surfaces",
    "ordinary-compatibility-findings", "aggregate-replay-impacts", "mapped-consequences", "checked-process-reactions"
  ]

  const SURFACE := Obj(map["kind" := Str("table")])
  const CASE := Obj(map["caseId" := Str("one"), "surface" := SURFACE])
  const APPLIES := Obj(map["status" := Str("applicable")])
  const DOES_NOT_APPLY := Obj(map["status" := Str("not-applicable"), "reason" := Str("nothing stored")])

  /** The first source applies and has one case, the others do not apply. */
  function Contribution(i: nat): Json
    requires i < |NAMES|
  {
    Obj(map[
      "source" := Str(NAMES[i]),
      "applicability" := if i == 0 then APPLIES else DOES_NOT_APPLY,
      "cases" := Arr(if i == 0 then [CASE] else [])])
  }

  function AllContributions(): seq<Json> {
    seq(|NAMES|, i requires 0 <= i < |NAMES| => Contribution(i))
  }

  function Inventory(): Json {
    Obj(map["inventoryVersion" := Str(INVENTORY_VERSION), "contributions" := Arr(AllContributions())])
  }

  const RESULT := Obj(map[
    "requiredCase" := CASE,
    "verdict" := Obj(map["status" := Str("passed")]),
    "observation" := Obj(map["durableState" := Str("rows")])])

  const MARK := Obj(map["stream" := Str("all"), "revision" := Int(1)])

  function Report(role: string): Json {
    Obj(map[
      "reportVersion" := Str(REPORT_VERSION), "role" := Str(role), "highWaterMarks" := Arr([MARK]),
      "selectedSurfaces" := Arr([SURFACE]), "results" := Arr([RESULT])])
  }

  lemma NamesDiffer()
    ensures forall i, j | 0 <= i < j < |NAMES| :: |NAMES[i]| != |NAMES[j]|
    ensures forall i | 0 <= i < |NAMES| :: NAMES[i] != ""
  {
  }

  lemma NamesAreSources()
    ensures forall k :: k in SOURCES <==> k in NAMES
  {
    assert NAMES[0] in NAMES && NAMES[1] in NAMES && NAMES[2] in NAMES && NAMES[3] in NAMES;
    assert NAMES[4] in NAMES && NAMES[5] in NAMES && NAMES[6] in NAMES;
  }

  lemma SevenNames()
    ensures |NAMES| == 7
  {
  }

  lemma KeyOfContribution(i: nat)
    requires i < |NAMES|
    ensures KeyAt(Contribution(i), ["source"]) == Some(NAMES[i])
  {
    hide ContributionOk;
    NamesDiffer();
    var c := Contribution(i);
    assert ["source"][1..] == [];
    assert Walk(c, ["source"]) == Walk(Get(c, "source"), []);
  }

  lemma ContributionsAreKeyed()
    ensures Keyed(AllContributions(), ["source"])
    ensures Table(AllContributions(), ["source"]).Keys == SOURCES
  {
    hide KeyAt, Table, Contribution, SOURCES, NAMES;
    NamesDiffer();
    NamesAreSources();
    var items := AllContributions();
    forall i | 0 <= i < |NAMES|
      ensures KeyAt(items[i], ["source"]) == Some(NAMES[i])
    {
      KeyOfContribution(i);
    }
    TableHas(items, ["source"]);
  }

  lemma ContributionIsOk(i: nat)
    requires i < |NAMES|
    ensures ContributionOk(Contribution(i))
    ensures CasesOf(Contribution(i)) == if i == 0 then [CASE] else []
  {
    var c := Contribution(i);
    assert Get(c, "cases") == Arr(if i == 0 then [CASE] else []);
    assert Get(c, "applicability") == if i == 0 then APPLIES else DOES_NOT_APPLY;
  }

  lemma CasesAre()
    ensures forall x :: x in AllCases(AllContributions()) <==> x == CASE
  {
    hide CasesOf, AllCases, Contribution, NAMES;
    AllCasesHas(AllContributions());
    SevenNames();
    forall i | 0 <= i < |NAMES|
      ensures CasesOf(AllContributions()[i]) == if i == 0 then [CASE] else []
    {
      ContributionIsOk(i);
    }
    assert AllContributions()[0] in AllContributions();
    assert CASE in CasesOf(AllContributions()[0]);
  }

  lemma InventoryIsOk()
    ensures InventoryOk(Inventory(), true)
    ensures Required(Inventory()) == map["one" := CASE]
  {
    hide Keyed, Table, ContributionOk, AllCases, Contribution, Listed, CaseTable, NAMES, SOURCES;
    var items := AllContributions();
    ContributionsAreKeyed();
    CasesAre();
    KeyedListed(items, ["source"]);
    forall c | c in items
      ensures ContributionOk(c)
    {
      var i :| 0 <= i < |items| && items[i] == c;
      ContributionIsOk(i);
    }
    assert CASE in AllCases(items);
    OneCase(AllCases(items));
  }

  lemma OneCase(cases: seq<Json>)
    requires forall x :: x in cases <==> x == CASE
    ensures NoConflict(cases) && CaseTable(cases) == map["one" := CASE]
  {
    hide CaseTable;
    CaseIs();
    forall k
      ensures k in CaseTable(cases) <==> k == "one"
      ensures k in CaseTable(cases) ==> CaseTable(cases)[k] == CASE
    {
      CaseTableHas(cases);
      CaseTableIs(cases, k, CASE);
    }
  }

  lemma CaseIs()
    ensures IsCase(CASE) && CaseId(CASE) == "one"
  {
  }

  lemma ReportHas(role: string)
    ensures var r := Report(role);
            && Get(r, "highWaterMarks") == Arr([MARK]) && Get(r, "results") == Arr([RESULT])
            && Get(r, "selectedSurfaces") == Arr([SURFACE])
            && Get(r, "reportVersion") == Str(REPORT_VERSION) && Get(r, "role") == Str(role)
  {
    hide MARK, RESULT, SURFACE;
  }

  lemma ReportLacks(role: string)
    ensures var r := Report(role);
            && Get(r, "buildPair") == Null && Get(r, "inventoryId") == Null && Get(r, "corpusHash") == Null
            && Get(r, "observationContractVersion") == Null && Get(r, "determinismInputs") == Null
  {
    hide MARK, RESULT, SURFACE, REPORT_VERSION;
  }

  lemma ReportFields(role: string)
    ensures var r := Report(role);
            && Get(r, "highWaterMarks") == Arr([MARK]) && Get(r, "results") == Arr([RESULT])
            && Get(r, "selectedSurfaces") == Arr([SURFACE])
            && Get(r, "reportVersion") == Str(REPORT_VERSION) && Get(r, "role") == Str(role)
            && Get(r, "buildPair") == Null && Get(r, "inventoryId") == Null && Get(r, "corpusHash") == Null
            && Get(r, "observationContractVersion") == Null && Get(r, "determinismInputs") == Null
  {
    hide *;
    ReportHas(role);
    ReportLacks(role);
  }

  lemma InventoryFieldsAre()
    ensures Get(Inventory(), "buildPair") == Null && Get(Inventory(), "inventoryId") == Null
  {
    hide AllContributions;
  }

  lemma Keys()
    ensures KeyAt(MARK, ["stream"]) == Some("all") && KeyAt(RESULT, RESULT_KEY) == Some("one")
  {
    assert ["stream"][1..] == [];
    assert Walk(MARK, ["stream"]) == Walk(Get(MARK, "stream"), []);
    assert RESULT_KEY[1..] == ["caseId"] && ["caseId"][1..] == [];
    assert Walk(RESULT, RESULT_KEY) == Walk(CASE, ["caseId"]);
    assert Walk(CASE, ["caseId"]) == Walk(Str("one"), []);
  }

  lemma OneItem(item: Json, path: seq<string>, key: string)
    requires KeyAt(item, path) == Some(key)
    ensures Keyed([item], path) && Table([item], path) == map[key := item]
  {
    hide KeyAt;
    assert [item][..0] == [];
    assert Table([], path) == map[];
  }

  lemma ListsAreOk(role: string)
    ensures ListsOk(Report(role)) && ResultTable(Report(role)) == map["one" := RESULT]
    ensures Table(Marks(Report(role)), ["stream"]) == map["all" := MARK]
  {
    hide KeyAt, Keyed, Table, Get, Report;
    ReportFields(role);
    Keys();
    OneItem(MARK, ["stream"], "all");
    OneItem(RESULT, RESULT_KEY, "one");
  }

  lemma ResultHas()
    ensures Get(RESULT, "requiredCase") == CASE && Get(CASE, "surface") == SURFACE && SURFACE.Obj?
    ensures StatusOf(Get(RESULT, "verdict")) == Str("passed")
  {
  }

  lemma ResultObserves()
    ensures !ObservationEmpty(Get(RESULT, "observation"))
  {
    assert Truthy(Get(Get(RESULT, "observation"), "durableState"));
  }

  lemma SelectedIn(report: Json)
    requires Get(report, "selectedSurfaces") == Arr([SURFACE])
    ensures SurfaceSelected(report, SURFACE)
  {
    hide Get;
  }

  lemma ResultCovers(role: string)
    ensures Covers(Report(role), CASE, RESULT)
  {
    hide *;
    ReportFields(role);
    SameRefl(CASE);
    ResultHas();
    ResultObserves();
    SelectedIn(Report(role));
    CoversParts(Report(role), CASE, RESULT);
  }

  lemma ReportIsOk(role: string)
    ensures ReportOk(Report(role), role, Inventory(), map["one" := CASE], true)
  {
    hide Report, ListsOk, Inventory, Covers, Get, ResultTable;
    ReportFields(role);
    InventoryFieldsAre();
    ListsAreOk(role);
    ResultCovers(role);
    SameRefl(Null);
  }

  lemma OneRevision(role: string)
    ensures Revisions(Report(role)) == map["all" := Get(MARK, "revision")]
  {
    hide Report, Get, Table, Marks;
    ListsAreOk(role);
  }

  lemma HeadsAreSame()
    ensures SameHeads(Report("baseline"), Report("candidate"))
  {
    hide Report, Get, Revisions, Same;
    ReportFields("baseline");
    ReportFields("candidate");
    OneRevision("baseline");
    OneRevision("candidate");
    SameRefl(Null);
    SameRefl(Get(MARK, "revision"));
  }

  lemma ReportsCompare()
    ensures CompareOk(Report("baseline"), Report("candidate"), map["one" := CASE], true)
  {
    hide Report, Get, ResultTable, SameHeads, CompareOk, CASE, RESULT, Compared;
    ListsAreOk("baseline");
    ListsAreOk("candidate");
    HeadsAreSame();
    var required := map["one" := CASE];
    assert "one" in required.Keys;
    CompareParts(Report("baseline"), Report("candidate"), required, true);
  }

  /** The strict mode can be met: these two reports and their inventory are accepted. */
  lemma SomethingIsCompatible()
    ensures Compatible(Report("baseline"), Report("candidate"), Inventory(), true)
  {
    hide *;
    InventoryIsOk();
    ReportIsOk("baseline");
    ReportIsOk("candidate");
    ReportsCompare();
    BothParts(Report("baseline"), Report("candidate"), Inventory(), true);
    CompatibleParts(Report("baseline"), Report("candidate"), Inventory(), true);
  }
}
