/** When two replay reports and their inventory are compatible, said without any order. */
module ReplaySpec {
  import opened Options
  import opened Json

  const REPORT_VERSION := "keiro.replay-compatibility/report/v1"
  const INVENTORY_VERSION := "keiro.replay-compatibility/inventory/v1"

  const SOURCES: set<string> := {
    "baseline-persisted-surfaces", "candidate-persisted-surfaces", "ordinary-compatibility-findings",
    "aggregate-replay-impacts", "mapped-consequences", "checked-process-reactions", "application-owned-obligations"
  }

  function Items(j: Json): seq<Json> {
    if j.Arr? then j.items else []
  }

  // ---------------------------------------------------------------------
  // Lists that are looked up by a key
  // ---------------------------------------------------------------------

  function Walk(item: Json, path: seq<string>): Json
    decreases |path|
  {
    if path == [] then item else if item.Obj? then Walk(Get(item, path[0]), path[1..]) else Null
  }

  /** The key of an item, a string that is not empty. */
  function KeyAt(item: Json, path: seq<string>): Option<string> {
    match Walk(item, path)
    case Str(s) => if s != "" then Some(s) else None
    case _ => None
  }

  /** Every item has a key, and no two have the same. */
  predicate Keyed(items: seq<Json>, path: seq<string>) {
    && (forall i | 0 <= i < |items| :: KeyAt(items[i], path).Some?)
    && (forall i, j | 0 <= i < j < |items| :: KeyAt(items[i], path) != KeyAt(items[j], path))
  }

  /** The items that can be looked up: of those with one key, the first. */
  function Table(items: seq<Json>, path: seq<string>): map<string, Json> {
    if items == [] then map[]
    else
      var rest := Table(items[..|items| - 1], path);
      match KeyAt(items[|items| - 1], path)
      case Some(k) => if k in rest then rest else rest[k := items[|items| - 1]]
      case None => rest
  }

  /** The items of the table in the order of the list. */
  function Listed(items: seq<Json>, path: seq<string>): seq<Json> {
    if items == [] then []
    else
      var rest := Listed(items[..|items| - 1], path);
      match KeyAt(items[|items| - 1], path)
      case Some(k) => if k in Table(items[..|items| - 1], path) then rest else rest + [items[|items| - 1]]
      case None => rest
  }

  // ---------------------------------------------------------------------
  // The inventory
  // ---------------------------------------------------------------------

  predicate IsCase(c: Json) {
    c.Obj? && Get(c, "caseId").Str?
  }

  function CaseId(c: Json): string
    requires IsCase(c)
  {
    Get(c, "caseId").s
  }

  function CasesOf(contribution: Json): seq<Json> {
    Items(Get(contribution, "cases"))
  }

  function StatusOf(j: Json): Json {
    Get(j, "status")
  }

  /** A contribution either applies and has cases, or gives a reason why it does not and has none. */
  predicate Applies(contribution: Json) {
    var applicability := Get(contribution, "applicability");
    || (StatusOf(applicability) == Str("applicable") && CasesOf(contribution) != [])
    || (StatusOf(applicability) == Str("not-applicable") && Truthy(Get(applicability, "reason"))
          && CasesOf(contribution) == [])
  }

  predicate ContributionOk(contribution: Json) {
    && Get(contribution, "cases").Arr? && Applies(contribution)
    && forall c | c in CasesOf(contribution) :: IsCase(c)
  }

  function AllCases(contributions: seq<Json>): seq<Json> {
    if contributions == [] then []
    else AllCases(contributions[..|contributions| - 1]) + CasesOf(contributions[|contributions| - 1])
  }

  /** The cases by their ids: of those with one id, the first. */
  function CaseTable(cases: seq<Json>): map<string, Json> {
    if cases == [] then map[]
    else
      var rest := CaseTable(cases[..|cases| - 1]);
      var c := cases[|cases| - 1];
      if IsCase(c) && CaseId(c) !in rest then rest[CaseId(c) := c] else rest
  }

  /** No two cases share an id unless they are the same. */
  predicate NoConflict(cases: seq<Json>) {
    forall x, y | x in cases && y in cases && IsCase(x) && IsCase(y) && CaseId(x) == CaseId(y) :: x == y
  }

  function Contributions(inventory: Json): seq<Json> {
    Items(Get(inventory, "contributions"))
  }

  /** The cases that a report has to cover. */
  function Required(inventory: Json): map<string, Json> {
    CaseTable(AllCases(Listed(Contributions(inventory), ["source"])))
  }

  predicate InventoryOk(inventory: Json, requireAll: bool) {
    var contributions := Contributions(inventory);
    && Get(inventory, "inventoryVersion") == Str(INVENTORY_VERSION)
    && Get(inventory, "contributions").Arr? && Keyed(contributions, ["source"])
    && (requireAll ==> Table(contributions, ["source"]).Keys == SOURCES)
    && (forall c | c in contributions :: ContributionOk(c))
    && NoConflict(AllCases(contributions))
    && (requireAll ==> AllCases(contributions) != [])
  }

  // ---------------------------------------------------------------------
  // One report
  // ---------------------------------------------------------------------

  /** A field that can be looped over; a missing one counts as an empty list. */
  predicate Loopable(j: Json, key: string) {
    !(j.Obj? && key in j.fields) || Get(j, key).Arr? || Get(j, key).Str? || Get(j, key).Obj?
  }

  function Marks(report: Json): seq<Json> {
    Items(Get(report, "highWaterMarks"))
  }

  function Results(report: Json): seq<Json> {
    Items(Get(report, "results"))
  }

  const RESULT_KEY := ["requiredCase", "caseId"]

  function ResultTable(report: Json): map<string, Json> {
    Table(Results(report), RESULT_KEY)
  }

  predicate ObservationEmpty(observation: Json) {
    !observation.Obj? ||
    !(|| Truthy(Get(observation, "durableState")) || Truthy(Get(observation, "continuations"))
      || Truthy(Get(observation, "durableIdentities")) || Truthy(Get(observation, "freshAllocations")))
  }

  predicate SurfaceSelected(report: Json, surface: Json) {
    surface.Obj? && surface in Items(Get(report, "selectedSurfaces"))
  }

  /** A result covers a required case: same definition, surface selected, passed, something observed. */
  predicate Covers(report: Json, required: Json, result: Json) {
    && Same(Get(result, "requiredCase"), required)
    && SurfaceSelected(report, Get(required, "surface"))
    && StatusOf(Get(result, "verdict")) == Str("passed")
    && !ObservationEmpty(Get(result, "observation"))
  }

  /** The cases a report is held to: all required ones, or those of them that it has results for. */
  predicate HeldTo(id: string, required: map<string, Json>, results: map<string, Json>, requireAll: bool) {
    id in required && (requireAll || id in results)
  }

  /** The report is of the expected kind and about this inventory. */
  predicate HeadOk(report: Json, role: string, inventory: Json) {
    && Get(report, "reportVersion") == Str(REPORT_VERSION) && Get(report, "role") == Str(role)
    && Same(Get(report, "buildPair"), Get(inventory, "buildPair"))
    && Same(Get(report, "inventoryId"), Get(inventory, "inventoryId"))
  }

  /** The lists of the report can be read, the first and the last by their keys. */
  predicate ListsOk(report: Json) {
    && Get(report, "highWaterMarks").Arr? && Keyed(Marks(report), ["stream"]) && Marks(report) != []
    && Loopable(report, "selectedSurfaces")
    && Get(report, "results").Arr? && Keyed(Results(report), RESULT_KEY)
  }

  predicate AllCovered(report: Json, required: map<string, Json>, requireAll: bool) {
    var results := ResultTable(report);
    forall id | id in required && HeldTo(id, required, results, requireAll) ::
      id in results && Covers(report, required[id], results[id])
  }

  predicate ReportOk(report: Json, role: string, inventory: Json, required: map<string, Json>, requireAll: bool) {
    HeadOk(report, role, inventory) && ListsOk(report) && AllCovered(report, required, requireAll)
  }

  // ---------------------------------------------------------------------
  // Two reports
  // ---------------------------------------------------------------------

  /** The revision of each stream. */
  function Revisions(report: Json): map<string, Json> {
    var marks := Table(Marks(report), ["stream"]);
    map stream | stream in marks :: Get(marks[stream], "revision")
  }

  predicate SameRevisions(a: map<string, Json>, b: map<string, Json>) {
    a.Keys == b.Keys && forall k | k in a :: Same(a[k], b[k])
  }

  /** The cases that are compared. */
  predicate Compared(id: string, required: map<string, Json>, old_: map<string, Json>, new_: map<string, Json>,
          requireAll: bool)
  {
    if requireAll then id in required else id in old_ && id in new_
  }

  predicate ObservationsEqual(id: string, old_: map<string, Json>, new_: map<string, Json>) {
    id in old_ && id in new_ ==> Get(old_[id], "observation") == Get(new_[id], "observation")
  }

  predicate SomethingCompared(required: map<string, Json>, old_: map<string, Json>, new_: map<string, Json>,
          requireAll: bool)
  {
    if requireAll then required.Keys != {} else old_.Keys * new_.Keys != {}
  }

  /** What has to be the same in both reports apart from the observations. */
  predicate SameHeads(baseline: Json, candidate: Json) {
    && Same(Get(baseline, "corpusHash"), Get(candidate, "corpusHash"))
    && Same(Get(baseline, "observationContractVersion"), Get(candidate, "observationContractVersion"))
    && Same(Get(baseline, "determinismInputs"), Get(candidate, "determinismInputs"))
    && SameRevisions(Revisions(baseline), Revisions(candidate))
  }

  predicate CompareOk(baseline: Json, candidate: Json, required: map<string, Json>, requireAll: bool) {
    var old_, new_ := ResultTable(baseline), ResultTable(candidate);
    && SameHeads(baseline, candidate)
    && SomethingCompared(required, old_, new_, requireAll)
    && forall id | id in old_ && id in new_ && Compared(id, required, old_, new_, requireAll) ::
         ObservationsEqual(id, old_, new_)
  }

  predicate BothOk(baseline: Json, candidate: Json, inventory: Json, requireAll: bool) {
    && ReportOk(baseline, "baseline", inventory, Required(inventory), requireAll)
    && ReportOk(candidate, "candidate", inventory, Required(inventory), requireAll)
  }

  /** The checker accepts: with `requireAll`, every source and every required case has to be there. */
  predicate Compatible(baseline: Json, candidate: Json, inventory: Json, requireAll: bool) {
    && InventoryOk(inventory, requireAll)
    && BothOk(baseline, candidate, inventory, requireAll)
    && CompareOk(baseline, candidate, Required(inventory), requireAll)
  }

  // The parts of the verdict, for proofs that need no more than that.

  lemma ReportParts(report: Json, role: string, inventory: Json, required: map<string, Json>, requireAll: bool)
    ensures ReportOk(report, role, inventory, required, requireAll) <==>
            HeadOk(report, role, inventory) && ListsOk(report) && AllCovered(report, required, requireAll)
  {
    hide HeadOk, ListsOk, AllCovered;
  }

  lemma CompatibleParts(baseline: Json, candidate: Json, inventory: Json, requireAll: bool)
    ensures Compatible(baseline, candidate, inventory, requireAll) <==>
            && InventoryOk(inventory, requireAll) && BothOk(baseline, candidate, inventory, requireAll)
            && CompareOk(baseline, candidate, Required(inventory), requireAll)
  {
    hide InventoryOk, BothOk, CompareOk, Required;
  }

  lemma BothParts(baseline: Json, candidate: Json, inventory: Json, requireAll: bool)
    ensures BothOk(baseline, candidate, inventory, requireAll) <==>
            && ReportOk(baseline, "baseline", inventory, Required(inventory), requireAll)
            && ReportOk(candidate, "candidate", inventory, Required(inventory), requireAll)
  {
    hide ReportOk, Required;
  }

  lemma ListsParts(report: Json)
    ensures ListsOk(report) <==>
            && Get(report, "highWaterMarks").Arr? && Keyed(Marks(report), ["stream"]) && Marks(report) != []
            && Loopable(report, "selectedSurfaces")
            && Get(report, "results").Arr? && Keyed(Results(report), RESULT_KEY)
  {
    hide Get, Keyed, Marks, Results, Loopable;
  }

  lemma CoversParts(report: Json, required: Json, result: Json)
    ensures Covers(report, required, result) <==>
            && Same(Get(result, "requiredCase"), required)
            && SurfaceSelected(report, Get(required, "surface"))
            && StatusOf(Get(result, "verdict")) == Str("passed")
            && !ObservationEmpty(Get(result, "observation"))
  {
    hide Same, SurfaceSelected, StatusOf, ObservationEmpty, Get;
  }

  lemma CompareParts(baseline: Json, candidate: Json, required: map<string, Json>, requireAll: bool)
    ensures CompareOk(baseline, candidate, required, requireAll) <==>
            var old_, new_ := ResultTable(baseline), ResultTable(candidate);
            && SameHeads(baseline, candidate) && SomethingCompared(required, old_, new_, requireAll)
            && forall id | id in old_ && id in new_ && Compared(id, required, old_, new_, requireAll) ::
                 ObservationsEqual(id, old_, new_)
  {
    hide ResultTable, SomethingCompared, Compared, ObservationsEqual, SameHeads;
  }

  // ---------------------------------------------------------------------
  // Tables
  // ---------------------------------------------------------------------

  lemma {:induction false} TableHas(items: seq<Json>, path: seq<string>)
    ensures forall k :: k in Table(items, path) <==> exists i :: 0 <= i < |items| && KeyAt(items[i], path) == Some(k)
    ensures forall k | k in Table(items, path) ::
              Table(items, path)[k] in items && KeyAt(Table(items, path)[k], path) == Some(k)
  {
    hide KeyAt;
    if items != [] {
      var n := |items| - 1;
      var rest := items[..n];
      TableHas(rest, path);
      forall k
        ensures k in Table(items, path) <==> exists i :: 0 <= i < |items| && KeyAt(items[i], path) == Some(k)
      {
        if i :| 0 <= i < |items| && KeyAt(items[i], path) == Some(k) {
          if i < n { assert rest[i] == items[i]; }
        }
        if k in Table(rest, path) {
          var i :| 0 <= i < |rest| && KeyAt(rest[i], path) == Some(k);
          assert items[i] == rest[i];
        }
      }
    }
  }

  /** In a keyed list every item is the one found under its key. */
  lemma KeyedTable(items: seq<Json>, path: seq<string>, k: string, x: Json)
    requires Keyed(items, path)
    ensures (k in Table(items, path) && Table(items, path)[k] == x) <==> (x in items && KeyAt(x, path) == Some(k))
  {
    hide KeyAt, Table;
    TableHas(items, path);
    if x in items && KeyAt(x, path) == Some(k) {
      var i :| 0 <= i < |items| && items[i] == x;
      var y := Table(items, path)[k];
      var j :| 0 <= j < |items| && items[j] == y;
      if i < j { assert KeyAt(items[i], path) != KeyAt(items[j], path); }
      if j < i { assert KeyAt(items[j], path) != KeyAt(items[i], path); }
    }
  }

  lemma {:induction false} KeyedListed(items: seq<Json>, path: seq<string>)
    requires Keyed(items, path)
    ensures Listed(items, path) == items
  {
    hide KeyAt, Table, Keyed;
    if items != [] {
      var n := |items| - 1;
      KeyedStep(items, path, n);
      assert items[..n + 1] == items;
      KeyedListed(items[..n], path);
      assert items == items[..n] + [items[n]];
    }
  }

  lemma {:induction false} CaseTableHas(cases: seq<Json>)
    ensures forall k ::
              k in CaseTable(cases) <==> exists i :: 0 <= i < |cases| && IsCase(cases[i]) && CaseId(cases[i]) == k
    ensures forall k | k in CaseTable(cases) ::
              CaseTable(cases)[k] in cases && IsCase(CaseTable(cases)[k]) && CaseId(CaseTable(cases)[k]) == k
  {
    hide IsCase, CaseId;
    if cases != [] {
      var n := |cases| - 1;
      var rest := cases[..n];
      CaseTableHas(rest);
      forall k
        ensures k in CaseTable(cases) <==> exists i :: 0 <= i < |cases| && IsCase(cases[i]) && CaseId(cases[i]) == k
      {
        if i :| 0 <= i < |cases| && IsCase(cases[i]) && CaseId(cases[i]) == k {
          if i < n { assert rest[i] == cases[i]; }
        }
        if k in CaseTable(rest) {
          var i :| 0 <= i < |rest| && IsCase(rest[i]) && CaseId(rest[i]) == k;
          assert cases[i] == rest[i];
        }
      }
    }
  }

  /** Without conflicts, every case is the one found under its id. */
  lemma CaseTableIs(cases: seq<Json>, k: string, x: Json)
    requires NoConflict(cases)
    ensures (k in CaseTable(cases) && CaseTable(cases)[k] == x) <==> (x in cases && IsCase(x) && CaseId(x) == k)
  {
    hide IsCase, CaseId, CaseTable;
    CaseTableHas(cases);
  }

  /** A list stays keyed by one more item exactly when that item has a key that is not taken. */
  lemma KeyedStep(items: seq<Json>, path: seq<string>, i: nat)
    requires i < |items|
    ensures Keyed(items[..i + 1], path) <==>
            Keyed(items[..i], path) && KeyAt(items[i], path).Some?
                  && KeyAt(items[i], path).value !in Table(items[..i], path)
  {
    hide KeyAt, Table, Keyed;
    TableHas(items[..i], path);
    if Keyed(items[..i + 1], path) { KeyedPrefix(items, path, i); }
    if Keyed(items[..i], path) && KeyAt(items[i], path).Some?
       && forall j | 0 <= j < i :: KeyAt(items[..i][j], path) != KeyAt(items[i], path) {
      KeyedMore(items, path, i);
    }
  }

  lemma KeyedPrefix(items: seq<Json>, path: seq<string>, i: nat)
    requires i < |items| && Keyed(items[..i + 1], path)
    ensures Keyed(items[..i], path) && KeyAt(items[i], path).Some?
    ensures forall j | 0 <= j < i :: KeyAt(items[..i][j], path) != KeyAt(items[i], path)
  {
    hide KeyAt;
    var a, b := items[..i], items[..i + 1];
    assert forall j | 0 <= j < i :: a[j] == b[j];
    assert b[i] == items[i];
  }

  lemma KeyedMore(items: seq<Json>, path: seq<string>, i: nat)
    requires i < |items| && Keyed(items[..i], path) && KeyAt(items[i], path).Some?
    requires forall j | 0 <= j < i :: KeyAt(items[..i][j], path) != KeyAt(items[i], path)
    ensures Keyed(items[..i + 1], path)
  {
    hide KeyAt;
    var a, b := items[..i], items[..i + 1];
    assert forall j | 0 <= j < i :: a[j] == b[j];
    assert b[i] == items[i];
  }

  /** One more case conflicts with nothing exactly when its id is free or stands for the same case. */
  lemma NoConflictStep(cases: seq<Json>, i: nat)
    requires i < |cases|
    ensures NoConflict(cases[..i + 1]) <==>
            NoConflict(cases[..i]) &&
            (IsCase(cases[i]) && CaseId(cases[i]) in CaseTable(cases[..i]) ==>
               CaseTable(cases[..i])[CaseId(cases[i])] == cases[i])
  {
    hide IsCase, CaseId, CaseTable;
    var a, b := cases[..i], cases[..i + 1];
    CaseTableHas(a);
    assert b == a + [cases[i]];
    assert forall x :: x in b <==> x in a || x == cases[i];
    if NoConflict(a) && IsCase(cases[i]) {
      var k := CaseId(cases[i]);
      if k in CaseTable(a) { CaseTableIs(a, k, CaseTable(a)[k]); }
      else {
        forall x | x in a && IsCase(x)
          ensures CaseId(x) != k
        {
          var j :| 0 <= j < |a| && a[j] == x;
        }
      }
    }
  }
}
