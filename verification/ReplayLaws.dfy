/** The checker's verdict does not depend on the order of anything, and what demanding every
    case has to do with not demanding it. */
module ReplayLaws {
  import opened Options
  import opened Json
  import opened ReplaySpec

  // ---------------------------------------------------------------------
  // Permuting lists
  // ---------------------------------------------------------------------

  predicate Shuffled(xs: seq<Json>, ys: seq<Json>) {
    multiset(xs) == multiset(ys)
  }

  lemma ShuffledMembers(xs: seq<Json>, ys: seq<Json>)
    requires Shuffled(xs, ys)
    ensures forall x :: x in xs <==> x in ys
    ensures |xs| == |ys|
  {
    forall x
      ensures x in xs <==> x in ys
    {
      assert x in xs <==> x in multiset(xs);
      assert x in ys <==> x in multiset(ys);
    }
    assert |multiset(xs)| == |xs| && |multiset(ys)| == |ys|;
  }

  lemma Twice(s: seq<Json>, i: nat, j: nat)
    requires i < j < |s| && s[i] == s[j]
    ensures multiset(s)[s[i]] >= 2
  {
    assert s == s[..j] + s[j..];
    assert s[i] in s[..j] && s[i] in s[j..] by { assert s[..j][i] == s[i] && s[j..][0] == s[j]; }
  }

  lemma {:induction false} DistinctOnce(s: seq<Json>, v: Json)
    requires forall i, j | 0 <= i < j < |s| :: s[i] != s[j]
    ensures multiset(s)[v] <= 1
  {
    if s != [] {
      var n := |s| - 1;
      DistinctOnce(s[..n], v);
      assert s == s[..n] + [s[n]];
      assert s[n] !in s[..n];
    }
  }

  lemma Once(s: seq<Json>, path: seq<string>, v: Json)
    requires Keyed(s, path)
    ensures multiset(s)[v] <= 1
  {
    hide KeyAt;
    forall i, j | 0 <= i < j < |s|
      ensures s[i] != s[j]
    {
      assert KeyAt(s[i], path) != KeyAt(s[j], path);
    }
    DistinctOnce(s, v);
  }

  lemma KeyedOneWay(xs: seq<Json>, ys: seq<Json>, path: seq<string>)
    requires Shuffled(xs, ys) && Keyed(xs, path)
    ensures Keyed(ys, path)
  {
    hide KeyAt;
    ShuffledMembers(xs, ys);
    forall i | 0 <= i < |ys|
      ensures KeyAt(ys[i], path).Some?
    {
      assert ys[i] in xs;
    }
    forall i, j | 0 <= i < j < |ys|
      ensures KeyAt(ys[i], path) != KeyAt(ys[j], path)
    {
      if ys[i] == ys[j] {
        Twice(ys, i, j);
        Once(xs, path, ys[i]);
      }
      assert ys[i] in xs && ys[j] in xs;
      var a :| 0 <= a < |xs| && xs[a] == ys[i];
      var b :| 0 <= b < |xs| && xs[b] == ys[j];
      assert a < b ==> KeyAt(xs[a], path) != KeyAt(xs[b], path);
      assert b < a ==> KeyAt(xs[b], path) != KeyAt(xs[a], path);
    }
  }

  /** Being keyed does not depend on the order, and neither do the tables of keyed lists. */
  lemma KeyedShuffled(xs: seq<Json>, ys: seq<Json>, path: seq<string>)
    requires Shuffled(xs, ys)
    ensures Keyed(xs, path) <==> Keyed(ys, path)
    ensures Keyed(xs, path) ==> Table(xs, path) == Table(ys, path)
  {
    hide KeyAt, Keyed, Table;
    if Keyed(xs, path) {
      KeyedOneWay(xs, ys, path);
      ShuffledMembers(xs, ys);
      TableHas(xs, path);
      TableHas(ys, path);
      forall k
        ensures k in Table(xs, path) <==> k in Table(ys, path)
        ensures k in Table(xs, path) ==> Table(xs, path)[k] == Table(ys, path)[k]
      {
        if k in Table(xs, path) {
          KeyedTable(xs, path, k, Table(xs, path)[k]);
          KeyedTable(ys, path, k, Table(xs, path)[k]);
        }
        if k in Table(ys, path) {
          KeyedTable(ys, path, k, Table(ys, path)[k]);
          KeyedTable(xs, path, k, Table(ys, path)[k]);
        }
      }
    }
    if Keyed(ys, path) { KeyedOneWay(ys, xs, path); }
  }

  /** A field holds the same list in another order, or is the same altogether. */
  predicate Reordered(a: Json, b: Json, key: string) {
    Get(a, key) == Get(b, key) || (Get(a, key).Arr? && Get(b, key).Arr?
          && Shuffled(Items(Get(a, key)), Items(Get(b, key))))
  }

  /** Two reports that differ only in the order of their marks, results and selected surfaces. */
  predicate ReorderedReport(a: Json, b: Json) {
    && a.Obj? && b.Obj? && a.fields.Keys == b.fields.Keys
    && (forall key | key in a.fields.Keys && key !in {"highWaterMarks", "results", "selectedSurfaces"} ::
          a.fields[key] == b.fields[key])
    && Reordered(a, b, "highWaterMarks") && Reordered(a, b, "results") && Reordered(a, b, "selectedSurfaces")
  }

  lemma ReorderedKeyed(a: Json, b: Json, key: string, path: seq<string>)
    requires Reordered(a, b, key)
    ensures Get(a, key).Arr? <==> Get(b, key).Arr?
    ensures Keyed(Items(Get(a, key)), path) <==> Keyed(Items(Get(b, key)), path)
    ensures Keyed(Items(Get(a, key)), path) ==> Table(Items(Get(a, key)), path) == Table(Items(Get(b, key)), path)
    ensures forall x :: x in Items(Get(a, key)) <==> x in Items(Get(b, key))
    ensures Items(Get(a, key)) == [] <==> Items(Get(b, key)) == []
  {
    hide Keyed, Table, Get;
    if Get(a, key) != Get(b, key) {
      KeyedShuffled(Items(Get(a, key)), Items(Get(b, key)), path);
      ShuffledMembers(Items(Get(a, key)), Items(Get(b, key)));
    }
  }

  lemma OtherFields(a: Json, b: Json, key: string)
    requires ReorderedReport(a, b) && key !in {"highWaterMarks", "results", "selectedSurfaces"}
    ensures Get(a, key) == Get(b, key)
  {
    hide Reordered;
  }

  lemma ReorderedLoopable(a: Json, b: Json)
    requires ReorderedReport(a, b)
    ensures Loopable(a, "selectedSurfaces") <==> Loopable(b, "selectedSurfaces")
  {
    hide Shuffled;
  }

  lemma ReorderedFields(a: Json, b: Json)
    requires ReorderedReport(a, b)
    ensures Get(a, "reportVersion") == Get(b, "reportVersion") && Get(a, "role") == Get(b, "role")
    ensures Get(a, "buildPair") == Get(b, "buildPair") && Get(a, "inventoryId") == Get(b, "inventoryId")
    ensures Get(a, "corpusHash") == Get(b, "corpusHash")
    ensures Get(a, "observationContractVersion") == Get(b, "observationContractVersion")
    ensures Get(a, "determinismInputs") == Get(b, "determinismInputs")
    ensures Reordered(a, b, "highWaterMarks") && Reordered(a, b, "results") && Reordered(a, b, "selectedSurfaces")
  {
    hide Get, Reordered;
    OtherFields(a, b, "reportVersion");
    OtherFields(a, b, "role");
    OtherFields(a, b, "buildPair");
    OtherFields(a, b, "inventoryId");
    OtherFields(a, b, "corpusHash");
    OtherFields(a, b, "observationContractVersion");
    OtherFields(a, b, "determinismInputs");
  }

  lemma ReorderedHead(a: Json, b: Json, role: string, inventory: Json)
    requires ReorderedReport(a, b)
    ensures HeadOk(a, role, inventory) <==> HeadOk(b, role, inventory)
  {
    hide Get, Same, ReorderedReport, Reordered;
    ReorderedFields(a, b);
  }

  lemma ReorderedLists(a: Json, b: Json)
    requires ReorderedReport(a, b)
    ensures ListsOk(a) <==> ListsOk(b)
    ensures ListsOk(a) ==>
              ResultTable(a) == ResultTable(b) && Table(Marks(a), ["stream"]) == Table(Marks(b), ["stream"])
  {
    hide Get, Keyed, Table, ReorderedReport, Reordered, Loopable, Items;
    ReorderedFields(a, b);
    ReorderedLoopable(a, b);
    ReorderedKeyed(a, b, "highWaterMarks", ["stream"]);
    ReorderedKeyed(a, b, "results", RESULT_KEY);
  }

  lemma ReorderedSurfaces(a: Json, b: Json, surface: Json)
    requires ReorderedReport(a, b)
    ensures SurfaceSelected(a, surface) <==> SurfaceSelected(b, surface)
  {
    hide Get, Keyed, Table, ReorderedReport, Reordered, Items;
    ReorderedFields(a, b);
    ReorderedKeyed(a, b, "selectedSurfaces", []);
  }

  lemma ReorderedCovers(a: Json, b: Json, required: Json, result: Json)
    requires ReorderedReport(a, b)
    ensures Covers(a, required, result) <==> Covers(b, required, result)
  {
    hide Get, Same, ReorderedReport, SurfaceSelected, ObservationEmpty, StatusOf;
    ReorderedSurfaces(a, b, Get(required, "surface"));
  }

  lemma ReorderedCovered(a: Json, b: Json, required: map<string, Json>, requireAll: bool)
    requires ReorderedReport(a, b) && ResultTable(a) == ResultTable(b)
    ensures AllCovered(a, required, requireAll) <==> AllCovered(b, required, requireAll)
  {
    hide Covers, ReorderedReport, ResultTable;
    forall id | id in required && id in ResultTable(a)
      ensures Covers(a, required[id], ResultTable(a)[id]) <==> Covers(b, required[id], ResultTable(b)[id])
    {
      ReorderedCovers(a, b, required[id], ResultTable(a)[id]);
    }
  }

  lemma RevisionsOfTable(a: Json, b: Json)
    requires Table(Marks(a), ["stream"]) == Table(Marks(b), ["stream"])
    ensures Revisions(a) == Revisions(b)
  {
    hide Table, Marks, Get;
  }

  lemma ReorderedReportOk(a: Json, b: Json, role: string, inventory: Json, required: map<string, Json>,
          requireAll: bool)
    requires ReorderedReport(a, b)
    ensures ReportOk(a, role, inventory, required, requireAll) <==> ReportOk(b, role, inventory, required, requireAll)
    ensures ReportOk(a, role, inventory, required, requireAll) ==>
              ResultTable(a) == ResultTable(b) && Revisions(a) == Revisions(b)
  {
    hide *;
    ReportParts(a, role, inventory, required, requireAll);
    ReportParts(b, role, inventory, required, requireAll);
    ReorderedHead(a, b, role, inventory);
    ReorderedLists(a, b);
    if ListsOk(a) {
      ReorderedCovered(a, b, required, requireAll);
      RevisionsOfTable(a, b);
    }
  }

  /** Permuting does not change whether both reports are in order, and if they are, nor their tables. */
  lemma ReorderedBoth(baseline: Json, baseline': Json, candidate: Json, candidate': Json, inventory: Json,
          requireAll: bool)
    requires ReorderedReport(baseline, baseline') && ReorderedReport(candidate, candidate')
    ensures BothOk(baseline, candidate, inventory, requireAll) <==> BothOk(baseline', candidate', inventory, requireAll)
    ensures BothOk(baseline, candidate, inventory, requireAll) ==>
              && ResultTable(baseline) == ResultTable(baseline') && Revisions(baseline) == Revisions(baseline')
              && ResultTable(candidate) == ResultTable(candidate') && Revisions(candidate) == Revisions(candidate')
  {
    hide *;
    BothParts(baseline, candidate, inventory, requireAll);
    BothParts(baseline', candidate', inventory, requireAll);
    ReorderedReportOk(baseline, baseline', "baseline", inventory, Required(inventory), requireAll);
    ReorderedReportOk(candidate, candidate', "candidate", inventory, Required(inventory), requireAll);
  }

  lemma SameHeadsOf(a: Json, a': Json, b: Json, b': Json)
    requires Revisions(a) == Revisions(a') && Revisions(b) == Revisions(b')
    requires Get(a, "corpusHash") == Get(a', "corpusHash") && Get(b, "corpusHash") == Get(b', "corpusHash")
    requires Get(a, "observationContractVersion") == Get(a', "observationContractVersion")
    requires Get(b, "observationContractVersion") == Get(b', "observationContractVersion")
    requires Get(a, "determinismInputs") == Get(a', "determinismInputs")
    requires Get(b, "determinismInputs") == Get(b', "determinismInputs")
    ensures SameHeads(a, b) <==> SameHeads(a', b')
  {
    hide Get, Revisions, Same, SameRevisions;
  }

  lemma SameCompare(a: Json, a': Json, b: Json, b': Json, required: map<string, Json>, requireAll: bool)
    requires ResultTable(a) == ResultTable(a') && ResultTable(b) == ResultTable(b')
    requires Revisions(a) == Revisions(a') && Revisions(b) == Revisions(b')
    requires Get(a, "corpusHash") == Get(a', "corpusHash") && Get(b, "corpusHash") == Get(b', "corpusHash")
    requires Get(a, "observationContractVersion") == Get(a', "observationContractVersion")
    requires Get(b, "observationContractVersion") == Get(b', "observationContractVersion")
    requires Get(a, "determinismInputs") == Get(a', "determinismInputs")
    requires Get(b, "determinismInputs") == Get(b', "determinismInputs")
    ensures CompareOk(a, b, required, requireAll) <==> CompareOk(a', b', required, requireAll)
  {
    hide *;
    CompareParts(a, b, required, requireAll);
    CompareParts(a', b', required, requireAll);
    SameHeadsOf(a, a', b, b');
  }

  /** Permuting the marks, results and selected surfaces of either report changes no verdict. */
  lemma ReportOrderDoesNotMatter(baseline: Json, baseline': Json, candidate: Json, candidate': Json, inventory: Json,
          requireAll: bool)
    requires ReorderedReport(baseline, baseline') && ReorderedReport(candidate, candidate')
    ensures Compatible(baseline, candidate, inventory, requireAll)
          <==> Compatible(baseline', candidate', inventory, requireAll)
  {
    hide *;
    CompatibleParts(baseline, candidate, inventory, requireAll);
    CompatibleParts(baseline', candidate', inventory, requireAll);
    ReorderedBoth(baseline, baseline', candidate, candidate', inventory, requireAll);
    if BothOk(baseline, candidate, inventory, requireAll) {
      ReorderedFields(baseline, baseline');
      ReorderedFields(candidate, candidate');
      SameCompare(baseline, baseline', candidate, candidate', Required(inventory), requireAll);
    }
  }

  // ---------------------------------------------------------------------
  // Permuting the inventory
  // ---------------------------------------------------------------------

  lemma {:induction false} AllCasesHas(contributions: seq<Json>)
    ensures forall x :: x in AllCases(contributions) <==> exists c :: c in contributions && x in CasesOf(c)
  {
    hide CasesOf;
    if contributions != [] {
      var rest, last := contributions[..|contributions| - 1], contributions[|contributions| - 1];
      AllCasesHas(rest);
      assert contributions == rest + [last];
      forall x
        ensures x in AllCases(contributions) <==> exists c :: c in contributions && x in CasesOf(c)
      {
        if x in AllCases(rest) {
          var c :| c in rest && x in CasesOf(c);
          assert c in contributions;
        }
        if c :| c in contributions && x in CasesOf(c) { assert c in rest || c == last; }
        assert last in contributions;
      }
    }
  }

  /** Tables of cases without conflicts depend only on which cases there are. */
  lemma SameCases(xs: seq<Json>, ys: seq<Json>)
    requires forall x :: x in xs <==> x in ys
    ensures NoConflict(xs) <==> NoConflict(ys)
    ensures NoConflict(xs) ==> CaseTable(xs) == CaseTable(ys)
    ensures xs == [] <==> ys == []
  {
    hide IsCase, CaseId, CaseTable;
    if NoConflict(xs) {
      CaseTableHas(xs);
      CaseTableHas(ys);
      forall k
        ensures k in CaseTable(xs) <==> k in CaseTable(ys)
        ensures k in CaseTable(xs) ==> CaseTable(xs)[k] == CaseTable(ys)[k]
      {
        if k in CaseTable(xs) { CaseTableIs(ys, k, CaseTable(xs)[k]); }
        if k in CaseTable(ys) { CaseTableIs(xs, k, CaseTable(ys)[k]); }
      }
    }
    if xs != [] { assert xs[0] in ys; }
    if ys != [] { assert ys[0] in xs; }
  }

  predicate SameButContributions(a: Json, b: Json) {
    && a.Obj? && b.Obj? && a.fields.Keys == b.fields.Keys
    && forall key | key in a.fields.Keys && key != "contributions" :: a.fields[key] == b.fields[key]
  }

  lemma InventoryFields(a: Json, b: Json)
    requires SameButContributions(a, b)
    ensures Get(a, "inventoryVersion") == Get(b, "inventoryVersion") && Get(a, "buildPair") == Get(b, "buildPair")
    ensures Get(a, "inventoryId") == Get(b, "inventoryId")
  {
  }

  /** What is known of two contribution lists for the verdict to be the same. */
  ghost predicate SameContributions(xs: seq<Json>, ys: seq<Json>) {
    && (Keyed(xs, ["source"]) <==> Keyed(ys, ["source"]))
    && (Keyed(xs, ["source"]) ==> Table(xs, ["source"]).Keys == Table(ys, ["source"]).Keys)
    && ((forall c | c in xs :: ContributionOk(c)) <==> (forall c | c in ys :: ContributionOk(c)))
    && (forall x :: x in AllCases(xs) <==> x in AllCases(ys))
  }

  lemma SameInventory(a: Json, b: Json, requireAll: bool)
    requires SameButContributions(a, b) && Get(a, "contributions").Arr? && Get(b, "contributions").Arr?
    requires SameContributions(Contributions(a), Contributions(b))
    ensures InventoryOk(a, requireAll) <==> InventoryOk(b, requireAll)
    ensures InventoryOk(a, requireAll) ==> Required(a) == Required(b)
  {
    hide Get, Keyed, Table, Listed, ContributionOk, NoConflict, CaseTable, AllCases, SameButContributions;
    InventoryFields(a, b);
    SameCases(AllCases(Contributions(a)), AllCases(Contributions(b)));
    if InventoryOk(a, requireAll) {
      KeyedListed(Contributions(a), ["source"]);
      KeyedListed(Contributions(b), ["source"]);
    }
  }

  lemma HeadOfInventory(report: Json, role: string, a: Json, b: Json)
    requires Get(a, "buildPair") == Get(b, "buildPair") && Get(a, "inventoryId") == Get(b, "inventoryId")
    ensures HeadOk(report, role, a) <==> HeadOk(report, role, b)
  {
    hide Get, Same;
  }

  lemma ReportOfInventory(report: Json, role: string, a: Json, b: Json, required: map<string, Json>, requireAll: bool)
    requires Get(a, "buildPair") == Get(b, "buildPair") && Get(a, "inventoryId") == Get(b, "inventoryId")
    ensures ReportOk(report, role, a, required, requireAll) <==> ReportOk(report, role, b, required, requireAll)
  {
    hide *;
    ReportParts(report, role, a, required, requireAll);
    ReportParts(report, role, b, required, requireAll);
    HeadOfInventory(report, role, a, b);
  }

  lemma SameInventoryVerdict(baseline: Json, candidate: Json, a: Json, b: Json, requireAll: bool)
    requires SameButContributions(a, b) && Get(a, "contributions").Arr? && Get(b, "contributions").Arr?
    requires SameContributions(Contributions(a), Contributions(b))
    ensures Compatible(baseline, candidate, a, requireAll) <==> Compatible(baseline, candidate, b, requireAll)
  {
    hide *;
    CompatibleParts(baseline, candidate, a, requireAll);
    CompatibleParts(baseline, candidate, b, requireAll);
    SameInventory(a, b, requireAll);
    if InventoryOk(a, requireAll) {
      InventoryFields(a, b);
      BothParts(baseline, candidate, a, requireAll);
      BothParts(baseline, candidate, b, requireAll);
      ReportOfInventory(baseline, "baseline", a, b, Required(a), requireAll);
      ReportOfInventory(candidate, "candidate", a, b, Required(a), requireAll);
    }
  }

  /** Permuting the contributions of the inventory changes no verdict. */
  lemma ContributionOrderDoesNotMatter(baseline: Json, candidate: Json, a: Json, b: Json, requireAll: bool)
    requires SameButContributions(a, b) && Get(a, "contributions").Arr? && Get(b, "contributions").Arr?
    requires Shuffled(Contributions(a), Contributions(b))
    ensures Compatible(baseline, candidate, a, requireAll) <==> Compatible(baseline, candidate, b, requireAll)
  {
    hide Get, SameButContributions, Keyed, Table, ContributionOk, AllCases, Compatible, CasesOf;
    var xs, ys := Contributions(a), Contributions(b);
    KeyedShuffled(xs, ys, ["source"]);
    ShuffledMembers(xs, ys);
    AllCasesHas(xs);
    AllCasesHas(ys);
    SameInventoryVerdict(baseline, candidate, a, b, requireAll);
  }

  /** Two contributions that differ only in the order of their cases. */
  predicate ReorderedContribution(a: Json, b: Json) {
    && a.Obj? && b.Obj? && a.fields.Keys == b.fields.Keys
    && (forall key | key in a.fields.Keys && key != "cases" :: a.fields[key] == b.fields[key])
    && Get(a, "cases").Arr? && Get(b, "cases").Arr? && Shuffled(CasesOf(a), CasesOf(b))
  }

  lemma ReorderedContributionFacts(a: Json, b: Json)
    requires ReorderedContribution(a, b)
    ensures KeyAt(a, ["source"]) == KeyAt(b, ["source"])
    ensures forall x :: x in CasesOf(a) <==> x in CasesOf(b)
    ensures ContributionOk(a) <==> ContributionOk(b)
  {
    hide Truthy, IsCase;
    assert ["source"][1..] == [];
    assert Get(a, "source") == Get(b, "source") && Get(a, "applicability") == Get(b, "applicability");
    ShuffledMembers(CasesOf(a), CasesOf(b));
  }

  /** Permuting the cases within the contributions changes no verdict. */
  lemma CaseOrderDoesNotMatter(baseline: Json, candidate: Json, a: Json, b: Json, requireAll: bool)
    requires SameButContributions(a, b) && Get(a, "contributions").Arr? && Get(b, "contributions").Arr?
    requires |Contributions(a)| == |Contributions(b)|
    requires forall i | 0 <= i < |Contributions(a)| :: ReorderedContribution(Contributions(a)[i], Contributions(b)[i])
    ensures Compatible(baseline, candidate, a, requireAll) <==> Compatible(baseline, candidate, b, requireAll)
  {
    hide Get, SameButContributions, KeyAt, Table, ContributionOk, AllCases, Compatible, CasesOf, ReorderedContribution;
    var xs, ys := Contributions(a), Contributions(b);
    forall i | 0 <= i < |xs|
      ensures KeyAt(xs[i], ["source"]) == KeyAt(ys[i], ["source"])
      ensures forall x :: x in CasesOf(xs[i]) <==> x in CasesOf(ys[i])
      ensures ContributionOk(xs[i]) <==> ContributionOk(ys[i])
    {
      ReorderedContributionFacts(xs[i], ys[i]);
    }
    KeysPointwise(xs, ys, ["source"]);
    OkPointwise(xs, ys);
    CasesPointwise(xs, ys);
    SameInventoryVerdict(baseline, candidate, a, b, requireAll);
  }

  lemma KeysPointwise(xs: seq<Json>, ys: seq<Json>, path: seq<string>)
    requires |xs| == |ys| && forall i | 0 <= i < |xs| :: KeyAt(xs[i], path) == KeyAt(ys[i], path)
    ensures Keyed(xs, path) <==> Keyed(ys, path)
    ensures Table(xs, path).Keys == Table(ys, path).Keys
  {
    hide KeyAt, Table;
    TableHas(xs, path);
    TableHas(ys, path);
    forall k
      ensures k in Table(xs, path) <==> k in Table(ys, path)
    {
      if k in Table(xs, path) {
        var i :| 0 <= i < |xs| && KeyAt(xs[i], path) == Some(k);
        assert KeyAt(ys[i], path) == Some(k);
      }
      if k in Table(ys, path) {
        var i :| 0 <= i < |ys| && KeyAt(ys[i], path) == Some(k);
        assert KeyAt(xs[i], path) == Some(k);
      }
    }
  }

  lemma OkPointwise(xs: seq<Json>, ys: seq<Json>)
    requires |xs| == |ys| && forall i | 0 <= i < |xs| :: ContributionOk(xs[i]) <==> ContributionOk(ys[i])
    ensures (forall c | c in xs :: ContributionOk(c)) <==> (forall c | c in ys :: ContributionOk(c))
  {
    hide ContributionOk;
    if forall c | c in xs :: ContributionOk(c) {
      forall c | c in ys ensures ContributionOk(c) { var i :| 0 <= i < |ys| && ys[i] == c; assert xs[i] in xs; }
    }
    if forall c | c in ys :: ContributionOk(c) {
      forall c | c in xs ensures ContributionOk(c) { var i :| 0 <= i < |xs| && xs[i] == c; assert ys[i] in ys; }
    }
  }

  lemma CasesPointwise(xs: seq<Json>, ys: seq<Json>)
    requires |xs| == |ys| && forall i | 0 <= i < |xs| :: forall x :: x in CasesOf(xs[i]) <==> x in CasesOf(ys[i])
    ensures forall x :: x in AllCases(xs) <==> x in AllCases(ys)
  {
    hide CasesOf, AllCases;
    AllCasesHas(xs);
    AllCasesHas(ys);
    forall x
      ensures x in AllCases(xs) <==> x in AllCases(ys)
    {
      if c :| c in xs && x in CasesOf(c) {
        var i :| 0 <= i < |xs| && xs[i] == c;
        assert ys[i] in ys && x in CasesOf(ys[i]);
      }
      if c :| c in ys && x in CasesOf(c) {
        var i :| 0 <= i < |ys| && ys[i] == c;
        assert xs[i] in xs && x in CasesOf(xs[i]);
      }
    }
  }

  // ---------------------------------------------------------------------
  // Demanding every case
  // ---------------------------------------------------------------------

  /** Cases outside the inventory that both reports have results for, which only the relaxed mode compares. */
  ghost predicate OthersAgree(baseline: Json, candidate: Json, inventory: Json) {
    forall id | id in ResultTable(baseline) && id in ResultTable(candidate) && id !in Required(inventory) ::
      ObservationsEqual(id, ResultTable(baseline), ResultTable(candidate))
  }

  /** Without demanding every case the checker also compares cases that the inventory does not know.
      What passes when every case is demanded passes otherwise exactly when those cases agree too. */
  lemma RelaxedExact(baseline: Json, candidate: Json, inventory: Json)
    requires Compatible(baseline, candidate, inventory, true)
    ensures Compatible(baseline, candidate, inventory, false) <==> OthersAgree(baseline, candidate, inventory)
  {
    hide *;
    CompatibleParts(baseline, candidate, inventory, true);
    CompatibleParts(baseline, candidate, inventory, false);
    RelaxedInventory(inventory);
    RequiredNotEmpty(inventory);
    BothParts(baseline, candidate, inventory, true);
    BothParts(baseline, candidate, inventory, false);
    RelaxedReport(baseline, "baseline", inventory, Required(inventory));
    RelaxedReport(candidate, "candidate", inventory, Required(inventory));
    RelaxedCompare(baseline, candidate, inventory);
  }

  lemma RelaxedInventory(inventory: Json)
    requires InventoryOk(inventory, true)
    ensures InventoryOk(inventory, false)
  {
    hide Get, Keyed, Table, ContributionOk, NoConflict, AllCases, Contributions;
  }

  lemma RelaxedReport(report: Json, role: string, inventory: Json, required: map<string, Json>)
    requires ReportOk(report, role, inventory, required, true)
    ensures ReportOk(report, role, inventory, required, false)
    ensures required.Keys <= ResultTable(report).Keys
  {
    hide HeadOk, ListsOk, Covers, ResultTable;
    forall id | id in required
      ensures id in ResultTable(report)
    {
      assert HeldTo(id, required, ResultTable(report), true);
    }
  }

  lemma RelaxedCompare(baseline: Json, candidate: Json, inventory: Json)
    requires Required(inventory) != map[]
    requires Required(inventory).Keys <= ResultTable(baseline).Keys
          && Required(inventory).Keys <= ResultTable(candidate).Keys
    requires CompareOk(baseline, candidate, Required(inventory), true)
    ensures CompareOk(baseline, candidate, Required(inventory), false) <==> OthersAgree(baseline, candidate, inventory)
  {
    hide Get, Same, ResultTable, Revisions, SameRevisions, ObservationsEqual, Required;
    var required, old_, new_ := Required(inventory), ResultTable(baseline), ResultTable(candidate);
    var id :| id in required;
    assert id in old_.Keys * new_.Keys;
    forall id | id in required
      ensures ObservationsEqual(id, old_, new_)
    {
      assert Compared(id, required, old_, new_, true);
    }
    forall id | id in old_ && id in new_
      ensures Compared(id, required, old_, new_, false)
    {
    }
  }

  lemma RequiredNotEmpty(inventory: Json)
    requires InventoryOk(inventory, true)
    ensures Required(inventory) != map[]
  {
    hide Get, Keyed, Table, NoConflict, IsCase, CaseId, AllCases, CaseTable, Listed, Applies;
    var contributions := Contributions(inventory);
    KeyedListed(contributions, ["source"]);
    AllCasesHas(contributions);
    var x := AllCases(contributions)[0];
    assert x in AllCases(contributions);
    var c :| c in contributions && x in CasesOf(c);
    assert ContributionOk(c);
    CaseTableIs(AllCases(contributions), CaseId(x), x);
  }

  // ---------------------------------------------------------------------
  // Strict acceptance does not carry over
  // ---------------------------------------------------------------------

  /** A result for a case, with nothing but its id and what was observed. */
  function Bare(id: string, observation: Json): Json {
    Obj(map["requiredCase" := Obj(map["caseId" := Str(id)]), "observation" := observation])
  }

  function WithResult(report: Json, result: Json): Json
    requires report.Obj?
  {
    Obj(report.fields["results" := Arr(Results(report) + [result])])
  }

  lemma BareKey(id: string, observation: Json)
    requires id != ""
    ensures KeyAt(Bare(id, observation), RESULT_KEY) == Some(id)
    ensures Get(Bare(id, observation), "observation") == observation
  {
    var bare := Bare(id, observation);
    assert RESULT_KEY[1..] == ["caseId"] && ["caseId"][1..] == [];
    assert Walk(bare, RESULT_KEY) == Walk(Get(bare, "requiredCase"), ["caseId"]);
    assert Walk(Get(bare, "requiredCase"), ["caseId"]) == Walk(Str(id), []);
  }

  lemma WithResultFields(report: Json, result: Json, key: string)
    requires report.Obj? && key != "results"
    ensures Get(WithResult(report, result), key) == Get(report, key)
    ensures Loopable(WithResult(report, result), key) <==> Loopable(report, key)
  {
  }

  lemma WithResultLists(report: Json, id: string, observation: Json)
    requires report.Obj? && id != "" && ListsOk(report) && id !in ResultTable(report)
    ensures ListsOk(WithResult(report, Bare(id, observation)))
    ensures ResultTable(WithResult(report, Bare(id, observation))) == ResultTable(report)[id := Bare(id, observation)]
  {
    hide Keyed, Table, KeyAt, Loopable, Bare;
    var bare := Bare(id, observation);
    BareKey(id, observation);
    WithResultFields(report, bare, "highWaterMarks");
    WithResultFields(report, bare, "selectedSurfaces");
    GrownTable(Results(report), bare, RESULT_KEY, id);
  }

  lemma GrownTable(items: seq<Json>, item: Json, path: seq<string>, id: string)
    requires Keyed(items, path) && KeyAt(item, path) == Some(id) && id !in Table(items, path)
    ensures Keyed(items + [item], path)
    ensures Table(items + [item], path) == Table(items, path)[id := item]
  {
    hide KeyAt, Keyed;
    var grown := items + [item];
    assert grown[..|items|] == items && grown[..|items| + 1] == grown;
    KeyedStep(grown, path, |items|);
  }

  lemma WithResultHead(report: Json, role: string, inventory: Json, result: Json)
    requires report.Obj?
    ensures HeadOk(WithResult(report, result), role, inventory) <==> HeadOk(report, role, inventory)
  {
    hide Get, Same, WithResult;
    WithResultFields(report, result, "reportVersion");
    WithResultFields(report, result, "role");
    WithResultFields(report, result, "buildPair");
    WithResultFields(report, result, "inventoryId");
  }

  lemma WithResultCovers(report: Json, result: Json, required: Json, found: Json)
    requires report.Obj?
    ensures Covers(WithResult(report, result), required, found) <==> Covers(report, required, found)
  {
    hide Get, Same, WithResult, ObservationEmpty;
    WithResultFields(report, result, "selectedSurfaces");
  }

  /** A result for a case nobody asked for leaves a report in order. */
  lemma WithResultOk(report: Json, role: string, inventory: Json, required: map<string, Json>, id: string,
          observation: Json)
    requires report.Obj? && id != "" && id !in ResultTable(report) && id !in required
    requires ReportOk(report, role, inventory, required, true)
    ensures ReportOk(WithResult(report, Bare(id, observation)), role, inventory, required, true)
    ensures Revisions(WithResult(report, Bare(id, observation))) == Revisions(report)
  {
    hide HeadOk, ListsOk, Covers, ResultTable, Get, Bare, WithResult, Table;
    var more := WithResult(report, Bare(id, observation));
    WithResultHead(report, role, inventory, Bare(id, observation));
    WithResultLists(report, id, observation);
    WithResultFields(report, Bare(id, observation), "highWaterMarks");
    forall k | k in required
      ensures k in ResultTable(more) && Covers(more, required[k], ResultTable(more)[k])
    {
      assert HeldTo(k, required, ResultTable(report), true);
      WithResultCovers(report, Bare(id, observation), required[k], ResultTable(report)[k]);
    }
  }

  lemma WithResultCompare(a: Json, b: Json, required: map<string, Json>, id: string, x: Json, y: Json)
    requires a.Obj? && b.Obj? && id !in required
    requires ListsOk(a) && ListsOk(b) && id != "" && id !in ResultTable(a) && id !in ResultTable(b)
    requires Revisions(WithResult(a, Bare(id, x))) == Revisions(a)
          && Revisions(WithResult(b, Bare(id, y))) == Revisions(b)
    requires CompareOk(a, b, required, true)
    ensures CompareOk(WithResult(a, Bare(id, x)), WithResult(b, Bare(id, y)), required, true)
  {
    hide Get, Bare, WithResult, ResultTable, Revisions, ListsOk, Same, SameRevisions;
    WithResultLists(a, id, x);
    WithResultLists(b, id, y);
    WithResultFields(a, Bare(id, x), "corpusHash");
    WithResultFields(a, Bare(id, x), "observationContractVersion");
    WithResultFields(a, Bare(id, x), "determinismInputs");
    WithResultFields(b, Bare(id, y), "corpusHash");
    WithResultFields(b, Bare(id, y), "observationContractVersion");
    WithResultFields(b, Bare(id, y), "determinismInputs");
    forall k | k in required && k in ResultTable(a) && k in ResultTable(b)
      ensures ObservationsEqual(k, ResultTable(a), ResultTable(b))
    {
      assert Compared(k, required, ResultTable(a), ResultTable(b), true);
    }
  }

  /** Anything accepted while demanding every case can be extended by one result on either side so
      that it is still accepted then, but no longer without that demand. */
  lemma StrictIsNotRelaxed(baseline: Json, candidate: Json, inventory: Json, id: string, x: Json, y: Json)
    requires Compatible(baseline, candidate, inventory, true) && baseline.Obj? && candidate.Obj?
    requires id != "" && id !in Required(inventory) && id !in ResultTable(baseline) && id !in ResultTable(candidate)
    requires x != y
    ensures Compatible(WithResult(baseline, Bare(id, x)), WithResult(candidate, Bare(id, y)), inventory, true)
    ensures !Compatible(WithResult(baseline, Bare(id, x)), WithResult(candidate, Bare(id, y)), inventory, false)
  {
    hide *;
    var baseline', candidate' := WithResult(baseline, Bare(id, x)), WithResult(candidate, Bare(id, y));
    CompatibleParts(baseline, candidate, inventory, true);
    BothParts(baseline, candidate, inventory, true);
    ReportParts(baseline, "baseline", inventory, Required(inventory), true);
    ReportParts(candidate, "candidate", inventory, Required(inventory), true);
    WithResultOk(baseline, "baseline", inventory, Required(inventory), id, x);
    WithResultOk(candidate, "candidate", inventory, Required(inventory), id, y);
    WithResultCompare(baseline, candidate, Required(inventory), id, x, y);
    BothParts(baseline', candidate', inventory, true);
    CompatibleParts(baseline', candidate', inventory, true);
    RelaxedExact(baseline', candidate', inventory);
    WithResultLists(baseline, id, x);
    WithResultLists(candidate, id, y);
    OneDisagrees(baseline', candidate', inventory, id, x, y);
  }

  lemma OneDisagrees(baseline: Json, candidate: Json, inventory: Json, id: string, x: Json, y: Json)
    requires id != "" && id !in Required(inventory) && x != y
    requires id in ResultTable(baseline) && ResultTable(baseline)[id] == Bare(id, x)
    requires id in ResultTable(candidate) && ResultTable(candidate)[id] == Bare(id, y)
    ensures !OthersAgree(baseline, candidate, inventory)
  {
    hide Get, Bare, ResultTable, Required;
    BareKey(id, x);
    BareKey(id, y);
    assert !ObservationsEqual(id, ResultTable(baseline), ResultTable(candidate));
  }
}
