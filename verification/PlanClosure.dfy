/** The released dependencies of the default build: what the release packages' libraries and
    executables reach in a Cabal plan. */
module PlanClosure {

  /** One unit of the plan. A missing component name, source type or repository is the empty string. */
  datatype Unit = Unit(
    id: string, name: string, version: string, kind: string, component: string,
    depends: seq<string>, exeDepends: seq<string>, sourceType: string, repository: string)

  type Units = map<string, Unit>

  predicate IsReleasePackage(name: string) {
    name in ["keiro-core", "keiro", "keiro-pgmq", "keiro-migrations",
             "keiro-test-support", "keiro-dsl", "keiro-ops", "keiro-ops-http"]
  }

  predicate IsRoot(u: Unit) {
    IsReleasePackage(u.name) && (u.component == "lib" || (|u.component| >= 4 && u.component[..4] == "exe:"))
  }

  /** Neither a release package nor something that comes with the compiler. */
  predicate IsExternal(u: Unit) {
    !IsReleasePackage(u.name) && u.kind != "pre-existing"
  }

  predicate FromHackage(u: Unit) {
    && u.sourceType == "repo-tar"
    && (u.repository == "http://hackage.haskell.org/" || u.repository == "https://hackage.haskell.org/")
  }

  function Successors(u: Unit): seq<string> {
    u.depends + u.exeDepends
  }

  /** The plan as a table: of two units with one id, the later one counts. */
  function Table(plan: seq<Unit>): Units {
    if plan == [] then map[] else Table(plan[..|plan| - 1])[plan[|plan| - 1].id := plan[|plan| - 1]]
  }

  /** A chain of dependencies from a root. */
  ghost predicate IsChain(units: Units, chain: seq<string>) {
    && chain != [] && chain[0] in units && IsRoot(units[chain[0]])
    && forall i | 0 <= i < |chain| - 1 :: chain[i] in units && chain[i + 1] in Successors(units[chain[i]])
  }

  ghost predicate Reachable(units: Units, id: string) {
    exists chain :: IsChain(units, chain) && chain[|chain| - 1] == id
  }

  datatype Result =
    | NoRoots
    | Missing(id: string)
    | NotReleased(id: string)
    | Dependencies(released: set<(string, string)>)

  ghost predicate HasRoot(units: Units) {
    exists id :: id in units && IsRoot(units[id])
  }

  predicate Acceptable(units: Units, id: string) {
    id in units && (IsExternal(units[id]) ==> FromHackage(units[id]))
  }

  /** What a result says about a plan. */
  ghost predicate Correct(units: Units, r: Result) {
    match r
    case NoRoots => !HasRoot(units)
    case Missing(id) => Reachable(units, id) && id !in units
    case NotReleased(id) => Reachable(units, id) && id in units && IsExternal(units[id]) && !FromHackage(units[id])
    case Dependencies(released) =>
      && HasRoot(units)
      && (forall id :: Reachable(units, id) ==> Acceptable(units, id))
      && (forall name, version :: (name, version) in released <==> Lists(units, name, version))
  }

  /** Something reachable and external has this name and version. */
  ghost predicate Lists(units: Units, name: string, version: string) {
    exists id :: Reachable(units, id) && id in units && IsExternal(units[id])
                 && units[id].name == name && units[id].version == version
  }

  lemma RootReachable(units: Units, id: string)
    requires id in units && IsRoot(units[id])
    ensures Reachable(units, id)
  {
    hide IsRoot;
    assert IsChain(units, [id]);
  }

  lemma SuccessorReachable(units: Units, id: string, next: string)
    requires Reachable(units, id) && id in units && next in Successors(units[id])
    ensures Reachable(units, next)
  {
    hide IsRoot, Successors;
    var chain :| IsChain(units, chain) && chain[|chain| - 1] == id;
    assert IsChain(units, chain + [next]);
  }

  /** A set that holds the roots and is closed under dependencies holds everything reachable. */
  lemma {:induction false} ClosedHoldsChain(units: Units, closed: set<string>, chain: seq<string>)
    requires forall id :: id in units && IsRoot(units[id]) ==> id in closed
    requires forall id, next :: id in closed && id in units && next in Successors(units[id]) ==> next in closed
    requires IsChain(units, chain)
    ensures chain[|chain| - 1] in closed
    decreases |chain|
  {
    hide IsRoot, Successors;
    if |chain| > 1 {
      var shorter := chain[..|chain| - 1];
      assert IsChain(units, shorter);
      ClosedHoldsChain(units, closed, shorter);
      assert chain[|chain| - 2] == shorter[|shorter| - 1];
    }
  }

  lemma ClosedHoldsReachable(units: Units, closed: set<string>, id: string)
    requires forall id :: id in units && IsRoot(units[id]) ==> id in closed
    requires forall id, next :: id in closed && id in units && next in Successors(units[id]) ==> next in closed
    requires Reachable(units, id)
    ensures id in closed
  {
    hide IsRoot, Successors;
    var chain :| IsChain(units, chain) && chain[|chain| - 1] == id;
    ClosedHoldsChain(units, closed, chain);
  }

  method BuildTable(plan: seq<Unit>) returns (units: Units)
    ensures units == Table(plan)
  {
    units := map[];
    var i := 0;
    while i < |plan|
      invariant i <= |plan|
      invariant units == Table(plan[..i])
    {
      units := units[plan[i].id := plan[i]];
      assert plan[..i + 1][..i] == plan[..i];
      i := i + 1;
    }
    assert plan[..i] == plan;
  }

  /** The ids of the roots, in whatever order the table gives them. */
  method Roots(units: Units) returns (roots: seq<string>)
    ensures forall id :: id in roots <==> id in units && IsRoot(units[id])
  {
    hide IsRoot;
    roots := [];
    var todo := units.Keys;
    while todo != {}
      invariant todo <= units.Keys
      invariant forall id :: id in roots <==> id in units && id !in todo && IsRoot(units[id])
      decreases |todo|
    {
      var id :| id in todo;
      todo := todo - {id};
      if IsRoot(units[id]) { roots := roots + [id]; }
    }
  }

  /** How far a walk has come: the ids seen are good and reachable, the pending ones reachable,
      and roots and successors of what was seen are never lost. */
  ghost predicate Walked(units: Units, seen: set<string>, pending: seq<string>) {
    && seen <= units.Keys
    && (forall id :: id in pending ==> Reachable(units, id))
    && (forall id :: id in seen ==> Reachable(units, id) && Acceptable(units, id))
    && (forall id :: id in units && IsRoot(units[id]) ==> id in seen || id in pending)
    && (forall id, next :: id in seen && next in Successors(units[id]) ==> next in seen || next in pending)
  }

  /** The pairs collected are those of the external units seen. */
  ghost predicate Collected(units: Units, seen: set<string>, released: set<(string, string)>)
    requires seen <= units.Keys
  {
    forall name, version :: (name, version) in released <==>
      exists id :: id in seen && IsExternal(units[id]) && units[id].name == name && units[id].version == version
  }

  lemma VisitKeeps(units: Units, seen: set<string>, pending: seq<string>, id: string)
    requires Walked(units, seen, pending + [id]) && Acceptable(units, id)
    ensures Walked(units, seen + {id}, pending + Successors(units[id]))
  {
    hide IsRoot, Successors, Reachable, IsExternal, FromHackage;
    assert id in pending + [id];
    forall next | next in Successors(units[id]) ensures Reachable(units, next) { SuccessorReachable(units, id, next); }
    assert forall x :: x in pending ==> x in pending + [id];
    assert forall x :: x in pending + Successors(units[id]) <==> x in pending || x in Successors(units[id]);
  }

  lemma SkipKeeps(units: Units, seen: set<string>, pending: seq<string>, id: string)
    requires Walked(units, seen, pending + [id]) && id in seen
    ensures Walked(units, seen, pending)
  {
    hide IsRoot, Successors, Reachable, Acceptable;
    assert forall x :: x in pending ==> x in pending + [id];
    assert forall x :: x in pending + [id] ==> x in pending || x == id;
  }

  lemma CollectKeeps(units: Units, seen: set<string>, released: set<(string, string)>, id: string)
    requires seen <= units.Keys && Collected(units, seen, released) && id in units
    ensures Collected(units, seen + {id},
                      if IsExternal(units[id]) then released + {(units[id].name, units[id].version)} else released)
  {
    hide IsExternal;
    var after := if IsExternal(units[id]) then released + {(units[id].name, units[id].version)} else released;
    forall name, version
      ensures (name, version) in after <==>
                exists x :: x in seen + {id} && IsExternal(units[x]) && units[x].name == name
                      && units[x].version == version
    {
      if (name, version) in released {
        var x :| x in seen && IsExternal(units[x]) && units[x].name == name && units[x].version == version;
        assert x in seen + {id};
      } else if (name, version) in after {
        assert id in seen + {id};
      }
    }
  }

  /** A walk with nothing pending has seen exactly what is reachable. */
  lemma WalkedAll(units: Units, seen: set<string>, released: set<(string, string)>)
    requires Walked(units, seen, []) && Collected(units, seen, released)
    ensures Correct(units, if seen == {} then NoRoots else Dependencies(released))
  {
    hide IsRoot, Successors, Reachable, IsExternal, FromHackage;
    forall id
      ensures Reachable(units, id) <==> id in seen
    {
      if Reachable(units, id) { ClosedHoldsReachable(units, seen, id); }
    }
    if seen != {} {
      var id :| id in seen;
      ReachableHasRoot(units, id);
    }
  }

  /** `published_dependencies`: walk the closure with a stack of pending ids. */
  method PublishedDependencies(plan: seq<Unit>) returns (r: Result)
    ensures Correct(Table(plan), r) && Published(plan, r)
  {
    hide IsRoot, IsExternal, FromHackage, Successors, Reachable, Walked, Collected, Published;
    var units := BuildTable(plan);
    var pending := Roots(units);
    var seen: set<string>, released: set<(string, string)> := {}, {};
    StartWalk(units, pending);
    while pending != []
      invariant seen <= units.Keys && Walked(units, seen, pending) && Collected(units, seen, released)
      decreases |units.Keys - seen|, |pending|
    {
      var id := pending[|pending| - 1];
      assert pending == pending[..|pending| - 1] + [id];
      PendingReachable(units, seen, pending, id);
      pending := pending[..|pending| - 1];
      if id in seen {
        SkipKeeps(units, seen, pending, id);
        continue;
      }
      if id !in units {
        PublishedExact(plan, Missing(id));
        return Missing(id);
      }
      var u := units[id];
      if IsExternal(u) && !FromHackage(u) {
        PublishedExact(plan, NotReleased(id));
        return NotReleased(id);
      }
      VisitKeeps(units, seen, pending, id);
      CollectKeeps(units, seen, released, id);
      Shrinks(units.Keys, seen, id);
      seen := seen + {id};
      pending := pending + Successors(u);
      if IsExternal(u) { released := released + {(u.name, u.version)}; }
    }
    WalkedAll(units, seen, released);
    r := if seen == {} then NoRoots else Dependencies(released);
    PublishedExact(plan, r);
  }

  lemma StartWalk(units: Units, roots: seq<string>)
    requires forall id :: id in roots <==> id in units && IsRoot(units[id])
    ensures Walked(units, {}, roots) && Collected(units, {}, {})
  {
    hide IsRoot, Successors, IsExternal, FromHackage, Reachable;
    forall id | id in roots ensures Reachable(units, id) { RootReachable(units, id); }
  }

  lemma PendingReachable(units: Units, seen: set<string>, pending: seq<string>, id: string)
    requires Walked(units, seen, pending) && id in pending
    ensures Reachable(units, id)
  {
    hide IsRoot, Successors, Reachable, Acceptable;
  }

  lemma Shrinks(all: set<string>, seen: set<string>, id: string)
    requires id in all && id !in seen
    ensures |all - (seen + {id})| < |all - seen|
  {
    assert all - seen == (all - (seen + {id})) + {id};
  }

  lemma ReachableHasRoot(units: Units, id: string)
    requires Reachable(units, id)
    ensures HasRoot(units)
  {
    hide IsRoot, Successors;
    var chain :| IsChain(units, chain) && chain[|chain| - 1] == id;
    assert chain[0] in units && IsRoot(units[chain[0]]);
  }

  /** Whether the plan is refused, and where it is not every dependency, does not depend on the order
      of the walk: two correct results agree on them. */
  lemma OrderDoesNotMatter(units: Units, a: Result, b: Result)
    requires Correct(units, a) && Correct(units, b)
    ensures a.NoRoots? <==> b.NoRoots?
    ensures a.Dependencies? <==> b.Dependencies?
    ensures a.Dependencies? ==> a == b
  {
    hide IsRoot, IsExternal, FromHackage, Reachable, HasRoot;
    if a.Missing? || a.NotReleased? { ReachableHasRoot(units, a.id); }
    if b.Missing? || b.NotReleased? { ReachableHasRoot(units, b.id); }
    if a.Dependencies? && b.Dependencies? {
      forall d
        ensures d in a.released <==> d in b.released
      {
        assert d == (d.0, d.1);
      }
    }
  }

  // ---------------------------------------------------------------------
  // The same over the list of units, with nothing left to look up
  // ---------------------------------------------------------------------

  /** The unit that an id stands for: of those with the id, the last. */
  ghost predicate StandsFor(plan: seq<Unit>, id: string, u: Unit) {
    exists k :: 0 <= k < |plan| && plan[k] == u && u.id == id && forall j | k < j < |plan| :: plan[j].id != id
  }

  predicate OwnName(name: string) {
    || name == "keiro-core" || name == "keiro" || name == "keiro-pgmq" || name == "keiro-migrations"
    || name == "keiro-test-support" || name == "keiro-dsl" || name == "keiro-ops" || name == "keiro-ops-http"
  }

  /** A library or an executable of the release. */
  ghost predicate StartsWalk(u: Unit) {
    OwnName(u.name) && (u.component == "lib" || exists name :: u.component == "exe:" + name)
  }

  /** Neither of the release nor brought along by the compiler. */
  predicate Foreign(u: Unit) {
    !OwnName(u.name) && u.kind != "pre-existing"
  }

  /** A source archive from one of Hackage's two addresses. */
  predicate OnHackage(u: Unit) {
    u.sourceType == "repo-tar" && u.repository in ["http://hackage.haskell.org/", "https://hackage.haskell.org/"]
  }

  /** The unit of one id lists another id, to build with or as a tool. */
  ghost predicate Wants(plan: seq<Unit>, id: string, next: string) {
    exists u :: StandsFor(plan, id, u) && (next in u.depends || next in u.exeDepends)
  }

  ghost predicate Begins(plan: seq<Unit>, id: string) {
    exists u :: StandsFor(plan, id, u) && StartsWalk(u)
  }

  ghost predicate Chain(plan: seq<Unit>, chain: seq<string>) {
    && chain != [] && Begins(plan, chain[0])
    && forall i | 0 <= i < |chain| - 1 :: Wants(plan, chain[i], chain[i + 1])
  }

  /** The id is at the end of a chain of wanted ids from a library or executable of the release. */
  ghost predicate Wanted(plan: seq<Unit>, id: string) {
    exists chain :: Chain(plan, chain) && chain[|chain| - 1] == id
  }

  lemma {:induction false} TableStands(plan: seq<Unit>, id: string, u: Unit)
    ensures StandsFor(plan, id, u) <==> id in Table(plan) && Table(plan)[id] == u
  {
    hide StandsFor;
    if plan == [] {
      NothingStands(id, u);
    } else {
      TableStands(plan[..|plan| - 1], id, u);
      LastStands(plan[..|plan| - 1], plan[|plan| - 1], id, u);
      assert plan == plan[..|plan| - 1] + [plan[|plan| - 1]];
    }
  }

  lemma NothingStands(id: string, u: Unit)
    ensures !StandsFor([], id, u)
  {
  }

  lemma LastStands(init: seq<Unit>, last: Unit, id: string, u: Unit)
    ensures StandsFor(init + [last], id, u) <==> if last.id == id then last == u else StandsFor(init, id, u)
  {
    var plan, n := init + [last], |init|;
    assert plan[n] == last;
    if StandsFor(plan, id, u) && last.id != id {
      var k :| 0 <= k < |plan| && plan[k] == u && u.id == id && forall j | k < j < |plan| :: plan[j].id != id;
      assert init[k] == u && forall j | k < j < n :: init[j] == plan[j];
    }
    if StandsFor(init, id, u) && last.id != id {
      var k :| 0 <= k < n && init[k] == u && u.id == id && forall j | k < j < n :: init[j].id != id;
      assert plan[k] == u && forall j | k < j < |plan| :: j == n || plan[j] == init[j];
    }
  }

  lemma UnitIs(u: Unit)
    ensures IsRoot(u) <==> StartsWalk(u)
    ensures IsExternal(u) <==> Foreign(u)
    ensures FromHackage(u) <==> OnHackage(u)
  {
    if |u.component| >= 4 && u.component[..4] == "exe:" { assert u.component == "exe:" + u.component[4..]; }
    if name :| u.component == "exe:" + name { assert u.component[..4] == "exe:"; }
  }

  lemma LookedUp(plan: seq<Unit>, id: string)
    ensures forall u :: StandsFor(plan, id, u) <==> id in Table(plan) && Table(plan)[id] == u
  {
    forall u ensures StandsFor(plan, id, u) <==> id in Table(plan) && Table(plan)[id] == u { TableStands(plan, id, u); }
  }

  lemma WantsIs(plan: seq<Unit>, id: string, next: string)
    ensures id in Table(plan) && next in Successors(Table(plan)[id]) <==> Wants(plan, id, next)
  {
    hide Table, StandsFor;
    LookedUp(plan, id);
    if id in Table(plan) { assert StandsFor(plan, id, Table(plan)[id]); }
  }

  lemma StartIs(plan: seq<Unit>, id: string)
    ensures id in Table(plan) && IsRoot(Table(plan)[id]) <==> Begins(plan, id)
  {
    hide Table, StandsFor, IsRoot, StartsWalk, IsExternal, FromHackage, Foreign, OnHackage;
    LookedUp(plan, id);
    if id in Table(plan) {
      UnitIs(Table(plan)[id]);
      assert StandsFor(plan, id, Table(plan)[id]);
    }
  }

  lemma ChainIs(plan: seq<Unit>, chain: seq<string>)
    ensures IsChain(Table(plan), chain) <==> Chain(plan, chain)
  {
    hide Table, Begins, IsRoot, Successors, Wants;
    var units := Table(plan);
    if chain != [] {
      StartIs(plan, chain[0]);
      forall i {:trigger chain[i]} | 0 <= i < |chain| - 1
        ensures chain[i] in units && chain[i + 1] in Successors(units[chain[i]]) <==>
                Wants(plan, chain[i], chain[i + 1])
      {
        WantsIs(plan, chain[i], chain[i + 1]);
      }
    }
  }

  lemma WantedIs(plan: seq<Unit>, id: string)
    ensures Reachable(Table(plan), id) <==> Wanted(plan, id)
  {
    hide Table, IsRoot, StartsWalk, StandsFor, Wants, Successors;
    if Reachable(Table(plan), id) {
      var chain :| IsChain(Table(plan), chain) && chain[|chain| - 1] == id;
      ChainIs(plan, chain);
    }
    if Wanted(plan, id) {
      var chain :| Chain(plan, chain) && chain[|chain| - 1] == id;
      ChainIs(plan, chain);
    }
  }

  lemma RootsAre(plan: seq<Unit>)
    ensures HasRoot(Table(plan)) <==> exists id :: Begins(plan, id)
  {
    hide Table, IsRoot, Begins;
    forall id ensures id in Table(plan) && IsRoot(Table(plan)[id]) <==> Begins(plan, id) { StartIs(plan, id); }
  }

  /** The unit of the id, if there is one, is foreign only when it is on Hackage. */
  ghost predicate MayStay(plan: seq<Unit>, id: string) {
    exists u :: StandsFor(plan, id, u) && (Foreign(u) ==> OnHackage(u))
  }

  /** Something that is wanted and foreign has this name and version. */
  ghost predicate Names(plan: seq<Unit>, name: string, version: string) {
    exists id, u :: Wanted(plan, id) && StandsFor(plan, id, u) && Foreign(u) && u.name == name && u.version == version
  }

  ghost predicate NotOnHackage(plan: seq<Unit>, id: string) {
    exists u :: StandsFor(plan, id, u) && Foreign(u) && !OnHackage(u)
  }

  /** What a correct result means for the units as Cabal lists them. A result without failure names
      the name and version of every foreign unit that is wanted, and nothing else; each is on Hackage,
      and nothing that is wanted is missing. A failure names a wanted id that is missing or not on
      Hackage, or there is nothing to start from. */
  ghost predicate Published(plan: seq<Unit>, r: Result) {
    match r
    case NoRoots => !exists id :: Begins(plan, id)
    case Missing(id) => Wanted(plan, id) && forall k | 0 <= k < |plan| :: plan[k].id != id
    case NotReleased(id) => Wanted(plan, id) && NotOnHackage(plan, id)
    case Dependencies(released) =>
      && (exists id :: Begins(plan, id))
      && (forall id | Wanted(plan, id) :: MayStay(plan, id))
      && (forall name, version :: (name, version) in released <==> Names(plan, name, version))
  }

  lemma {:induction false} NotInTable(plan: seq<Unit>, id: string)
    ensures id !in Table(plan) <==> forall k | 0 <= k < |plan| :: plan[k].id != id
  {
    if plan != [] {
      var n := |plan| - 1;
      NotInTable(plan[..n], id);
      assert forall k | 0 <= k < n :: plan[..n][k] == plan[k];
    }
  }

  lemma UnitOf(plan: seq<Unit>, id: string)
    ensures Acceptable(Table(plan), id) <==> MayStay(plan, id)
    ensures id in Table(plan) && IsExternal(Table(plan)[id]) && !FromHackage(Table(plan)[id]) <==>
            NotOnHackage(plan, id)
  {
    hide Table, StandsFor, IsExternal, FromHackage, Foreign, OnHackage, IsRoot, StartsWalk;
    LookedUp(plan, id);
    if id in Table(plan) {
      UnitIs(Table(plan)[id]);
      assert StandsFor(plan, id, Table(plan)[id]);
    }
  }

  lemma ListsIs(plan: seq<Unit>, name: string, version: string)
    ensures Lists(Table(plan), name, version) <==> Names(plan, name, version)
  {
    hide Table, StandsFor, Reachable, Wanted, IsRoot, StartsWalk, IsExternal, Foreign, FromHackage, OnHackage;
    if Lists(Table(plan), name, version) {
      var id :| Reachable(Table(plan), id) && id in Table(plan) && IsExternal(Table(plan)[id])
                && Table(plan)[id].name == name && Table(plan)[id].version == version;
      WantedIs(plan, id);
      LookedUp(plan, id);
      UnitIs(Table(plan)[id]);
      assert StandsFor(plan, id, Table(plan)[id]);
    }
    if Names(plan, name, version) {
      var id, u :| Wanted(plan, id) && StandsFor(plan, id, u) && Foreign(u) && u.name == name && u.version == version;
      WantedIs(plan, id);
      LookedUp(plan, id);
      UnitIs(u);
    }
  }

  /** The walk is right about the table exactly when it is right about the list. */
  lemma PublishedExact(plan: seq<Unit>, r: Result)
    ensures Correct(Table(plan), r) <==> Published(plan, r)
  {
    hide Table, Reachable, Wanted, Acceptable, MayStay, IsExternal, FromHackage, NotOnHackage, HasRoot, Begins, Lists,
      Names;
    RootsAre(plan);
    match r
    case NoRoots =>
    case Missing(id) =>
      WantedIs(plan, id);
      NotInTable(plan, id);
    case NotReleased(id) =>
      WantedIs(plan, id);
      UnitOf(plan, id);
    case Dependencies(released) =>
      forall id
        ensures Reachable(Table(plan), id) <==> Wanted(plan, id)
        ensures Acceptable(Table(plan), id) <==> MayStay(plan, id)
      {
        WantedIs(plan, id);
        UnitOf(plan, id);
      }
      forall name, version
        ensures Lists(Table(plan), name, version) <==> Names(plan, name, version)
      {
        ListsIs(plan, name, version);
      }
  }
}
