/** `breadcrumbRoutes`: walking the parent chain of a route, and what the breadcrumb shows of it. */
module Breadcrumbs {
  import opened Wrappers
  import opened Routes
  import RouteLookup

  function Parent(registry: Registry, r: Route): Option<Route> {
    if r.parentId == "" then None else RouteById(registry, r.parentId)
  }

  /** Parent links, resolved through ids and legacy ids, only ever lead to routes of lower rank. */
  ghost predicate Ranked(registry: Registry, rank: Route -> nat) {
    forall i :: 0 <= i < |registry| ==>
      var up := Parent(registry, registry[i]);
      up.Some? ==> rank(up.value) < rank(registry[i])
  }

  lemma {:induction false} LookupIsRegistered(registry: Registry, id: string)
    ensures FindId(registry, id).Some? ==> FindId(registry, id).value in registry && FindId(registry, id).value.id == id
    ensures FindLegacyId(registry, id).Some? ==> FindLegacyId(registry, id).value in registry
    ensures FindId(registry, id).None? ==> forall i :: 0 <= i < |registry| ==> registry[i].id != id
  {
    if registry != [] {
      LookupIsRegistered(registry[1..], id);
      assert registry == [registry[0]] + registry[1..];
    }
  }

  lemma ParentIsRegistered(registry: Registry, r: Route)
    ensures Parent(registry, r).Some? ==> Parent(registry, r).value in registry
  {
    LookupIsRegistered(registry, r.parentId);
  }

  lemma ParentRanksLower(registry: Registry, rank: Route -> nat, r: Route)
    requires Ranked(registry, rank) && r in registry && Parent(registry, r).Some?
    ensures Parent(registry, r).value in registry && rank(Parent(registry, r).value) < rank(r)
  {
    ParentIsRegistered(registry, r);
    var i :| 0 <= i < |registry| && registry[i] == r;
  }

  /** The chain from the root of the parent links down to r. */
  ghost function Ancestors(registry: Registry, rank: Route -> nat, r: Route): (chain: seq<Route>)
    requires Ranked(registry, rank) && r in registry
    ensures |chain| > 0 && chain[|chain| - 1] == r
    decreases rank(r)
  {
    var up := Parent(registry, r);
    if up.None? then [r]
    else
      ParentRanksLower(registry, rank, r);
      Ancestors(registry, rank, up.value) + [r]
  }

  predicate FirstWithId(routes: seq<Route>, i: nat)
    requires i < |routes|
  {
    forall j :: 0 <= j < i ==> routes[j].id != routes[i].id
  }

  /** The routes among the first n that are shown and are the first with their id. */
  function Kept(routes: seq<Route>, n: nat): seq<Route>
    requires n <= |routes|
  {
    if n == 0 then []
    else if routes[n - 1].showInBreadcrumb && FirstWithId(routes, n - 1) then Kept(routes, n - 1) + [routes[n - 1]]
    else Kept(routes, n - 1)
  }

  ghost function Trail(registry: Registry, rank: Route -> nat, home: Route, r: Route): seq<Route>
    requires Ranked(registry, rank) && r in registry
  {
    if r.moduleId == "overview" then Ancestors(registry, rank, r) else [home] + Ancestors(registry, rank, r)
  }

  ghost function AncestorsOf(registry: Registry, rank: Route -> nat, r: Option<Route>): seq<Route>
    requires Ranked(registry, rank) && (r.Some? ==> r.value in registry)
  {
    if r.None? then [] else Ancestors(registry, rank, r.value)
  }

  /** The walk ends because every step up lowers the rank. */
  method WalkUp(registry: Registry, ghost rank: Route -> nat, route: Route) returns (ancestors: seq<Route>)
    requires Ranked(registry, rank) && route in registry
    ensures ancestors == Ancestors(registry, rank, route)
  {
    ancestors := [];
    var current := Some(route);
    while current.Some?
      invariant current.Some? ==> current.value in registry
      invariant AncestorsOf(registry, rank, current) + ancestors == Ancestors(registry, rank, route)
      decreases if current.None? then 0 else 1 + rank(current.value)
    {
      var r := current.value;
      var up := Parent(registry, r);
      if up.Some? {
        ParentRanksLower(registry, rank, r);
      }
      OneStepUp(registry, rank, r, ancestors);
      ancestors := [r] + ancestors;
      current := up;
    }
  }

  lemma OneStepUp(registry: Registry, rank: Route -> nat, r: Route, below: seq<Route>)
    requires Ranked(registry, rank) && r in registry
    requires Parent(registry, r).Some? ==> Parent(registry, r).value in registry
    ensures Ancestors(registry, rank, r) + below == AncestorsOf(registry, rank, Parent(registry, r)) + ([r] + below)
  {
  }

  method BreadcrumbRoutes(registry: Registry, ghost rank: Route -> nat, route: Route) returns (shown: seq<Route>)
    requires Ranked(registry, rank) && route in registry
    requires RouteById(registry, "overview").Some?
    ensures var trail := Trail(registry, rank, RouteById(registry, "overview").value, route);
            shown == Kept(trail, |trail|)
  {
    var home := RouteById(registry, "overview").value;
    var ancestors := WalkUp(registry, rank, route);
    var result := if route.moduleId == "overview" then ancestors else [home] + ancestors;
    hide Ancestors;
    shown := [];
    for index := 0 to |result|
      invariant shown == Kept(result, index)
    {
      if result[index].showInBreadcrumb && FirstWithId(result, index) {
        shown := shown + [result[index]];
      }
    }
  }

  // ----- termination, exactly

  /** The route k steps up the parent links. */
  function Up(registry: Registry, r: Route, k: nat): Option<Route>
    decreases k
  {
    if k == 0 then Some(r)
    else if Parent(registry, r).None? then None
    else Up(registry, Parent(registry, r).value, k - 1)
  }

  /** The walk from r takes exactly k steps. */
  ghost predicate EndsAfter(registry: Registry, r: Route, k: nat) {
    k > 0 && Up(registry, r, k).None? && Up(registry, r, k - 1).Some?
  }

  ghost function Height(registry: Registry, r: Route): nat {
    if k: nat :| EndsAfter(registry, r, k) then k else 0
  }

  lemma {:induction false} EndsOnce(registry: Registry, r: Route, j: nat, k: nat)
    requires EndsAfter(registry, r, j) && EndsAfter(registry, r, k)
    ensures j == k
    decreases j
  {
    assert Up(registry, r, 1) == Parent(registry, r);
    if j > 1 && k > 1 {
      EndsOnce(registry, Parent(registry, r).value, j - 1, k - 1);
    }
  }

  lemma {:induction false} RankedWalkEnds(registry: Registry, rank: Route -> nat, r: Route) returns (k: nat)
    requires Ranked(registry, rank) && r in registry
    ensures EndsAfter(registry, r, k)
    decreases rank(r)
  {
    if Parent(registry, r).None? {
      k := 1;
      assert Up(registry, r, 0).Some?;
    } else {
      ParentRanksLower(registry, rank, r);
      var above := RankedWalkEnds(registry, rank, Parent(registry, r).value);
      k := above + 1;
    }
  }

  ghost predicate Ends(registry: Registry, r: Route) {
    exists k: nat :: EndsAfter(registry, r, k)
  }

  ghost predicate AllWalksEnd(registry: Registry) {
    forall i :: 0 <= i < |registry| ==> Ends(registry, registry[i])
  }

  ghost predicate Acyclic(registry: Registry) {
    exists rank: Route -> nat :: Ranked(registry, rank)
  }

  /** The walk ends from every registered route if and only if the parent links can be ranked. */
  lemma WalksEndIffRanked(registry: Registry)
    ensures Acyclic(registry) <==> AllWalksEnd(registry)
  {
    if Acyclic(registry) {
      var rank: Route -> nat :| Ranked(registry, rank);
      RankedWalksEnd(registry, rank);
    }
    if AllWalksEnd(registry) {
      HeightRanks(registry);
    }
  }

  lemma RankedWalksEnd(registry: Registry, rank: Route -> nat)
    requires Ranked(registry, rank)
    ensures AllWalksEnd(registry)
  {
    forall i | 0 <= i < |registry|
      ensures Ends(registry, registry[i])
    {
      var k := RankedWalkEnds(registry, rank, registry[i]);
    }
  }

  lemma HeightRanks(registry: Registry)
    requires AllWalksEnd(registry)
    ensures Acyclic(registry)
  {
    var rank: Route -> nat := r => Height(registry, r);
    forall i | 0 <= i < |registry| && Parent(registry, registry[i]).Some?
      ensures rank(Parent(registry, registry[i]).value) < rank(registry[i])
    {
      HeightDrops(registry, registry[i]);
    }
    assert Ranked(registry, rank);
  }

  lemma HeightDrops(registry: Registry, r: Route)
    requires Parent(registry, r).Some? && Ends(registry, r)
    ensures Height(registry, Parent(registry, r).value) < Height(registry, r)
  {
    var k := Height(registry, r);
    assert EndsAfter(registry, r, k);
    var above := Parent(registry, r).value;
    assert k > 1 by {
      assert Up(registry, r, 1) == Some(above);
    }
    assert EndsAfter(registry, above, k - 1);
    EndsOnce(registry, above, Height(registry, above), k - 1);
  }

  // ----- what is shown

  predicate DistinctIds(routes: seq<Route>) {
    forall i, j :: 0 <= i < j < |routes| ==> routes[i].id != routes[j].id
  }

  /** The positions of the trail that are kept, in order. */
  function KeptAt(routes: seq<Route>, n: nat): (at: seq<nat>)
    requires n <= |routes|
    ensures forall k :: 0 <= k < |at| ==> at[k] < n
  {
    if n == 0 then []
    else if routes[n - 1].showInBreadcrumb && FirstWithId(routes, n - 1) then KeptAt(routes, n - 1) + [n - 1]
    else KeptAt(routes, n - 1)
  }

  /** A breadcrumb is the part of the trail at exactly the shown, first positions, in the trail's order. */
  lemma {:induction false} KeptIsSubsequence(routes: seq<Route>, n: nat)
    requires n <= |routes|
    ensures var at, kept := KeptAt(routes, n), Kept(routes, n);
            && |at| == |kept|
            && (forall k :: 0 <= k < |at| ==> kept[k] == routes[at[k]])
            && (forall j, k :: 0 <= j < k < |at| ==> at[j] < at[k])
            && (forall i: nat :: i in at <==> i < n && routes[i].showInBreadcrumb && FirstWithId(routes, i))
  {
    hide FirstWithId;
    if n > 0 {
      KeptIsSubsequence(routes, n - 1);
    }
  }

  /** Nothing is shown twice, and nothing hidden is shown. */
  lemma KeptIsDistinct(routes: seq<Route>, n: nat)
    requires n <= |routes|
    ensures DistinctIds(Kept(routes, n))
    ensures forall k :: 0 <= k < |Kept(routes, n)| ==>
              Kept(routes, n)[k].showInBreadcrumb && Kept(routes, n)[k] in routes
  {
    KeptIsSubsequence(routes, n);
    var at, kept := KeptAt(routes, n), Kept(routes, n);
    forall j, k | 0 <= j < k < |kept|
      ensures kept[j].id != kept[k].id
    {
      assert at[j] < at[k] && at[k] in at;
      assert FirstWithId(routes, at[k]);
    }
    forall k | 0 <= k < |kept|
      ensures kept[k].showInBreadcrumb && kept[k] in routes
    {
      assert at[k] in at;
    }
  }

  lemma {:induction false} AllKept(routes: seq<Route>, n: nat)
    requires n <= |routes| && DistinctIds(routes)
    requires forall i :: 0 <= i < n ==> routes[i].showInBreadcrumb
    ensures Kept(routes, n) == routes[..n]
  {
    if n > 0 {
      AllKept(routes, n - 1);
      assert routes[..n] == routes[..n - 1] + [routes[n - 1]];
    }
  }

  predicate UniqueIds(registry: Registry) {
    forall i, j :: 0 <= i < |registry| && 0 <= j < |registry| && registry[i].id == registry[j].id ==>
      registry[i] == registry[j]
  }

  /** With unique ids the chain repeats no id, and rank grows along it. */
  lemma {:induction false} ChainIsDistinct(registry: Registry, rank: Route -> nat, r: Route)
    requires Ranked(registry, rank) && r in registry && UniqueIds(registry)
    ensures DistinctIds(Ancestors(registry, rank, r))
    ensures forall i :: 0 <= i < |Ancestors(registry, rank, r)| ==>
              Ancestors(registry, rank, r)[i] in registry && rank(Ancestors(registry, rank, r)[i]) <= rank(r)
    decreases rank(r)
  {
    if Parent(registry, r).Some? {
      ParentRanksLower(registry, rank, r);
      var above := Ancestors(registry, rank, Parent(registry, r).value);
      ChainIsDistinct(registry, rank, Parent(registry, r).value);
      forall i | 0 <= i < |above|
        ensures above[i].id != r.id
      {
        assert rank(above[i]) < rank(r);
        var j :| 0 <= j < |registry| && registry[j] == above[i];
        var k :| 0 <= k < |registry| && registry[k] == r;
      }
    }
  }

  /** Every route of a chain but the first follows its own parent. */
  lemma {:induction false} ChainFollowsParents(registry: Registry, rank: Route -> nat, r: Route)
    requires Ranked(registry, rank) && r in registry
    ensures var chain := Ancestors(registry, rank, r);
            && Parent(registry, chain[0]).None?
            && forall i :: 0 < i < |chain| ==> Parent(registry, chain[i]) == Some(chain[i - 1])
    decreases rank(r)
  {
    if Parent(registry, r).Some? {
      ParentRanksLower(registry, rank, r);
      ChainFollowsParents(registry, rank, Parent(registry, r).value);
    }
  }

  /** The parent is the first route with the id a route names, or else the first with it as a legacy id. */
  lemma ParentMeans(registry: Registry, r: Route, n: nat)
    ensures r.parentId == "" ==> Parent(registry, r) == None
    ensures r.parentId != "" && RouteLookup.FirstWithId(registry, r.parentId, n) ==>
              Parent(registry, r) == Some(registry[n])
    ensures r.parentId != "" && (forall m :: 0 <= m < |registry| ==> registry[m].id != r.parentId) ==>
              && (RouteLookup.FirstWithLegacyId(registry, r.parentId, n) ==> Parent(registry, r) == Some(registry[n]))
              && ((forall m :: 0 <= m < |registry| ==> r.parentId !in registry[m].legacyIds) ==>
                    Parent(registry, r) == None)
  {
    RouteLookup.RouteByIdIsFirst(registry, r.parentId, n);
  }

  lemma {:induction false} KeptStartsAlike(routes: seq<Route>, n: nat)
    requires 0 < n <= |routes| && routes[0].showInBreadcrumb
    ensures Kept(routes, n) != [] && Kept(routes, n)[0] == routes[0]
  {
    if n > 1 {
      KeptStartsAlike(routes, n - 1);
    }
  }

  /** Outside the overview module a breadcrumb starts at home, and inside it at the root of the chain. */
  lemma BreadcrumbStart(registry: Registry, rank: Route -> nat, home: Route, r: Route)
    requires Ranked(registry, rank) && r in registry
    ensures var trail := Trail(registry, rank, home, r);
            && (r.moduleId != "overview" && home.showInBreadcrumb ==>
                  Kept(trail, |trail|) != [] && Kept(trail, |trail|)[0] == home)
            && (r.moduleId == "overview" && Ancestors(registry, rank, r)[0].showInBreadcrumb ==>
                  Kept(trail, |trail|) != [] && Kept(trail, |trail|)[0] == Ancestors(registry, rank, r)[0])
  {
    var trail := Trail(registry, rank, home, r);
    if trail[0].showInBreadcrumb {
      KeptStartsAlike(trail, |trail|);
    }
  }

  /**
   With unique ids and every route of the trail shown, the breadcrumb is the trail itself, root first
   and ending in the route, unless home is both prepended and met again on the chain.
   */
  lemma BreadcrumbIsTrail(registry: Registry, rank: Route -> nat, home: Route, r: Route)
    requires Ranked(registry, rank) && r in registry && UniqueIds(registry) && home in registry
    requires var trail := Trail(registry, rank, home, r); forall i :: 0 <= i < |trail| ==> trail[i].showInBreadcrumb
    ensures var trail := Trail(registry, rank, home, r);
            Kept(trail, |trail|) == trail <==> r.moduleId == "overview" || home !in Ancestors(registry, rank, r)
  {
    hide Ancestors, RouteById;
    var chain := Ancestors(registry, rank, r);
    var trail := Trail(registry, rank, home, r);
    ChainIsDistinct(registry, rank, r);
    if r.moduleId == "overview" || home !in chain {
      if r.moduleId != "overview" {
        HomeIsNew(registry, chain, home);
      }
      AllKept(trail, |trail|);
      assert trail[..|trail|] == trail;
    } else {
      var i :| 0 <= i < |chain| && chain[i] == home;
      assert trail[i + 1].id == trail[0].id;
      KeptIsDistinct(trail, |trail|);
    }
  }

  lemma HomeIsNew(registry: Registry, chain: seq<Route>, home: Route)
    requires UniqueIds(registry) && home in registry && home !in chain && DistinctIds(chain)
    requires forall i :: 0 <= i < |chain| ==> chain[i] in registry
    ensures DistinctIds([home] + chain)
  {
    forall i | 0 <= i < |chain|
      ensures chain[i].id != home.id
    {
      assert chain[i] in chain;
      var j :| 0 <= j < |registry| && registry[j] == chain[i];
      var k :| 0 <= k < |registry| && registry[k] == home;
    }
  }

  /** The breadcrumb ends in the route itself exactly when the route is not a home met below other routes. */
  lemma BreadcrumbEndsInRouteIff(registry: Registry, rank: Route -> nat, home: Route, r: Route)
    requires Ranked(registry, rank) && r in registry && UniqueIds(registry) && home in registry
    requires var trail := Trail(registry, rank, home, r); forall i :: 0 <= i < |trail| ==> trail[i].showInBreadcrumb
    ensures var trail := Trail(registry, rank, home, r);
            var shown := Kept(trail, |trail|);
            && shown != []
            && (shown[|shown| - 1] == r <==> r.moduleId == "overview" || r != home || Parent(registry, r).None?)
  {
    hide Ancestors, UniqueIds, RouteById;
    var chain := Ancestors(registry, rank, r);
    var trail := Trail(registry, rank, home, r);
    var n := |trail|;
    ChainIsDistinct(registry, rank, r);
    ChainFollowsParents(registry, rank, r);
    assert trail[n - 1] == r;
    ChainOfOne(registry, rank, r);
    assert |chain| > 1 ==> chain[|chain| - 2] in chain && chain[|chain| - 2].id != r.id;
    if r.moduleId == "overview" {
      AllKept(trail, n);
      assert trail[..n] == trail;
    } else {
      assert Kept(trail, 1) == Kept(trail, 0) + [home];
      if r != home {
        ChainItemIsFirst(registry, rank, home, r, |chain| - 1);
        assert Kept(trail, n) == Kept(trail, n - 1) + [r];
      } else {
        assert !FirstWithId(trail, n - 1);
        if Parent(registry, r).Some? {
          ChainItemIsFirst(registry, rank, home, r, |chain| - 2);
          assert Kept(trail, n - 1) == Kept(trail, n - 2) + [chain[|chain| - 2]];
        }
      }
    }
  }

  /** A home that is the root of its own module, as in the application: every breadcrumb ends in its route. */
  lemma BreadcrumbEndsInRoute(registry: Registry, rank: Route -> nat, home: Route, r: Route)
    requires Ranked(registry, rank) && r in registry && UniqueIds(registry) && home in registry
    requires home.moduleId == "overview" && home.parentId == ""
    requires var trail := Trail(registry, rank, home, r); forall i :: 0 <= i < |trail| ==> trail[i].showInBreadcrumb
    ensures var trail := Trail(registry, rank, home, r);
            var shown := Kept(trail, |trail|);
            shown != [] && shown[|shown| - 1] == r
  {
    BreadcrumbEndsInRouteIff(registry, rank, home, r);
  }

  const ROOT := Route("root", "/root", "other", "", [], true)
  const NESTED_HOME := Route("overview", "/overview", "other", "root", [], true)
  const NESTED: Registry := [ROOT, NESTED_HOME]

  function RootFirst(r: Route): nat {
    if r == ROOT then 0 else 1
  }

  lemma NestedParents()
    ensures Parent(NESTED, ROOT) == None && Parent(NESTED, NESTED_HOME) == Some(ROOT)
    ensures UniqueIds(NESTED) && Ranked(NESTED, RootFirst)
  {
    NestedLookup();
  }

  lemma NestedLookup()
    ensures RouteById(NESTED, "overview") == Some(NESTED_HOME) && RouteById(NESTED, "root") == Some(ROOT)
  {
    assert NESTED[1..] == [NESTED_HOME] && |ROOT.id| == 4;
    assert FindId(NESTED[1..], "overview") == Some(NESTED_HOME);
  }

  lemma KeepHomeOnce()
    ensures Kept([NESTED_HOME, ROOT, NESTED_HOME], 3) == [NESTED_HOME, ROOT]
  {
    var trail := [NESTED_HOME, ROOT, NESTED_HOME];
    assert Kept(trail, 1) == [NESTED_HOME];
    assert Kept(trail, 2) == [NESTED_HOME, ROOT];
  }

  /** A home below another route, of another module, is where the breadcrumb ends one step above. */
  lemma NestedHomeIsNotLast()
    ensures Ranked(NESTED, RootFirst) && RouteById(NESTED, "overview") == Some(NESTED_HOME)
    ensures var trail := Trail(NESTED, RootFirst, NESTED_HOME, NESTED_HOME);
            Kept(trail, |trail|) == [NESTED_HOME, ROOT]
  {
    NestedParents();
    NestedLookup();
    KeepHomeOnce();
    hide RouteById, Parent, Kept;
    assert Ancestors(NESTED, RootFirst, ROOT) == [ROOT];
    assert Trail(NESTED, RootFirst, NESTED_HOME, NESTED_HOME) == [NESTED_HOME, ROOT, NESTED_HOME];
  }

  lemma ChainOfOne(registry: Registry, rank: Route -> nat, r: Route)
    requires Ranked(registry, rank) && r in registry
    ensures |Ancestors(registry, rank, r)| == 1 <==> Parent(registry, r).None?
  {
    if Parent(registry, r).Some? {
      ParentRanksLower(registry, rank, r);
    }
  }

  lemma ChainItemIsFirst(registry: Registry, rank: Route -> nat, home: Route, r: Route, i: nat)
    requires Ranked(registry, rank) && r in registry && UniqueIds(registry) && home in registry
    requires i < |Ancestors(registry, rank, r)|
    requires Ancestors(registry, rank, r)[i] != home
    ensures FirstWithId([home] + Ancestors(registry, rank, r), i + 1)
  {
    hide Ancestors, RouteById, Ranked;
    var chain := Ancestors(registry, rank, r);
    ChainIsDistinct(registry, rank, r);
    var j :| 0 <= j < |registry| && registry[j] == chain[i];
    var k :| 0 <= k < |registry| && registry[k] == home;
    var trail := [home] + chain;
    forall m | 0 <= m < i + 1
      ensures trail[m].id != trail[i + 1].id
    {
      if m > 0 {
        assert trail[m] == chain[m - 1];
      }
    }
  }
}
