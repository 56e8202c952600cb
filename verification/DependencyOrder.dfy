/** The dependency-aware execution engine: `order`, `analyze` and the two result caches. */
module DependencyOrder {
  import opened Wrappers
  import opened Sorting
  import opened Layering
  import opened Plans

  datatype ExecutionOrder = ExecutionOrder(
    orderId: Id, planId: Id,
    ordered: seq<Id>, levels: seq<seq<Id>>, blocked: seq<Id>, missing: seq<Id>)
  {
    /** The check made by the constructor. */
    predicate Valid() { Flatten(levels) == ordered }
  }

  datatype Analysis = Analysis(
    analysisId: Id, planId: Id,
    ready: seq<Id>, blocked: seq<Id>, missing: seq<Id>,
    circular: bool, dependencyCount: nat)

  datatype OrderError = DuplicateIds | CircularDependency

  function OrderId(planId: Id): Id { Id("ORDER-" + planId.text) }
  function AnalysisId(planId: Id): Id { Id("DEPAN-" + planId.text) }

  function Flatten(ls: seq<seq<Id>>): seq<Id> {
    if ls == [] then [] else ls[0] + Flatten(ls[1..])
  }

  function SortedLevels(ls: seq<set<Id>>): (r: seq<seq<Id>>)
    ensures |r| == |ls|
  {
    if ls == [] then [] else [SortedIds(ls[0])] + SortedLevels(ls[1..])
  }

  lemma {:induction false} SortedLevelAt(ls: seq<set<Id>>, k: nat)
    requires k < |ls|
    ensures SortedLevels(ls)[k] == SortedIds(ls[k])
  {
    if k > 0 { SortedLevelAt(ls[1..], k - 1); }
  }

  lemma {:induction false} SortedLevelsAppend(ls: seq<set<Id>>, ms: seq<set<Id>>)
    ensures SortedLevels(ls + ms) == SortedLevels(ls) + SortedLevels(ms)
  {
    if ls == [] {
      assert ls + ms == ms;
    } else {
      assert (ls + ms)[1..] == ls[1..] + ms;
      SortedLevelsAppend(ls[1..], ms);
    }
  }

  function DependencyCount(actions: seq<Action>): nat {
    if actions == [] then 0
    else DependencyCount(actions[..|actions| - 1]) + |actions[|actions| - 1].dependencies|
  }

  // ------------------------------------------------------- what the engine computes

  function OrderOf(plan: Plan): Result<ExecutionOrder, OrderError> {
    var actions := plan.actions;
    var g := GraphOf(actions);
    if |Ids(actions)| != |actions| then Failure(DuplicateIds)
    else if Missing(actions) != {} then
      Success(ExecutionOrder(OrderId(plan.id), plan.id, [], [], SortedIds(Ids(actions)), SortedIds(Missing(actions))))
    else if Stuck(g) != {} then Failure(CircularDependency)
    else
      var levels := SortedLevels(Layers(g, {}));
      Success(ExecutionOrder(OrderId(plan.id), plan.id, Flatten(levels), levels, [], []))
  }

  function AnalysisOf(plan: Plan): Analysis {
    var actions := plan.actions;
    var g := GraphOf(actions);
    var count := DependencyCount(actions);
    if Missing(actions) != {} then
      Analysis(AnalysisId(plan.id), plan.id, [], SortedIds(Ids(actions)), SortedIds(Missing(actions)), false, count)
    else
      Analysis(AnalysisId(plan.id), plan.id, SortedIds(Ready(g, {})), SortedIds(Stuck(g)), [], Stuck(g) != {}, count)
  }

  // ------------------------------------------------------- the engine

  class DependencyEngine {
    var orders: map<Id, ExecutionOrder>
    var analyses: map<Id, Analysis>

    constructor ()
      ensures orders == map[] && analyses == map[]
    {
      orders, analyses := map[], map[];
    }

    method Order(plan: Plan) returns (r: Result<ExecutionOrder, OrderError>)
      modifies this
      ensures analyses == old(analyses)
      ensures
        var key := OrderId(plan.id);
        if key in old(orders) then r == Success(old(orders)[key]) && orders == old(orders)
        else r == OrderOf(plan) && orders == if r.Success? then old(orders)[key := r.value] else old(orders)
    {
      var key := OrderId(plan.id);
      if key in orders {
        return Success(orders[key]);
      }
      var actions := plan.actions;
      var lookup := Ids(actions);
      if |lookup| != |actions| {
        return Failure(DuplicateIds);
      }
      var missing := MissingDependencies(actions);
      if missing != {} {
        var blocked := ExecutionOrder(key, plan.id, [], [], SortedIds(lookup), SortedIds(missing));
        orders := orders[key := blocked];
        return Success(blocked);
      }

      GraphKeys(actions);
      var levels, remaining := ReleaseInLevels(GraphOf(actions));
      if remaining != {} {
        return Failure(CircularDependency);
      }
      var result := ExecutionOrder(key, plan.id, Flatten(levels), levels, [], []);
      orders := orders[key := result];
      return Success(result);
    }

    method Analyze(plan: Plan) returns (r: Analysis)
      modifies this
      ensures orders == old(orders)
      ensures
        var key := AnalysisId(plan.id);
        if key in old(analyses) then r == old(analyses)[key] && analyses == old(analyses)
        else r == AnalysisOf(plan) && analyses == old(analyses)[key := r]
    {
      var key := AnalysisId(plan.id);
      if key in analyses {
        return analyses[key];
      }
      var actions := plan.actions;
      var lookup := Ids(actions);
      var missing := Missing(actions);
      if missing != {} {
        r := Analysis(key, plan.id, [], SortedIds(lookup), SortedIds(missing), false, DependencyCount(actions));
        analyses := analyses[key := r];
        return;
      }

      var g := GraphOf(actions);
      var ready := Ready(g, {});
      var remaining := ReleaseAll(g);
      r := Analysis(key, plan.id, SortedIds(ready), SortedIds(remaining), [], remaining != {},
          DependencyCount(actions));
      analyses := analyses[key := r];
    }
  }

  /** The loop of `order`: `levels` grows until nothing is left or nothing is ready. */
  method ReleaseInLevels(g: Graph) returns (levels: seq<seq<Id>>, remaining: set<Id>)
    ensures levels == SortedLevels(Layers(g, {})) && remaining == Stuck(g)
  {
    var completed: set<Id> := {};
    remaining, levels := g.Keys, [];
    ghost var rounds: seq<set<Id>> := [];
    ProgressStarts(g);
    while remaining != {}
      invariant Progress(g, rounds, completed)
      invariant remaining == g.Keys - completed
      invariant levels == SortedLevels(rounds)
      decreases remaining
    {
      var ready := set n | n in remaining && g[n] <= completed;
      assert ready == Ready(g, completed);
      if ready == {} {
        break;
      }
      ProgressStep(g, rounds, completed);
      SortedLevelsAppend(rounds, [ready]);
      rounds := rounds + [ready];
      levels := levels + [SortedIds(ready)];
      completed, remaining := completed + ready, remaining - ready;
    }
    assert Ready(g, completed) <= remaining;
    ProgressEnds(g, rounds, completed);
  }

  /** The loop of `analyze`: the same rounds, kept only as a set of what remains. */
  method ReleaseAll(g: Graph) returns (remaining: set<Id>)
    ensures remaining == Stuck(g)
  {
    var completed: set<Id> := {};
    remaining := g.Keys;
    ghost var rounds: seq<set<Id>> := [];
    ProgressStarts(g);
    while remaining != {}
      invariant Progress(g, rounds, completed)
      invariant remaining == g.Keys - completed
      decreases remaining
    {
      var available := set n | n in remaining && g[n] <= completed;
      assert available == Ready(g, completed);
      if available == {} {
        break;
      }
      ProgressStep(g, rounds, completed);
      rounds := rounds + [available];
      completed, remaining := completed + available, remaining - available;
    }
    assert Ready(g, completed) <= remaining;
    ProgressEnds(g, rounds, completed);
  }

  /** The nested loop with which `order` collects the dependencies that name no action. */
  method MissingDependencies(actions: seq<Action>) returns (missing: set<Id>)
    ensures missing == Missing(actions)
  {
    var lookup := Ids(actions);
    missing := {};
    for i := 0 to |actions|
      invariant missing == set a, d | a in actions[..i] && d in a.dependencies && d !in lookup :: d
    {
      var a := actions[i];
      ghost var before := missing;
      for j := 0 to |a.dependencies|
        invariant missing == before + set d | d in a.dependencies[..j] && d !in lookup
      {
        if a.dependencies[j] !in lookup {
          missing := missing + {a.dependencies[j]};
        }
      }
      assert a.dependencies[..|a.dependencies|] == a.dependencies;
      assert actions[..i + 1] == actions[..i] + [a];
    }
    assert actions[..|actions|] == actions;
  }

  // ------------------------------------------------------- what an order means

  /** An order comes back exactly when the dependencies of the plan have no cycle. */
  lemma OrderIffAcyclic(plan: Plan)
    requires UniqueIds(plan.actions) && Missing(plan.actions) == {}
    ensures OrderOf(plan).Success? <==> Acyclic(GraphOf(plan.actions))
    ensures OrderOf(plan).Failure? ==> OrderOf(plan).error == CircularDependency
  {
    IdCountIsUniqueness(plan.actions);
    GraphClosed(plan.actions);
    CompleteIffAcyclic(GraphOf(plan.actions));
  }

  lemma {:induction false} FlattenAppend(ls: seq<seq<Id>>, ms: seq<seq<Id>>)
    ensures Flatten(ls + ms) == Flatten(ls) + Flatten(ms)
  {
    if ls == [] {
      assert ls + ms == ms;
    } else {
      assert (ls + ms)[1..] == ls[1..] + ms;
      FlattenAppend(ls[1..], ms);
    }
  }

  lemma {:induction false} FlattenHas(ls: seq<set<Id>>, n: Id)
    ensures n in Flatten(SortedLevels(ls)) <==> n in Union(ls)
  {
    if ls != [] {
      SortedIdsListTheSet(ls[0]);
      FlattenHas(ls[1..], n);
    }
  }

  /** The entry at position i belongs to a level that starts at or before i. */
  lemma {:induction false} FlattenPosition(ls: seq<seq<Id>>, i: nat) returns (k: nat)
    requires i < |Flatten(ls)|
    ensures k < |ls| && Flatten(ls)[i] in ls[k]
    ensures |Flatten(ls[..k])| <= i && Flatten(ls[..k]) <= Flatten(ls)
  {
    if i < |ls[0]| {
      k := 0;
    } else {
      k := FlattenPosition(ls[1..], i - |ls[0]|);
      k := k + 1;
      assert ls[..k][1..] == ls[1..][..k - 1];
      assert Flatten(ls[..k]) == ls[0] + Flatten(ls[1..][..k - 1]);
      assert ls == ls[..k] + ls[k..];
    }
  }

  /** The levels of a successful order, as sets. */
  ghost predicate OrderedBy(plan: Plan, layers: seq<set<Id>>) {
    && OrderOf(plan).Success? && Missing(plan.actions) == {}
    && layers == Layers(GraphOf(plan.actions), {}) && Union(layers) == Ids(plan.actions)
    && OrderOf(plan).value.levels == SortedLevels(layers)
    && OrderOf(plan).value.ordered == Flatten(SortedLevels(layers))
  }

  lemma OrderedByLayers(plan: Plan) returns (layers: seq<set<Id>>)
    requires OrderOf(plan).Success? && Missing(plan.actions) == {}
    ensures OrderedBy(plan, layers) && UniqueIds(plan.actions)
  {
    var g := GraphOf(plan.actions);
    layers := Layers(g, {});
    IdCountIsUniqueness(plan.actions);
    GraphKeys(plan.actions);
    LayersWithin(g, {});
  }

  /** Every action appears exactly once. */
  lemma OrderIsPermutation(plan: Plan)
    requires OrderOf(plan).Success? && Missing(plan.actions) == {}
    ensures
      var r := OrderOf(plan).value;
      && r.Valid()
      && |r.ordered| == |plan.actions|
      && forall n :: n in r.ordered <==> n in Ids(plan.actions)
  {
    var layers := OrderedByLayers(plan);
    IdCountIsUniqueness(plan.actions);
    FlattenCount(GraphOf(plan.actions), {});
    forall n ensures n in OrderOf(plan).value.ordered <==> n in Ids(plan.actions) {
      FlattenHas(layers, n);
    }
  }

  lemma {:induction false} FlattenCount(g: Graph, done: set<Id>)
    ensures |Flatten(SortedLevels(Layers(g, done)))| == |Union(Layers(g, done))|
    decreases |g.Keys - done|
  {
    var now := Ready(g, done);
    if now != {} {
      ReadyShrinks(g, done);
      FlattenCount(g, done + now);
      LayersWithin(g, done + now);
      SortedIdsListTheSet(now);
      assert now !! Union(Layers(g, done + now));
    }
  }

  lemma SortedLevelsTake(ls: seq<set<Id>>, k: nat)
    requires k <= |ls|
    ensures SortedLevels(ls[..k]) == SortedLevels(ls)[..k]
  {
    assert ls == ls[..k] + ls[k..];
    SortedLevelsAppend(ls[..k], ls[k..]);
  }

  lemma PrefixOfPrefix(p: seq<Id>, s: seq<Id>, i: nat)
    requires p <= s && |p| <= i <= |s|
    ensures forall x | x in p :: x in s[..i]
  {
    forall x | x in p ensures x in s[..i] {
      var j :| 0 <= j < |p| && p[j] == x;
      assert s[..i][j] == x;
    }
  }

  /** Every action comes strictly after all its dependencies. */
  lemma OrderRespectsDependencies(plan: Plan, i: nat, a: Action, d: Id)
    requires OrderOf(plan).Success? && Missing(plan.actions) == {}
    requires i < |OrderOf(plan).value.ordered| && OrderOf(plan).value.ordered[i] == a.id
    requires a in plan.actions && d in a.dependencies
    ensures d in OrderOf(plan).value.ordered[..i]
  {
    var layers := OrderedByLayers(plan);
    var levels := SortedLevels(layers);
    GraphEntry(plan.actions, a);
    var k := FlattenPosition(levels, i);
    SortedLevelAt(layers, k);
    SortedIdsListTheSet(layers[k]);
    LevelNeeds(GraphOf(plan.actions), {}, k, a.id);
    assert d in DependencySet(a);
    FlattenHas(layers[..k], d);
    SortedLevelsTake(layers, k);
    PrefixOfPrefix(Flatten(levels[..k]), Flatten(levels), i);
  }

  /** An action's level is the length of its longest chain of dependencies, the least any ranking allows. */
  lemma LevelMeansLongestChain(plan: Plan, k: nat, n: Id)
    requires OrderOf(plan).Success? && k < |OrderOf(plan).value.levels| && n in OrderOf(plan).value.levels[k]
    ensures
      var g := GraphOf(plan.actions);
      && (exists p :: ChainTo(g, p, n) && |p| == k + 1)
      && (forall p :: ChainTo(g, p, n) ==> |p| <= k + 1)
      && (forall rank :: Ranking(g, rank) ==> n in rank && rank[n] >= k)
  {
    var g := GraphOf(plan.actions);
    var layers := OrderedByLayers(plan);
    SortedLevelAt(layers, k);
    SortedIdsListTheSet(layers[k]);
    LevelIsLongestChain(g, k, n);
    forall rank | Ranking(g, rank) ensures n in rank && rank[n] >= k {
      LevelIsMinimal(g, k, n, rank);
    }
  }

  /** Rearranging or renumbering the actions changes neither the order nor the analysis. */
  lemma InputOrderIsIrrelevant(p: Plan, q: Plan)
    requires p.id == q.id && UniqueIds(p.actions) && UniqueIds(q.actions) && Work(p.actions) == Work(q.actions)
    ensures OrderOf(p) == OrderOf(q)
    ensures AnalysisOf(p) == AnalysisOf(q).(dependencyCount := DependencyCount(p.actions))
  {
    SameWorkSameGraph(p.actions, q.actions);
    MissingInGraph(p.actions);
    MissingInGraph(q.actions);
    GraphKeys(p.actions);
    GraphKeys(q.actions);
    IdCountIsUniqueness(p.actions);
    IdCountIsUniqueness(q.actions);
  }

  /** `analyze` reports what `order` decides. */
  lemma AnalysisAgreesWithOrder(plan: Plan)
    requires UniqueIds(plan.actions)
    ensures AnalysisOf(plan).circular <==> OrderOf(plan) == Failure(CircularDependency)
    ensures OrderOf(plan).Success? ==>
              && AnalysisOf(plan).missing == OrderOf(plan).value.missing
              && AnalysisOf(plan).blocked == OrderOf(plan).value.blocked
    ensures OrderOf(plan).Success? && OrderOf(plan).value.levels != [] ==>
              AnalysisOf(plan).ready == OrderOf(plan).value.levels[0]
  {
    IdCountIsUniqueness(plan.actions);
  }

  /** On a cycle the blocked actions are the greatest set in which each waits for another of the set. */
  lemma BlockedIsGreatestDeadlock(plan: Plan)
    requires AnalysisOf(plan).circular
    ensures
      var blocked := set n | n in AnalysisOf(plan).blocked;
      && blocked != {}
      && Deadlocked(GraphOf(plan.actions), blocked)
      && forall t :: Deadlocked(GraphOf(plan.actions), t) ==> t <= blocked
  {
    var g := GraphOf(plan.actions);
    GraphClosed(plan.actions);
    StuckIsGreatestDeadlock(g);
    SortedIdsAsSet(Stuck(g));
  }

  // ------------------------------------------------------- what the lists of the two results hold

  ghost predicate Names(actions: seq<Action>, n: Id) {
    exists a :: a in actions && a.id == n
  }

  /** Some action depends on `d`, which names no action. */
  ghost predicate Dangling(actions: seq<Action>, d: Id) {
    (exists a :: a in actions && d in a.dependencies) && !Names(actions, d)
  }

  ghost predicate NothingDangles(actions: seq<Action>) {
    forall a, d | a in actions && d in a.dependencies :: Names(actions, d)
  }

  /** The strictly sorted list of the ids that name an action. */
  ghost predicate ListsActions(actions: seq<Action>, ids: seq<Id>) {
    Increasing(ids) && forall n :: n in ids <==> Names(actions, n)
  }

  /** The strictly sorted list of the dependencies that name no action. */
  ghost predicate ListsDangling(actions: seq<Action>, ids: seq<Id>) {
    Increasing(ids) && forall d :: d in ids <==> Dangling(actions, d)
  }

  lemma MissingAreDangling(actions: seq<Action>)
    ensures NothingDangles(actions) <==> Missing(actions) == {}
    ensures ListsActions(actions, SortedIds(Ids(actions))) && ListsDangling(actions, SortedIds(Missing(actions)))
  {
    SortedIdsListTheSet(Ids(actions));
    SortedIdsListTheSet(Missing(actions));
    forall n ensures n in Ids(actions) <==> Names(actions, n) {}
    forall d ensures d in Missing(actions) <==> Dangling(actions, d) {}
    if !NothingDangles(actions) {
      var a, d :| a in actions && d in a.dependencies && !Names(actions, d);
      assert Dangling(actions, d);
    }
  }

  /** A plan with a dangling dependency: `order` lists every action as blocked, and what dangles as missing. */
  lemma OrderOfDangling(plan: Plan)
    requires UniqueIds(plan.actions) && !NothingDangles(plan.actions)
    ensures
      var r := OrderOf(plan);
      && r.Success? && r.value.planId == plan.id && r.value.ordered == [] && r.value.levels == []
      && ListsActions(plan.actions, r.value.blocked) && ListsDangling(plan.actions, r.value.missing)
  {
    IdCountIsUniqueness(plan.actions);
    MissingAreDangling(plan.actions);
  }

  /** Without one, whatever `order` returns blocks nothing and misses nothing. */
  lemma OrderOfComplete(plan: Plan)
    requires NothingDangles(plan.actions) && OrderOf(plan).Success?
    ensures
      var r := OrderOf(plan).value;
      r.planId == plan.id && r.blocked == [] && r.missing == []
  {
    MissingAreDangling(plan.actions);
  }

  /** `analyze` lists the same, calls nothing ready, and sees no circle. */
  lemma AnalysisOfDangling(plan: Plan)
    requires !NothingDangles(plan.actions)
    ensures
      var r := AnalysisOf(plan);
      && r.planId == plan.id && r.ready == [] && !r.circular
      && ListsActions(plan.actions, r.blocked) && ListsDangling(plan.actions, r.missing)
  {
    MissingAreDangling(plan.actions);
  }

  /** Without one, ready are exactly the actions that have no dependency, whether there is a circle or not. */
  lemma AnalysisOfComplete(plan: Plan)
    requires UniqueIds(plan.actions) && NothingDangles(plan.actions)
    ensures
      var r := AnalysisOf(plan);
      && r.planId == plan.id && r.missing == [] && Increasing(r.ready) && Increasing(r.blocked)
      && (forall n :: n in r.ready <==> HasNoDependencies(plan.actions, n))
      && (r.circular <==> !Acyclic(GraphOf(plan.actions))) && (r.circular <==> r.blocked != [])
  {
    var g := GraphOf(plan.actions);
    MissingAreDangling(plan.actions);
    CircularIffCycle(plan.actions);
    SortedIdsListTheSet(Ready(g, {}));
    SortedIdsListTheSet(Stuck(g));
    forall n ensures n in Ready(g, {}) <==> HasNoDependencies(plan.actions, n) {
      ReadyIffNoDependencies(plan.actions, n);
    }
  }

  /** The id names an action without dependencies. */
  ghost predicate HasNoDependencies(actions: seq<Action>, n: Id) {
    exists a :: a in actions && a.id == n && a.dependencies == []
  }

  lemma CircularIffCycle(actions: seq<Action>)
    requires Missing(actions) == {}
    ensures Stuck(GraphOf(actions)) == {} <==> Acyclic(GraphOf(actions))
  {
    GraphClosed(actions);
    CompleteIffAcyclic(GraphOf(actions));
  }

  lemma ReadyIffNoDependencies(actions: seq<Action>, n: Id)
    requires UniqueIds(actions)
    ensures n in Ready(GraphOf(actions), {}) <==> HasNoDependencies(actions, n)
  {
    if n in GraphOf(actions) {
      var a := GraphOrigin(actions, n);
      assert a.dependencies != [] ==> a.dependencies[0] in DependencySet(a);
      assert DependencySet(a) == {} <==> a.dependencies == [];
    }
    if a :| a in actions && a.id == n && a.dependencies == [] { GraphEntry(actions, a); }
  }

  // ------------------------------------------------------- counts and keys

  /** The keys of the two caches: different plan ids never share one. */
  lemma KeysAreApart(p: Id, q: Id)
    ensures OrderId(p) == Id("ORDER-" + p.text) && AnalysisId(p) == Id("DEPAN-" + p.text)
    ensures OrderId(p) == OrderId(q) ==> p == q
    ensures AnalysisId(p) == AnalysisId(q) ==> p == q
  {
    assert OrderId(p).text[6..] == p.text && OrderId(q).text[6..] == q.text;
    assert AnalysisId(p).text[6..] == p.text && AnalysisId(q).text[6..] == q.text;
  }

  /** Repeated ids are what `order` refuses first. */
  lemma DuplicatesAreRefused(plan: Plan)
    ensures OrderOf(plan) == Failure(DuplicateIds) <==> !UniqueIds(plan.actions)
  {
    IdCountIsUniqueness(plan.actions);
  }

  /** The places of the dependencies: which action, and where in its list. */
  function DependencyPlaces(actions: seq<Action>): set<(nat, nat)> {
    set i: nat, j: nat | i < |actions| && j < |actions[i].dependencies| :: (i, j)
  }

  function Row(i: nat, n: nat): set<(nat, nat)> {
    set j: nat | j < n :: (i, j)
  }

  lemma {:induction false} RowSize(i: nat, n: nat)
    ensures |Row(i, n)| == n
  {
    if n > 0 {
      RowSize(i, n - 1);
      assert Row(i, n) == Row(i, n - 1) + {(i, n - 1)};
    }
  }

  /** The count of an analysis is the number of dependencies that are written in the plan, repeated ones included. */
  lemma {:induction false} DependencyCountIsCardinality(plan: Plan)
    ensures AnalysisOf(plan).dependencyCount == |DependencyPlaces(plan.actions)|
  {
    DependenciesAreCounted(plan.actions);
  }

  lemma {:induction false} DependenciesAreCounted(actions: seq<Action>)
    ensures DependencyCount(actions) == |DependencyPlaces(actions)|
  {
    if actions == [] {
      assert DependencyPlaces(actions) == {};
    } else {
      var n := |actions| - 1;
      DependenciesAreCounted(actions[..n]);
      RowSize(n, |actions[n].dependencies|);
      assert DependencyPlaces(actions) == DependencyPlaces(actions[..n]) + Row(n, |actions[n].dependencies|);
    }
  }
}
