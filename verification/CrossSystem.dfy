/** Cross-system coordination: the actions of a plan grouped by target system, the systems ordered. */
module CrossSystem {
  import opened Wrappers
  import opened Sorting
  import opened Layering
  import opened Plans
  import opened DependencyOrder

  const UNSPECIFIED := Id("UNSPECIFIED")

  datatype Group = Group(
    groupId: Id, system: Id, planId: Id,
    actionIds: seq<Id>, sequences: seq<nat>, dependsOn: seq<Id>)

  datatype SystemOrder = SystemOrder(
    coordinationId: Id, ordered: seq<Id>, levels: seq<seq<Id>>, blocked: seq<Id>, missing: seq<Id>)

  datatype Coordination = Coordination(
    id: Id, planId: Id, participating: seq<Id>, groups: seq<Group>,
    unresolved: seq<Id>, order: SystemOrder)

  datatype CoordinationError = InvalidPlan | CircularSystems

  // ------------------------------------------------------- the quotient graph

  /** An empty or absent target counts as the system "UNSPECIFIED". */
  function SystemOf(a: Action): Id {
    if a.system.None? || a.system.value.text == "" then UNSPECIFIED else a.system.value
  }

  function Systems(actions: seq<Action>): set<Id> {
    set a | a in actions :: SystemOf(a)
  }

  /** The actions that target one system, in plan order. */
  function Members(actions: seq<Action>, s: Id): seq<Action> {
    if actions == [] then []
    else if SystemOf(actions[0]) == s then [actions[0]] + Members(actions[1..], s)
    else Members(actions[1..], s)
  }

  /** The first action of the plan with the given id. */
  function Find(actions: seq<Action>, id: Id): Option<Action> {
    if actions == [] then None
    else if actions[0].id == id then Some(actions[0])
    else Find(actions[1..], id)
  }

  /** Dependency `d` of some action leads from system `s` to another system `t`. */
  predicate Crosses(actions: seq<Action>, d: Id, s: Id, t: Id) {
    var found := Find(actions, d);
    found.Some? && SystemOf(found.value) == t && t != s
  }

  function Upstream(actions: seq<Action>, members: seq<Action>, s: Id): set<Id> {
    set a, d, t | a in members && d in a.dependencies && t in Systems(actions) && Crosses(actions, d, s, t) :: t
  }

  function SystemGraph(actions: seq<Action>): Graph {
    map s | s in Systems(actions) :: Upstream(actions, Members(actions, s), s)
  }

  predicate ActionLe(a: Action, b: Action) {
    a.sequence < b.sequence || (a.sequence == b.sequence && IdLe(a.id, b.id))
  }

  function NewGroup(plan: Plan, s: Id, members: seq<Action>, upstream: set<Id>): Group {
    var sorted := Sort(ActionLe, members);
    Group(Id("SGRP-" + plan.id.text + "-" + s.text), s, plan.id, ActionIds(sorted), Sequences(sorted),
        SortedIds(upstream))
  }

  function GroupFor(plan: Plan, s: Id): Group {
    var members := Members(plan.actions, s);
    NewGroup(plan, s, members, Upstream(plan.actions, members, s))
  }

  function ActionIds(actions: seq<Action>): seq<Id> {
    if actions == [] then [] else [actions[0].id] + ActionIds(actions[1..])
  }

  function Sequences(actions: seq<Action>): seq<nat> {
    if actions == [] then [] else [actions[0].sequence] + Sequences(actions[1..])
  }

  function GroupsFor(plan: Plan, systems: seq<Id>): seq<Group> {
    if systems == [] then [] else
      GroupsFor(plan, systems[..|systems| - 1]) + [GroupFor(plan, systems[|systems| - 1])]
  }

  function Unresolved(actions: seq<Action>, integrations: set<Id>): set<Id> {
    set a | a in actions && UnknownTarget(a, integrations) :: SystemOf(a)
  }

  predicate UnknownTarget(a: Action, integrations: set<Id>) {
    || a.system.None? || a.system.value.text == ""
    || (integrations != {} && a.system.value !in integrations)
  }

  function Joined(actions: seq<Action>): string {
    if actions == [] then ""
    else if |actions| == 1 then actions[0].id.text
    else actions[0].id.text + "," + Joined(actions[1..])
  }

  function CoordinationId(plan: Plan): Id {
    var ids := Joined(plan.actions);
    Id("XCOORD-" + plan.id.text + "-" + plan.orchestrationId.text + "-" + if ids == "" then "EMPTY" else ids)
  }

  predicate Identified(plan: Plan) {
    plan.id.text != "" && plan.orchestrationId.text != "" && plan.planId.text != "" && plan.decisionId.text != ""
  }

  function CoordinationOf(plan: Plan, integrations: set<Id>): Result<Coordination, CoordinationError> {
    var g := SystemGraph(plan.actions);
    if !Identified(plan) then Failure(InvalidPlan)
    else if Stuck(g) != {} then Failure(CircularSystems)
    else
      var systems := SortedIds(Systems(plan.actions));
      var unresolved := SortedIds(Unresolved(plan.actions, integrations));
      var levels := SortedLevels(Layers(g, {}));
      Success(Coordination(CoordinationId(plan), plan.id, systems, GroupsFor(plan, systems), unresolved,
                           SystemOrder(CoordinationId(plan), Flatten(levels), levels, [], unresolved)))
  }

  // ------------------------------------------------------- the engine

  class CrossSystemEngine {
    const integrations: set<Id>
    var cache: map<Id, Coordination>

    constructor (integrations: set<Id>)
      ensures this.integrations == integrations && cache == map[]
    {
      this.integrations := integrations;
      cache := map[];
    }

    method Coordinate(plan: Plan) returns (r: Result<Coordination, CoordinationError>)
      modifies this
      ensures
        var key := CoordinationId(plan);
        if !Identified(plan) then r == Failure(InvalidPlan) && cache == old(cache)
        else if key in old(cache) then r == Success(old(cache)[key]) && cache == old(cache)
        else
          && r == CoordinationOf(plan, integrations)
          && cache == if r.Success? then old(cache)[key := r.value] else old(cache)
    {
      if !Identified(plan) {
        return Failure(InvalidPlan);
      }
      var key := CoordinationId(plan);
      if key in cache {
        return Success(cache[key]);
      }
      var systems, groups, unresolved, dependencies := BuildGroups(plan, integrations);
      var ordered := OrderSystems(key, dependencies, unresolved);
      if ordered.Failure? {
        return Failure(ordered.error);
      }
      UnresolvedWithin(plan.actions, integrations);
      SortedIdsAsSet(Unresolved(plan.actions, integrations));
      SortedIdsAsSet({});
      var coordination := Coordination(key, plan.id, systems, groups, unresolved, ordered.value);
      cache := cache[key := coordination];
      return Success(coordination);
    }
  }

  method BuildGroups(plan: Plan, integrations: set<Id>)
    returns (systems: seq<Id>, groups: seq<Group>, unresolved: seq<Id>, dependencies: Graph)
    ensures systems == SortedIds(Systems(plan.actions)) && groups == GroupsFor(plan, systems)
    ensures unresolved == SortedIds(Unresolved(plan.actions, integrations))
    ensures dependencies == SystemGraph(plan.actions)
  {
    var actions := plan.actions;
    var bySystem, unknown := GroupBySystem(actions, integrations);
    systems, unresolved := SortedIds(bySystem.Keys), SortedIds(unknown);
    dependencies := BuildDependencies(actions, bySystem);
    SortedIdsListTheSet(bySystem.Keys);
    forall s | s in systems
      ensures s in dependencies && NewGroup(plan, s, bySystem[s], dependencies[s]) == GroupFor(plan, s)
    {
      GroupMatches(plan, s, bySystem, dependencies);
    }
    groups := BuildGroupRecords(plan, systems, bySystem, dependencies);
  }

  method BuildGroupRecords(plan: Plan, systems: seq<Id>, bySystem: map<Id, seq<Action>>, dependencies: Graph)
    returns (groups: seq<Group>)
    requires forall s | s in systems :: s in bySystem && s in dependencies
    requires forall s | s in systems :: NewGroup(plan, s, bySystem[s], dependencies[s]) == GroupFor(plan, s)
    ensures groups == GroupsFor(plan, systems)
  {
    groups := [];
    for k := 0 to |systems|
      invariant groups == GroupsFor(plan, systems[..k])
    {
      var s := systems[k];
      assert s in systems;
      assert systems[..k + 1][..k] == systems[..k];
      groups := groups + [NewGroup(plan, s, bySystem[s], dependencies[s])];
    }
    assert systems[..|systems|] == systems;
  }

  lemma GroupMatches(plan: Plan, s: Id, bySystem: map<Id, seq<Action>>, dependencies: Graph)
    requires bySystem.Keys == Systems(plan.actions) && s in bySystem && dependencies == SystemGraph(plan.actions)
    requires bySystem[s] == Members(plan.actions, s)
    ensures s in dependencies && NewGroup(plan, s, bySystem[s], dependencies[s]) == GroupFor(plan, s)
  {
    assert dependencies[s] == Upstream(plan.actions, bySystem[s], s);
  }

  method BuildDependencies(actions: seq<Action>, bySystem: map<Id, seq<Action>>) returns (dependencies: Graph)
    requires bySystem.Keys == Systems(actions)
    requires forall s | s in bySystem :: bySystem[s] == Members(actions, s)
    ensures dependencies == SystemGraph(actions)
  {
    dependencies := map[];
    var left := bySystem.Keys;
    while left != {}
      invariant left <= Systems(actions) && dependencies.Keys == Systems(actions) - left
      invariant forall s | s in dependencies :: dependencies[s] == Upstream(actions, Members(actions, s), s)
      decreases left
    {
      var s :| s in left;
      var upstream := UpstreamSystems(actions, bySystem[s], s);
      dependencies := dependencies[s := upstream];
      left := left - {s};
    }
  }

  method GroupBySystem(actions: seq<Action>, integrations: set<Id>)
    returns (bySystem: map<Id, seq<Action>>, unknown: set<Id>)
    ensures bySystem.Keys == Systems(actions)
    ensures forall s | s in bySystem :: bySystem[s] == Members(actions, s)
    ensures unknown == Unresolved(actions, integrations)
  {
    bySystem, unknown := map[], {};
    for i := 0 to |actions|
      invariant bySystem.Keys == Systems(actions[..i])
      invariant forall s | s in bySystem :: bySystem[s] == Members(actions[..i], s)
      invariant unknown == Unresolved(actions[..i], integrations)
    {
      var a := actions[i];
      ghost var before := actions[..i];
      assert actions[..i + 1] == before + [a];
      forall s ensures Members(before + [a], s) == Members(before, s) + if SystemOf(a) == s then [a] else [] {
        MembersAppend(before, a, s);
      }
      if SystemOf(a) !in bySystem { NoMembers(before, SystemOf(a)); }
      var s := SystemOf(a);
      bySystem := bySystem[s := (if s in bySystem then bySystem[s] else []) + [a]];
      if UnknownTarget(a, integrations) {
        unknown := unknown + {s};
      }
    }
    assert actions[..|actions|] == actions;
  }

  method UpstreamSystems(actions: seq<Action>, members: seq<Action>, s: Id) returns (upstream: set<Id>)
    ensures upstream == Upstream(actions, members, s)
  {
    upstream := {};
    for i := 0 to |members|
      invariant upstream == Upstream(actions, members[..i], s)
    {
      var a := members[i];
      ghost var before := upstream;
      for j := 0 to |a.dependencies|
        invariant upstream == before + set d, t | d in a.dependencies[..j] && t in Systems(actions)
            && Crosses(actions, d, s, t) :: t
      {
        var d := a.dependencies[j];
        var found := Find(actions, d);
        assert a.dependencies[..j + 1] == a.dependencies[..j] + [d];
        if found.Some? {
          FindIsMember(actions, d);
          if SystemOf(found.value) != s {
            assert Crosses(actions, d, s, SystemOf(found.value));
            upstream := upstream + {SystemOf(found.value)};
          }
        }
      }
      assert a.dependencies[..|a.dependencies|] == a.dependencies;
      assert members[..i + 1] == members[..i] + [a];
    }
    assert members[..|members|] == members;
  }

  /** The third copy of the loop: readiness is membership in the list of systems ordered so far. */
  method OrderSystems(coordinationId: Id, dependencies: Graph, unresolved: seq<Id>)
    returns (r: Result<SystemOrder, CoordinationError>)
    ensures r.Failure? <==> Stuck(dependencies) != {}
    ensures r.Failure? ==> r.error == CircularSystems
    ensures r.Success? ==>
              var levels := SortedLevels(Layers(dependencies, {}));
              var unknown := set s | s in unresolved;
              r.value == SystemOrder(coordinationId, Flatten(levels), levels,
                                     SortedIds(unknown - dependencies.Keys), SortedIds(unknown))
  {
    var remaining, ordered, levels := dependencies.Keys, [], [];
    ghost var rounds: seq<set<Id>> := [];
    ghost var done: set<Id> := {};
    ProgressStarts(dependencies);
    while remaining != {}
      invariant Progress(dependencies, rounds, done)
      invariant remaining == dependencies.Keys - done
      invariant levels == SortedLevels(rounds) && ordered == Flatten(levels)
      decreases remaining
    {
      var ready := set s | s in remaining && forall d | d in dependencies[s] :: d in ordered;
      ReadyByList(dependencies, rounds, done, ready);
      if ready == {} {
        ProgressEnds(dependencies, rounds, done);
        return Failure(CircularSystems);
      }
      ProgressStep(dependencies, rounds, done);
      SortedLevelsAppend(rounds, [ready]);
      FlattenAppend(levels, [SortedIds(ready)]);
      rounds, done := rounds + [ready], done + ready;
      levels := levels + [SortedIds(ready)];
      ordered := ordered + SortedIds(ready);
      remaining := remaining - ready;
    }
    assert Ready(dependencies, done) <= remaining;
    ProgressEnds(dependencies, rounds, done);
    FlattenIsUnion(rounds);
    assert done == dependencies.Keys;
    var unknown := set s | s in unresolved;
    var blocked := unknown - set s | s in ordered;
    return Success(SystemOrder(coordinationId, ordered, levels, SortedIds(blocked), SortedIds(unknown)));
  }

  lemma FlattenIsUnion(rounds: seq<set<Id>>)
    ensures (set s | s in Flatten(SortedLevels(rounds))) == Union(rounds)
  {
    forall s { FlattenHas(rounds, s); }
  }

  lemma ReadyByList(g: Graph, rounds: seq<set<Id>>, done: set<Id>, ready: set<Id>)
    requires done == Union(rounds)
    requires ready == set s | s in g.Keys - done && forall d | d in g[s] :: d in Flatten(SortedLevels(rounds))
    ensures ready == Ready(g, done)
  {
    forall s { FlattenHas(rounds, s); }
  }

  // ------------------------------------------------------- grouping

  lemma {:induction false} MembersAppend(actions: seq<Action>, a: Action, s: Id)
    ensures Members(actions + [a], s) == Members(actions, s) + if SystemOf(a) == s then [a] else []
  {
    if actions == [] {
      assert actions + [a] == [a];
    } else {
      assert (actions + [a])[1..] == actions[1..] + [a];
      MembersAppend(actions[1..], a, s);
    }
  }

  lemma {:induction false} NoMembers(actions: seq<Action>, s: Id)
    requires s !in Systems(actions)
    ensures Members(actions, s) == []
  {
    if actions != [] {
      assert actions[0] in actions;
      forall a | a in actions[1..] ensures a in actions {}
      NoMembers(actions[1..], s);
    }
  }

  lemma {:induction false} FindIsMember(actions: seq<Action>, id: Id)
    requires Find(actions, id).Some?
    ensures Find(actions, id).value in actions && Find(actions, id).value.id == id
  {
    if actions[0].id != id { FindIsMember(actions[1..], id); }
  }

  lemma {:induction false} FindFinds(actions: seq<Action>, b: Action)
    requires UniqueIds(actions) && b in actions
    ensures Find(actions, b.id) == Some(b)
  {
    if actions[0] != b {
      var k :| 0 < k < |actions| && actions[k] == b;
      assert actions[1..][k - 1] == b;
      FindFinds(actions[1..], b);
    }
  }

  lemma {:induction false} UnresolvedWithin(actions: seq<Action>, integrations: set<Id>)
    ensures Unresolved(actions, integrations) - SystemGraph(actions).Keys == {}
  {
  }

  lemma {:induction false} MembersCount(actions: seq<Action>, s: Id, a: Action)
    ensures multiset(Members(actions, s))[a] == if SystemOf(a) == s then multiset(actions)[a] else 0
  {
    if actions != [] {
      assert actions == [actions[0]] + actions[1..];
      MembersCount(actions[1..], s, a);
    }
  }

  /** The actions of the listed systems, group after group. */
  function Grouped(actions: seq<Action>, systems: seq<Id>): seq<Action> {
    if systems == [] then []
    else Grouped(actions, systems[..|systems| - 1]) + Sort(ActionLe, Members(actions, systems[|systems| - 1]))
  }

  lemma {:induction false} GroupedCount(actions: seq<Action>, systems: seq<Id>, a: Action)
    requires forall i, j | 0 <= i < j < |systems| :: systems[i] != systems[j]
    ensures multiset(Grouped(actions, systems))[a] == if SystemOf(a) in systems then multiset(actions)[a] else 0
  {
    if systems != [] {
      var n := |systems| - 1;
      MembersCount(actions, systems[n], a);
      GroupedCount(actions, systems[..n], a);
      LastOrEarlier(systems, SystemOf(a));
      assert systems[n] !in systems[..n];
    }
  }

  lemma LastOrEarlier<T>(s: seq<T>, x: T)
    requires s != []
    ensures x in s <==> x in s[..|s| - 1] || x == s[|s| - 1]
  {
    assert s == s[..|s| - 1] + [s[|s| - 1]];
  }

  // ------------------------------------------------------- what coordination means

  function GroupedIds(groups: seq<Group>): seq<Id> {
    if groups == [] then [] else GroupedIds(groups[..|groups| - 1]) + groups[|groups| - 1].actionIds
  }

  lemma {:induction false} ActionIdsAppend(a: seq<Action>, b: seq<Action>)
    ensures ActionIds(a + b) == ActionIds(a) + ActionIds(b)
  {
    if a == [] {
      assert a + b == b;
    } else {
      assert (a + b)[1..] == a[1..] + b;
      ActionIdsAppend(a[1..], b);
    }
  }

  lemma {:induction false} GroupedIdsAreGrouped(plan: Plan, systems: seq<Id>)
    ensures GroupedIds(GroupsFor(plan, systems)) == ActionIds(Grouped(plan.actions, systems))
  {
    if systems != [] {
      var n := |systems| - 1;
      GroupedIdsAreGrouped(plan, systems[..n]);
      ActionIdsAppend(Grouped(plan.actions, systems[..n]), Sort(ActionLe, Members(plan.actions, systems[n])));
    }
  }

  lemma {:induction false} ActionIdsSkip(actions: seq<Action>, k: nat)
    requires k < |actions|
    ensures k < |ActionIds(actions)| && ActionIds(actions)[k] == actions[k].id
    ensures ActionIds(Without(actions, k)) == Without(ActionIds(actions), k)
  {
    if k == 0 {
      assert Without(actions, 0) == actions[1..];
    } else {
      ActionIdsSkip(actions[1..], k - 1);
      assert Without(actions, k) == [actions[0]] + Without(actions[1..], k - 1);
    }
  }

  lemma ActionIdsWithout(actions: seq<Action>, k: nat)
    requires k < |actions|
    ensures multiset(ActionIds(actions)) == multiset(ActionIds(Without(actions, k))) + multiset{actions[k].id}
  {
    ActionIdsSkip(actions, k);
    WithoutCount(ActionIds(actions), k);
  }

  lemma {:induction false} SameActionsSameIds(a: seq<Action>, b: seq<Action>)
    requires multiset(a) == multiset(b)
    ensures multiset(ActionIds(a)) == multiset(ActionIds(b))
    decreases |a|
  {
    if a == [] {
      SameElements(a, b);
    } else {
      var k := MatchFirst(a, b);
      SameActionsSameIds(Without(a, 0), Without(b, k));
      ActionIdsWithout(a, 0);
      ActionIdsWithout(b, k);
    }
  }

  /** The groups split the plan's actions among the systems: nothing lost, nothing twice. */
  lemma GroupsPartitionActions(plan: Plan, integrations: set<Id>)
    requires CoordinationOf(plan, integrations).Success?
    ensures multiset(GroupedIds(CoordinationOf(plan, integrations).value.groups)) == multiset(ActionIds(plan.actions))
  {
    var systems := SortedIds(Systems(plan.actions));
    SortedIdsListTheSet(Systems(plan.actions));
    var grouped := Grouped(plan.actions, systems);
    forall a ensures multiset(grouped)[a] == multiset(plan.actions)[a] {
      GroupedCount(plan.actions, systems, a);
      assert multiset(plan.actions)[a] > 0 ==> a in plan.actions;
    }
    GroupedIdsAreGrouped(plan, systems);
    SameActionsSameIds(grouped, plan.actions);
  }

  /** By sequence, and then by id. */
  ghost predicate InSequence(actions: seq<Action>) {
    forall i, j | 0 <= i < j < |actions| ::
      || actions[i].sequence < actions[j].sequence
      || (actions[i].sequence == actions[j].sequence && IdLe(actions[i].id, actions[j].id))
  }

  /** Each group lists exactly the actions that target its system, by sequence and then by id. */
  lemma GroupHoldsItsSystem(plan: Plan, s: Id)
    ensures exists members ::
              && GroupFor(plan, s).actionIds == ActionIds(members) && GroupFor(plan, s).sequences == Sequences(members)
              && InSequence(members)
              && multiset(members) == multiset(Members(plan.actions, s))
              && forall a :: a in members <==> a in plan.actions && SystemOf(a) == s
  {
    var members := Sort(ActionLe, Members(plan.actions, s));
    ActionLeTotal();
    SortSorted(ActionLe, Members(plan.actions, s));
    assert InSequence(members) by {
      forall i, j | 0 <= i < j < |members| ensures ActionLe(members[i], members[j]) {}
    }
    SameElements(members, Members(plan.actions, s));
    forall a ensures a in members <==> a in plan.actions && SystemOf(a) == s {
      MembersCount(plan.actions, s, a);
      assert a in multiset(Members(plan.actions, s)) <==> a in Members(plan.actions, s);
      assert a in multiset(plan.actions) <==> a in plan.actions;
    }
  }

  lemma ActionLeTotal()
    ensures TotalPreorder(ActionLe)
  {
    forall a, b ensures ActionLe(a, b) || ActionLe(b, a) { IdLeLinear(a.id, b.id, b.id); }
    forall a, b, c | ActionLe(a, b) && ActionLe(b, c) ensures ActionLe(a, c) { IdLeLinear(a.id, b.id, c.id); }
  }

  lemma SystemGraphClosed(actions: seq<Action>)
    ensures Closed(SystemGraph(actions))
  {
  }

  /** Coordination is refused exactly when the systems depend on each other in a circle. */
  lemma {:induction false} CoordinationIffSystemsAcyclic(plan: Plan, integrations: set<Id>)
    requires Identified(plan)
    ensures CoordinationOf(plan, integrations).Success? <==> Acyclic(SystemGraph(plan.actions))
    ensures CoordinationOf(plan, integrations).Failure? ==> CoordinationOf(plan, integrations).error == CircularSystems
  {
    SystemGraphClosed(plan.actions);
    CompleteIffAcyclic(SystemGraph(plan.actions));
  }

  /** A dependency between two systems is an edge of the quotient graph. */
  lemma CrossingIsEdge(actions: seq<Action>, a: Action, b: Action)
    requires UniqueIds(actions) && a in actions && b in actions && b.id in a.dependencies
    requires SystemOf(a) != SystemOf(b)
    ensures SystemOf(a) in SystemGraph(actions) && SystemOf(b) in SystemGraph(actions)[SystemOf(a)]
  {
    var s, t := SystemOf(a), SystemOf(b);
    FindFinds(actions, b);
    MembersCount(actions, s, a);
    assert a in multiset(actions) && a in multiset(Members(actions, s));
    assert Crosses(actions, b.id, s, t);
  }

  /** A dependency between two systems points to a strictly earlier level. */
  lemma {:induction false} CrossDependencyIsEarlier(plan: Plan, integrations: set<Id>, a: Action, b: Action, k: nat)
    returns (j: nat)
    requires CoordinationOf(plan, integrations).Success? && UniqueIds(plan.actions)
    requires a in plan.actions && b in plan.actions && b.id in a.dependencies && SystemOf(a) != SystemOf(b)
    requires k < |CoordinationOf(plan, integrations).value.order.levels|
    requires SystemOf(a) in CoordinationOf(plan, integrations).value.order.levels[k]
    ensures j < k && SystemOf(b) in CoordinationOf(plan, integrations).value.order.levels[j]
  {
    var g := SystemGraph(plan.actions);
    var layers := Layers(g, {});
    CrossingIsEdge(plan.actions, a, b);
    SortedLevelAt(layers, k);
    SortedIdsListTheSet(layers[k]);
    j := DependencyIsEarlier(g, k, SystemOf(a), SystemOf(b));
    SortedLevelAt(layers, j);
    SortedIdsListTheSet(layers[j]);
  }

  /** Along the quotient ranking a dependency never climbs, and stays level only within one system. */
  lemma EdgeDoesNotClimb(plan: Plan, rank: map<Id, nat>, a: Action, b: Action)
    requires Ranking(SystemGraph(plan.actions), rank) && UniqueIds(plan.actions)
    requires a in plan.actions && b in plan.actions && b.id in a.dependencies
    ensures SystemOf(a) in rank && SystemOf(b) in rank
    ensures rank[SystemOf(b)] <= rank[SystemOf(a)]
    ensures rank[SystemOf(b)] == rank[SystemOf(a)] ==> SystemOf(a) == SystemOf(b)
  {
    assert SystemOf(a) in SystemGraph(plan.actions) && SystemOf(b) in SystemGraph(plan.actions);
    if SystemOf(a) != SystemOf(b) { CrossingIsEdge(plan.actions, a, b); }
  }

  /** A path of actions, each depending on the one before. */
  ghost predicate ActionPath(actions: seq<Action>, p: seq<Action>) {
    && p != [] && (forall i | 0 <= i < |p| :: p[i] in actions)
    && (forall i | 0 < i < |p| :: p[i - 1].id in p[i].dependencies)
  }

  lemma {:induction false} PathDoesNotFall(plan: Plan, rank: map<Id, nat>, p: seq<Action>, i: nat, j: nat)
    requires Ranking(SystemGraph(plan.actions), rank) && UniqueIds(plan.actions)
    requires ActionPath(plan.actions, p) && i <= j < |p|
    ensures SystemOf(p[i]) in rank && SystemOf(p[j]) in rank
    ensures rank[SystemOf(p[i])] <= rank[SystemOf(p[j])]
    ensures rank[SystemOf(p[i])] == rank[SystemOf(p[j])] ==> SystemOf(p[i]) == SystemOf(p[j])
    decreases j
  {
    if i == j {
      assert SystemOf(p[i]) in SystemGraph(plan.actions);
    } else {
      PathDoesNotFall(plan, rank, p, i, j - 1);
      EdgeDoesNotClimb(plan, rank, p[j], p[j - 1]);
    }
  }

  lemma RankingOfSystems(plan: Plan, integrations: set<Id>) returns (rank: map<Id, nat>)
    requires CoordinationOf(plan, integrations).Success?
    ensures Ranking(SystemGraph(plan.actions), rank)
  {
    SystemGraphClosed(plan.actions);
    rank := LevelsAreRanking(SystemGraph(plan.actions));
  }

  lemma CircleIsLevel(plan: Plan, rank: map<Id, nat>, circle: seq<Action>, i: nat)
    requires Ranking(SystemGraph(plan.actions), rank) && UniqueIds(plan.actions)
    requires ActionPath(plan.actions, circle) && circle[|circle| - 1].id in circle[0].dependencies && i < |circle|
    ensures SystemOf(circle[i]) == SystemOf(circle[0])
  {
    PathDoesNotFall(plan, rank, circle, 0, i);
    PathDoesNotFall(plan, rank, circle, i, |circle| - 1);
    EdgeDoesNotClimb(plan, rank, circle[0], circle[|circle| - 1]);
  }

  /** Once coordination succeeds, a circle of actions can only run inside one system. */
  lemma CircleStaysInOneSystem(plan: Plan, integrations: set<Id>, circle: seq<Action>, i: nat)
    requires CoordinationOf(plan, integrations).Success? && UniqueIds(plan.actions)
    requires ActionPath(plan.actions, circle) && circle[|circle| - 1].id in circle[0].dependencies
    requires i < |circle|
    ensures SystemOf(circle[i]) == SystemOf(circle[0])
  {
    var rank := RankingOfSystems(plan, integrations);
    CircleIsLevel(plan, rank, circle, i);
  }

  // ------------------------------------------------------- every list of a coordination, stated on the actions

  /** The action names no system, or an empty one. */
  predicate Untargeted(a: Action) { a.system == None || a.system == Some(Id("")) }

  /** The action's target is the non-empty system `s`. */
  predicate TargetIs(a: Action, s: Id) { a.system == Some(s) && s.text != "" }

  /** The action belongs to `s`: by its target, or because it has none and `s` stands for that. */
  predicate BelongsTo(a: Action, s: Id) { TargetIs(a, s) || (s == Id("UNSPECIFIED") && Untargeted(a)) }

  lemma BelongsToSystem(a: Action, s: Id)
    ensures BelongsTo(a, s) <==> SystemOf(a) == s
  {
  }

  /** Only a plan with all four of its ids is coordinated; without one it is refused as invalid. */
  lemma InvalidIff(plan: Plan, integrations: set<Id>)
    ensures CoordinationOf(plan, integrations) == Failure(InvalidPlan)
            <==> Id("") in {plan.id, plan.orchestrationId, plan.planId, plan.decisionId}
    ensures Identified(plan) <==> Id("") !in {plan.id, plan.orchestrationId, plan.planId, plan.decisionId}
  {
    var ids := {plan.id, plan.orchestrationId, plan.planId, plan.decisionId};
    forall id: Id ensures id.text == "" <==> id == Id("") {}
    assert Id("") in ids <==> !Identified(plan);
  }

  lemma {:induction false} JoinedAppend(a: seq<Action>, b: seq<Action>)
    requires a != [] && b != []
    ensures Joined(a + b) == Joined(a) + "," + Joined(b)
  {
    assert (a + b)[0] == a[0] && (a + b)[1..] == a[1..] + b;
    if |a| > 1 {
      JoinedAppend(a[1..], b);
      AppendAssociates(a[0].id.text + ",", Joined(a[1..]) + ",", Joined(b));
      AppendAssociates(a[0].id.text + ",", Joined(a[1..]), ",");
    } else {
      assert a[1..] + b == b;
    }
  }

  /** The key of the cache: the plan, the orchestration, and the ids of the actions with commas between them. */
  lemma CoordinationIdIs(plan: Plan, a: Action)
    ensures
      var ids := if Joined(plan.actions) == "" then "EMPTY" else Joined(plan.actions);
      CoordinationId(plan) == Id("XCOORD-" + plan.id.text + "-" + plan.orchestrationId.text + "-" + ids)
    ensures Joined([]) == "" && Joined([a]) == a.id.text
  {
  }

  /** The strictly sorted list of systems are those that some action belongs to. */
  lemma ParticipatingIff(plan: Plan, integrations: set<Id>, s: Id)
    requires CoordinationOf(plan, integrations).Success?
    ensures
      var r := CoordinationOf(plan, integrations).value;
      && r.id == r.order.coordinationId == CoordinationId(plan) && r.planId == plan.id && Increasing(r.participating)
      && (s in r.participating <==> exists a :: a in plan.actions && BelongsTo(a, s))
  {
    SortedIdsListTheSet(Systems(plan.actions));
    forall a { BelongsToSystem(a, s); }
  }

  /**
   Unresolved are the placeholder, if some action has no target, and the targets without an integration, if there
   are integrations at all. The system order lists the same systems as missing, and none as blocked.
   */
  lemma UnresolvedIff(plan: Plan, integrations: set<Id>, s: Id)
    requires CoordinationOf(plan, integrations).Success?
    ensures
      var r := CoordinationOf(plan, integrations).value;
      && r.order.missing == r.unresolved && r.order.blocked == [] && Increasing(r.unresolved)
      && (s in r.unresolved
          <==> || (s == Id("UNSPECIFIED") && exists a :: a in plan.actions && Untargeted(a))
               || (integrations != {} && s !in integrations && exists a :: a in plan.actions && TargetIs(a, s)))
      && (integrations == {} && s in r.unresolved ==> s == Id("UNSPECIFIED"))
  {
    SortedIdsListTheSet(Unresolved(plan.actions, integrations));
    UnresolvedHas(plan.actions, integrations, s);
  }

  lemma UnresolvedHas(actions: seq<Action>, integrations: set<Id>, s: Id)
    ensures s in Unresolved(actions, integrations)
            <==> || (s == Id("UNSPECIFIED") && exists a :: a in actions && Untargeted(a))
                 || (integrations != {} && s !in integrations && exists a :: a in actions && TargetIs(a, s))
  {
    if a :| a in actions && Untargeted(a) { assert SystemOf(a) == Id("UNSPECIFIED"); }
    if a :| a in actions && TargetIs(a, s) { assert SystemOf(a) == s; }
  }

  /** Action `k` is the first of its id. */
  ghost predicate FirstNamed(actions: seq<Action>, k: int) {
    0 <= k < |actions| && forall j | 0 <= j < k :: actions[j].id != actions[k].id
  }

  /** Some action of `s` depends on an id whose first action belongs to another system `t`. */
  ghost predicate DependsAcross(actions: seq<Action>, s: Id, t: Id) {
    s != t && exists a, k :: a in actions && FirstNamed(actions, k) && actions[k].id in a.dependencies
                             && BelongsTo(a, s) && BelongsTo(actions[k], t)
  }

  lemma {:induction false} FindIsFirst(actions: seq<Action>, id: Id, k: nat)
    requires FirstNamed(actions, k) && actions[k].id == id
    ensures Find(actions, id) == Some(actions[k])
  {
    if k > 0 {
      assert FirstNamed(actions[1..], k - 1) by {
        forall j | 0 <= j < k - 1 ensures actions[1..][j].id != actions[k].id {}
      }
      FindIsFirst(actions[1..], id, k - 1);
    }
  }

  lemma {:induction false} FindHasPlace(actions: seq<Action>, id: Id) returns (k: nat)
    requires Find(actions, id).Some?
    ensures FirstNamed(actions, k) && actions[k].id == id && Find(actions, id) == Some(actions[k])
  {
    if actions[0].id == id {
      k := 0;
    } else {
      var j := FindHasPlace(actions[1..], id);
      k := j + 1;
      forall i | 0 <= i < k ensures actions[i].id != id { assert i > 0 ==> actions[i] == actions[1..][i - 1]; }
    }
  }

  lemma MemberIff(actions: seq<Action>, s: Id, a: Action)
    ensures a in Members(actions, s) <==> a in actions && BelongsTo(a, s)
  {
    MembersCount(actions, s, a);
    assert a in multiset(actions) <==> a in actions;
    assert a in multiset(Members(actions, s)) <==> a in Members(actions, s);
  }

  lemma EdgeIsDependency(actions: seq<Action>, s: Id, t: Id, a: Action, d: Id)
    requires a in Members(actions, s) && d in a.dependencies && Crosses(actions, d, s, t)
    ensures DependsAcross(actions, s, t)
  {
    MemberIff(actions, s, a);
    var k := FindHasPlace(actions, d);
    assert BelongsTo(actions[k], t);
  }

  lemma DependencyIsEdge(actions: seq<Action>, s: Id, t: Id, a: Action, k: nat)
    requires s != t && a in actions && BelongsTo(a, s)
    requires FirstNamed(actions, k) && actions[k].id in a.dependencies && BelongsTo(actions[k], t)
    ensures s in Systems(actions) && t in Upstream(actions, Members(actions, s), s)
  {
    MemberIff(actions, s, a);
    FindIsFirst(actions, actions[k].id, k);
    assert SystemOf(a) == s && SystemOf(actions[k]) == t;
    assert Crosses(actions, actions[k].id, s, t);
  }

  /** An edge of the quotient graph is exactly a dependency between two systems. */
  lemma EdgeIff(actions: seq<Action>, s: Id, t: Id)
    ensures s in SystemGraph(actions) && t in SystemGraph(actions)[s] <==> DependsAcross(actions, s, t)
  {
    if s in SystemGraph(actions) && t in SystemGraph(actions)[s] {
      var a, d :| a in Members(actions, s) && d in a.dependencies && Crosses(actions, d, s, t);
      EdgeIsDependency(actions, s, t, a, d);
    }
    if DependsAcross(actions, s, t) {
      var a, k :| a in actions && FirstNamed(actions, k) && actions[k].id in a.dependencies
                  && BelongsTo(a, s) && BelongsTo(actions[k], t);
      DependencyIsEdge(actions, s, t, a, k);
    }
  }

  lemma {:induction false} GroupCount(plan: Plan, systems: seq<Id>)
    ensures |GroupsFor(plan, systems)| == |systems|
  {
    if systems != [] {
      GroupCount(plan, systems[..|systems| - 1]);
      LastGroup(plan, systems);
    }
  }

  lemma {:induction false} GroupAt(plan: Plan, systems: seq<Id>, i: nat)
    requires i < |systems| == |GroupsFor(plan, systems)|
    ensures GroupsFor(plan, systems)[i] == GroupFor(plan, systems[i])
  {
    var n := |systems| - 1;
    var before, last := GroupsFor(plan, systems[..n]), GroupFor(plan, systems[n]);
    GroupCount(plan, systems[..n]);
    LastGroup(plan, systems);
    if i < n {
      GroupAt(plan, systems[..n], i);
      EntryOfInit(before, last, i);
      EntryOfInit(systems[..n], systems[n], i);
      SplitLast(systems);
    }
  }

  lemma EntryOfInit<T>(init: seq<T>, last: T, i: nat)
    requires i < |init|
    ensures (init + [last])[i] == init[i]
  {
  }

  lemma LastGroup(plan: Plan, systems: seq<Id>)
    requires systems != []
    ensures
      var n := |systems| - 1;
      GroupsFor(plan, systems) == GroupsFor(plan, systems[..n]) + [GroupFor(plan, systems[n])]
  {
  }

  /** There is one group for each system, in the same order, and it lists the systems that its actions wait for. */
  lemma GroupIsOfItsSystem(plan: Plan, integrations: set<Id>, i: nat, t: Id)
    requires CoordinationOf(plan, integrations).Success?
    requires i < |CoordinationOf(plan, integrations).value.participating|
    ensures
      var r := CoordinationOf(plan, integrations).value;
      var s := r.participating[i];
      && |r.groups| == |r.participating| && r.groups[i] == GroupFor(plan, s)
      && r.groups[i].groupId == Id("SGRP-" + plan.id.text + "-" + s.text)
      && r.groups[i].system == s && r.groups[i].planId == plan.id && Increasing(r.groups[i].dependsOn)
      && (t in r.groups[i].dependsOn <==> DependsAcross(plan.actions, s, t))
  {
    var systems := SortedIds(Systems(plan.actions));
    SortedIdsListTheSet(Systems(plan.actions));
    assert systems[i] in systems;
    GroupCount(plan, systems);
    GroupAt(plan, systems, i);
    SortedIdsListTheSet(Upstream(plan.actions, Members(plan.actions, systems[i]), systems[i]));
    EdgeIff(plan.actions, systems[i], t);
  }

  /** Three actions in a line, targeting X, then Y, then X again. */
  function ThereAndBack(): Plan {
    var a := Action(Id("1"), 1, Some(Id("X")), []);
    var b := Action(Id("2"), 2, Some(Id("Y")), [a.id]);
    var c := Action(Id("3"), 3, Some(Id("X")), [b.id]);
    Plan(Id("P"), Id("O"), Id("L"), Id("D"), [a, b, c])
  }

  lemma ThereAndBackIds()
    ensures UniqueIds(ThereAndBack().actions) && Missing(ThereAndBack().actions) == {}
    ensures Id("X") != Id("Y")
  {
    var actions := ThereAndBack().actions;
    assert "1"[0] == '1' && "2"[0] == '2' && "3"[0] == '3' && "X"[0] == 'X' && "Y"[0] == 'Y';
    assert actions[0] in actions && actions[1] in actions && actions[2] in actions;
  }

  /** The two engines judge differently: such a line of actions can be ordered but not coordinated. */
  lemma OrderedButNotCoordinated()
    ensures OrderOf(ThereAndBack()).Success?
    ensures forall integrations :: CoordinationOf(ThereAndBack(), integrations) == Failure(CircularSystems)
  {
    var plan := ThereAndBack();
    ThereAndBackIds();
    ThereAndBackRanks();
    OrderIffAcyclic(plan);
    ThereAndBackCircles();
    forall integrations ensures CoordinationOf(plan, integrations) == Failure(CircularSystems) {
      CoordinationIffSystemsAcyclic(plan, integrations);
    }
  }

  lemma ThereAndBackRanks()
    ensures Acyclic(GraphOf(ThereAndBack().actions))
  {
    var actions := ThereAndBack().actions;
    ThereAndBackIds();
    var rank := map[actions[0].id := 0, actions[1].id := 1, actions[2].id := 2];
    forall n | n in GraphOf(actions)
      ensures n in rank && forall d | d in GraphOf(actions)[n] :: d in rank && rank[d] < rank[n]
    {
      var e := GraphOrigin(actions, n);
    }
    RankingMeansAcyclic(GraphOf(actions), rank);
  }

  lemma ThereAndBackCircles()
    ensures !Acyclic(SystemGraph(ThereAndBack().actions))
  {
    var actions := ThereAndBack().actions;
    ThereAndBackIds();
    CrossingIsEdge(actions, actions[1], actions[0]);
    CrossingIsEdge(actions, actions[2], actions[1]);
    assert Cycle(SystemGraph(actions), [Id("Y"), Id("X")]);
  }
}
