/** The multi-action execution plan that the ordering, coordination and scheduling engines read. */
module Plans {
  import opened Wrappers
  import opened Layering

  datatype Action = Action(id: Id, sequence: nat, system: Option<Id>, dependencies: seq<Id>)

  datatype Plan = Plan(id: Id, orchestrationId: Id, planId: Id, decisionId: Id, actions: seq<Action>)

  /** The constructor's check that no two actions share an id. */
  ghost predicate UniqueIds(actions: seq<Action>) {
    forall i, j | 0 <= i < j < |actions| :: actions[i].id != actions[j].id
  }

  function Ids(actions: seq<Action>): set<Id> {
    set a | a in actions :: a.id
  }

  function DependencySet(a: Action): set<Id> {
    set d | d in a.dependencies
  }

  /** Dependencies that name no action of the plan. */
  function Missing(actions: seq<Action>): set<Id> {
    set a, d | a in actions && d in a.dependencies && d !in Ids(actions) :: d
  }

  /** Each action id with the set of its dependencies; a repeated id keeps its last entry. */
  function GraphOf(actions: seq<Action>): Graph {
    if actions == [] then map[] else
      var last := actions[|actions| - 1];
      GraphOf(actions[..|actions| - 1])[last.id := DependencySet(last)]
  }

  lemma {:induction false} GraphKeys(actions: seq<Action>)
    ensures GraphOf(actions).Keys == Ids(actions)
  {
    if actions != [] {
      var init, last := actions[..|actions| - 1], actions[|actions| - 1];
      GraphKeys(init);
      assert actions == init + [last];
      assert Ids(actions) == Ids(init) + {last.id};
    }
  }

  lemma {:induction false} GraphOrigin(actions: seq<Action>, n: Id) returns (a: Action)
    requires n in GraphOf(actions)
    ensures a in actions && a.id == n && GraphOf(actions)[n] == DependencySet(a)
  {
    var last := actions[|actions| - 1];
    if n == last.id { a := last; } else { a := GraphOrigin(actions[..|actions| - 1], n); }
  }

  /** `len(action_lookup) != len(actions)` is a test for repeated ids. */
  lemma {:induction false} IdCountIsUniqueness(actions: seq<Action>)
    ensures |Ids(actions)| <= |actions|
    ensures |Ids(actions)| == |actions| <==> UniqueIds(actions)
  {
    if actions != [] {
      var n := |actions| - 1;
      var init, last := actions[..n], actions[n];
      IdCountIsUniqueness(init);
      assert actions == init + [last];
      assert Ids(actions) == Ids(init) + {last.id};
      if last.id in Ids(init) {
        assert Ids(actions) == Ids(init);
        var i :| 0 <= i < n && actions[i].id == last.id;
      }
    }
  }

  lemma GraphEntry(actions: seq<Action>, a: Action)
    requires UniqueIds(actions) && a in actions
    ensures a.id in GraphOf(actions) && GraphOf(actions)[a.id] == DependencySet(a)
  {
    GraphKeys(actions);
    var b := GraphOrigin(actions, a.id);
  }

  lemma MissingInGraph(actions: seq<Action>)
    requires UniqueIds(actions)
    ensures Missing(actions) == set n, d | n in GraphOf(actions) && d in GraphOf(actions)[n]
        && d !in GraphOf(actions) :: d
  {
    var g := GraphOf(actions);
    GraphKeys(actions);
    forall d | d in Missing(actions) ensures exists n :: n in g && d in g[n] {
      var a :| a in actions && d in a.dependencies && d !in Ids(actions);
      GraphEntry(actions, a);
    }
    forall n, d | n in g && d in g[n] && d !in g ensures d in Missing(actions) {
      var a := GraphOrigin(actions, n);
    }
  }

  lemma GraphClosed(actions: seq<Action>)
    requires Missing(actions) == {}
    ensures Closed(GraphOf(actions))
  {
    var g := GraphOf(actions);
    GraphKeys(actions);
    forall n, d | n in g && d in g[n] ensures d in g {
      var a := GraphOrigin(actions, n);
      assert d !in g ==> d in Missing(actions);
    }
  }

  /** The actions as a set of ids with dependency sets: their order, numbering and systems forgotten. */
  function Work(actions: seq<Action>): set<(Id, set<Id>)> {
    set a | a in actions :: (a.id, DependencySet(a))
  }

  lemma SameWorkSameGraph(p: seq<Action>, q: seq<Action>)
    requires UniqueIds(p) && UniqueIds(q) && Work(p) == Work(q)
    ensures GraphOf(p) == GraphOf(q)
  {
    GraphWithin(p, q);
    GraphWithin(q, p);
  }

  lemma GraphWithin(p: seq<Action>, q: seq<Action>)
    requires UniqueIds(q) && Work(p) <= Work(q)
    ensures forall n | n in GraphOf(p) :: n in GraphOf(q) && GraphOf(q)[n] == GraphOf(p)[n]
  {
    forall n | n in GraphOf(p) ensures n in GraphOf(q) && GraphOf(q)[n] == GraphOf(p)[n] {
      var a := GraphOrigin(p, n);
      assert (a.id, DependencySet(a)) in Work(q);
      var b :| b in q && (b.id, DependencySet(b)) == (a.id, DependencySet(a));
      GraphEntry(q, b);
    }
  }
}
