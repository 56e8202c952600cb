/**
 Level-by-level ordering of a dependency graph (Kahn's algorithm). The repository writes this
 loop three times: twice over the actions of a plan and once over the systems that take part
 in it. The functions here are the specification of all three loops; the lemmas say what
 the levels mean in terms of dependency chains and cycles alone.
 */
module Layering {
  import opened Wrappers


  /** Every node with the set of nodes it depends on. */
  type Graph = map<Id, set<Id>>

  ghost predicate Closed(g: Graph) {
    forall n | n in g :: g[n] <= g.Keys
  }

  /** What one round of the loop releases. */
  function Ready(g: Graph, done: set<Id>): set<Id> {
    set n | n in g && n !in done && g[n] <= done
  }

  /** All rounds until nothing more is released. */
  function Layers(g: Graph, done: set<Id>): (r: seq<set<Id>>)
    decreases |g.Keys - done|
  {
    var now := Ready(g, done);
    if now == {} then [] else
      ReadyShrinks(g, done);
      [now] + Layers(g, done + now)
  }

  lemma ReadyShrinks(g: Graph, done: set<Id>)
    requires Ready(g, done) != {}
    ensures |g.Keys - (done + Ready(g, done))| < |g.Keys - done|
  {
    var now := Ready(g, done);
    assert g.Keys - done == (g.Keys - (done + now)) + now;
  }

  function Union(ls: seq<set<Id>>): set<Id> {
    if ls == [] then {} else ls[0] + Union(ls[1..])
  }

  /** The nodes no round ever releases. */
  function Stuck(g: Graph): set<Id> {
    g.Keys - Union(Layers(g, {}))
  }

  // ------------------------------------------------------- chains, cycles, rankings

  /** A path in which every node depends on the one before it. */
  ghost predicate Chain(g: Graph, p: seq<Id>) {
    && (forall i | 0 <= i < |p| :: p[i] in g)
    && (forall i | 0 < i < |p| :: p[i - 1] in g[p[i]])
  }

  ghost predicate ChainTo(g: Graph, p: seq<Id>, n: Id) {
    p != [] && Chain(g, p) && p[|p| - 1] == n
  }

  ghost predicate Cycle(g: Graph, c: seq<Id>) {
    c != [] && Chain(g, c) && c[|c| - 1] in g[c[0]]
  }

  ghost predicate Acyclic(g: Graph) {
    forall c :: !Cycle(g, c)
  }

  /** Every node of `t` waits for another node of `t`. */
  ghost predicate Deadlocked(g: Graph, t: set<Id>) {
    t <= g.Keys && forall n | n in t :: g[n] * t != {}
  }

  /** An assignment of levels under which every dependency is strictly earlier. */
  ghost predicate Ranking(g: Graph, rank: map<Id, nat>) {
    forall n | n in g :: n in rank && forall d | d in g[n] :: d in rank && rank[d] < rank[n]
  }

  // ------------------------------------------------------- shape of the levels

  lemma {:induction false} UnionContains(ls: seq<set<Id>>, k: nat)
    requires k < |ls|
    ensures ls[k] <= Union(ls)
  {
    if k > 0 { UnionContains(ls[1..], k - 1); }
  }

  lemma {:induction false} UnionPick(ls: seq<set<Id>>, n: Id) returns (k: nat)
    requires n in Union(ls)
    ensures k < |ls| && n in ls[k]
  {
    if n in ls[0] { k := 0; } else { k := UnionPick(ls[1..], n); k := k + 1; }
  }

  lemma {:induction false} UnionAppend(ls: seq<set<Id>>, s: set<Id>)
    ensures Union(ls + [s]) == Union(ls) + s
  {
    if ls == [] {
      assert ls + [s] == [s];
    } else {
      assert (ls + [s])[1..] == ls[1..] + [s];
      UnionAppend(ls[1..], s);
    }
  }

  lemma UnionTake(s: set<Id>, ls: seq<set<Id>>, k: nat)
    requires 0 < k <= |ls| + 1
    ensures Union(([s] + ls)[..k]) == s + Union(ls[..k - 1])
  {
    assert ([s] + ls)[..k] == [s] + ls[..k - 1];
    assert ([s] + ls[..k - 1])[1..] == ls[..k - 1];
  }

  lemma {:induction false} LayersWithin(g: Graph, done: set<Id>)
    ensures Union(Layers(g, done)) <= g.Keys - done
    decreases |g.Keys - done|
  {
    var now := Ready(g, done);
    if now != {} {
      ReadyShrinks(g, done);
      LayersWithin(g, done + now);
    }
  }

  /** A node of level k waits for nothing outside the earlier levels; a later lemma adds: for level k-1. */
  lemma {:induction false} LevelNeeds(g: Graph, done: set<Id>, k: nat, n: Id)
    requires k < |Layers(g, done)| && n in Layers(g, done)[k]
    ensures n in g && n !in done && n !in Union(Layers(g, done)[..k])
    ensures g[n] <= done + Union(Layers(g, done)[..k])
    decreases k
  {
    var now := Ready(g, done);
    if k > 0 {
      var rest := Layers(g, done + now);
      ReadyShrinks(g, done);
      LevelNeeds(g, done + now, k - 1, n);
      UnionTake(now, rest, k);
    }
  }

  lemma {:induction false} LevelNeedsPrevious(g: Graph, done: set<Id>, k: nat, n: Id)
    requires 0 < k < |Layers(g, done)| && n in Layers(g, done)[k]
    ensures n in g && g[n] * Layers(g, done)[k - 1] != {}
    decreases k
  {
    var now := Ready(g, done);
    ReadyShrinks(g, done);
    if k == 1 {
      assert n in Ready(g, done + now) && n !in now;
      var d :| d in g[n] && d !in done;
      assert d in g[n] * now;
    } else {
      LevelNeedsPrevious(g, done + now, k - 1, n);
    }
  }

  /** A deadlocked set is never released. */
  lemma {:induction false} DeadlockedNeverReleased(g: Graph, done: set<Id>, t: set<Id>)
    requires Deadlocked(g, t) && t !! done
    ensures t !! Union(Layers(g, done))
    decreases |g.Keys - done|
  {
    var now := Ready(g, done);
    if now != {} {
      forall n | n in t ensures n !in now {
        var d :| d in g[n] * t;
        assert d !in done;
      }
      ReadyShrinks(g, done);
      DeadlockedNeverReleased(g, done + now, t);
    }
  }

  lemma {:induction false} NothingReadyAtTheEnd(g: Graph, done: set<Id>)
    ensures Ready(g, done + Union(Layers(g, done))) == {}
    decreases |g.Keys - done|
  {
    var now := Ready(g, done);
    if now == {} {
      assert done + {} == done;
    } else {
      ReadyShrinks(g, done);
      NothingReadyAtTheEnd(g, done + now);
      assert done + now + Union(Layers(g, done + now)) == done + Union(Layers(g, done));
    }
  }

  // ------------------------------------------------------- the loop

  /** What every round of the source's loop keeps: the rounds so far are a prefix of the levels. */
  ghost predicate Progress(g: Graph, rounds: seq<set<Id>>, done: set<Id>) {
    && done == Union(rounds)
    && done <= g.Keys
    && Layers(g, {}) == rounds + Layers(g, done)
  }

  lemma Reassociate<T>(a: seq<T>, x: T, b: seq<T>)
    ensures a + ([x] + b) == (a + [x]) + b
  {
  }

  lemma ProgressStarts(g: Graph)
    ensures Progress(g, [], {})
  {
    assert [] + Layers(g, {}) == Layers(g, {});
  }

  lemma ProgressStep(g: Graph, rounds: seq<set<Id>>, done: set<Id>)
    requires Progress(g, rounds, done) && Ready(g, done) != {}
    ensures Progress(g, rounds + [Ready(g, done)], done + Ready(g, done))
  {
    var now := Ready(g, done);
    ReadyShrinks(g, done);
    UnionAppend(rounds, now);
    Reassociate(rounds, now, Layers(g, done + now));
  }

  lemma ProgressEnds(g: Graph, rounds: seq<set<Id>>, done: set<Id>)
    requires Progress(g, rounds, done) && Ready(g, done) == {}
    ensures rounds == Layers(g, {}) && g.Keys - done == Stuck(g)
  {
    assert rounds + [] == rounds;
  }

  // ------------------------------------------------------- main results

  /** What is left over is the greatest set in which every node waits for another of the set. */
  lemma StuckIsGreatestDeadlock(g: Graph)
    requires Closed(g)
    ensures Deadlocked(g, Stuck(g))
    ensures forall t :: Deadlocked(g, t) ==> t <= Stuck(g)
  {
    var stuck, released := Stuck(g), Union(Layers(g, {}));
    NothingReadyAtTheEnd(g, {});
    assert {} + released == released;
    forall n | n in stuck ensures g[n] * stuck != {} {
      assert n !in Ready(g, released);
      var d :| d in g[n] && d !in released;
      assert d in g[n] * stuck;
    }
    forall t | Deadlocked(g, t) ensures t <= stuck {
      DeadlockedNeverReleased(g, {}, t);
    }
  }

  /** The loop releases every node exactly when the dependencies have no cycle. */
  lemma CompleteIffAcyclic(g: Graph)
    requires Closed(g)
    ensures Stuck(g) == {} <==> Acyclic(g)
  {
    StuckIsGreatestDeadlock(g);
    if c :| Cycle(g, c) {
      CycleIsDeadlocked(g, c);
      assert c[0] in (set n | n in c);
    }
    if Stuck(g) != {} {
      var c := DeadlockHasCycle(g, Stuck(g));
    }
  }

  lemma CycleIsDeadlocked(g: Graph, c: seq<Id>)
    requires Cycle(g, c)
    ensures Deadlocked(g, set n | n in c)
  {
    var t := set n | n in c;
    forall n | n in t ensures g[n] * t != {} {
      var i :| 0 <= i < |c| && c[i] == n;
      var d := if i == 0 then c[|c| - 1] else c[i - 1];
      assert d in g[n] * t;
    }
  }

  lemma DeadlockHasCycle(g: Graph, t: set<Id>) returns (c: seq<Id>)
    requires Deadlocked(g, t) && t != {}
    ensures Cycle(g, c) && forall n | n in c :: n in t
  {
    var p := WalkBack(g, t, |t| + 1);
    var i, j := Pigeonhole(p, t);
    c := p[i..j];
    forall k | 0 < k < |c| ensures c[k - 1] in g[c[k]] {
      assert c[k] == p[i + k] && c[k - 1] == p[i + k - 1];
    }
    assert c[|c| - 1] == p[j - 1] && c[0] == p[j];
  }

  lemma {:induction false} WalkBack(g: Graph, t: set<Id>, len: nat) returns (p: seq<Id>)
    requires Deadlocked(g, t) && t != {} && len > 0
    ensures |p| == len && Chain(g, p) && forall n | n in p :: n in t
  {
    if len == 1 {
      var n :| n in t;
      p := [n];
    } else {
      var q := WalkBack(g, t, len - 1);
      assert q[0] in t;
      var d :| d in g[q[0]] * t;
      p := [d] + q;
    }
  }

  lemma {:induction false} Pigeonhole(p: seq<Id>, t: set<Id>) returns (i: nat, j: nat)
    requires |p| > |t| && forall n | n in p :: n in t
    ensures i < j < |p| && p[i] == p[j]
  {
    assert p[0] in t;
    if k :| 0 < k < |p| && p[k] == p[0] {
      i, j := 0, k;
    } else {
      i, j := Pigeonhole(p[1..], t - {p[0]});
      i, j := i + 1, j + 1;
    }
  }

  /** A node's level is the length of its longest dependency chain (counting from zero). */
  lemma LevelIsLongestChain(g: Graph, k: nat, n: Id)
    requires k < |Layers(g, {})| && n in Layers(g, {})[k]
    ensures exists p :: ChainTo(g, p, n) && |p| == k + 1
    ensures forall p :: ChainTo(g, p, n) ==> |p| <= k + 1
  {
    var p := ChainOfLevel(g, k, n);
    forall q | ChainTo(g, q, n) ensures |q| <= k + 1 {
      ChainBoundedByLevel(g, k, n, q);
    }
  }

  lemma {:induction false} ChainOfLevel(g: Graph, k: nat, n: Id) returns (p: seq<Id>)
    requires k < |Layers(g, {})| && n in Layers(g, {})[k]
    ensures ChainTo(g, p, n) && |p| == k + 1
    decreases k
  {
    LevelNeeds(g, {}, k, n);
    if k == 0 {
      p := [n];
    } else {
      LevelNeedsPrevious(g, {}, k, n);
      var d :| d in g[n] * Layers(g, {})[k - 1];
      var q := ChainOfLevel(g, k - 1, d);
      p := q + [n];
    }
  }

  lemma {:induction false} ChainBoundedByLevel(g: Graph, k: nat, n: Id, p: seq<Id>)
    requires k < |Layers(g, {})| && n in Layers(g, {})[k]
    requires ChainTo(g, p, n)
    ensures |p| <= k + 1
    decreases k
  {
    if |p| > 1 {
      LevelNeeds(g, {}, k, n);
      var d, q := p[|p| - 2], p[..|p| - 1];
      var j := UnionPick(Layers(g, {})[..k], d);
      ChainBoundedByLevel(g, j, d, q);
    }
  }

  /** No other way of respecting the dependencies puts a node on an earlier level. */
  lemma LevelIsMinimal(g: Graph, k: nat, n: Id, rank: map<Id, nat>)
    requires k < |Layers(g, {})| && n in Layers(g, {})[k]
    requires Ranking(g, rank)
    ensures n in rank && rank[n] >= k
  {
    var p := ChainOfLevel(g, k, n);
    RankClimbs(g, p, rank);
  }

  lemma {:induction false} RankClimbs(g: Graph, p: seq<Id>, rank: map<Id, nat>)
    requires p != [] && Chain(g, p) && Ranking(g, rank)
    ensures p[0] in rank && p[|p| - 1] in rank && rank[p[|p| - 1]] >= rank[p[0]] + |p| - 1
  {
    if |p| > 1 {
      RankClimbs(g, p[..|p| - 1], rank);
      assert p[..|p| - 1][0] == p[0];
    }
  }

  lemma RankingMeansAcyclic(g: Graph, rank: map<Id, nat>)
    requires Ranking(g, rank)
    ensures Acyclic(g)
  {
    forall c ensures !Cycle(g, c) {
      if c != [] && Chain(g, c) { RankClimbs(g, c, rank); }
    }
  }

  // ------------------------------------------------------- positions

  /** Every released node has exactly one level, and its dependencies lie strictly below. */
  lemma DependencyIsEarlier(g: Graph, k: nat, n: Id, d: Id) returns (j: nat)
    requires k < |Layers(g, {})| && n in Layers(g, {})[k] && n in g && d in g[n]
    ensures j < k && d in Layers(g, {})[j]
  {
    LevelNeeds(g, {}, k, n);
    j := UnionPick(Layers(g, {})[..k], d);
  }

  function LevelOf(ls: seq<set<Id>>, n: Id): nat {
    if ls == [] || n in ls[0] then 0 else 1 + LevelOf(ls[1..], n)
  }

  lemma {:induction false} LevelOfFound(ls: seq<set<Id>>, n: Id)
    requires n in Union(ls)
    ensures LevelOf(ls, n) < |ls| && n in ls[LevelOf(ls, n)]
  {
    if n !in ls[0] { LevelOfFound(ls[1..], n); }
  }

  lemma {:induction false} LevelOfFirst(ls: seq<set<Id>>, n: Id, j: nat)
    requires j < |ls| && n in ls[j]
    ensures LevelOf(ls, n) <= j
  {
    if n !in ls[0] { LevelOfFirst(ls[1..], n, j - 1); }
  }

  /** When everything is released, the levels are themselves a ranking. */
  lemma LevelsAreRanking(g: Graph) returns (rank: map<Id, nat>)
    requires Closed(g) && Stuck(g) == {}
    ensures Ranking(g, rank) && rank.Keys == g.Keys
  {
    var ls := Layers(g, {});
    rank := map n | n in g :: LevelOf(ls, n);
    forall n, d | n in g && d in g[n] ensures d in rank && rank[d] < rank[n] {
      LevelOfFound(ls, n);
      var j := DependencyIsEarlier(g, LevelOf(ls, n), n, d);
      LevelOfFirst(ls, d, j);
    }
  }
}
