/** The historical context of a situation: the pattern and the trend found under its own scope. */
module DecisionContext {
  import opened Wrappers
  import opened Sorting
  import opened Situations
  import opened HistoricalTrends

  /** `direction` is absent where the program says "unknown". */
  datatype Context = Context(
    situation: Id, scope: Scope, occurrences: nat, patternId: Option<Id>, historicalIds: seq<Id>,
    baseline: real, recentFrequency: real, previousFrequency: real, deviation: real, change: real, ratio: Ratio,
    direction: Option<Direction>, averageInterval: Option<real>)

  function Matching<T>(scopeOf: T -> Scope, s: seq<T>, scope: Scope): seq<T> {
    if s == [] then []
    else Matching(scopeOf, s[..|s| - 1], scope) + if scopeOf(s[|s| - 1]) == scope then [s[|s| - 1]] else []
  }

  /** `max` with a key: the first of the greatest elements. */
  function Best<T>(le: (T, T) -> bool, s: seq<T>): T
    requires s != []
  {
    if |s| == 1 then s[0]
    else
      var best := Best(le, s[..|s| - 1]);
      if le(s[|s| - 1], best) then best else s[|s| - 1]
  }

  predicate PatternLe(a: Pattern, b: Pattern) {
    if a.count != b.count then a.count < b.count
    else if a.last != b.last then a.last < b.last
    else IdLe(a.id, b.id)
  }

  predicate TrendLe(a: Trend, b: Trend) {
    if a.total != b.total then a.total < b.total
    else if a.last != b.last then a.last < b.last
    else ScopeLe(a.scope, b.scope)
  }

  function PatternScope(p: Pattern): Scope { p.scope }

  function TrendScope(t: Trend): Scope { t.scope }

  function FindPattern(patterns: seq<Pattern>, scope: Scope): Option<Pattern> {
    var matches := Matching(PatternScope, patterns, scope);
    if matches == [] then None else Some(Best(PatternLe, matches))
  }

  function FindTrend(trends: seq<Trend>, scope: Scope): Option<Trend> {
    var matches := Matching(TrendScope, trends, scope);
    if matches == [] then None else Some(Best(TrendLe, matches))
  }

  function ContextOf(s: Situation, p: Option<Pattern>, t: Option<Trend>): Context {
    var known := Context(
      s.id, s.scope, if p.Some? then p.value.count else 0, if p.Some? then Some(p.value.id) else None,
      if p.Some? then p.value.ids else [], 0.0, 0.0, 0.0, 0.0, 0.0, Finite(1.0), None, None);
    if t.None? then known
    else known.(baseline := t.value.baseline, recentFrequency := t.value.recentFrequency,
                previousFrequency := t.value.previousFrequency, deviation := t.value.deviation,
                change := t.value.change, ratio := t.value.ratio, direction := Some(t.value.direction),
                averageInterval := t.value.averageInterval)
  }

  /** `HistoricalDecisionContextBuilder.build`. */
  function Build(patterns: seq<Pattern>, trends: seq<Trend>, s: Situation): Context {
    ContextOf(s, FindPattern(patterns, s.scope), FindTrend(trends, s.scope))
  }

  // ------------------------------------------------------- each scope has one group

  ghost predicate OnePerScope(groups: seq<Group>) {
    forall i, j | 0 <= i < j < |groups| :: groups[i].scope != groups[j].scope
  }

  function Members(groups: seq<Group>, scope: Scope): seq<Situation> {
    if groups == [] then []
    else if groups[|groups| - 1].scope == scope then groups[|groups| - 1].members
    else Members(groups[..|groups| - 1], scope)
  }

  lemma {:induction false} NoMembers(groups: seq<Group>, scope: Scope)
    requires forall i | 0 <= i < |groups| :: groups[i].scope != scope
    ensures Members(groups, scope) == []
  {
    if groups != [] { NoMembers(groups[..|groups| - 1], scope); }
  }

  lemma MatchingAppend<T>(scopeOf: T -> Scope, s: seq<T>, x: T, scope: Scope)
    ensures Matching(scopeOf, s + [x], scope) == Matching(scopeOf, s, scope) + if scopeOf(x) == scope then [x] else []
  {
    assert (s + [x])[..|s|] == s;
  }

  lemma {:induction false} OnePattern(name: (Scope, seq<Id>) -> Id, groups: seq<Group>, scope: Scope)
    requires OnePerScope(groups)
    ensures
      var g := Members(groups, scope);
      Matching(PatternScope, PatternsFor(name, groups), scope) == if |g| < 2 then [] else [PatternOf(name, scope, g)]
  {
    if groups != [] {
      var n := |groups| - 1;
      OnePattern(name, groups[..n], scope);
      if groups[n].scope == scope { NoMembers(groups[..n], scope); }
      var before := PatternsFor(name, groups[..n]);
      if |groups[n].members| < 2 {
        assert PatternsFor(name, groups) == before;
      } else {
        var p := PatternOf(name, groups[n].scope, groups[n].members);
        assert PatternsFor(name, groups) == before + [p];
        MatchingAppend(PatternScope, before, p, scope);
      }
    }
  }

  lemma {:induction false} OneTrend(c: Setting, groups: seq<Group>, scope: Scope)
    requires Allowed(c) && OnePerScope(groups)
    ensures
      var g := Members(groups, scope);
      Matching(TrendScope, TrendsFor(c, groups), scope) == if g == [] then [] else [TrendOf(c, scope, g)]
  {
    if groups != [] {
      var n := |groups| - 1;
      OneTrend(c, groups[..n], scope);
      if groups[n].scope == scope { NoMembers(groups[..n], scope); }
      var before := TrendsFor(c, groups[..n]);
      if groups[n].members == [] {
        assert TrendsFor(c, groups) == before;
      } else {
        var t := TrendOf(c, groups[n].scope, groups[n].members);
        assert TrendsFor(c, groups) == before + [t];
        MatchingAppend(TrendScope, before, t, scope);
      }
    }
  }

  lemma {:induction false} MembersAreHistory(history: Scope -> seq<Situation>, scopes: seq<Scope>, scope: Scope)
    ensures Members(GroupsFor(history, scopes), scope) == if scope in scopes then history(scope) else []
  {
    if scopes != [] {
      var n := |scopes| - 1;
      MembersAreHistory(history, scopes[..n], scope);
      var before := GroupsFor(history, scopes[..n]);
      assert GroupsFor(history, scopes)[..|before|] == before;
      assert scopes == scopes[..n] + [scopes[n]];
    }
  }

  lemma GroupsAreSound(items: seq<Situation>, scope: Scope)
    ensures OnePerScope(Groups(items)) && Members(Groups(items), scope) == History(items, scope)
  {
    ScopeOrderLists(items, scope);
    GroupsAreHistories(HistoryIn(items), ScopeOrder(items));
    MembersAreHistory(HistoryIn(items), ScopeOrder(items), scope);
  }

  /** The pattern and the trend of one history, where it has two members, or one. */
  function ContextFrom(c: Setting, name: (Scope, seq<Id>) -> Id, s: Situation, g: seq<Situation>): Context
    requires c.window > 0
  {
    ContextOf(s,
              if |g| < 2 then None else Some(PatternOf(name, s.scope, g)),
              if g == [] then None else Some(TrendOf(c, s.scope, g)))
  }

  /**
   Built from what the two detectors report on a list of situations, a context speaks of the situation's own
   group: the pattern parts are those of its history if that has two members, and otherwise empty; the trend
   parts are those of its history if there is one, and otherwise "unknown".
   */
  lemma {:induction false} ContextSpeaksOfItsGroup(c: Setting, name: (Scope, seq<Id>) -> Id, items: seq<Situation>,
      s: Situation)
    requires Allowed(c)
    ensures Build(PatternsFor(name, Groups(items)), TrendsFor(c, Groups(items)), s)
        == ContextFrom(c, name, s, History(items, s.scope))
  {
    GroupsAreSound(items, s.scope);
    OnePattern(name, Groups(items), s.scope);
    OneTrend(c, Groups(items), s.scope);
  }

  /**
   So count, situations and average interval of such a context are those of the history, which fixes them by its
   ends.
   */
  lemma ContextCountsItsGroup(c: Setting, name: (Scope, seq<Id>) -> Id, s: Situation, g: seq<Situation>)
    requires Allowed(c)
    ensures
      var context := ContextFrom(c, name, s, g);
      && context.occurrences == (if |g| < 2 then 0 else |g|) == |context.historicalIds|
      && (forall i | 0 <= i < |context.historicalIds| :: context.historicalIds[i] == g[i].id)
      && (context.direction == None <==> g == [])
      && (context.averageInterval ==
            if |g| < 2 then None else Some((g[|g| - 1].detectedAt - g[0].detectedAt) as real / (|g| - 1) as real))
  {
    if g != [] { IntervalsTelescope(g); }
  }

  // ------------------------------------------------------- what a context takes from where

  /** With a trend, the context has each of its numbers in its own place; without one it has the defaults. */
  lemma ContextMeans(c: Setting, name: (Scope, seq<Id>) -> Id, s: Situation, g: seq<Situation>)
    requires Allowed(c)
    ensures
      var context := ContextFrom(c, name, s, g);
      && context.situation == s.id && context.scope == s.scope
      && context.patternId == (if |g| < 2 then None else Some(name(s.scope, context.historicalIds)))
      && (g == [] ==>
            && context.baseline == context.recentFrequency == context.previousFrequency == 0.0
            && context.deviation == context.change == 0.0 && context.ratio == Finite(1.0)
            && context.direction == None && context.averageInterval == None)
      && (g != [] ==>
            var t := TrendOf(c, s.scope, g);
            && context.baseline == t.baseline && context.recentFrequency == t.recentFrequency
            && context.previousFrequency == t.previousFrequency && context.deviation == t.deviation
            && context.change == t.change && context.ratio == t.ratio && context.direction == Some(t.direction)
            && context.averageInterval == t.averageInterval)
  {
  }

  lemma {:induction false} MatchingHas<T>(scopeOf: T -> Scope, s: seq<T>, scope: Scope, x: T)
    ensures x in Matching(scopeOf, s, scope) <==> x in s && scopeOf(x) == scope
  {
    if s != [] {
      MatchingHas(scopeOf, s[..|s| - 1], scope, x);
      assert s == s[..|s| - 1] + [s[|s| - 1]];
    }
  }

  lemma {:induction false} BestIsGreatest<T(!new)>(le: (T, T) -> bool, s: seq<T>)
    requires TotalPreorder(le) && s != []
    ensures Best(le, s) in s && forall x | x in s :: le(x, Best(le, s))
  {
    var n := |s| - 1;
    assert s == s[..n] + [s[n]];
    assert le(s[n], s[n]);
    if n > 0 {
      BestIsGreatest(le, s[..n]);
      assert le(s[n], Best(le, s[..n])) || le(Best(le, s[..n]), s[n]);
    }
  }

  /** More occurrences, or as many and a later last one, or both equal and the greater id. */
  ghost predicate PatternBelow(a: Pattern, b: Pattern) {
    || a.count < b.count
    || (a.count == b.count && a.last < b.last)
    || (a.count == b.count && a.last == b.last && IdLe(a.id, b.id))
  }

  ghost predicate TrendBelow(a: Trend, b: Trend) {
    || a.total < b.total
    || (a.total == b.total && a.last < b.last)
    || (a.total == b.total && a.last == b.last && TextsLe(a.scope, b.scope))
  }

  lemma PatternLeTotal()
    ensures TotalPreorder(PatternLe)
  {
    forall a, b ensures PatternLe(a, b) || PatternLe(b, a) { IdLeLinear(a.id, b.id, b.id); }
    forall a, b, c | PatternLe(a, b) && PatternLe(b, c) ensures PatternLe(a, c) { IdLeLinear(a.id, b.id, c.id); }
  }

  lemma TrendLeTotal()
    ensures TotalPreorder(TrendLe)
  {
    forall a, b ensures TrendLe(a, b) || TrendLe(b, a) { ScopeLeOrders(a.scope, b.scope, b.scope); }
    forall a, b, c | TrendLe(a, b) && TrendLe(b, c) ensures TrendLe(a, c) {
      ScopeLeOrders(a.scope, b.scope, c.scope);
    }
  }

  /**
   Whatever patterns and trends a builder is given: it takes the greatest of those whose four scope parts equal the
   situation's, by count, then last occurrence, then id or scope; and none exactly if there is none.
   */
  lemma BuildPicksGreatest(patterns: seq<Pattern>, trends: seq<Trend>, scope: Scope)
    ensures
      match FindPattern(patterns, scope)
      case None => forall p | p in patterns :: p.scope != scope
      case Some(best) =>
        best in patterns && best.scope == scope && forall p | p in patterns && p.scope == scope :: PatternBelow(p, best)
    ensures
      match FindTrend(trends, scope)
      case None => forall t | t in trends :: t.scope != scope
      case Some(best) =>
        best in trends && best.scope == scope && forall t | t in trends && t.scope == scope :: TrendBelow(t, best)
  {
    forall p ensures p in Matching(PatternScope, patterns, scope) <==> p in patterns && p.scope == scope {
      MatchingHas(PatternScope, patterns, scope, p);
    }
    forall t ensures t in Matching(TrendScope, trends, scope) <==> t in trends && t.scope == scope {
      MatchingHas(TrendScope, trends, scope, t);
    }
    if Matching(PatternScope, patterns, scope) != [] {
      PatternLeTotal();
      BestIsGreatest(PatternLe, Matching(PatternScope, patterns, scope));
    }
    if Matching(TrendScope, trends, scope) != [] {
      TrendLeTotal();
      BestIsGreatest(TrendLe, Matching(TrendScope, trends, scope));
      var best := Best(TrendLe, Matching(TrendScope, trends, scope));
      forall t | t in trends && t.scope == scope ensures TrendBelow(t, best) {
        if TrendLe(t, best) && t.total == best.total && t.last == best.last { ScopeLeMeans(t.scope, best.scope); }
      }
    }
  }
}
