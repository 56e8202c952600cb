/** Operational situations in time order, grouped by what they are about. */
module Situations {
  import opened Wrappers
  import opened Sorting

  datatype Scope = Scope(situationType: Id, organization: Option<Id>, user: Option<Id>, system: Option<Id>)

  /** Times are in microseconds. */
  datatype Situation = Situation(id: Id, scope: Scope, detectedAt: int)

  predicate SituationLe(a: Situation, b: Situation) {
    if a.detectedAt != b.detectedAt then a.detectedAt < b.detectedAt else IdLe(a.id, b.id)
  }

  function TextOf(o: Option<Id>): Id { if o.Some? then o.value else Id("") }

  /** The sort key of a group: an absent part counts as the empty text. */
  predicate ScopeLe(a: Scope, b: Scope) {
    if a.situationType != b.situationType then IdLe(a.situationType, b.situationType)
    else if TextOf(a.organization) != TextOf(b.organization) then IdLe(TextOf(a.organization), TextOf(b.organization))
    else if TextOf(a.user) != TextOf(b.user) then IdLe(TextOf(a.user), TextOf(b.user))
    else IdLe(TextOf(a.system), TextOf(b.system))
  }

  lemma SituationLeTotal()
    ensures TotalPreorder(SituationLe)
  {
    forall a, b ensures SituationLe(a, b) || SituationLe(b, a) { LexLeTotal(a.id.text, b.id.text); }
    forall a, b, c | SituationLe(a, b) && SituationLe(b, c) ensures SituationLe(a, c) {
      if a.detectedAt == b.detectedAt == c.detectedAt { LexLeTransitive(a.id.text, b.id.text, c.id.text); }
    }
  }

  // ------------------------------------------------------- groups

  /** The situations of one scope, in the order of the list. */
  function Occurrences(items: seq<Situation>, scope: Scope): seq<Situation> {
    if items == [] then []
    else
      var last := items[|items| - 1];
      Occurrences(items[..|items| - 1], scope) + if last.scope == scope then [last] else []
  }

  /** The scopes in the order of their first situation: the insertion order of the dictionary. */
  function FirstScopes(items: seq<Situation>): seq<Scope> {
    if items == [] then []
    else
      var before := FirstScopes(items[..|items| - 1]);
      if items[|items| - 1].scope in before then before else before + [items[|items| - 1].scope]
  }

  function ScopeOrder(items: seq<Situation>): seq<Scope> {
    Sort(ScopeLe, FirstScopes(Sort(SituationLe, items)))
  }

  /** The situations of one scope in time order. */
  function History(items: seq<Situation>, scope: Scope): seq<Situation> {
    Sort(SituationLe, Occurrences(Sort(SituationLe, items), scope))
  }

  lemma {:induction false} ScopesListed(items: seq<Situation>, scope: Scope)
    ensures scope in FirstScopes(items) <==> Occurrences(items, scope) != []
    ensures forall x | x in Occurrences(items, scope) :: x.scope == scope
  {
    if items != [] { ScopesListed(items[..|items| - 1], scope); }
  }

  ghost predicate Distinct(scopes: seq<Scope>) {
    forall i, j | 0 <= i < j < |scopes| :: scopes[i] != scopes[j]
  }

  lemma {:induction false} ScopesDistinct(items: seq<Situation>)
    ensures Distinct(FirstScopes(items))
  {
    if items != [] { ScopesDistinct(items[..|items| - 1]); }
  }

  /** The loop that fills the groups. */
  method GroupByScope(items: seq<Situation>) returns (groups: map<Scope, seq<Situation>>, order: seq<Scope>)
    ensures order == FirstScopes(items)
    ensures forall k :: k in groups <==> k in order
    ensures forall k | k in groups :: groups[k] == Occurrences(items, k) != []
  {
    groups, order := map[], [];
    var i := 0;
    while i < |items|
      invariant 0 <= i <= |items|
      invariant order == FirstScopes(items[..i])
      invariant forall k :: k in groups <==> k in order
      invariant forall k | k in groups :: groups[k] == Occurrences(items[..i], k) != []
      invariant forall k: Scope :: k !in order ==> Occurrences(items[..i], k) == []
    {
      var scope := items[i].scope;
      assert items[..i + 1][..i] == items[..i];
      if scope !in groups {
        groups := groups[scope := []];
        order := order + [scope];
      }
      groups := groups[scope := groups[scope] + [items[i]]];
      i := i + 1;
    }
    assert items[..i] == items;
  }

  /** What the detectors work on: a scope and its situations in time order. */
  datatype Group = Group(scope: Scope, members: seq<Situation>)

  function GroupsFor(history: Scope -> seq<Situation>, scopes: seq<Scope>): seq<Group> {
    if scopes == [] then []
    else GroupsFor(history, scopes[..|scopes| - 1]) + [Group(scopes[|scopes| - 1], history(scopes[|scopes| - 1]))]
  }

  function HistoryIn(situations: seq<Situation>): Scope -> seq<Situation> { scope => History(situations, scope) }

  function Groups(situations: seq<Situation>): seq<Group> { GroupsFor(HistoryIn(situations), ScopeOrder(situations)) }

  /** The loop over the sorted groups, each of which is sorted again. */
  method SortEach(byScope: map<Scope, seq<Situation>>, scopes: seq<Scope>, ghost history: Scope -> seq<Situation>)
    returns (groups: seq<Group>)
    requires forall k | k in scopes :: k in byScope && byScope[k] != [] && Sort(SituationLe, byScope[k]) == history(k)
    ensures groups == GroupsFor(history, scopes)
    ensures forall g | g in groups :: g.members != []
  {
    groups := [];
    for i := 0 to |scopes|
      invariant groups == GroupsFor(history, scopes[..i])
      invariant forall g | g in groups :: g.members != []
    {
      assert scopes[..i + 1][..i] == scopes[..i];
      var ordered := Sort(SituationLe, byScope[scopes[i]]);
      SortLength(SituationLe, byScope[scopes[i]]);
      groups := groups + [Group(scopes[i], ordered)];
    }
    assert scopes[..|scopes|] == scopes;
  }

  /** Both detectors start like this: sort the situations, group them, sort the groups by scope and each by time. */
  method SortedGroups(situations: seq<Situation>) returns (groups: seq<Group>)
    ensures groups == Groups(situations)
    ensures forall g | g in groups :: g.members != []
  {
    var byScope, first := GroupByScope(Sort(SituationLe, situations));
    var scopes := Sort(ScopeLe, first);
    SameElements(first, scopes);
    groups := SortEach(byScope, scopes, HistoryIn(situations));
  }

  lemma {:induction false} GroupsAreHistories(history: Scope -> seq<Situation>, scopes: seq<Scope>)
    ensures |GroupsFor(history, scopes)| == |scopes|
    ensures forall i | 0 <= i < |scopes| :: GroupsFor(history, scopes)[i] == Group(scopes[i], history(scopes[i]))
  {
    if scopes != [] { GroupsAreHistories(history, scopes[..|scopes| - 1]); }
  }

  /** The sizes of the listed groups, added up. */
  function SizeOf(scopes: seq<Scope>, items: seq<Situation>): nat {
    if scopes == [] then 0 else SizeOf(scopes[..|scopes| - 1], items) + |Occurrences(items, scopes[|scopes| - 1])|
  }

  lemma {:induction false} OneMoreItem(scopes: seq<Scope>, items: seq<Situation>)
    requires Distinct(scopes) && items != []
    ensures
      var n := |items| - 1;
      SizeOf(scopes, items) == SizeOf(scopes, items[..n]) + if items[n].scope in scopes then 1 else 0
  {
    if scopes != [] {
      var m := |scopes| - 1;
      OneMoreItem(scopes[..m], items);
      assert scopes == scopes[..m] + [scopes[m]];
    }
  }

  /** The groups hold every situation once. */
  lemma {:induction false} GroupsHoldEverything(items: seq<Situation>)
    ensures SizeOf(FirstScopes(items), items) == |items|
  {
    if items != [] {
      var n := |items| - 1;
      GroupsHoldEverything(items[..n]);
      ScopesDistinct(items[..n]);
      var scopes, scope := FirstScopes(items[..n]), items[n].scope;
      OneMoreItem(scopes, items);
      if scope !in scopes {
        ScopesListed(items[..n], scope);
        assert (scopes + [scope])[..|scopes|] == scopes;
      }
    }
  }

  lemma {:induction false} OccurrencesCount(items: seq<Situation>, scope: Scope, x: Situation)
    ensures multiset(Occurrences(items, scope))[x] == if x.scope == scope then multiset(items)[x] else 0
  {
    if items != [] {
      var n := |items| - 1;
      assert items == items[..n] + [items[n]];
      OccurrencesCount(items[..n], scope, x);
    }
  }

  /** Earlier, or at the same time with the smaller id. */
  ghost predicate Earlier(a: Situation, b: Situation) {
    a.detectedAt < b.detectedAt || (a.detectedAt == b.detectedAt && IdLe(a.id, b.id))
  }

  /** A history is in time order, and holds exactly the given situations of its scope, however they were listed. */
  lemma HistoryHoldsScope(items: seq<Situation>, scope: Scope)
    ensures
      var h := History(items, scope);
      Sorted(SituationLe, h) && forall i, j | 0 <= i < j < |h| :: Earlier(h[i], h[j])
    ensures forall x :: multiset(History(items, scope))[x] == if x.scope == scope then multiset(items)[x] else 0
  {
    SituationLeTotal();
    SortSorted(SituationLe, Occurrences(Sort(SituationLe, items), scope));
    forall x ensures multiset(History(items, scope))[x] == if x.scope == scope then multiset(items)[x] else 0 {
      OccurrencesCount(Sort(SituationLe, items), scope, x);
    }
  }

  /** Groups are made of the situations that are there, and only of those. */
  lemma ScopeOrderLists(items: seq<Situation>, scope: Scope)
    ensures Distinct(ScopeOrder(items)) && (scope in ScopeOrder(items) <==> History(items, scope) != [])
  {
    var sorted := Sort(SituationLe, items);
    var first, order := FirstScopes(sorted), ScopeOrder(items);
    ScopesListed(sorted, scope);
    ScopesDistinct(sorted);
    SameElements(first, order);
    SameElements(Occurrences(sorted, scope), History(items, scope));
    forall i, j | 0 <= i < j < |order| ensures order[i] != order[j] { StaysDistinct(first, order, i, j); }
  }

  lemma StaysDistinct(first: seq<Scope>, order: seq<Scope>, i: nat, j: nat)
    requires Distinct(first) && multiset(first) == multiset(order) && i < j < |order|
    ensures order[i] != order[j]
  {
    WithoutCount(order, j);
    assert Without(order, j)[i] == order[i];
    assert order[i] in multiset(Without(order, j));
    AtMostOnce(first, order[j]);
  }

  lemma {:induction false} AtMostOnce(scopes: seq<Scope>, scope: Scope)
    requires Distinct(scopes)
    ensures multiset(scopes)[scope] <= 1
  {
    if scopes != [] {
      var n := |scopes| - 1;
      assert scopes == scopes[..n] + [scopes[n]];
      AtMostOnce(scopes[..n], scope);
      assert scopes[n] !in multiset(scopes[..n]);
    }
  }

  // ------------------------------------------------------- the order of the groups

  /** The four texts by which groups are sorted. */
  ghost function Texts(s: Scope): seq<Id> {
    [s.situationType,
     if s.organization.None? then Id("") else s.organization.value,
     if s.user.None? then Id("") else s.user.value,
     if s.system.None? then Id("") else s.system.value]
  }

  /** The same texts, or a smaller one at the first place where they differ. */
  ghost predicate TextsLe(a: Scope, b: Scope) {
    Texts(a) == Texts(b)
    || exists k :: 0 <= k < 4 && Texts(a)[..k] == Texts(b)[..k] && DiffersAt(a, b, k)
  }

  ghost predicate DiffersAt(a: Scope, b: Scope, k: nat)
    requires k < 4
  {
    Texts(a)[k] != Texts(b)[k] && IdLe(Texts(a)[k], Texts(b)[k])
  }

  lemma ScopeLeMeans(a: Scope, b: Scope)
    ensures ScopeLe(a, b) ==> TextsLe(a, b)
  {
    var s, t := Texts(a), Texts(b);
    if ScopeLe(a, b) && s != t {
      var k := if s[0] != t[0] then 0 else if s[1] != t[1] then 1 else if s[2] != t[2] then 2 else 3;
      assert s[..k] == t[..k] && DiffersAt(a, b, k);
    }
  }

  lemma ScopeLeTotal()
    ensures TotalPreorder(ScopeLe)
  {
    forall a, b ensures ScopeLe(a, b) || ScopeLe(b, a) { ScopeLeOrders(a, b, b); }
    forall a, b, c | ScopeLe(a, b) && ScopeLe(b, c) ensures ScopeLe(a, c) { ScopeLeOrders(a, b, c); }
  }

  lemma ScopeLeOrders(a: Scope, b: Scope, c: Scope)
    ensures ScopeLe(a, b) || ScopeLe(b, a)
    ensures ScopeLe(a, b) && ScopeLe(b, c) ==> ScopeLe(a, c)
  {
    IdLeLinear(a.situationType, b.situationType, c.situationType);
    IdLeLinear(b.situationType, c.situationType, a.situationType);
    IdLeLinear(TextOf(a.organization), TextOf(b.organization), TextOf(c.organization));
    IdLeLinear(TextOf(b.organization), TextOf(c.organization), TextOf(a.organization));
    IdLeLinear(TextOf(a.user), TextOf(b.user), TextOf(c.user));
    IdLeLinear(TextOf(b.user), TextOf(c.user), TextOf(a.user));
    IdLeLinear(TextOf(a.system), TextOf(b.system), TextOf(c.system));
  }

  /** Each group is the history of its scope, which some situation has. */
  lemma GroupIsHistory(items: seq<Situation>, i: nat)
    requires i < |Groups(items)|
    ensures Groups(items)[i].members == History(items, Groups(items)[i].scope)
    ensures exists x :: x in items && x.scope == Groups(items)[i].scope
  {
    GroupsAreHistories(HistoryIn(items), ScopeOrder(items));
    ScopeOfSome(items, ScopeOrder(items)[i]);
  }

  /** Every situation's scope has a group. */
  lemma ScopeHasGroup(items: seq<Situation>, x: Situation) returns (i: nat)
    requires x in items
    ensures i < |Groups(items)| && Groups(items)[i].scope == x.scope
  {
    GroupsAreHistories(HistoryIn(items), ScopeOrder(items));
    ScopeOfSome(items, x.scope);
    i :| 0 <= i < |ScopeOrder(items)| && ScopeOrder(items)[i] == x.scope;
  }

  /** No scope has two groups, and the groups come in the order of the texts of their scopes. */
  lemma GroupsInOrder(items: seq<Situation>, i: nat, j: nat)
    requires i < j < |Groups(items)|
    ensures Groups(items)[i].scope != Groups(items)[j].scope
    ensures TextsLe(Groups(items)[i].scope, Groups(items)[j].scope)
  {
    var order := ScopeOrder(items);
    GroupsAreHistories(HistoryIn(items), order);
    ScopeLeTotal();
    SortSorted(ScopeLe, FirstScopes(Sort(SituationLe, items)));
    ScopeOrderLists(items, order[i]);
    ScopeLeMeans(order[i], order[j]);
  }

  lemma ScopeOfSome(items: seq<Situation>, scope: Scope)
    ensures scope in ScopeOrder(items) <==> exists x :: x in items && x.scope == scope
  {
    ScopeOrderLists(items, scope);
    HistoryHoldsScope(items, scope);
    var h := History(items, scope);
    if h != [] {
      assert h[0] in multiset(h);
      assert multiset(h)[h[0]] > 0;
      assert h[0].scope == scope && h[0] in multiset(items);
    }
    if x :| x in items && x.scope == scope {
      assert multiset(items)[x] > 0 && multiset(h)[x] > 0;
      assert x in h;
    }
  }
}
