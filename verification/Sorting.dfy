/**
 Python's built-in `sorted`, as the rest of the model uses it: strings compare by code
 point, a set of ids sorts to the one increasing sequence of its elements, and a list sorts
 stably under a comparison of keys.
 */
module Sorting {
  import opened Wrappers

  /** Python's `<=` on strings: the first differing code point decides. */
  predicate LexLe(a: string, b: string) {
    if a == [] then true
    else if b == [] then false
    else if a[0] == b[0] then LexLe(a[1..], b[1..])
    else a[0] < b[0]
  }

  /** The texts agree before place k, and there the first has a smaller character or has ended. */
  ghost predicate SmallerAt(a: string, b: string, k: int) {
    0 <= k <= |a| && k < |b| && a[..k] == b[..k] && (k < |a| ==> a[k] < b[k])
  }

  lemma FirstOfPrefix(a: string, b: string, k: int)
    requires SmallerAt(a, b, k)
    ensures k > 0 ==> a[0] == b[0]
  {
    assert k > 0 ==> a[..k][0] == b[..k][0];
  }

  /** Python's order of texts: equal, or decided at the first place where they differ. */
  lemma {:induction false} LexLeIff(a: string, b: string)
    ensures LexLe(a, b) <==> a == b || exists k :: SmallerAt(a, b, k)
  {
    if a == [] {
      assert b == [] || SmallerAt(a, b, 0);
    } else if b != [] && a[0] == b[0] {
      LexLeIff(a[1..], b[1..]);
      assert a == [a[0]] + a[1..] && b == [b[0]] + b[1..];
      if k :| SmallerAt(a[1..], b[1..], k) {
        assert a[..k + 1] == [a[0]] + a[1..][..k] && b[..k + 1] == [b[0]] + b[1..][..k];
        assert SmallerAt(a, b, k + 1);
      }
      if k :| SmallerAt(a, b, k) {
        assert k > 0 && a[1..][..k - 1] == a[..k][1..] && b[1..][..k - 1] == b[..k][1..];
        assert SmallerAt(a[1..], b[1..], k - 1);
      }
    } else if b != [] {
      assert a[0] < b[0] ==> SmallerAt(a, b, 0);
      forall k | SmallerAt(a, b, k) ensures k == 0 { FirstOfPrefix(a, b, k); }
    }
  }

  lemma {:induction false} LexLeTotal(a: string, b: string)
    ensures LexLe(a, b) || LexLe(b, a)
  {
    if a != [] && b != [] && a[0] == b[0] {
      LexLeTotal(a[1..], b[1..]);
    }
  }

  lemma {:induction false} LexLeAntisymmetric(a: string, b: string)
    requires LexLe(a, b) && LexLe(b, a)
    ensures a == b
  {
    if a != [] && b != [] {
      LexLeAntisymmetric(a[1..], b[1..]);
      assert a == [a[0]] + a[1..] && b == [b[0]] + b[1..];
    }
  }

  lemma {:induction false} LexLeTransitive(a: string, b: string, c: string)
    requires LexLe(a, b) && LexLe(b, c)
    ensures LexLe(a, c)
  {
    if a != [] && b != [] && c != [] && a[0] == b[0] == c[0] {
      LexLeTransitive(a[1..], b[1..], c[1..]);
    }
  }

  // ---------------------------------------------------------------- sets of ids

  predicate IdLe(a: Id, b: Id) { LexLe(a.text, b.text) }

  lemma IdLeLinear(a: Id, b: Id, c: Id)
    ensures IdLe(a, b) || IdLe(b, a)
    ensures IdLe(a, b) && IdLe(b, a) ==> a == b
    ensures IdLe(a, b) && IdLe(b, c) ==> IdLe(a, c)
  {
    LexLeTotal(a.text, b.text);
    if IdLe(a, b) && IdLe(b, a) { LexLeAntisymmetric(a.text, b.text); }
    if IdLe(a, b) && IdLe(b, c) { LexLeTransitive(a.text, b.text, c.text); }
  }

  predicate Least(m: Id, s: set<Id>) {
    m in s && forall x | x in s :: IdLe(m, x)
  }

  lemma {:induction false} LeastExists(s: set<Id>)
    requires s != {}
    ensures exists m :: Least(m, s)
  {
    var x :| x in s;
    IdLeLinear(x, x, x);
    if s == {x} {
      assert Least(x, s);
    } else {
      LeastExists(s - {x});
      var m :| Least(m, s - {x});
      IdLeLinear(m, x, x);
      forall y | y in s && IdLe(x, m) ensures IdLe(x, y) {
        if y != x { IdLeLinear(x, m, y); IdLeLinear(x, x, y); }
      }
      assert Least(if IdLe(m, x) then m else x, s);
    }
  }

  lemma LeastUnique(s: set<Id>)
    ensures forall m, n :: Least(m, s) && Least(n, s) ==> m == n
  {
    forall m, n | Least(m, s) && Least(n, s) ensures m == n {
      IdLeLinear(m, n, n);
    }
  }

  function Smallest(s: set<Id>): (m: Id)
    requires s != {}
    ensures Least(m, s)
  {
    LeastExists(s);
    LeastUnique(s);
    var m :| m in s && Least(m, s);
    m
  }

  /** `sorted(s)` for a set of strings. */
  function SortedIds(s: set<Id>): (r: seq<Id>) {
    if s == {} then [] else [Smallest(s)] + SortedIds(s - {Smallest(s)})
  }

  ghost predicate Increasing(s: seq<Id>) {
    forall i, j | 0 <= i < j < |s| :: IdLe(s[i], s[j]) && s[i] != s[j]
  }

  lemma IncreasingCons(m: Id, rest: seq<Id>)
    requires Increasing(rest) && forall x | x in rest :: IdLe(m, x) && m != x
    ensures Increasing([m] + rest)
  {
    var s := [m] + rest;
    forall j | 0 < j < |s| ensures IdLe(m, s[j]) && m != s[j] { assert s[j] == rest[j - 1] && rest[j - 1] in rest; }
  }

  /** The result lists exactly the elements of the set, once each, in increasing order. */
  lemma {:induction false} SortedIdsListTheSet(s: set<Id>)
    ensures |SortedIds(s)| == |s|
    ensures forall x :: x in SortedIds(s) <==> x in s
    ensures Increasing(SortedIds(s))
  {
    if s != {} {
      var m := Smallest(s);
      SortedIdsListTheSet(s - {m});
      IncreasingCons(m, SortedIds(s - {m}));
    }
  }

  lemma SortedIdsAsSet(s: set<Id>)
    ensures (set x | x in SortedIds(s)) == s
  {
    SortedIdsListTheSet(s);
  }

  // ---------------------------------------------------------------- lists under a key

  ghost predicate TotalPreorder<T(!new)>(le: (T, T) -> bool) {
    && (forall x, y :: le(x, y) || le(y, x))
    && (forall x, y, z :: le(x, y) && le(y, z) ==> le(x, z))
  }

  ghost predicate Sorted<T(!new)>(le: (T, T) -> bool, s: seq<T>) {
    forall i, j | 0 <= i < j < |s| :: le(s[i], s[j])
  }

  function Insert<T>(le: (T, T) -> bool, x: T, s: seq<T>): (r: seq<T>)
    ensures multiset(r) == multiset(s) + multiset{x}
  {
    if s == [] then [x]
    else if le(x, s[0]) then [x] + s
    else
      assert s == [s[0]] + s[1..];
      [s[0]] + Insert(le, x, s[1..])
  }

  /** `sorted(s, key=...)`: a stable sort, `le` comparing the keys. */
  function Sort<T>(le: (T, T) -> bool, s: seq<T>): (r: seq<T>)
    ensures multiset(r) == multiset(s)
  {
    if s == [] then [] else
      assert s == [s[0]] + s[1..];
      Insert(le, s[0], Sort(le, s[1..]))
  }

  lemma {:induction false} InsertSorted<T(!new)>(le: (T, T) -> bool, x: T, s: seq<T>)
    requires TotalPreorder(le) && Sorted(le, s)
    ensures Sorted(le, Insert(le, x, s))
  {
    if s != [] && !le(x, s[0]) {
      InsertSorted(le, x, s[1..]);
      var t := Insert(le, x, s[1..]);
      forall k | 0 <= k < |t| ensures le(s[0], t[k]) {
        assert t[k] in multiset(t);
        assert t[k] in multiset(s[1..]) + multiset{x};
      }
    }
  }

  lemma {:induction false} SortSorted<T(!new)>(le: (T, T) -> bool, s: seq<T>)
    requires TotalPreorder(le)
    ensures Sorted(le, Sort(le, s))
  {
    if s != [] {
      SortSorted(le, s[1..]);
      InsertSorted(le, s[0], Sort(le, s[1..]));
    }
  }

  lemma SortLength<T>(le: (T, T) -> bool, s: seq<T>)
    ensures |Sort(le, s)| == |s|
  {
    assert |multiset(Sort(le, s))| == |multiset(s)|;
  }

  lemma SameElements<T>(s: seq<T>, t: seq<T>)
    requires multiset(s) == multiset(t)
    ensures |s| == |t|
    ensures forall x :: x in s <==> x in t
  {
    assert |multiset(s)| == |s| && |multiset(t)| == |t|;
    forall x ensures x in s <==> x in t {
      assert x in multiset(s) <==> x in s;
      assert x in multiset(t) <==> x in t;
    }
  }

  function Without<T>(s: seq<T>, k: nat): seq<T>
    requires k < |s|
  {
    s[..k] + s[k + 1..]
  }

  lemma WithoutCount<T>(s: seq<T>, k: nat)
    requires k < |s|
    ensures multiset(s) == multiset(Without(s, k)) + multiset{s[k]}
  {
    assert s == s[..k] + ([s[k]] + s[k + 1..]);
  }

  lemma CancelOne<T>(m: multiset<T>, n: multiset<T>, x: T)
    requires m + multiset{x} == n + multiset{x}
    ensures m == n
  {
    forall y ensures m[y] == n[y] {
      assert (m + multiset{x})[y] == (n + multiset{x})[y];
    }
  }

  /** Take the first element of `s` and one equal to it out of `t`: the rests still hold the same elements. */
  lemma MatchFirst<T>(s: seq<T>, t: seq<T>) returns (k: nat)
    requires multiset(s) == multiset(t) && s != []
    ensures k < |t| && t[k] == s[0] && multiset(Without(s, 0)) == multiset(Without(t, k))
  {
    SameElements(s, t);
    assert s[0] in t;
    k :| 0 <= k < |t| && t[k] == s[0];
    WithoutCount(s, 0);
    WithoutCount(t, k);
    CancelOne(multiset(Without(s, 0)), multiset(Without(t, k)), s[0]);
  }

  lemma AppendAssociates<T>(a: seq<T>, b: seq<T>, c: seq<T>)
    ensures (a + b) + c == a + (b + c)
  {
  }

  lemma SplitLast<T>(s: seq<T>)
    requires s != []
    ensures s == s[..|s| - 1] + [s[|s| - 1]]
  {
  }

  lemma PrefixThenOne<T>(p: seq<T>, x: T, s: seq<T>)
    requires p + [x] <= s
    ensures s[..|p|] == p && s[|p|] == x
  {
    assert (p + [x])[|p|] == x;
    assert s[..|p|] == (p + [x])[..|p|];
  }
}
