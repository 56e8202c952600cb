/** Execution reliability: counts, rates and grade of a list of reconciled outcomes, in exact arithmetic. */
module Reliability {
  import opened Wrappers

  datatype Status = Achieved | PartiallyAchieved | Failed | Unexpected | InsufficientEvidence

  datatype Reconciliation = Reconciliation(id: Id, actionType: Id, status: Status)

  datatype Grade = Excellent | Reliable | Mixed | Unreliable | InsufficientData

  datatype Counts = Counts(total: nat, achieved: nat, partial: nat, failed: nat, unexpected: nat, insufficient: nat)

  datatype Metrics = Metrics(
    counts: Counts, success: real, partial: real, failure: real, unexpected: real, evidence: real, reviews: nat,
    grade: Grade, ids: seq<Id>)

  datatype ReliabilityError = EmptyActionType

  // ------------------------------------------------------- counting

  /** How many of the outcomes have this status. */
  function CountOf(values: seq<Reconciliation>, s: Status): nat {
    if values == [] then 0
    else CountOf(values[..|values| - 1], s) + if values[|values| - 1].status == s then 1 else 0
  }

  function CountsOf(values: seq<Reconciliation>): Counts {
    Counts(|values|, CountOf(values, Achieved), CountOf(values, PartiallyAchieved), CountOf(values, Failed),
           CountOf(values, Unexpected), CountOf(values, InsufficientEvidence))
  }

  function OfType(values: seq<Reconciliation>, actionType: Option<Id>): seq<Reconciliation> {
    if values == [] then []
    else
      var last := values[|values| - 1];
      OfType(values[..|values| - 1], actionType)
      + if actionType == None || actionType == Some(last.actionType) then [last] else []
  }

  function Ids(values: seq<Reconciliation>): seq<Id> {
    seq(|values|, i requires 0 <= i < |values| => values[i].id)
  }

  /** How many of the outcomes ask for a review: all that were not achieved. */
  function Reviews(values: seq<Reconciliation>): nat {
    if values == [] then 0
    else Reviews(values[..|values| - 1]) + if values[|values| - 1].status != Achieved then 1 else 0
  }

  /** Every outcome has one of the five statuses, so the five counts add up to the total. */
  lemma {:induction false} CountsAddUp(values: seq<Reconciliation>)
    ensures
      var c := CountsOf(values);
      && c.achieved + c.partial + c.failed + c.unexpected + c.insufficient == c.total == |values|
      && Reviews(values) == c.total - c.achieved
  {
    if values != [] { CountsAddUp(values[..|values| - 1]); }
  }

  // ------------------------------------------------------- rates and the grade

  function Rate(part: int, total: nat): real { if total == 0 then 0.0 else part as real / total as real }

  function Level(c: Counts): Grade {
    var success, failure := Rate(c.achieved, c.total), Rate(c.failed, c.total);
    var unexpected, evidence := Rate(c.unexpected, c.total), Rate(c.total - c.insufficient, c.total);
    if c.total == 0 then InsufficientData
    else if success >= 0.90 && failure <= 0.05 && unexpected <= 0.05 && evidence >= 0.90 then Excellent
    else if success >= 0.75 && failure <= 0.20 && unexpected <= 0.10 && evidence >= 0.75 then Reliable
    else if failure >= 0.40 || unexpected >= 0.25 then Unreliable
    else Mixed
  }

  function Rank(g: Grade): nat {
    match g
    case Excellent => 3
    case Reliable => 2
    case Mixed => 1
    case Unreliable => 0
    case InsufficientData => 0
  }

  function MetricsOf(values: seq<Reconciliation>): Metrics {
    var c := CountsOf(values);
    Metrics(c, Rate(c.achieved, c.total), Rate(c.partial, c.total), Rate(c.failed, c.total),
            Rate(c.unexpected, c.total), Rate(c.total - c.insufficient, c.total),
            Reviews(values), Level(c), Ids(values))
  }

  // ------------------------------------------------------- the engine

  /** `RELI-` and the action type, or `RELI-ALL` for all of them. */
  function ScopeKey(actionType: Option<Id>): Id {
    match actionType
    case None => Id("RELI-ALL")
    case Some(t) => Id("RELI-" + t.text)
  }

  class ExecutionReliabilityIntelligenceEngine {
    var intelligence: map<Id, Metrics>

    constructor ()
      ensures intelligence == map[]
    {
      intelligence := map[];
    }

    /** The selected outcomes are measured, and the metrics of the scope replaced. */
    method Analyze(values: seq<Reconciliation>, actionType: Option<Id>) returns (r: Result<Metrics, ReliabilityError>)
      modifies this
      ensures actionType == Some(Id("")) ==> r == Failure(EmptyActionType) && intelligence == old(intelligence)
      ensures actionType != Some(Id("")) ==>
        && r == Success(MetricsOf(OfType(values, actionType)))
        && intelligence == old(intelligence)[ScopeKey(actionType) := r.value]
    {
      if actionType == Some(Id("")) {
        return Failure(EmptyActionType);
      }
      var selected := SelectType(values, actionType);
      var achieved := CountStatus(selected, Achieved);
      var partial := CountStatus(selected, PartiallyAchieved);
      var failed := CountStatus(selected, Failed);
      var unexpected := CountStatus(selected, Unexpected);
      var insufficient := CountStatus(selected, InsufficientEvidence);
      var reviews := CountReviews(selected);
      var ids := CollectIds(selected);
      var total := |selected|;
      var counts := Counts(total, achieved, partial, failed, unexpected, insufficient);
      r := Success(Metrics(
        counts, Rate(achieved, total), Rate(partial, total), Rate(failed, total), Rate(unexpected, total),
        Rate(total - insufficient, total), reviews, Level(counts), ids));
      intelligence := intelligence[ScopeKey(actionType) := r.value];
    }
  }

  method SelectType(values: seq<Reconciliation>, actionType: Option<Id>) returns (selected: seq<Reconciliation>)
    ensures selected == OfType(values, actionType)
  {
    selected := [];
    for i := 0 to |values|
      invariant selected == OfType(values[..i], actionType)
    {
      assert values[..i + 1][..i] == values[..i];
      if actionType == None || actionType == Some(values[i].actionType) {
        selected := selected + [values[i]];
      }
    }
    assert values[..|values|] == values;
  }

  method CountStatus(values: seq<Reconciliation>, s: Status) returns (n: nat)
    ensures n == CountOf(values, s)
  {
    n := 0;
    for i := 0 to |values|
      invariant n == CountOf(values[..i], s)
    {
      assert values[..i + 1][..i] == values[..i];
      if values[i].status == s {
        n := n + 1;
      }
    }
    assert values[..|values|] == values;
  }

  method CountReviews(values: seq<Reconciliation>) returns (n: nat)
    ensures n == Reviews(values)
  {
    n := 0;
    for i := 0 to |values|
      invariant n == Reviews(values[..i])
    {
      assert values[..i + 1][..i] == values[..i];
      if values[i].status != Achieved {
        n := n + 1;
      }
    }
    assert values[..|values|] == values;
  }

  method CollectIds(values: seq<Reconciliation>) returns (ids: seq<Id>)
    ensures ids == Ids(values)
  {
    ids := [];
    for i := 0 to |values|
      invariant ids == Ids(values[..i])
    {
      ids := ids + [values[i].id];
    }
    assert values[..|values|] == values;
  }

  /** The places before n that hold the status. */
  function Places(values: seq<Reconciliation>, s: Status, n: nat): set<nat>
    requires n <= |values|
  {
    set i | 0 <= i < n && values[i].status == s
  }

  lemma OneMorePlace(values: seq<Reconciliation>, s: Status, n: nat)
    requires n < |values|
    ensures |Places(values, s, n + 1)| == |Places(values, s, n)| + if values[n].status == s then 1 else 0
  {
    var places := Places(values, s, n);
    if values[n].status == s {
      assert Places(values, s, n + 1) == places + {n};
    } else {
      assert Places(values, s, n + 1) == places;
    }
  }

  /** A status count is the number of places that hold the status. */
  lemma {:induction false} CountIsCardinality(values: seq<Reconciliation>, s: Status, n: nat)
    requires n <= |values|
    ensures CountOf(values[..n], s) == |Places(values, s, n)|
  {
    if n > 0 {
      CountIsCardinality(values, s, n - 1);
      assert values[..n][..n - 1] == values[..n - 1];
      OneMorePlace(values, s, n - 1);
    }
  }

  /** The selection is the outcomes of the type, each as often as it was given. */
  lemma {:induction false} SelectionIsOfType(values: seq<Reconciliation>, actionType: Option<Id>, v: Reconciliation)
    ensures multiset(OfType(values, actionType))[v]
            == if actionType == None || actionType == Some(v.actionType) then multiset(values)[v] else 0
  {
    if values != [] {
      var n := |values| - 1;
      assert values == values[..n] + [values[n]];
      SelectionIsOfType(values[..n], actionType, v);
    }
  }

  /**
   Analyses of two scopes overwrite each other exactly when one is of all actions and the other of a type named
   ALL.
   */
  lemma ScopesCollideIff(a: Option<Id>, b: Option<Id>)
    requires a != b
    ensures ScopeKey(a) == ScopeKey(b) <==> {a, b} == {None, Some(Id("ALL"))}
  {
    if a.Some? { assert ("RELI-" + a.value.text)[5..] == a.value.text; }
    if b.Some? { assert ("RELI-" + b.value.text)[5..] == b.value.text; }
    assert "RELI-ALL"[5..] == "ALL";
    assert "RELI-" + "ALL" == "RELI-ALL";
    if {a, b} == {None, Some(Id("ALL"))} { assert a in {a, b} && b in {a, b}; }
  }

  // ------------------------------------------------------- what the numbers promise

  lemma RateTimesTotal(part: int, total: nat)
    requires total > 0
    ensures Rate(part, total) * total as real == part as real
  {
  }

  lemma RateAtMost(x: real, part: int, total: nat)
    requires total > 0 && part as real <= x * total as real
    ensures Rate(part, total) <= x
  {
    RateTimesTotal(part, total);
    if Rate(part, total) > x { LessTimes(x, Rate(part, total), total as real); }
  }

  lemma RateAtLeast(x: real, part: int, total: nat)
    requires total > 0 && part as real >= x * total as real
    ensures Rate(part, total) >= x
  {
    RateTimesTotal(part, total);
    if Rate(part, total) < x { LessTimes(Rate(part, total), x, total as real); }
  }

  lemma LessTimes(x: real, y: real, n: real)
    requires x < y && n > 0.0
    ensures x * n < y * n
  {
    assert (y - x) * n > 0.0;
  }

  /**
   Over at least one outcome the five rates sum to one: the four that are stored sum to the evidence
   quality, which is what insufficient evidence leaves. Over none they are all zero.
   */
  lemma {:induction false} RatesSumToEvidence(values: seq<Reconciliation>)
    ensures
      var m := MetricsOf(values);
      && m.success + m.partial + m.failure + m.unexpected == m.evidence
      && m.evidence == (if values == [] then 0.0 else 1.0 - Rate(m.counts.insufficient, m.counts.total))
      && 0.0 <= m.success <= m.evidence <= 1.0
  {
    CountsAddUp(values);
    var c := CountsOf(values);
    if values != [] {
      SumOfRates(c.achieved, c.partial, c.total);
      SumOfRates(c.achieved + c.partial, c.failed, c.total);
      SumOfRates(c.achieved + c.partial + c.failed, c.unexpected, c.total);
      SumOfRates(c.total - c.insufficient, c.insufficient, c.total);
      RateAtLeast(0.0, c.achieved, c.total);
      RateAtLeast(0.0, c.partial + c.failed + c.unexpected, c.total);
      RateAtLeast(0.0, c.insufficient, c.total);
      RateAtLeast(1.0, c.total, c.total);
      RateAtMost(1.0, c.total, c.total);
      SumOfRates(c.achieved, c.partial + c.failed + c.unexpected, c.total);
    }
  }

  lemma SumOfRates(a: int, b: int, total: nat)
    requires total > 0
    ensures Rate(a, total) + Rate(b, total) == Rate(a + b, total)
  {
    var n := total as real;
    assert (a + b) as real == a as real + b as real;
    assert a as real / n + b as real / n == (a as real + b as real) / n;
  }

  /** More success and evidence, and no more failure or surprise, in proportion. */
  ghost predicate NoWorse(better: Counts, c: Counts) {
    && Rate(better.achieved, better.total) >= Rate(c.achieved, c.total)
    && Rate(better.failed, better.total) <= Rate(c.failed, c.total)
    && Rate(better.unexpected, better.total) <= Rate(c.unexpected, c.total)
    && Rate(better.total - better.insufficient, better.total) >= Rate(c.total - c.insufficient, c.total)
  }

  /** The grade follows the rates. */
  lemma GradeIsMonotone(better: Counts, c: Counts)
    requires better.total > 0 && c.total > 0 && NoWorse(better, c)
    ensures Rank(Level(better)) >= Rank(Level(c))
  {
  }

  lemma {:induction false} CountOfAppend(a: seq<Reconciliation>, b: seq<Reconciliation>, s: Status)
    ensures CountOf(a + b, s) == CountOf(a, s) + CountOf(b, s)
  {
    if b == [] {
      assert a + b == a;
    } else {
      var n := |a + b| - 1;
      assert (a + b)[..n] == a + b[..|b| - 1];
      CountOfAppend(a, b[..|b| - 1], s);
    }
  }

  /** What one outcome between `a` and `b` adds to a count. */
  lemma CountOfMiddle(a: seq<Reconciliation>, v: Reconciliation, b: seq<Reconciliation>, s: Status)
    ensures CountOf(a + [v] + b, s) == CountOf(a + b, s) + if v.status == s then 1 else 0
  {
    CountOfAppend(a + [v], b, s);
    CountOfAppend(a, [v], s);
    CountOfAppend(a, b, s);
    assert [v][..0] == [];
  }

  /** One more of `n`: a part that grows with the total gains in proportion, one that stays loses. */
  lemma RateOfOneMore(part: nat, total: nat)
    requires part <= total && total > 0
    ensures Rate(part + 1, total + 1) >= Rate(part, total) >= Rate(part, total + 1)
  {
    var x := Rate(part, total);
    RateTimesTotal(part, total);
    RateAtMost(1.0, part, total);
    RateAtLeast(0.0, part, total);
    assert x * (total + 1) as real == part as real + x;
    RateAtLeast(x, part + 1, total + 1);
    RateAtMost(x, part, total + 1);
  }

  lemma RateOfMore(part: nat, more: nat, total: nat)
    requires part <= more && total > 0
    ensures Rate(part, total) <= Rate(more, total)
  {
    SumOfRates(part, more - part, total);
    RateAtLeast(0.0, more - part, total);
  }

  /** Adding an achieved outcome anywhere in a non-empty list never lowers the grade. */
  lemma AchievementNeverLowers(a: seq<Reconciliation>, v: Reconciliation, b: seq<Reconciliation>)
    requires v.status == Achieved && a + b != []
    ensures Rank(Level(CountsOf(a + [v] + b))) >= Rank(Level(CountsOf(a + b)))
  {
    var c, d := CountsOf(a + b), CountsOf(a + [v] + b);
    CountsAddUp(a + b);
    forall s ensures CountOf(a + [v] + b, s) == CountOf(a + b, s) + if s == Achieved then 1 else 0 {
      CountOfMiddle(a, v, b, s);
    }
    RateOfOneMore(c.achieved, c.total);
    RateOfOneMore(c.failed, c.total);
    RateOfOneMore(c.unexpected, c.total);
    RateOfOneMore(c.total - c.insufficient, c.total);
    GradeIsMonotone(d, c);
  }

  /** Turning any outcome into an achieved one never lowers the grade. */
  lemma ImprovementNeverLowers(a: seq<Reconciliation>, v: Reconciliation, w: Reconciliation, b: seq<Reconciliation>)
    requires w.status == Achieved
    ensures Rank(Level(CountsOf(a + [w] + b))) >= Rank(Level(CountsOf(a + [v] + b)))
  {
    var c, d := CountsOf(a + [v] + b), CountsOf(a + [w] + b);
    CountsAddUp(a + [v] + b);
    CountsAddUp(a + [w] + b);
    forall s
      ensures CountOf(a + [w] + b, s)
              == CountOf(a + [v] + b, s) + (if s == Achieved then 1 else 0) - if s == v.status then 1 else 0
    {
      CountOfMiddle(a, v, b, s);
      CountOfMiddle(a, w, b, s);
    }
    RateOfMore(c.achieved, d.achieved, c.total);
    RateOfMore(d.failed, c.failed, c.total);
    RateOfMore(d.unexpected, c.unexpected, c.total);
    RateOfMore(c.total - c.insufficient, d.total - d.insufficient, c.total);
    GradeIsMonotone(d, c);
  }

  // ------------------------------------------------------- what the numbers are

  lemma RateIff(part: int, total: nat, p: nat, q: nat)
    requires total > 0 && q > 0
    ensures Rate(part, total) >= p as real / q as real <==> part * q >= p * total
    ensures Rate(part, total) <= p as real / q as real <==> part * q <= p * total
  {
    var r, s := Rate(part, total), p as real / q as real;
    var n, d := total as real, q as real;
    assert r * n == part as real && s * d == p as real;
    Crosswise(r, s, n, d);
    assert (r * n) * d == (part * q) as real && (s * d) * n == (p * total) as real;
  }

  lemma Crosswise(r: real, s: real, n: real, d: real)
    requires n > 0.0 && d > 0.0
    ensures r >= s <==> (r * n) * d >= (s * d) * n
    ensures r <= s <==> (r * n) * d <= (s * d) * n
  {
    assert (r * n) * d == r * (n * d) && (s * d) * n == s * (n * d);
    assert n * d > 0.0;
    if r < s { LessTimes(r, s, n * d); }
    if s < r { LessTimes(s, r, n * d); }
  }

  /** Nine in ten achieved, one in twenty failed or unexpected at most, evidence for nine in ten. */
  predicate IsExcellent(c: Counts) {
    && 10 * c.achieved >= 9 * c.total && 20 * c.failed <= c.total && 20 * c.unexpected <= c.total
    && 10 * (c.total - c.insufficient) >= 9 * c.total
  }

  /** Three in four achieved, one in five failed and one in ten unexpected at most, evidence for three in four. */
  predicate IsReliable(c: Counts) {
    && 4 * c.achieved >= 3 * c.total && 5 * c.failed <= c.total && 10 * c.unexpected <= c.total
    && 4 * (c.total - c.insufficient) >= 3 * c.total
  }

  /** Two in five failed, or one in four unexpected, at least. */
  predicate IsPoor(c: Counts) { 5 * c.failed >= 2 * c.total || 4 * c.unexpected >= c.total }

  lemma ExcellentIff(c: Counts)
    requires c.total > 0
    ensures IsExcellent(c)
            <==> && Rate(c.achieved, c.total) >= 0.90 && Rate(c.failed, c.total) <= 0.05
                 && Rate(c.unexpected, c.total) <= 0.05 && Rate(c.total - c.insufficient, c.total) >= 0.90
  {
    RateIff(c.achieved, c.total, 90, 100);
    RateIff(c.failed, c.total, 5, 100);
    RateIff(c.unexpected, c.total, 5, 100);
    RateIff(c.total - c.insufficient, c.total, 90, 100);
  }

  lemma ReliableIff(c: Counts)
    requires c.total > 0
    ensures IsReliable(c)
            <==> && Rate(c.achieved, c.total) >= 0.75 && Rate(c.failed, c.total) <= 0.20
                 && Rate(c.unexpected, c.total) <= 0.10 && Rate(c.total - c.insufficient, c.total) >= 0.75
  {
    RateIff(c.achieved, c.total, 75, 100);
    RateIff(c.failed, c.total, 20, 100);
    RateIff(c.unexpected, c.total, 10, 100);
    RateIff(c.total - c.insufficient, c.total, 75, 100);
  }

  lemma PoorIff(c: Counts)
    requires c.total > 0
    ensures IsPoor(c) <==> Rate(c.failed, c.total) >= 0.40 || Rate(c.unexpected, c.total) >= 0.25
  {
    RateIff(c.failed, c.total, 40, 100);
    RateIff(c.unexpected, c.total, 25, 100);
  }

  /** The grade, by whole numbers. */
  lemma LevelIff(c: Counts)
    ensures c.total == 0 ==> Level(c) == InsufficientData
    ensures c.total > 0 ==>
              && (Level(c) == Excellent <==> IsExcellent(c))
              && (Level(c) == Reliable <==> IsReliable(c) && !IsExcellent(c))
              && (Level(c) == Unreliable <==> IsPoor(c) && !IsReliable(c) && !IsExcellent(c))
              && (Level(c) == Mixed <==> !IsPoor(c) && !IsReliable(c) && !IsExcellent(c))
  {
    if c.total > 0 {
      ExcellentIff(c);
      ReliableIff(c);
      PoorIff(c);
    }
  }

  /** Each count is the number of places of its own status, and each outcome not achieved asks for a review. */
  lemma CountsMean(values: seq<Reconciliation>)
    ensures
      var m, n := MetricsOf(values), |values|;
      && m.counts.total == n && m.reviews == n - m.counts.achieved && m.grade == Level(m.counts)
      && m.counts.achieved == |Places(values, Achieved, n)|
      && m.counts.partial == |Places(values, PartiallyAchieved, n)|
      && m.counts.failed == |Places(values, Failed, n)|
      && m.counts.unexpected == |Places(values, Unexpected, n)|
      && m.counts.insufficient == |Places(values, InsufficientEvidence, n)|
      && |m.ids| == n && forall i | 0 <= i < n :: m.ids[i] == values[i].id
  {
    CountsAddUp(values);
    assert values[..|values|] == values;
    CountIsCardinality(values, Achieved, |values|);
    CountIsCardinality(values, PartiallyAchieved, |values|);
    CountIsCardinality(values, Failed, |values|);
    CountIsCardinality(values, Unexpected, |values|);
    CountIsCardinality(values, InsufficientEvidence, |values|);
  }

  /** Each rate, times the total, is its own count. */
  lemma RatesMean(values: seq<Reconciliation>)
    requires values != []
    ensures
      var m, n := MetricsOf(values), |values| as real;
      && m.success * n == m.counts.achieved as real && m.partial * n == m.counts.partial as real
      && m.failure * n == m.counts.failed as real && m.unexpected * n == m.counts.unexpected as real
      && m.evidence * n == (|values| - m.counts.insufficient) as real
  {
    var c := CountsOf(values);
    RateTimesTotal(c.achieved, c.total);
    RateTimesTotal(c.partial, c.total);
    RateTimesTotal(c.failed, c.total);
    RateTimesTotal(c.unexpected, c.total);
    RateTimesTotal(c.total - c.insufficient, c.total);
  }

  /** The selection keeps the order of the outcomes: it is taken outcome by outcome. */
  lemma {:induction false} SelectionKeepsOrder(a: seq<Reconciliation>, b: seq<Reconciliation>, actionType: Option<Id>)
    ensures OfType(a + b, actionType) == OfType(a, actionType) + OfType(b, actionType)
  {
    if b == [] {
      assert a + b == a;
    } else {
      assert (a + b)[..|a + b| - 1] == a + b[..|b| - 1];
      SelectionKeepsOrder(a, b[..|b| - 1], actionType);
    }
  }
}
