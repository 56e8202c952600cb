/** Baseline trends and historical patterns: two detectors over the same groups of situations, in exact arithmetic. */
module HistoricalTrends {
  import opened Wrappers
  import opened Sorting
  import opened Situations

  const DAY := 86_400_000_000

  /** A positive window length in microseconds, and the band of change that counts as stable. */
  datatype Setting = Setting(window: nat, stable: real)

  ghost predicate Allowed(c: Setting) { c.window > 0 && c.stable >= 0.0 }

  datatype Direction = Increasing | Decreasing | Stable

  datatype Ratio = Finite(value: real) | Infinite

  datatype Trend = Trend(
    scope: Scope, total: nat, days: real, baseline: real, recent: nat, previous: nat,
    recentFrequency: real, previousFrequency: real, change: real, deviation: real, ratio: Ratio, direction: Direction,
    first: int, last: int, averageInterval: Option<real>, ids: seq<Id>)

  datatype Pattern = Pattern(
    id: Id, scope: Scope, count: nat, first: int, last: int, intervals: seq<int>, ids: seq<Id>)

  function IdsOf(g: seq<Situation>): seq<Id> {
    seq(|g|, i requires 0 <= i < |g| => g[i].id)
  }

  /** From each situation to the next. */
  function Intervals(g: seq<Situation>): seq<int> {
    if |g| < 2 then []
    else Intervals(g[..|g| - 1]) + [g[|g| - 1].detectedAt - g[|g| - 2].detectedAt]
  }

  function Sum(s: seq<int>): int { if s == [] then 0 else Sum(s[..|s| - 1]) + s[|s| - 1] }

  function Average(intervals: seq<int>): Option<real> {
    if intervals == [] then None else Some(Sum(intervals) as real / |intervals| as real)
  }

  /** Situations with `from <= time < before`. */
  function CountWithin(g: seq<Situation>, from: int, before: int): nat {
    if g == [] then 0
    else CountWithin(g[..|g| - 1], from, before) + if from <= g[|g| - 1].detectedAt < before then 1 else 0
  }

  function RatioOf(recent: real, previous: real): Ratio {
    if previous > 0.0 then Finite(recent / previous) else if recent > 0.0 then Infinite else Finite(1.0)
  }

  function DirectionOf(recent: real, previous: real, stable: real): Direction {
    if previous == 0.0 then (if recent == 0.0 then Stable else Increasing)
    else
      var relative := (recent - previous) / previous;
      if relative > stable then Increasing else if relative < -stable then Decreasing else Stable
  }

  /** The longer of the observed time and one window, in days. */
  function Days(c: Setting, first: int, last: int): real {
    (if last - first > c.window then last - first else c.window) as real / DAY as real
  }

  /** All numbers of a trend, from the counts, the two ends and the average interval. */
  function Measured(c: Setting, scope: Scope, total: nat, recent: nat, previous: nat, first: int, last: int,
                    average: Option<real>, ids: seq<Id>): Trend
    requires c.window > 0
  {
    var days := Days(c, first, last);
    var baseline := total as real / days;
    var windowDays := c.window as real / DAY as real;
    var rf, pf := recent as real / windowDays, previous as real / windowDays;
    Trend(scope, total, days, baseline, recent, previous, rf, pf, rf - pf,
          if baseline > 0.0 then (rf - baseline) / baseline else 0.0,
          RatioOf(rf, pf), DirectionOf(rf, pf, c.stable), first, last, average, ids)
  }

  function Recent(c: Setting, g: seq<Situation>): nat
    requires g != []
  {
    CountWithin(g, g[|g| - 1].detectedAt - c.window, g[|g| - 1].detectedAt + 1)
  }

  function Previous(c: Setting, g: seq<Situation>): nat
    requires g != []
  {
    CountWithin(g, g[|g| - 1].detectedAt - 2 * c.window, g[|g| - 1].detectedAt - c.window)
  }

  function TrendOf(c: Setting, scope: Scope, g: seq<Situation>): Trend
    requires c.window > 0 && g != []
  {
    Measured(c, scope, |g|, Recent(c, g), Previous(c, g), g[0].detectedAt, g[|g| - 1].detectedAt,
             Average(Intervals(g)), IdsOf(g))
  }

  /** `name` is the hash that makes a pattern id of a scope and its situations. */
  function PatternOf(name: (Scope, seq<Id>) -> Id, scope: Scope, g: seq<Situation>): Pattern
    requires g != []
  {
    Pattern(name(scope, IdsOf(g)), scope, |g|, g[0].detectedAt, g[|g| - 1].detectedAt, Intervals(g), IdsOf(g))
  }

  function TrendsFor(c: Setting, groups: seq<Group>): seq<Trend>
    requires c.window > 0
  {
    if groups == [] then []
    else
      var last := groups[|groups| - 1];
      TrendsFor(c, groups[..|groups| - 1]) + if last.members == [] then [] else [TrendOf(c, last.scope, last.members)]
  }

  function PatternsFor(name: (Scope, seq<Id>) -> Id, groups: seq<Group>): seq<Pattern> {
    if groups == [] then []
    else
      var last := groups[|groups| - 1];
      PatternsFor(name, groups[..|groups| - 1])
      + if |last.members| < 2 then [] else [PatternOf(name, last.scope, last.members)]
  }

  // ------------------------------------------------------- the two detectors

  /** The loop over neighbours. */
  method CollectIntervals(g: seq<Situation>) returns (intervals: seq<int>)
    ensures intervals == Intervals(g)
  {
    intervals := [];
    var i := 1;
    while i < |g|
      invariant 1 <= i
      invariant i <= |g| || g == []
      invariant g != [] ==> intervals == Intervals(g[..i])
      invariant g == [] ==> intervals == []
    {
      assert g[..i + 1][..i] == g[..i];
      intervals := intervals + [g[i].detectedAt - g[i - 1].detectedAt];
      i := i + 1;
    }
    assert g != [] ==> g[..i] == g;
  }

  /** `_analyze_group`. */
  method AnalyzeGroup(c: Setting, scope: Scope, g: seq<Situation>) returns (t: Trend)
    requires Allowed(c) && g != []
    ensures t == TrendOf(c, scope, g)
  {
    var intervals := CollectIntervals(g);
    t := Measured(c, scope, |g|, Recent(c, g), Previous(c, g), g[0].detectedAt, g[|g| - 1].detectedAt,
                  Average(intervals), IdsOf(g));
  }

  method AnalyzeGroups(c: Setting, groups: seq<Group>) returns (results: seq<Trend>)
    requires Allowed(c)
    ensures results == TrendsFor(c, groups)
  {
    results := [];
    var i := 0;
    while i < |groups|
      invariant 0 <= i <= |groups|
      invariant results == TrendsFor(c, groups[..i])
    {
      assert groups[..i + 1][..i] == groups[..i];
      if groups[i].members != [] {
        var t := AnalyzeGroup(c, groups[i].scope, groups[i].members);
        results := results + [t];
      }
      i := i + 1;
    }
    assert groups[..i] == groups;
  }

  method Analyze(c: Setting, situations: seq<Situation>) returns (results: seq<Trend>)
    requires Allowed(c)
    ensures results == TrendsFor(c, Groups(situations))
  {
    var groups := SortedGroups(situations);
    results := AnalyzeGroups(c, groups);
  }

  method DescribeGroup(name: (Scope, seq<Id>) -> Id, scope: Scope, g: seq<Situation>) returns (p: Pattern)
    requires g != []
    ensures p == PatternOf(name, scope, g)
  {
    var intervals := CollectIntervals(g);
    p := Pattern(name(scope, IdsOf(g)), scope, |g|, g[0].detectedAt, g[|g| - 1].detectedAt, intervals, IdsOf(g));
  }

  method Detect(name: (Scope, seq<Id>) -> Id, situations: seq<Situation>) returns (patterns: seq<Pattern>)
    ensures patterns == PatternsFor(name, Groups(situations))
  {
    var groups := SortedGroups(situations);
    patterns := [];
    var i := 0;
    while i < |groups|
      invariant 0 <= i <= |groups|
      invariant patterns == PatternsFor(name, groups[..i])
    {
      assert groups[..i + 1][..i] == groups[..i];
      if |groups[i].members| >= 2 {
        var pattern := DescribeGroup(name, groups[i].scope, groups[i].members);
        patterns := patterns + [pattern];
      }
      i := i + 1;
    }
    assert groups[..i] == groups;
  }

  // ------------------------------------------------------- the detectors agree

  /** The intervals telescope: however the situations lie, only the first and the last one matter. */
  lemma {:induction false} IntervalsTelescope(g: seq<Situation>)
    requires g != []
    ensures |Intervals(g)| == |g| - 1 && Sum(Intervals(g)) == g[|g| - 1].detectedAt - g[0].detectedAt
  {
    if |g| >= 2 {
      IntervalsTelescope(g[..|g| - 1]);
      var before := Intervals(g[..|g| - 1]);
      assert Intervals(g)[..|before|] == before;
    }
  }

  /** Same group, count, times, situations and average interval, the last being the mean gap from first to last. */
  ghost predicate Agree(p: Pattern, t: Trend) {
    && p.scope == t.scope && p.count == t.total >= 2 && p.first == t.first && p.last == t.last && p.ids == t.ids
    && |p.ids| == p.count
    && Average(p.intervals) == t.averageInterval == Some((t.last - t.first) as real / (t.total - 1) as real)
  }

  function Recurring(trends: seq<Trend>): seq<Trend> {
    if trends == [] then []
    else Recurring(trends[..|trends| - 1]) + if trends[|trends| - 1].total >= 2 then [trends[|trends| - 1]] else []
  }

  lemma GroupAgrees(c: Setting, name: (Scope, seq<Id>) -> Id, scope: Scope, g: seq<Situation>)
    requires c.window > 0 && |g| >= 2
    ensures Agree(PatternOf(name, scope, g), TrendOf(c, scope, g))
  {
    IntervalsTelescope(g);
  }

  /** Group by group, the patterns are exactly the trends with at least two occurrences, in the same order. */
  lemma {:induction false} DetectorsAgree(c: Setting, name: (Scope, seq<Id>) -> Id, groups: seq<Group>)
    requires Allowed(c)
    ensures |PatternsFor(name, groups)| == |Recurring(TrendsFor(c, groups))|
    ensures forall i | 0 <= i < |PatternsFor(name, groups)| ::
      Agree(PatternsFor(name, groups)[i], Recurring(TrendsFor(c, groups))[i])
  {
    if groups != [] {
      var n := |groups| - 1;
      DetectorsAgree(c, name, groups[..n]);
      var g, before := groups[n], TrendsFor(c, groups[..n]);
      if g.members == [] {
        assert TrendsFor(c, groups) == before;
      } else {
        var t := TrendOf(c, g.scope, g.members);
        assert TrendsFor(c, groups) == before + [t];
        assert (before + [t])[..|before|] == before;
        if |g.members| >= 2 { GroupAgrees(c, name, g.scope, g.members); }
      }
    }
  }

  // ------------------------------------------------------- the windows

  lemma {:induction false} WindowsDisjoint(g: seq<Situation>, from: int, middle: int, before: int)
    requires from <= middle <= before
    ensures CountWithin(g, from, middle) + CountWithin(g, middle, before) == CountWithin(g, from, before) <= |g|
  {
    if g != [] { WindowsDisjoint(g[..|g| - 1], from, middle, before); }
  }

  lemma {:induction false} WindowHoldsAll(g: seq<Situation>, from: int, before: int)
    ensures CountWithin(g, from, before) == |g| <==> forall i | 0 <= i < |g| :: from <= g[i].detectedAt < before
  {
    if g != [] {
      var n := |g| - 1;
      WindowHoldsAll(g[..n], from, before);
      WindowsDisjoint(g[..n], from, from, from);
      CountAtMost(g[..n], from, before);
      assert forall i | 0 <= i < n :: g[..n][i] == g[i];
    }
  }

  lemma {:induction false} CountAtMost(g: seq<Situation>, from: int, before: int)
    ensures CountWithin(g, from, before) <= |g|
  {
    if g != [] { CountAtMost(g[..|g| - 1], from, before); }
  }

  /** No situation is counted in both windows, and the latest one is always in the recent window. */
  lemma WindowsPartition(c: Setting, scope: Scope, g: seq<Situation>)
    requires Allowed(c) && g != []
    ensures
      var t := TrendOf(c, scope, g);
      1 <= t.recent && t.recent + t.previous == CountWithin(g, t.last - 2 * c.window, t.last + 1) <= t.total
  {
    var last := g[|g| - 1].detectedAt;
    WindowsDisjoint(g, last - 2 * c.window, last - c.window, last + 1);
  }

  // ------------------------------------------------------- what the rates mean

  lemma TimesKeepsOrder(x: real, y: real, b: real)
    requires b > 0.0
    ensures x < y <==> x * b < y * b
  {
    assert (y - x) * b == y * b - x * b;
    assert y - x > 0.0 <==> (y - x) * b > 0.0;
  }

  lemma QuotientOfRates(a: real, b: real, w: real)
    requires w > 0.0 && b > 0.0
    ensures b / w > 0.0 && (a / w) / (b / w) == a / b
  {
    var x, y := a / w, b / w;
    assert x * w == a && y * w == b;
    var q := x / y;
    assert q * y == x;
    assert q * b == a by { assert q * (y * w) == (q * y) * w; }
  }

  lemma RelativeChange(x: real, y: real, s: real)
    requires y > 0.0
    ensures (x - y) / y > s <==> x > (1.0 + s) * y
    ensures (x - y) / y < -s <==> x < (1.0 - s) * y
  {
    var q := (x - y) / y;
    assert q * y == x - y;
    TimesKeepsOrder(s, q, y);
    TimesKeepsOrder(q, -s, y);
    assert (1.0 + s) * y == y + s * y && (1.0 - s) * y == y - s * y && (-s) * y == -(s * y);
  }

  lemma RatesOfCounts(recent: real, previous: real, w: real, stable: real)
    requires w > 0.0 && recent > 0.0 && previous > 0.0 && stable >= 0.0
    ensures recent / w > (1.0 + stable) * (previous / w) <==> recent > (1.0 + stable) * previous
    ensures recent / w < (1.0 - stable) * (previous / w) <==> recent < (1.0 - stable) * previous
  {
    var x, y := recent / w, previous / w;
    assert x * w == recent && y * w == previous;
    TimesKeepsOrder((1.0 + stable) * y, x, w);
    TimesKeepsOrder(x, (1.0 - stable) * y, w);
    assert ((1.0 + stable) * y) * w == (1.0 + stable) * (y * w);
    assert ((1.0 - stable) * y) * w == (1.0 - stable) * (y * w);
  }

  lemma PositiveRate(count: real, w: real)
    requires w > 0.0
    ensures (count / w > 0.0 <==> count > 0.0) && (count / w == 0.0 <==> count == 0.0)
  {
    var x := count / w;
    assert x * w == count;
    TimesKeepsOrder(0.0, x, w);
    TimesKeepsOrder(x, 0.0, w);
  }

  /** Increasing and decreasing exclude each other: the band is around the previous count. */
  lemma BandExcludes(recent: real, previous: real, stable: real)
    requires previous > 0.0 && stable >= 0.0 && recent > (1.0 + stable) * previous
    ensures recent >= (1.0 - stable) * previous
  {
    assert stable * previous >= 0.0;
    assert (1.0 + stable) * previous == previous + stable * previous;
    assert (1.0 - stable) * previous == previous - stable * previous;
  }

  /** What direction and ratio say about the two counts. */
  ghost predicate Tells(direction: Direction, ratio: Ratio, recent: real, previous: real, stable: real) {
    && (direction == Increasing <==> previous == 0.0 || recent > (1.0 + stable) * previous)
    && (direction == Decreasing <==> previous > 0.0 && recent < (1.0 - stable) * previous)
    && ratio == if previous == 0.0 then Infinite else Finite(recent / previous)
  }

  /** Dividing both counts by the same window length changes neither the direction nor the ratio. */
  lemma DirectionOfCounts(recent: real, previous: real, w: real, stable: real)
    requires w > 0.0 && recent > 0.0 && previous >= 0.0 && stable >= 0.0
    ensures
      var direction, ratio := DirectionOf(recent / w, previous / w, stable), RatioOf(recent / w, previous / w);
      Tells(direction, ratio, recent, previous, stable)
  {
    PositiveRate(recent, w);
    PositiveRate(previous, w);
    if previous > 0.0 {
      QuotientOfRates(recent, previous, w);
      RelativeChange(recent / w, previous / w, stable);
      RatesOfCounts(recent, previous, w, stable);
      if recent > (1.0 + stable) * previous { BandExcludes(recent, previous, stable); }
    }
  }

  /**
   The direction depends on the two counts only: increasing when nothing came before or the count grew by more
   than the stable band, decreasing when it shrank by more, whatever the length of the window.
   */
  lemma {:induction false} DirectionFollowsCounts(c: Setting, scope: Scope, g: seq<Situation>)
    requires Allowed(c) && g != []
    ensures
      var t := TrendOf(c, scope, g);
      Tells(t.direction, t.ratio, t.recent as real, t.previous as real, c.stable)
  {
    WindowsPartition(c, scope, g);
    DirectionOfCounts(Recent(c, g) as real, Previous(c, g) as real, c.window as real / DAY as real, c.stable);
  }

  lemma HistoryWithinEnds(g: seq<Situation>, i: nat)
    requires Sorted(SituationLe, g) && i < |g|
    ensures g[0].detectedAt <= g[i].detectedAt <= g[|g| - 1].detectedAt
  {
    assert i < |g| - 1 ==> SituationLe(g[i], g[|g| - 1]);
    assert 0 < i ==> SituationLe(g[0], g[i]);
  }

  /** With every occurrence in the recent window and no more time than one window, the two frequencies are the same. */
  lemma NoDeviation(c: Setting, scope: Scope, total: nat, previous: nat, first: int, last: int,
      average: Option<real>, ids: seq<Id>)
    requires Allowed(c) && last - first <= c.window
    ensures
      var t := Measured(c, scope, total, total, previous, first, last, average, ids);
      t.recentFrequency == t.baseline && t.deviation == 0.0
  {
  }

  /** A history no longer than one window lies in the recent window, and does not deviate from its baseline. */
  lemma ShortHistoryDoesNotDeviate(c: Setting, scope: Scope, g: seq<Situation>)
    requires Allowed(c) && g != [] && Sorted(SituationLe, g) && g[|g| - 1].detectedAt - g[0].detectedAt <= c.window
    ensures
      var t := TrendOf(c, scope, g);
      t.recent == t.total && t.previous == 0 && t.recentFrequency == t.baseline && t.deviation == 0.0
  {
    var last := g[|g| - 1].detectedAt;
    forall i | 0 <= i < |g| ensures last - c.window <= g[i].detectedAt < last + 1 {
      HistoryWithinEnds(g, i);
    }
    WindowHoldsAll(g, last - c.window, last + 1);
    WindowsPartition(c, scope, g);
    NoDeviation(c, scope, |g|, Previous(c, g), g[0].detectedAt, last, Average(Intervals(g)), IdsOf(g));
  }

  // ------------------------------------------------------- what a trend and a pattern say

  /** The places of a group whose time lies within the two ends, both included. */
  ghost function PlacesFrom(g: seq<Situation>, from: int, to: int): set<int> {
    set i | 0 <= i < |g| && from <= g[i].detectedAt <= to
  }

  lemma {:induction false} CountIsPlaces(g: seq<Situation>, from: int, before: int)
    ensures CountWithin(g, from, before) == |PlacesFrom(g, from, before - 1)|
  {
    if g == [] {
      assert PlacesFrom(g, from, before - 1) == {};
    } else {
      var n := |g| - 1;
      CountIsPlaces(g[..n], from, before);
      var places := PlacesFrom(g[..n], from, before - 1);
      assert PlacesFrom(g, from, before - 1) == places + if from <= g[n].detectedAt < before then {n} else {};
      assert n !in places;
    }
  }

  lemma Quotient(a: real, b: real)
    requires b > 0.0
    ensures (a / b) * b == a
  {
  }

  /** The two windows: the recent one ends with the last situation, the other one lies right before it. */
  lemma TrendCounts(c: Setting, scope: Scope, g: seq<Situation>)
    requires Allowed(c) && g != []
    ensures
      var t := TrendOf(c, scope, g);
      && t.scope == scope && t.total == |g| && t.first == g[0].detectedAt && t.last == g[|g| - 1].detectedAt
      && t.recent == |PlacesFrom(g, t.last - c.window, t.last)|
      && t.previous == |PlacesFrom(g, t.last - 2 * c.window, t.last - c.window - 1)|
      && |t.ids| == |g| && forall i | 0 <= i < |g| :: t.ids[i] == g[i].id
  {
    var last := g[|g| - 1].detectedAt;
    CountIsPlaces(g, last - c.window, last + 1);
    CountIsPlaces(g, last - 2 * c.window, last - c.window);
  }

  /** Every rate is a count by its time in days, and times that time it is the count again. */
  lemma TrendRates(c: Setting, scope: Scope, g: seq<Situation>)
    requires Allowed(c) && g != []
    ensures
      var t := TrendOf(c, scope, g);
      var window := c.window as real / 86_400_000_000.0;
      var observed := (t.last - t.first) as real / 86_400_000_000.0;
      && t.days == (if observed > window then observed else window) && t.days > 0.0
      && t.baseline * t.days == t.total as real
      && t.recentFrequency * window == t.recent as real && t.previousFrequency * window == t.previous as real
      && t.change == t.recentFrequency - t.previousFrequency
      && t.baseline > 0.0 && t.deviation * t.baseline == t.recentFrequency - t.baseline
  {
    var t := TrendOf(c, scope, g);
    var day := 86_400_000_000.0;
    var window, span := c.window as real, (t.last - t.first) as real;
    DayLengths(span, window, day);
    assert t.days == (if span > window then span else window) / day;
    Quotient(t.total as real, t.days);
    Quotient(t.recent as real, window / day);
    Quotient(t.previous as real, window / day);
    PositiveRate(t.total as real, t.days);
    Quotient(t.recentFrequency - t.baseline, t.baseline);
  }

  lemma DayLengths(span: real, window: real, day: real)
    requires window > 0.0 && day > 0.0
    ensures window / day > 0.0
    ensures span > window <==> span / day > window / day
  {
    PositiveRate(window, day);
    var x, y := span / day, window / day;
    assert x * day == span && y * day == window;
    TimesKeepsOrder(y, x, day);
  }

  lemma {:induction false} IntervalsAre(g: seq<Situation>, i: nat)
    requires i + 1 < |g|
    ensures |Intervals(g)| == |g| - 1 && Intervals(g)[i] == g[i + 1].detectedAt - g[i].detectedAt
  {
    if i + 2 < |g| {
      IntervalsAre(g[..|g| - 1], i);
    } else if |g| > 2 {
      IntervalsAre(g[..|g| - 1], 0);
    }
  }

  /** A pattern holds its group: how often, from when to when, with which gaps, and which situations. */
  lemma PatternMeans(name: (Scope, seq<Id>) -> Id, scope: Scope, g: seq<Situation>)
    requires |g| > 1
    ensures
      var p := PatternOf(name, scope, g);
      && p.id == name(scope, p.ids) && p.scope == scope && p.count == |g|
      && p.first == g[0].detectedAt && p.last == g[|g| - 1].detectedAt
      && |p.intervals| == |g| - 1
      && (forall i | 0 <= i < |g| - 1 :: p.intervals[i] == g[i + 1].detectedAt - g[i].detectedAt)
      && |p.ids| == |g| && forall i | 0 <= i < |g| :: p.ids[i] == g[i].id
  {
    IntervalsAre(g, 0);
    forall i | 0 <= i < |g| - 1 ensures Intervals(g)[i] == g[i + 1].detectedAt - g[i].detectedAt { IntervalsAre(g, i); }
  }

  /** One trend for each group, in order: no group of situations is empty. */
  lemma {:induction false} TrendsFollowGroups(c: Setting, groups: seq<Group>)
    requires Allowed(c) && forall g | g in groups :: g.members != []
    ensures |TrendsFor(c, groups)| == |groups|
    ensures forall i | 0 <= i < |groups| ::
              groups[i].members != [] && TrendsFor(c, groups)[i] == TrendOf(c, groups[i].scope, groups[i].members)
  {
    if groups != [] {
      TrendsFollowGroups(c, groups[..|groups| - 1]);
      assert groups[|groups| - 1] in groups;
    }
  }
}
