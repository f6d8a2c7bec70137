/** Project analytics: a growing list of metric data points, queried by name, time window
    and tags, summarised per metric name, and compared half against half to tell a
    trend. Metric values are real numbers. */
module Analytics {
  import opened Common
  import opened Text
  import opened Sorting

  /** One data point; `timestamp` is an ISO stamp ending in "Z". */
  datatype Metric = Metric(
    name: string,
    value: real,
    timestamp: string,
    tags: map<string, string>,
    metadata: Payload)

  datatype Direction = Up | Down | Stable

  datatype Trend = Trend(
    metricName: string,
    direction: Direction,
    changePercent: real,
    currentValue: real,
    previousValue: real,
    periodDays: int)

  /** The filters of `get_metrics`. The bounds are clock readings in ISO form; the
      comparison is against the reading followed by "Z". */
  datatype MetricQuery = MetricQuery(
    name: Option<string>,
    start: Option<string>,
    end: Option<string>,
    tags: map<string, string>)

  /** `m` passes every filter the query sets: a non-empty name must be equal, the
      timestamp must lie between the bounds in string order, and every tag asked for must
      be present with the asked value. */
  predicate Matches(m: Metric, q: MetricQuery)
  {
    && (Truthy(q.name) ==> m.name == q.name.value)
    && (q.start.Some? ==> LessEq(Stamp(q.start.value), m.timestamp))
    && (q.end.Some? ==> LessEq(m.timestamp, Stamp(q.end.value)))
    && (forall k :: k in q.tags ==> k in m.tags && m.tags[k] == q.tags[k])
  }

  /** The metrics of `ms` that match `q`, in order. */
  function Filter(ms: seq<Metric>, q: MetricQuery): (r: seq<Metric>)
    ensures |r| <= |ms|
    ensures forall m :: m in r <==> m in ms && Matches(m, q)
  {
    if ms == [] then []
    else
      var rest := Filter(ms[1..], q);
      assert forall m :: m in ms <==> m == ms[0] || m in ms[1..];
      if Matches(ms[0], q) then [ms[0]] + rest else rest
  }

  /** The sort key of `get_metrics`. */
  function TimestampOf(m: Metric): string
  {
    m.timestamp
  }

  // ---------------------------------------------------------------------------
  // Trend arithmetic

  function SumValues(ms: seq<Metric>): real
  {
    if ms == [] then 0.0 else ms[0].value + SumValues(ms[1..])
  }

  function Average(ms: seq<Metric>): real
    requires ms != []
  {
    SumValues(ms) / (|ms| as real)
  }

  /** The two halves `calculate_trend` compares: the first has `len // 2` metrics. */
  function Halves(ms: seq<Metric>): (r: (seq<Metric>, seq<Metric>))
    ensures r.0 + r.1 == ms
    ensures |r.0| == |ms| / 2 && |r.1| == |ms| - |ms| / 2
    ensures |ms| >= 2 ==> r.0 != [] && r.1 != []
  {
    (ms[..|ms| / 2], ms[|ms| / 2..])
  }

  /** The percentage change from `previous` to `current`, 0 when `previous` is 0. */
  function ChangePercent(previous: real, current: real): (r: real)
    ensures previous == 0.0 ==> r == 0.0
    ensures previous != 0.0 ==> r * previous == (current - previous) * 100.0
  {
    if previous != 0.0 then (current - previous) / previous * 100.0 else 0.0
  }

  /** Stable below five percent either way, otherwise up or down by the sign. */
  function DirectionOf(change: real): (d: Direction)
    ensures d == Stable <==> -5.0 < change < 5.0
    ensures d == Up <==> change >= 5.0
    ensures d == Down <==> change <= -5.0
  {
    if (if change < 0.0 then -change else change) < 5.0 then Stable
    else if change > 0.0 then Up
    else Down
  }

  /** The trend of a time-ordered list of metrics: none with fewer than two points,
      otherwise the second half's average against the first half's. */
  function TrendOf(name: string, ms: seq<Metric>, periodDays: int): (r: Option<Trend>)
    ensures r.None? <==> |ms| < 2
    ensures r.Some? ==> r.value.metricName == name && r.value.periodDays == periodDays
    ensures r.Some? ==> (r.value.previousValue == Average(ms[..|ms| / 2])
                         && r.value.currentValue == Average(ms[|ms| / 2..]))
    ensures r.Some? ==> (r.value.changePercent == ChangePercent(r.value.previousValue, r.value.currentValue)
                         && r.value.direction == DirectionOf(r.value.changePercent))
  {
    if |ms| < 2 then None
    else
      var (first, second) := Halves(ms);
      var previous := Average(first);
      var current := Average(second);
      var change := ChangePercent(previous, current);
      Some(Trend(name, DirectionOf(change), change, current, previous, periodDays))
  }

  lemma {:induction false} SumOfConstant(ms: seq<Metric>, c: real)
    requires forall i :: 0 <= i < |ms| ==> ms[i].value == c
    ensures SumValues(ms) == (|ms| as real) * c
  {
    if ms != [] {
      SumOfConstant(ms[1..], c);
    }
  }

  lemma AverageOfConstant(ms: seq<Metric>, c: real)
    requires ms != []
    requires forall i :: 0 <= i < |ms| ==> ms[i].value == c
    ensures Average(ms) == c
  {
    SumOfConstant(ms, c);
    var n := |ms| as real;
    assert SumValues(ms) == n * c;
    assert n * c / n == c;
  }

  /** A series that never changes is a stable trend with no change, both averages being
      the constant. */
  lemma ConstantSeriesIsStable(name: string, ms: seq<Metric>, periodDays: int, c: real)
    requires |ms| >= 2
    requires forall i :: 0 <= i < |ms| ==> ms[i].value == c
    ensures TrendOf(name, ms, periodDays) == Some(Trend(name, Stable, 0.0, c, c, periodDays))
  {
    var (first, second) := Halves(ms);
    assert forall i :: 0 <= i < |first| ==> first[i] == ms[i];
    assert forall i :: 0 <= i < |second| ==> second[i] == ms[|first| + i];
    AverageOfConstant(first, c);
    AverageOfConstant(second, c);
    assert ChangePercent(c, c) == 0.0 by {
      if c != 0.0 {
        assert (c - c) / c == 0.0;
      }
    }
  }

  /** With a positive baseline, the trend is up exactly when the current average is at
      least 5% above the previous one, and down exactly when it is at least 5% below. */
  lemma DirectionAgainstBaseline(previous: real, current: real)
    requires previous > 0.0
    ensures DirectionOf(ChangePercent(previous, current)) == Up <==> current * 20.0 >= previous * 21.0
    ensures DirectionOf(ChangePercent(previous, current)) == Down <==> current * 20.0 <= previous * 19.0
  {
    var c := ChangePercent(previous, current);
    assert c * previous == (current - previous) * 100.0;
    if c >= 5.0 {
      assert c * previous >= 5.0 * previous;
    } else {
      assert c * previous < 5.0 * previous;
    }
    if c <= -5.0 {
      assert c * previous <= -5.0 * previous;
    } else {
      assert c * previous > -5.0 * previous;
    }
  }

  // ---------------------------------------------------------------------------
  // Per-name grouping for the summary

  /** The names occurring in `ms`. */
  function NamesIn(ms: seq<Metric>): set<string>
  {
    set i | 0 <= i < |ms| :: ms[i].name
  }

  /** The metrics of `ms` named `n`, in order. */
  function WithName(ms: seq<Metric>, n: string): (r: seq<Metric>)
    ensures |r| <= |ms|
    ensures forall m :: m in r <==> m in ms && m.name == n
  {
    if ms == [] then []
    else
      var init := ms[..|ms| - 1];
      assert forall m :: m in ms <==> m in init || m == ms[|ms| - 1] by {
        assert ms == init + [ms[|ms| - 1]];
      }
      WithName(init, n) + (if ms[|ms| - 1].name == n then [ms[|ms| - 1]] else [])
  }

  /** The names occurring in `ms`, in order of first occurrence. */
  function NamesOf(ms: seq<Metric>): seq<string>
  {
    if ms == [] then []
    else
      var names := NamesOf(ms[..|ms| - 1]);
      if ms[|ms| - 1].name in names then names else names + [ms[|ms| - 1].name]
  }

  /** The `by_name` dictionary after grouping the metrics of `ms` in order. */
  function Grouped(ms: seq<Metric>): map<string, seq<Metric>>
  {
    if ms == [] then map[]
    else
      var g := Grouped(ms[..|ms| - 1]);
      var m := ms[|ms| - 1];
      g[m.name := (if m.name in g then g[m.name] else []) + [m]]
  }

  /** The name list is duplicate-free and lists exactly the names that occur, the
      dictionary is keyed by exactly those names, and each name's group is its metrics in
      order. */
  lemma GroupedSpec(ms: seq<Metric>)
    ensures Distinct(NamesOf(ms))
    ensures Grouped(ms).Keys == Elems(NamesOf(ms))
    ensures forall n :: n in Grouped(ms) ==> Grouped(ms)[n] == WithName(ms, n)
    ensures forall n :: n !in Elems(NamesOf(ms)) ==> WithName(ms, n) == []
  {
    GroupedKeys(ms);
    GroupedGroups(ms);
  }

  /** The name list is duplicate-free and the dictionary is keyed by exactly its names. */
  lemma {:induction false} GroupedKeys(ms: seq<Metric>)
    ensures Distinct(NamesOf(ms))
    ensures Grouped(ms).Keys == Elems(NamesOf(ms))
  {
    if ms != [] {
      var init := ms[..|ms| - 1];
      var m := ms[|ms| - 1];
      GroupedKeys(init);
      var names := NamesOf(init);
      if m.name !in names {
        ElemsAppend(names, m.name);
      } else {
        assert m.name in Elems(names) by {
          var i :| 0 <= i < |names| && names[i] == m.name;
        }
      }
    }
  }

  /** Each grouped name holds its metrics in order, and a name outside the list has none. */
  lemma {:induction false} GroupedGroups(ms: seq<Metric>)
    ensures forall n :: n in Grouped(ms) ==> Grouped(ms)[n] == WithName(ms, n)
    ensures forall n :: n !in Elems(NamesOf(ms)) ==> WithName(ms, n) == []
  {
    if ms != [] {
      var init := ms[..|ms| - 1];
      var m := ms[|ms| - 1];
      GroupedGroups(init);
      GroupedKeys(init);
      var names := NamesOf(init);
      if m.name !in names {
        ElemsAppend(names, m.name);
      } else {
        assert m.name in Elems(names) by {
          var i :| 0 <= i < |names| && names[i] == m.name;
        }
      }
    }
  }

  /** A name occurs in `ms` exactly when it is in the name list. */
  lemma {:induction false} NamesOfOccur(ms: seq<Metric>)
    ensures Elems(NamesOf(ms)) == NamesIn(ms)
  {
    if ms != [] {
      var init := ms[..|ms| - 1];
      NamesOfOccur(init);
      var m := ms[|ms| - 1];
      assert NamesIn(ms) == NamesIn(init) + {m.name} by {
        assert forall i :: 0 <= i < |init| ==> init[i] == ms[i];
      }
      if m.name !in NamesOf(init) {
        ElemsAppend(NamesOf(init), m.name);
      } else {
        assert m.name in Elems(NamesOf(init)) by {
          var i :| 0 <= i < |NamesOf(init)| && NamesOf(init)[i] == m.name;
        }
      }
    }
  }

  /** A duplicate-free list has as many elements as its set. */
  lemma {:induction false} DistinctCardinality<T>(s: seq<T>)
    requires Distinct(s)
    ensures |Elems(s)| == |s|
  {
    if s != [] {
      var init := s[..|s| - 1];
      DistinctCardinality(init);
      assert s == init + [s[|s| - 1]];
      ElemsAppend(init, s[|s| - 1]);
      assert s[|s| - 1] !in Elems(init);
    }
  }

  /** The sum of the group sizes of `names`. */
  function SumCounts(names: seq<string>, ms: seq<Metric>): nat
  {
    if names == [] then 0
    else SumCounts(names[..|names| - 1], ms) + |WithName(ms, names[|names| - 1])|
  }

  lemma {:induction false} SumCountsAppendMetric(names: seq<string>, ms: seq<Metric>, m: Metric)
    requires Distinct(names)
    ensures SumCounts(names, ms + [m]) == SumCounts(names, ms) + (if m.name in names then 1 else 0)
  {
    if names != [] {
      var init := names[..|names| - 1];
      var x := names[|names| - 1];
      assert (ms + [m])[..|ms + [m]| - 1] == ms;
      SumCountsAppendMetric(init, ms, m);
      assert names == init + [x];
      assert x !in init;
    }
  }

  /** Every metric is counted in exactly one group: the group sizes add up to the number
      of metrics. */
  lemma {:induction false} CountsSumToTotal(ms: seq<Metric>)
    ensures SumCounts(NamesOf(ms), ms) == |ms|
  {
    if ms != [] {
      var init := ms[..|ms| - 1];
      var m := ms[|ms| - 1];
      assert ms == init + [m];
      CountsSumToTotal(init);
      GroupedSpec(init);
      var names := NamesOf(init);
      SumCountsAppendMetric(names, init, m);
      if m.name !in names {
        ElemsAppend(names, m.name);
        assert WithName(init, m.name) == [];
        assert (names + [m.name])[..|names|] == names;
      }
    }
  }

  // ---------------------------------------------------------------------------
  // Summary statistics

  function MinValue(ms: seq<Metric>): (r: real)
    requires ms != []
    ensures forall i :: 0 <= i < |ms| ==> r <= ms[i].value
    ensures exists i :: 0 <= i < |ms| && r == ms[i].value
  {
    if |ms| == 1 then ms[0].value
    else
      var rest := MinValue(ms[1..]);
      assert forall i :: 1 <= i < |ms| ==> ms[i] == ms[1..][i - 1];
      if ms[0].value <= rest then ms[0].value else rest
  }

  function MaxValue(ms: seq<Metric>): (r: real)
    requires ms != []
    ensures forall i :: 0 <= i < |ms| ==> ms[i].value <= r
    ensures exists i :: 0 <= i < |ms| && r == ms[i].value
  {
    if |ms| == 1 then ms[0].value
    else
      var rest := MaxValue(ms[1..]);
      assert forall i :: 1 <= i < |ms| ==> ms[i] == ms[1..][i - 1];
      if ms[0].value >= rest then ms[0].value else rest
  }

  lemma {:induction false} SumBetween(ms: seq<Metric>, lo: real, hi: real)
    requires forall i :: 0 <= i < |ms| ==> lo <= ms[i].value <= hi
    ensures (|ms| as real) * lo <= SumValues(ms) <= (|ms| as real) * hi
  {
    if ms != [] {
      assert forall i :: 0 <= i < |ms[1..]| ==> ms[1..][i] == ms[i + 1];
      SumBetween(ms[1..], lo, hi);
    }
  }

  lemma QuotientBetween(total: real, n: real, lo: real, hi: real)
    requires n > 0.0
    requires n * lo <= total <= n * hi
    ensures lo <= total / n <= hi
  {
    var q := total / n;
    assert q * n == total;
    assert (q - lo) * n == total - n * lo;
    assert (hi - q) * n == n * hi - total;
  }

  /** The average of a non-empty group lies between its minimum and its maximum. */
  lemma AverageBetweenExtremes(ms: seq<Metric>)
    requires ms != []
    ensures MinValue(ms) <= Average(ms) <= MaxValue(ms)
  {
    SumBetween(ms, MinValue(ms), MaxValue(ms));
    QuotientBetween(SumValues(ms), |ms| as real, MinValue(ms), MaxValue(ms));
  }

  datatype TrendBrief = TrendBrief(direction: Direction, changePercent: real)

  /** The summary entry of one metric name. */
  datatype Stats = Stats(count: nat, current: real, min: real, max: real, avg: real, trend: Option<TrendBrief>)

  datatype Summary = Summary(
    periodDays: int,
    startDate: string,
    endDate: string,
    totalMetrics: nat,
    uniqueMetrics: nat,
    metrics: map<string, Stats>)

  /** The direction and change of a trend, as the summary keeps them. */
  function BriefOf(trend: Option<Trend>): (r: Option<TrendBrief>)
  {
    if trend.Some? then Some(TrendBrief(trend.value.direction, trend.value.changePercent)) else None
  }

  /** The entry for a group: its size, its last value, its extremes and its average (0
      for an empty group), and the direction and change of its trend when there is one. */
  function StatsOf(ms: seq<Metric>, trend: Option<Trend>): (r: Stats)
    ensures r.count == |ms|
    ensures ms != [] ==> r.min <= r.avg <= r.max && r.current == ms[|ms| - 1].value
    ensures ms != [] ==> forall i :: 0 <= i < |ms| ==> r.min <= ms[i].value <= r.max
    ensures ms != [] ==> ((exists i :: 0 <= i < |ms| && r.min == ms[i].value)
                          && (exists j :: 0 <= j < |ms| && r.max == ms[j].value))
    ensures ms != [] ==> r.avg == SumValues(ms) / (|ms| as real)
    ensures r.trend.Some? <==> trend.Some?
    ensures trend.Some? ==> r.trend == Some(TrendBrief(trend.value.direction, trend.value.changePercent))
  {
    var brief := BriefOf(trend);
    if ms == [] then Stats(0, 0.0, 0.0, 0.0, 0.0, brief)
    else GroupStats(ms, brief)
  }

  /** The entry for a non-empty group. */
  function GroupStats(ms: seq<Metric>, brief: Option<TrendBrief>): (r: Stats)
    requires ms != []
    ensures r.count == |ms| && r.current == ms[|ms| - 1].value && r.trend == brief
    ensures r.min == MinValue(ms) && r.max == MaxValue(ms)
    ensures r.min <= r.avg <= r.max
    ensures r.avg == SumValues(ms) / (|ms| as real)
  {
    AverageBetweenExtremes(ms);
    Stats(|ms|, ms[|ms| - 1].value, MinValue(ms), MaxValue(ms), Average(ms), brief)
  }

  /** The query `calculate_trend` makes. */
  function TrendQuery(name: string, start: string, now: string): MetricQuery
  {
    MetricQuery(Some(name), Some(start), Some(now), map[])
  }

  /** The query `generate_summary` makes. */
  function WindowQuery(start: string, now: string): MetricQuery
  {
    MetricQuery(None, Some(start), Some(now), map[])
  }

  class ProjectAnalytics {
    var metrics: seq<Metric>

    /** The analytics object over the metrics already in storage. */
    constructor(stored: seq<Metric>)
      ensures metrics == stored
    {
      metrics := stored;
    }

    /** `record_metric`: the new data point, stamped with the clock reading, goes at the
        end; earlier points stay as they were. */
    method RecordMetric(name: string, value: real, clock: string,
                        tags: map<string, string> := map[], metadata: Payload := map[]) returns (m: Metric)
      modifies this
      ensures m == Metric(name, value, Stamp(clock), tags, metadata)
      ensures metrics == old(metrics) + [m]
    {
      m := Metric(name, value, Stamp(clock), tags, metadata);
      metrics := metrics + [m];
    }

    /** `get_metrics`: exactly the stored metrics passing the filters, each as often as
        stored, in ascending timestamp order. */
    function GetMetrics(q: MetricQuery): (r: seq<Metric>)
      reads this
      ensures forall m :: m in r <==> m in metrics && Matches(m, q)
      ensures multiset(r) == multiset(Filter(metrics, q))
      ensures SortedBy(r, TimestampOf, false)
    {
      var r := SortBy(Filter(metrics, q), TimestampOf, false);
      SameElements(r, Filter(metrics, q));
      r
    }

    /** `calculate_trend` over the window from `start` to `now` (clock readings). */
    function CalculateTrend(name: string, periodDays: int, start: string, now: string): (r: Option<Trend>)
      reads this
      ensures r.None? <==> |GetMetrics(TrendQuery(name, start, now))| < 2
      ensures r.Some? ==> r.value.metricName == name && r.value.periodDays == periodDays
      ensures var ms := GetMetrics(TrendQuery(name, start, now));
              r.Some? ==> (r.value.previousValue == Average(ms[..|ms| / 2])
                           && r.value.currentValue == Average(ms[|ms| / 2..]))
      ensures r.Some? ==> (r.value.changePercent == ChangePercent(r.value.previousValue, r.value.currentValue)
                           && r.value.direction == DirectionOf(r.value.changePercent))
    {
      TrendOf(name, GetMetrics(TrendQuery(name, start, now)), periodDays)
    }

    /** The grouping loop of `generate_summary`: `by_name` and the order in which its
        names were first met. */
    method GroupByName(recent: seq<Metric>) returns (byName: map<string, seq<Metric>>, names: seq<string>)
      ensures byName == Grouped(recent) && names == NamesOf(recent)
    {
      byName := map[];
      names := [];
      var i := 0;
      while i < |recent|
        invariant 0 <= i <= |recent|
        invariant byName == Grouped(recent[..i]) && names == NamesOf(recent[..i])
      {
        assert recent[..i + 1][..i] == recent[..i];
        var m := recent[i];
        GroupedSpec(recent[..i]);
        if m.name !in byName {
          byName := byName[m.name := []];
          names := names + [m.name];
        } else {
          assert m.name in names by {
            var k :| 0 <= k < |names| && names[k] == m.name;
          }
        }
        byName := byName[m.name := byName[m.name] + [m]];
        i := i + 1;
      }
      assert recent[..i] == recent;
    }

    /** Each summarised name is grouped, and its entry is the statistics of its group. */
    ghost predicate Summarised(summaries: map<string, Stats>, byName: map<string, seq<Metric>>,
                               periodDays: int, start: string, now: string)
      reads this
    {
      forall n :: n in summaries ==>
        n in byName && summaries[n] == StatsOf(byName[n], CalculateTrend(n, periodDays, start, now))
    }

    /** Adding the entry of one more grouped name keeps the summary well formed. */
    lemma SummarisedAdd(summaries: map<string, Stats>, byName: map<string, seq<Metric>>, n: string,
                        periodDays: int, start: string, now: string)
      requires Summarised(summaries, byName, periodDays, start, now) && n in byName
      ensures Summarised(summaries[n := StatsOf(byName[n], CalculateTrend(n, periodDays, start, now))],
                         byName, periodDays, start, now)
    {
    }

    /** The statistics loop of `generate_summary`: one entry per grouped name. */
    method SummariseGroups(byName: map<string, seq<Metric>>, names: seq<string>, periodDays: int,
                           start: string, now: string) returns (summaries: map<string, Stats>)
      requires Elems(names) <= byName.Keys
      ensures summaries.Keys == Elems(names)
      ensures forall n :: n in summaries ==>
                summaries[n] == StatsOf(byName[n], CalculateTrend(n, periodDays, start, now))
    {
      summaries := map[];
      var j := 0;
      while j < |names|
        invariant 0 <= j <= |names|
        invariant summaries.Keys == Elems(names[..j])
        invariant Summarised(summaries, byName, periodDays, start, now)
      {
        var n := names[j];
        assert n in Elems(names);
        var entry := StatsOf(byName[n], CalculateTrend(n, periodDays, start, now));
        SummarisedAdd(summaries, byName, n, periodDays, start, now);
        summaries := summaries[n := entry];
        ElemsAppend(names[..j], n);
        assert names[..j + 1] == names[..j] + [n];
        j := j + 1;
      }
      assert names[..j] == names;
    }

    /** `generate_summary` over the window from `start` to `now`: the metrics of the
        window are grouped by name in order, and each group is summarised. */
    method GenerateSummary(periodDays: int, start: string, now: string) returns (s: Summary)
      ensures var recent := GetMetrics(WindowQuery(start, now));
              && s.periodDays == periodDays && s.startDate == Stamp(start) && s.endDate == Stamp(now)
              && s.totalMetrics == |recent|
              && s.uniqueMetrics == |NamesIn(recent)|
              && s.metrics.Keys == NamesIn(recent)
              && forall n :: n in s.metrics ==>
                   s.metrics[n] == StatsOf(WithName(recent, n), CalculateTrend(n, periodDays, start, now))
    {
      var recent := GetMetrics(WindowQuery(start, now));
      var byName, names := GroupByName(recent);
      GroupedSpec(recent);
      var summaries := SummariseGroups(byName, names, periodDays, start, now);
      NamesOfOccur(recent);
      DistinctCardinality(names);
      s := Summary(periodDays, Stamp(start), Stamp(now), |recent|, |byName|, summaries);
    }
  }

  /** Metrics with equal timestamps come out of `get_metrics` in the order they were
      recorded. */
  lemma GetMetricsKeepsRecordingOrder(a: ProjectAnalytics, q: MetricQuery, t: string)
    ensures WithKey(a.GetMetrics(q), TimestampOf, t) == WithKey(Filter(a.metrics, q), TimestampOf, t)
  {
    SortIsStable(Filter(a.metrics, q), TimestampOf, false, t);
  }

  /** In a summary, the per-name counts add up to the total number of metrics in the
      window. */
  lemma SummaryCountsAddUp(recent: seq<Metric>)
    ensures SumCounts(NamesOf(recent), recent) == |recent|
    ensures |NamesOf(recent)| == |NamesIn(recent)|
  {
    CountsSumToTotal(recent);
    GroupedSpec(recent);
    NamesOfOccur(recent);
    DistinctCardinality(NamesOf(recent));
  }
}
