/** Model of fbs/commands/calculate_stats.py: the per-bill metric set, the
    corpus aggregate (mean, median, min, max) and the raw value lists that
    the statistics file persists. */
module Stats {
  import opened Wrappers
  import opened Sorting

  /** The numeric view of a bill record, and the metric set built from it. */
  type MetricSet = map<string, real>

  /** The fourteen fields copied from the record, 0 when absent. */
  const RawFields: seq<string> := [
    "num_characters", "num_tokens", "num_sentences", "num_sections",
    "num_nouns", "num_verbs", "num_adjectives", "num_adverbs",
    "num_punctuations", "num_numbers", "num_entities",
    "avg_token_length", "avg_sentence_length", "token_entropy"
  ]

  /** Every key of a metric set: the raw fields and the two readability scores. */
  const MetricKeys: set<string> := (set k | k in RawFields) + {"ari_raw", "ari_years_education"}

  function GetOrZero(data: MetricSet, key: string): real
  {
    if key in data then data[key] else 0.0
  }

  /** The record field that seeds each metric in the dictionary literal of
      get_metrics: the field of the same name, except that
      `ari_years_education` is read from the record's `ari_age`. */
  function SourceField(key: string): string
  {
    if key == "ari_years_education" then "ari_age" else key
  }

  /** The dictionary literal of get_metrics, before the two scores are recomputed. */
  function Prefilled(data: MetricSet): MetricSet
  {
    map k | k in MetricKeys :: GetOrZero(data, SourceField(k))
  }

  lemma ScoresAreNotRawFields()
    ensures "ari_raw" !in RawFields && "ari_years_education" !in RawFields
    ensures "ari_age" !in RawFields
  {
  }

  /** get_metrics. `ari` and `years` stand for get_ari_raw and
      get_ari_years_education, which live outside this model. */
  function GetMetrics(data: MetricSet, ari: MetricSet -> real, years: real -> real): (r: MetricSet)
    ensures r.Keys == MetricKeys
    ensures forall k :: k in RawFields ==> r[k] == GetOrZero(data, k)
    ensures r["ari_raw"] == ari(Prefilled(data))
    ensures r["ari_years_education"] == years(r["ari_raw"])
  {
    ScoresAreNotRawFields();
    var m := Prefilled(data);
    var scored := m["ari_raw" := ari(m)];
    scored["ari_years_education" := years(scored["ari_raw"])]
  }

  /** A readability function that looks only at the fourteen raw fields. */
  ghost predicate ReadsRawFieldsOnly(ari: MetricSet -> real)
  {
    forall m1: MetricSet, m2: MetricSet {:trigger ari(m1), ari(m2)} ::
      (forall k :: k in RawFields ==> k in m1 && k in m2 && m1[k] == m2[k]) ==> ari(m1) == ari(m2)
  }

  /** The record's own `ari_years_education` is never read, and when the
      readability formula only reads the raw fields, the record's `ari_raw`
      and `ari_age` do not survive into the metric set either. */
  lemma StoredScoresDoNotSurvive(data: MetricSet, ari: MetricSet -> real, years: real -> real,
                                 raw: real, age: real, education: real)
    requires ReadsRawFieldsOnly(ari)
    ensures GetMetrics(data["ari_raw" := raw]["ari_age" := age]["ari_years_education" := education], ari, years)
         == GetMetrics(data, ari, years)
  {
    ScoresAreNotRawFields();
    var d := data["ari_raw" := raw]["ari_age" := age]["ari_years_education" := education];
    assert forall k :: k in RawFields ==> GetOrZero(d, k) == GetOrZero(data, k);
    PrefilledAgree(d, data);
    MetricsAgree(d, data, ari, years);
  }

  lemma PrefilledAgree(d: MetricSet, data: MetricSet)
    requires forall k :: k in RawFields ==> GetOrZero(d, k) == GetOrZero(data, k)
    ensures forall k :: k in RawFields ==> k in Prefilled(d) && k in Prefilled(data) && Prefilled(d)[k] == Prefilled(data)[k]
  {
    forall k | k in RawFields ensures k in Prefilled(d) && k in Prefilled(data) && Prefilled(d)[k] == Prefilled(data)[k] {
      assert SourceField(k) == k by { ScoresAreNotRawFields(); }
    }
  }

  lemma MetricsAgree(d: MetricSet, data: MetricSet, ari: MetricSet -> real, years: real -> real)
    requires forall k :: k in RawFields ==> GetOrZero(d, k) == GetOrZero(data, k)
    requires ari(Prefilled(d)) == ari(Prefilled(data))
    ensures GetMetrics(d, ari, years) == GetMetrics(data, ari, years)
  {
    var g1, g2 := GetMetrics(d, ari, years), GetMetrics(data, ari, years);
    forall k | k in MetricKeys ensures g1[k] == g2[k] {
      if k in RawFields {
        assert g1[k] == GetOrZero(d, k);
      }
    }
  }

  // ---------------------------------------------------------------------
  // calculate_aggregate_stats

  datatype Summary = Summary(mean: real, median: real, min: real, max: real)

  datatype AggregateError =
    | EmptyCorpus                  // metrics[0] on an empty list: IndexError
    | MissingMetric(metric: string)  // m[metric] on a bill without the key: KeyError

  function Sum(s: seq<real>): real
    decreases |s|
  {
    if s == [] then 0.0 else s[0] + Sum(s[1..])
  }

  /** statistics.mean, over exact numbers. */
  function Mean(s: seq<real>): real
    requires |s| > 0
  {
    Sum(s) / (|s| as real)
  }

  /** statistics.median: the middle element of the sorted values, or the
      average of the two middle elements when their number is even. */
  function Median(s: seq<real>): real
    requires |s| > 0
  {
    var d := SortAscending(s);
    var n := |d|;
    if n % 2 == 1 then d[n / 2] else (d[n / 2 - 1] + d[n / 2]) / 2.0
  }

  /** On values already in order the median is read off the middle positions. */
  lemma MedianOfAscending(s: seq<real>)
    requires |s| > 0 && Ascending(s)
    ensures Median(s) == if |s| % 2 == 1 then s[|s| / 2] else (s[|s| / 2 - 1] + s[|s| / 2]) / 2.0
  {
    SortAscendingOfAscending(s);
  }

  function Summarize(values: seq<real>): Summary
    requires |values| > 0
  {
    Summary(Mean(values), Median(values), MinOf(values), MaxOf(values))
  }

  /** Every metric set of the corpus holds `key`. */
  predicate HasKey(metrics: seq<MetricSet>, key: string)
  {
    forall i :: 0 <= i < |metrics| ==> key in metrics[i]
  }

  /** `[m[key] for m in metrics]`. */
  function Column(metrics: seq<MetricSet>, key: string): (column: seq<real>)
    requires HasKey(metrics, key)
    ensures |column| == |metrics|
    ensures forall i :: 0 <= i < |metrics| ==> column[i] == metrics[i][key]
  {
    seq(|metrics|, i requires 0 <= i < |metrics| => metrics[i][key])
  }

  /** Every entry of `stats` is the summary of its column. */
  ghost predicate Summaries(metrics: seq<MetricSet>, stats: map<string, Summary>)
  {
    forall k :: k in stats ==> |metrics| > 0 && HasKey(metrics, k) && stats[k] == Summarize(Column(metrics, k))
  }

  /** Line 79 for one key: the summary of its column joins `stats`. */
  method AddSummary(metrics: seq<MetricSet>, stats: map<string, Summary>, k: string)
    returns (updated: map<string, Summary>)
    requires |metrics| > 0 && Summaries(metrics, stats) && HasKey(metrics, k)
    ensures updated.Keys == stats.Keys + {k}
    ensures Summaries(metrics, updated)
  {
    updated := stats[k := Summarize(Column(metrics, k))];
  }

  /** calculate_aggregate_stats: one summary per key of the first metric set,
      the summary of that key's column. */
  method CalculateAggregateStats(metrics: seq<MetricSet>) returns (r: Result<map<string, Summary>, AggregateError>)
    ensures r.Err? <==> (|metrics| == 0 || exists k :: k in metrics[0] && !HasKey(metrics, k))
    ensures r.Ok? ==> r.value.Keys == metrics[0].Keys
    ensures r.Ok? ==> Summaries(metrics, r.value)
  {
    if |metrics| == 0 {
      return Err(EmptyCorpus);
    }
    var todo := metrics[0].Keys;
    var stats: map<string, Summary> := map[];
    while todo != {}
      invariant todo <= metrics[0].Keys
      invariant stats.Keys == metrics[0].Keys - todo
      invariant Summaries(metrics, stats)
      decreases |todo|
    {
      // The source visits the keys in dictionary order and fails on the first
      // missing one; here any missing key may be reported. For the corpus of
      // update_stats no key is missing (MetricSetsShareKeys).
      var k :| k in todo;
      if !HasKey(metrics, k) {
        return Err(MissingMetric(k));
      }
      stats := AddSummary(metrics, stats, k);
      todo := todo - {k};
    }
    return Ok(stats);
  }

  lemma {:induction false} SumBounds(s: seq<real>, lo: real, hi: real)
    requires forall i :: 0 <= i < |s| ==> lo <= s[i] <= hi
    ensures (|s| as real) * lo <= Sum(s) <= (|s| as real) * hi
    decreases |s|
  {
    if s != [] {
      var rest := s[1..];
      assert forall i :: 0 <= i < |rest| ==> rest[i] == s[i + 1];
      SumBounds(rest, lo, hi);
      assert |s| == |rest| + 1;
      assert Sum(s) == s[0] + Sum(rest);
      ScaleStep(|rest|, lo);
      ScaleStep(|rest|, hi);
    }
  }

  lemma ScaleStep(n: nat, c: real)
    ensures ((n + 1) as real) * c == (n as real) * c + c
  {
  }

  lemma DivisionBounds(a: real, n: real, lo: real, hi: real)
    requires n > 0.0 && n * lo <= a <= n * hi
    ensures lo <= a / n <= hi
  {
    assert a / n - lo == (a - n * lo) / n;
    assert hi - a / n == (n * hi - a) / n;
  }

  lemma MeanBetween(s: seq<real>, lo: real, hi: real)
    requires |s| > 0
    requires forall x :: x in s ==> lo <= x <= hi
    ensures lo <= Mean(s) <= hi
  {
    forall i | 0 <= i < |s| ensures lo <= s[i] <= hi {
      assert s[i] in s;
    }
    SumBounds(s, lo, hi);
    DivisionBounds(Sum(s), |s| as real, lo, hi);
  }

  lemma MeanBounds(s: seq<real>)
    requires |s| > 0
    ensures MinOf(s) <= Mean(s) <= MaxOf(s)
  {
    MinOfIsLeast(s);
    MaxOfIsGreatest(s);
    MeanBetween(s, MinOf(s), MaxOf(s));
  }

  /** For every metric: min <= median <= max and min <= mean <= max. */
  lemma SummaryOrdered(values: seq<real>)
    requires |values| > 0
    ensures Summarize(values).min <= Summarize(values).median <= Summarize(values).max
    ensures Summarize(values).min <= Summarize(values).mean <= Summarize(values).max
  {
    SortedEnds(values);
    MeanBounds(values);
  }

  /** A corpus of one bill: mean, median, min and max are its value. */
  lemma SingleValueSummary(x: real)
    ensures Summarize([x]) == Summary(x, x, x, x)
  {
    SortAscendingOfAscending([x]);
    assert Sum([x]) == x + Sum([]);
  }

  // ---------------------------------------------------------------------
  // update_stats, without the file loop and the JSON write

  /** One entry of the statistics file: the summary plus the raw values. */
  datatype StoredStats = StoredStats(summary: Summary, values: seq<real>)

  /** The loop of update_stats that appends each bill's value to every metric's
      `values` list (the list starts empty: calculate_aggregate_stats never
      sets it). */
  method AttachValues(aggregate: map<string, Summary>, allMetrics: seq<MetricSet>)
    returns (r: Result<map<string, StoredStats>, AggregateError>)
    ensures r.Err? <==> exists k :: k in aggregate && !HasKey(allMetrics, k)
    ensures r.Ok? ==> r.value.Keys == aggregate.Keys
    ensures r.Ok? ==> forall k :: k in aggregate ==>
              HasKey(allMetrics, k) && r.value[k] == StoredStats(aggregate[k], Column(allMetrics, k))
  {
    var todo := aggregate.Keys;
    var stored: map<string, StoredStats> := map[];
    while todo != {}
      invariant todo <= aggregate.Keys
      invariant stored.Keys == aggregate.Keys - todo
      invariant forall k :: k in stored ==>
                  HasKey(allMetrics, k) && stored[k] == StoredStats(aggregate[k], Column(allMetrics, k))
      decreases |todo|
    {
      // As above: the key order of the source is not kept, so when several
      // metrics are missing, which one is reported is left open.
      var k :| k in todo;
      var values := ValuesOf(allMetrics, k);
      if values.Err? {
        return Err(values.error);
      }
      stored := stored[k := StoredStats(aggregate[k], values.value)];
      todo := todo - {k};
    }
    return Ok(stored);
  }

  /** The inner loop of lines 119-121 for one metric: its value in every
      bill, in corpus order, or the KeyError of the first bill without it. */
  method ValuesOf(allMetrics: seq<MetricSet>, k: string) returns (r: Result<seq<real>, AggregateError>)
    ensures r.Ok? <==> HasKey(allMetrics, k)
    ensures r.Ok? ==> r.value == Column(allMetrics, k)
    ensures r.Err? ==> r.error == MissingMetric(k)
  {
    var values: seq<real> := [];
    var i := 0;
    while i < |allMetrics|
      invariant 0 <= i <= |allMetrics|
      invariant |values| == i
      invariant forall j :: 0 <= j < i ==> k in allMetrics[j] && values[j] == allMetrics[j][k]
    {
      if k !in allMetrics[i] {
        return Err(MissingMetric(k));
      }
      values := values + [allMetrics[i][k]];
      i := i + 1;
    }
    return Ok(values);
  }

  /** Every metric set built by get_metrics has the sixteen metric keys. */
  lemma MetricSetsShareKeys(records: seq<MetricSet>, allMetrics: seq<MetricSet>,
                            ari: MetricSet -> real, years: real -> real)
    requires |allMetrics| == |records|
    requires forall i :: 0 <= i < |records| ==> allMetrics[i] == GetMetrics(records[i], ari, years)
    ensures forall k :: k in MetricKeys ==> HasKey(allMetrics, k)
  {
    forall k, i | k in MetricKeys && 0 <= i < |allMetrics| ensures k in allMetrics[i] {
      assert allMetrics[i].Keys == MetricKeys;
    }
  }

  /** update_stats on the decoded corpus: metric extraction, aggregation and
      the value lists. Only an empty corpus fails, because every metric set
      has the same sixteen keys. */
  method UpdateStats(records: seq<MetricSet>, ari: MetricSet -> real, years: real -> real)
    returns (r: Result<map<string, StoredStats>, AggregateError>)
    ensures r.Err? <==> |records| == 0
    ensures r.Ok? ==> r.value.Keys == MetricKeys
    ensures r.Ok? ==> forall k :: k in MetricKeys ==>
              && |r.value[k].values| == |records|
              && (forall i :: 0 <= i < |records| ==> r.value[k].values[i] == GetMetrics(records[i], ari, years)[k])
              && r.value[k].summary == Summarize(r.value[k].values)
  {
    var allMetrics := seq(|records|, i requires 0 <= i < |records| => GetMetrics(records[i], ari, years));
    MetricSetsShareKeys(records, allMetrics, ari, years);
    if |records| > 0 {
      assert allMetrics[0].Keys == MetricKeys;
    }
    var aggregate := CalculateAggregateStats(allMetrics);
    match aggregate {
      case Err(e) =>
        r := Err(e);
      case Ok(summaries) =>
        r := AttachValues(summaries, allMetrics);
    }
  }
}
