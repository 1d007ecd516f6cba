/** Model of the decile index in fbs/render/bill.py: the nine cut points
    that load_bill_stats attaches to every metric with
    `statistics.quantiles(values, n=10, method="inclusive")`, and
    get_decile_number, which maps a value to its bucket 1..10. */
module Deciles {
  import opened Wrappers
  import opened Sorting
  import opened Stats

  /** statistics.StatisticsError: quantiles of an empty list. */
  datatype QuantileError = NoDataPoints

  /** The interpolation `(a * (10 - delta) + b * delta) / 10` of the
      inclusive method. */
  function Lerp(a: real, b: real, delta: int): real
  {
    (a * (10 - delta) as real + b * delta as real) / 10.0
  }

  lemma MulNonneg(x: real, y: real)
    requires x >= 0.0 && y >= 0.0
    ensures x * y >= 0.0
  {
  }

  lemma LerpBetween(a: real, b: real, delta: int)
    requires a <= b && 0 <= delta <= 10
    ensures a <= Lerp(a, b, delta) <= b
  {
    var w := delta as real;
    MulNonneg(b - a, w);
    MulNonneg(b - a, 10.0 - w);
    assert a * (10.0 - w) + b * w == 10.0 * a + (b - a) * w;
    assert a * (10.0 - w) + b * w == 10.0 * b - (b - a) * (10.0 - w);
  }

  lemma LerpMonotone(a: real, b: real, delta: int, delta': int)
    requires a <= b && 0 <= delta <= delta' <= 10
    ensures Lerp(a, b, delta) <= Lerp(a, b, delta')
  {
    var w, w' := delta as real, delta' as real;
    MulNonneg(b - a, w' - w);
    assert (a * (10.0 - w') + b * w') - (a * (10.0 - w) + b * w) == (b - a) * (w' - w);
  }

  /** For cut point i (1..9) over m + 1 sorted values: j = (i*m) div 10 and
      delta = i*m - 10*j, with j + 1 still an index. */
  lemma CutIndex(i: int, m: int)
    requires 1 <= i <= 9 && m >= 1
    ensures 0 <= (i * m) / 10 < m
    ensures 0 <= i * m - 10 * ((i * m) / 10) < 10
  {
    assert i * m <= 9 * m by {
      assert (9 - i) * m >= 0;
    }
    assert i * m >= 0;
  }

  /** The i-th cut point (1..9) of the inclusive method over the sorted data `d`. */
  function CutPoint(d: seq<real>, i: int): real
    requires |d| >= 2 && 1 <= i <= 9
  {
    var m := |d| - 1;
    CutIndex(i, m);
    var j := (i * m) / 10;
    var delta := i * m - 10 * j;
    Lerp(d[j], d[j + 1], delta)
  }

  /** statistics.quantiles(values, n=10, method="inclusive"), with Python
      3.13's rule that a single data point yields nine copies of itself. */
  function Quantiles(values: seq<real>): (r: Result<seq<real>, QuantileError>)
    ensures r.Err? <==> |values| == 0
    ensures r.Ok? ==> |r.value| == 9
  {
    var d := SortAscending(values);
    if |d| == 0 then Err(NoDataPoints)
    else if |d| == 1 then Ok(seq(9, _ => d[0]))
    else Ok(seq(9, k requires 0 <= k < 9 => CutPoint(d, k + 1)))
  }

  /** Euclidean division by ten is monotone, and within one quotient so is the remainder. */
  lemma DivTenMonotone(p: int, p': int)
    requires 0 <= p <= p'
    ensures p / 10 <= p' / 10
    ensures p / 10 == p' / 10 ==> p - 10 * (p / 10) <= p' - 10 * (p' / 10)
  {
  }

  lemma InterpolatedChain(d: seq<real>, j: int, delta: int, j': int, delta': int)
    requires Ascending(d) && 0 <= j <= j' && j' + 1 < |d|
    requires 0 <= delta < 10 && 0 <= delta' < 10
    requires j == j' ==> delta <= delta'
    ensures d[0] <= Lerp(d[j], d[j + 1], delta) <= Lerp(d[j'], d[j' + 1], delta') <= d[|d| - 1]
  {
    LerpBetween(d[j], d[j + 1], delta);
    LerpBetween(d[j'], d[j' + 1], delta');
    if j == j' {
      LerpMonotone(d[j], d[j + 1], delta, delta');
    } else {
      assert d[j + 1] <= d[j'];
    }
  }

  lemma CutPointsAscending(d: seq<real>, i: int, i': int)
    requires |d| >= 2 && Ascending(d) && 1 <= i <= i' <= 9
    ensures d[0] <= CutPoint(d, i) <= CutPoint(d, i') <= d[|d| - 1]
  {
    var j, delta := CutPointAt(d, i);
    var j', delta' := CutPointAt(d, i');
    IndexOrder(i, i', |d| - 1);
    InterpolatedChain(d, j, delta, j', delta');
  }

  /** The interpolation indices of cut point i. */
  lemma CutPointAt(d: seq<real>, i: int) returns (j: int, delta: int)
    requires |d| >= 2 && 1 <= i <= 9
    ensures j == (i * (|d| - 1)) / 10 && delta == i * (|d| - 1) - 10 * j
    ensures 0 <= j < |d| - 1 && 0 <= delta < 10
    ensures CutPoint(d, i) == Lerp(d[j], d[j + 1], delta)
  {
    CutIndex(i, |d| - 1);
    j := (i * (|d| - 1)) / 10;
    delta := i * (|d| - 1) - 10 * j;
  }

  /** A later cut point has a later index, or the same index and a larger weight. */
  lemma IndexOrder(i: int, i': int, m: int)
    requires 1 <= i <= i' <= 9 && m >= 1
    ensures (i * m) / 10 <= (i' * m) / 10
    ensures (i * m) / 10 == (i' * m) / 10 ==> i * m - 10 * ((i * m) / 10) <= i' * m - 10 * ((i' * m) / 10)
  {
    var p, p' := i * m, i' * m;
    assert p' == p + (i' - i) * m;
    MulNonnegInt(i' - i, m);
    MulNonnegInt(i, m);
    DivTenMonotone(p, p');
  }

  lemma MulNonnegInt(x: int, y: int)
    requires x >= 0 && y >= 0
    ensures x * y >= 0
  {
  }

  /** The cut points are non-decreasing and lie between the smallest and the
      largest value. */
  lemma CutPointsOrdered(d: seq<real>)
    requires |d| >= 2 && Ascending(d)
    ensures forall a, b :: 1 <= a <= b <= 9 ==> CutPoint(d, a) <= CutPoint(d, b)
    ensures forall a :: 1 <= a <= 9 ==> d[0] <= CutPoint(d, a) <= d[|d| - 1]
  {
    forall a, b | 1 <= a <= b <= 9 ensures CutPoint(d, a) <= CutPoint(d, b) {
      CutPointsAscending(d, a, b);
    }
    forall a | 1 <= a <= 9 ensures d[0] <= CutPoint(d, a) <= d[|d| - 1] {
      CutPointsAscending(d, a, a);
    }
  }

  /** The cut points are non-decreasing. */
  lemma QuantilesAscending(values: seq<real>)
    requires |values| > 0
    ensures Quantiles(values).Ok?
    ensures Ascending(Quantiles(values).value)
  {
    var d := SortAscending(values);
    var q := Quantiles(values).value;
    if |values| == 1 {
      assert q == seq(9, _ => d[0]);
    } else {
      SortAscendingSorted(values);
      assert |d| >= 2;
      assert forall k :: 0 <= k < 9 ==> q[k] == CutPoint(d, k + 1);
      CutPointsOrdered(d);
    }
  }

  /** Every cut point lies between the smallest and the largest value. */
  lemma QuantilesWithinRange(values: seq<real>)
    requires |values| > 0
    ensures Quantiles(values).Ok?
    ensures forall k :: 0 <= k < 9 ==> MinOf(values) <= Quantiles(values).value[k] <= MaxOf(values)
  {
    var d := SortAscending(values);
    SortedEnds(values);
    var lo, hi := MinOf(values), MaxOf(values);
    assert d[0] == lo && d[|d| - 1] == hi;
    var q := Quantiles(values).value;
    if |values| == 1 {
      assert q == seq(9, _ => d[0]);
    } else {
      SortAscendingSorted(values);
      CutPointsOrdered(d);
      forall k | 0 <= k < 9 ensures lo <= q[k] <= hi {
        assert q[k] == CutPoint(d, k + 1);
      }
    }
  }

  // ---------------------------------------------------------------------
  // get_decile_number

  /** The index of the first boundary that is at least `v`, or |d|. */
  function FirstAtLeast(v: real, d: seq<real>): (i: nat)
    ensures i <= |d|
    ensures i < |d| ==> v <= d[i]
    ensures forall k :: 0 <= k < i ==> d[k] < v
    decreases |d|
  {
    if d == [] then 0
    else if v <= d[0] then 0
    else 1 + FirstAtLeast(v, d[1..])
  }

  /** The bucket get_decile_number returns: one more than the index of the
      first boundary the value does not exceed, or 10 if it exceeds them all. */
  function Bucket(v: real, d: seq<real>): (r: nat)
    ensures (exists i :: 0 <= i < |d| && v <= d[i]) ==>
              1 <= r <= |d| && v <= d[r - 1] && forall i :: 0 <= i < r - 1 ==> d[i] < v
    ensures (forall i :: 0 <= i < |d| ==> d[i] < v) ==> r == 10
  {
    var i := FirstAtLeast(v, d);
    if i < |d| then i + 1 else 10
  }

  /** get_decile_number: scans the boundaries in order and returns at the
      first one that is at least the value. */
  method GetDecileNumber(value: real, deciles: seq<real>) returns (r: nat)
    ensures r == Bucket(value, deciles)
    ensures (exists i :: 0 <= i < |deciles| && value <= deciles[i]) ==>
              1 <= r <= |deciles| && value <= deciles[r - 1] && forall i :: 0 <= i < r - 1 ==> deciles[i] < value
    ensures (forall i :: 0 <= i < |deciles| ==> deciles[i] < value) ==> r == 10
  {
    var i := 0;
    while i < |deciles|
      invariant 0 <= i <= |deciles|
      invariant forall k :: 0 <= k < i ==> deciles[k] < value
    {
      if value <= deciles[i] {
        return i + 1;
      }
      i := i + 1;
    }
    return 10;
  }

  /** With nine boundaries the bucket is k (1..9) exactly when the value is at
      most boundary k and above every earlier one, and 10 exactly when it is
      above all nine; in particular it lies in [1, 10]. */
  lemma BucketOfNine(v: real, d: seq<real>, k: int)
    requires |d| == 9 && 1 <= k <= 10
    ensures 1 <= Bucket(v, d) <= 10
    ensures k <= 9 ==> (Bucket(v, d) == k <==> v <= d[k - 1] && forall i :: 0 <= i < k - 1 ==> d[i] < v)
    ensures k == 10 ==> (Bucket(v, d) == 10 <==> forall i :: 0 <= i < 9 ==> d[i] < v)
  {
  }

  /** For at most nine boundaries the bucket never decreases as the value grows. */
  lemma BucketMonotone(v: real, w: real, d: seq<real>)
    requires v <= w && |d| <= 9
    ensures Bucket(v, d) <= Bucket(w, d)
  {
  }

  /** A corpus of one value: nine equal boundaries, and that value lands in bucket 1. */
  lemma SingleValueDeciles(x: real)
    ensures Quantiles([x]) == Ok(seq(9, _ => x))
    ensures Bucket(x, Quantiles([x]).value) == 1
  {
    SortAscendingOfAscending([x]);
  }

  // ---------------------------------------------------------------------
  // load_bill_stats, without the file read and the cache

  /** A statistics-file entry once its deciles are attached. */
  datatype LoadedStats = LoadedStats(stored: StoredStats, deciles: seq<real>)

  /** The loop of load_bill_stats that sets `data[metric]["deciles"]` for
      every metric; it fails when some metric has no values. */
  method AttachDeciles(data: map<string, StoredStats>) returns (r: Result<map<string, LoadedStats>, QuantileError>)
    ensures r.Err? <==> exists m :: m in data && data[m].values == []
    ensures r.Ok? ==> r.value.Keys == data.Keys
    ensures r.Ok? ==> forall m :: m in data ==>
              && r.value[m].stored == data[m]
              && Quantiles(data[m].values) == Ok(r.value[m].deciles)
              && |r.value[m].deciles| == 9
  {
    var todo := data.Keys;
    var loaded: map<string, LoadedStats> := map[];
    while todo != {}
      invariant todo <= data.Keys
      invariant loaded.Keys == data.Keys - todo
      invariant LoadedFrom(loaded, data)
      decreases |todo|
    {
      var m :| m in todo;
      var q := Quantiles(data[m].values);
      if q.Err? {
        return Err(q.error);
      }
      LoadedFromAdd(loaded, data, m);
      loaded := loaded[m := LoadedStats(data[m], q.value)];
      todo := todo - {m};
    }
    return Ok(loaded);
  }

  /** Every loaded metric keeps its stored entry and carries its deciles. */
  predicate LoadedFrom(loaded: map<string, LoadedStats>, data: map<string, StoredStats>)
  {
    forall m :: m in loaded ==>
      && m in data
      && data[m].values != []
      && loaded[m].stored == data[m]
      && Quantiles(data[m].values) == Ok(loaded[m].deciles)
  }

  lemma LoadedFromAdd(loaded: map<string, LoadedStats>, data: map<string, StoredStats>, m: string)
    requires LoadedFrom(loaded, data) && m in data && data[m].values != []
    ensures LoadedFrom(loaded[m := LoadedStats(data[m], Quantiles(data[m].values).value)], data)
  {
  }

  /** The ten values 10, 20, ..., 100 of the worked example. */
  const TenValues: seq<real> := [10.0, 20.0, 30.0, 40.0, 50.0, 60.0, 70.0, 80.0, 90.0, 100.0]

  /** Its deciles: cut point i is 9i + 10. */
  const TenDeciles: seq<real> := [19.0, 28.0, 37.0, 46.0, 55.0, 64.0, 73.0, 82.0, 91.0]

  lemma TenValuesCutPoints()
    ensures forall k :: 0 <= k < 9 ==> CutPoint(TenValues, k + 1) == TenDeciles[k]
  {
    var v := TenValues;
    assert CutPoint(v, 1) == 19.0;
    assert CutPoint(v, 2) == 28.0;
    assert CutPoint(v, 3) == 37.0;
    assert CutPoint(v, 4) == 46.0;
    assert CutPoint(v, 5) == 55.0;
    assert CutPoint(v, 6) == 64.0;
    assert CutPoint(v, 7) == 73.0;
    assert CutPoint(v, 8) == 82.0;
    assert CutPoint(v, 9) == 91.0;
  }

  /** On values already in order the deciles are the cut points of the values themselves. */
  lemma QuantilesOfAscending(values: seq<real>, expected: seq<real>)
    requires |values| >= 2 && Ascending(values) && |expected| == 9
    requires forall k :: 0 <= k < 9 ==> CutPoint(values, k + 1) == expected[k]
    ensures Quantiles(values) == Ok(expected)
  {
    SortAscendingOfAscending(values);
    var q := Quantiles(values).value;
    assert forall k :: 0 <= k < 9 ==> q[k] == expected[k];
    assert q == expected;
  }

  /** The worked example: for the values 10, 20, ..., 100 the deciles are
      19, 28, ..., 91. */
  lemma TenValuesExample()
    ensures Quantiles(TenValues) == Ok(TenDeciles)
  {
    TenValuesAreTens();
    TensAscending(TenValues);
    TenValuesCutPoints();
    QuantilesOfAscending(TenValues, TenDeciles);
  }

  /** Those deciles by position: boundary i is 9(i + 1) + 10. */
  predicate NineSteps(d: seq<real>)
  {
    |d| == 9 && forall i :: 0 <= i < 9 ==> d[i] == 9.0 * (i + 1) as real + 10.0
  }

  lemma TenDecilesAreSteps()
    ensures NineSteps(TenDeciles)
  {
  }

  /** With those deciles a value equal to a boundary belongs to that
      boundary's bucket: 46 lands in bucket 4 and 47 in bucket 5. */
  lemma TenDecilesBoundary()
    ensures Bucket(46.0, TenDeciles) == 4
    ensures Bucket(47.0, TenDeciles) == 5
  {
    TenDecilesAreSteps();
    BucketOfNine(46.0, TenDeciles, 4);
    BucketOfNine(47.0, TenDeciles, 5);
  }

  /** With those deciles 19 lands in bucket 1, 91 in bucket 9 and 100 in bucket 10. */
  lemma TenDecilesEnds()
    ensures Bucket(19.0, TenDeciles) == 1
    ensures Bucket(91.0, TenDeciles) == 9
    ensures Bucket(100.0, TenDeciles) == 10
  {
    TenDecilesAreSteps();
    BucketOfNine(19.0, TenDeciles, 1);
    BucketOfNine(91.0, TenDeciles, 9);
    BucketOfNine(100.0, TenDeciles, 10);
  }

  /** The ten values 10, 20, ..., 100, described by position rather than as a
      display so that the proofs below do not unfold the sort on a literal. */
  predicate TensUpToHundred(v: seq<real>)
  {
    |v| == 10 && forall i :: 0 <= i < 10 ==> v[i] == 10.0 * (i + 1) as real
  }

  lemma TenValuesAreTens()
    ensures TensUpToHundred(TenValues)
  {
  }

  lemma TensSum(v: seq<real>)
    requires TensUpToHundred(v)
    ensures Sum(v) == 550.0
  {
    assert v[9..][1..] == [];
    assert Sum(v[9..]) == 100.0;
    assert v[8..][1..] == v[9..];
    assert Sum(v[8..]) == 190.0;
    assert v[7..][1..] == v[8..];
    assert Sum(v[7..]) == 270.0;
    assert v[6..][1..] == v[7..];
    assert Sum(v[6..]) == 340.0;
    assert v[5..][1..] == v[6..];
    assert Sum(v[5..]) == 400.0;
    assert v[4..][1..] == v[5..];
    assert Sum(v[4..]) == 450.0;
    assert v[3..][1..] == v[4..];
    assert Sum(v[3..]) == 490.0;
    assert v[2..][1..] == v[3..];
    assert Sum(v[2..]) == 520.0;
    assert v[1..][1..] == v[2..];
    assert Sum(v[1..]) == 540.0;
  }

  lemma TensAscending(v: seq<real>)
    requires TensUpToHundred(v)
    ensures Ascending(v)
  {
  }

  /** The summary of the same ten values: mean 55, median 55 (the average
      of 50 and 60), minimum 10 and maximum 100. */
  lemma TensSummary(v: seq<real>)
    requires TensUpToHundred(v)
    ensures Summarize(v) == Summary(55.0, 55.0, 10.0, 100.0)
  {
    TensSum(v);
    TensAscending(v);
    MedianOfAscending(v);
    SortAscendingOfAscending(v);
    SortedEnds(v);
  }
}
