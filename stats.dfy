/**
 * Sample statistics: ZabbixDB.compute_statistic, which reduces a list of
 * {clock, value} rows to the result chosen by an operation name.
 */
module Stats {

  /** One fetched row: a Unix timestamp and the stored value. */
  datatype Sample = Sample(clock: int, value: real)

  /** The result shapes of compute_statistic. */
  datatype StatValue =
    | Rows(rows: seq<Sample>)     // min, max: every tied row, in input order
    | Single(sample: Sample)      // last: one row
    | Number(x: real)             // mean/avg, median, sum, range, mad
    | Count(n: nat)               // count
    | SqrtOf(variance: real)      // stdev: the square root of this sample variance

  /** The exceptions compute_statistic raises. */
  datatype StatError =
    | EmptyData             // ValueError("Data list is empty.")
    | TooFewForStdev        // statistics.StatisticsError from stdev on one value
    | Unsupported(op: string)  // ValueError("Unsupported operation: ...")

  datatype StatResult = Ok(value: StatValue) | Err(error: StatError)

  /** The operation names compute_statistic dispatches on. */
  const Operations: set<string> :=
    {"min", "max", "last", "mean", "avg", "median", "stdev", "sum", "count", "range", "mad"}

  /** `[item['value'] for item in data]`, read pointwise. */
  function Values(data: seq<Sample>): (vs: seq<real>)
    ensures |vs| == |data|
    ensures forall i :: 0 <= i < |data| ==> vs[i] == data[i].value
  {
    seq(|data|, i requires 0 <= i < |data| => data[i].value)
  }

  /** Python's min over the values. */
  function MinValue(xs: seq<real>): (m: real)
    requires xs != []
    ensures m in xs
    ensures forall i :: 0 <= i < |xs| ==> m <= xs[i]
  {
    if |xs| == 1 then xs[0]
    else
      var rest := MinValue(xs[1..]);
      assert forall i :: 1 <= i < |xs| ==> xs[i] == xs[1..][i - 1];
      if xs[0] <= rest then xs[0] else rest
  }

  /** Python's max over the values. */
  function MaxValue(xs: seq<real>): (m: real)
    requires xs != []
    ensures m in xs
    ensures forall i :: 0 <= i < |xs| ==> xs[i] <= m
  {
    if |xs| == 1 then xs[0]
    else
      var rest := MaxValue(xs[1..]);
      assert forall i :: 1 <= i < |xs| ==> xs[i] == xs[1..][i - 1];
      if rest <= xs[0] then xs[0] else rest
  }

  /** The comprehension `[item for item in data if item['value'] == v]`. */
  function KeepValue(data: seq<Sample>, v: real): (r: seq<Sample>)
    ensures forall s :: multiset(r)[s] == if s.value == v then multiset(data)[s] else 0
  {
    if data == [] then []
    else
      assert data == [data[0]] + data[1..];
      (if data[0].value == v then [data[0]] else []) + KeepValue(data[1..], v)
  }

  /** The filter keeps input order: it distributes over concatenation. */
  lemma {:induction false} KeepValueAppend(a: seq<Sample>, b: seq<Sample>, v: real)
    ensures KeepValue(a + b, v) == KeepValue(a, v) + KeepValue(b, v)
  {
    if a == [] {
      assert a + b == b;
    } else {
      assert (a + b)[1..] == a[1..] + b;
      KeepValueAppend(a[1..], b, v);
    }
  }

  /**
   * Index of the row `max(data, key=clock)` returns: Python's max keeps the
   * first row it met among those with the greatest clock.
   */
  function LastIndex(data: seq<Sample>): (k: nat)
    requires data != []
    ensures k < |data|
    ensures forall j :: 0 <= j < |data| ==> data[j].clock <= data[k].clock
    ensures forall j :: 0 <= j < k ==> data[j].clock < data[k].clock
  {
    if |data| == 1 then 0
    else
      var init := data[..|data| - 1];
      var k := LastIndex(init);
      assert forall j :: 0 <= j < |init| ==> data[j] == init[j];
      if data[k].clock < data[|data| - 1].clock then |data| - 1 else k
  }

  function Sum(xs: seq<real>): real
  {
    if xs == [] then 0.0 else xs[0] + Sum(xs[1..])
  }

  /** n * lo <= sum <= n * hi when every value lies in [lo, hi]. */
  lemma {:induction false} SumBounds(xs: seq<real>, lo: real, hi: real)
    requires forall i :: 0 <= i < |xs| ==> lo <= xs[i] <= hi
    ensures |xs| as real * lo <= Sum(xs) <= |xs| as real * hi
  {
    if xs != [] {
      assert forall i :: 0 <= i < |xs[1..]| ==> xs[1..][i] == xs[i + 1];
      SumBounds(xs[1..], lo, hi);
    }
  }

  ghost predicate Ascending(s: seq<real>)
  {
    forall i, j :: 0 <= i < j < |s| ==> s[i] <= s[j]
  }

  /** Every element of a multiset drawn from `s` plus `x` is at least `lo` when `x` and all of `s` are. */
  lemma LowerBoundOfUnion(t: seq<real>, s: seq<real>, x: real, lo: real)
    requires multiset(t) == multiset(s) + multiset{x}
    requires lo <= x && forall i :: 0 <= i < |s| ==> lo <= s[i]
    ensures forall i :: 0 <= i < |t| ==> lo <= t[i]
  {
    forall i | 0 <= i < |t| ensures lo <= t[i] {
      assert t[i] in multiset(t);
      if t[i] != x {
        assert t[i] in multiset(s);
      }
    }
  }

  lemma AscendingAt(s: seq<real>, i: nat, j: nat)
    requires Ascending(s) && i <= j < |s|
    ensures s[i] <= s[j]
  {
  }

  function Insert(x: real, s: seq<real>): (r: seq<real>)
    requires Ascending(s)
    ensures Ascending(r)
    ensures multiset(r) == multiset(s) + multiset{x}
  {
    if s == [] || x <= s[0] then
      [x] + s
    else
      assert s == [s[0]] + s[1..];
      var tail := Insert(x, s[1..]);
      LowerBoundOfUnion(tail, s[1..], x, s[0]);
      AscendingCons(s[0], tail);
      [s[0]] + tail
  }

  lemma AscendingCons(h: real, t: seq<real>)
    requires Ascending(t) && forall i :: 0 <= i < |t| ==> h <= t[i]
    ensures Ascending([h] + t)
  {
    var s := [h] + t;
    forall i, j | 0 <= i < j < |s| ensures s[i] <= s[j] {
      assert s[j] == t[j - 1];
      if 0 < i {
        assert s[i] == t[i - 1];
      }
    }
  }

  /** `sorted(values)`, as statistics.median uses it. */
  function SortAscending(xs: seq<real>): (r: seq<real>)
    ensures Ascending(r)
    ensures multiset(r) == multiset(xs)
  {
    if xs == [] then []
    else
      assert xs == [xs[0]] + xs[1..];
      Insert(xs[0], SortAscending(xs[1..]))
  }

  /** statistics.median: the middle of the sorted values, or the mean of the two middle ones. */
  function Median(xs: seq<real>): real
    requires xs != []
  {
    var s := SortAscending(xs);
    assert |s| == |multiset(s)| == |multiset(xs)| == |xs|;
    var n := |s|;
    if n % 2 == 1 then s[n / 2] else (s[n / 2 - 1] + s[n / 2]) / 2.0
  }

  /** `[abs(x - med) for x in values]`: each entry is the distance of a value from `med`. */
  function Deviations(xs: seq<real>, med: real): (ds: seq<real>)
    ensures |ds| == |xs|
    ensures forall i :: 0 <= i < |xs| ==> 0.0 <= ds[i] && (ds[i] == xs[i] - med || ds[i] == med - xs[i])
  {
    seq(|xs|, i requires 0 <= i < |xs| => if xs[i] >= med then xs[i] - med else med - xs[i])
  }

  function SumSquares(xs: seq<real>, mu: real): real
  {
    if xs == [] then 0.0 else (xs[0] - mu) * (xs[0] - mu) + SumSquares(xs[1..], mu)
  }

  /** statistics.variance: squared deviations from the mean over n - 1; never negative. */
  function Variance(xs: seq<real>): (v: real)
    requires |xs| >= 2
    ensures v >= 0.0
  {
    SumSquaresNonNegative(xs, Sum(xs) / |xs| as real);
    SumSquares(xs, Sum(xs) / |xs| as real) / (|xs| - 1) as real
  }

  /**
   * compute_statistic(data, operation). The emptiness test comes before the
   * operation is looked at; an operation outside the eleven names fails.
   */
  function ComputeStatistic(data: seq<Sample>, op: string): (r: StatResult)
    ensures data == [] ==> r == Err(EmptyData)
    ensures data != [] && op !in Operations ==> r == Err(Unsupported(op))
    ensures r.Err? && r.error == TooFewForStdev <==> data != [] && op == "stdev" && |data| < 2
    ensures r.Err? ==> data == [] || op !in Operations || op == "stdev"
  {
    if data == [] then Err(EmptyData)
    else
      var vs := Values(data);
      if op == "min" then Ok(Rows(KeepValue(data, MinValue(vs))))
      else if op == "max" then Ok(Rows(KeepValue(data, MaxValue(vs))))
      else if op == "last" then Ok(Single(data[LastIndex(data)]))
      else if op == "mean" || op == "avg" then Ok(Number(Sum(vs) / |vs| as real))
      else if op == "median" then Ok(Number(Median(vs)))
      else if op == "stdev" then
        if |vs| < 2 then Err(TooFewForStdev) else Ok(SqrtOf(Variance(vs)))
      else if op == "sum" then Ok(Number(Sum(vs)))
      else if op == "count" then Ok(Count(|vs|))
      else if op == "range" then Ok(Number(MaxValue(vs) - MinValue(vs)))
      else if op == "mad" then
        var med := Median(vs);
        Ok(Number(Median(Deviations(vs, med))))
      else Err(Unsupported(op))
  }

  // Properties of compute_statistic

  /** `min` returns the rows holding the least value, every tie and nothing else. */
  lemma MinKeepsEveryTie(data: seq<Sample>)
    requires data != []
    ensures ComputeStatistic(data, "min").Ok? && ComputeStatistic(data, "min").value.Rows?
    ensures var r := ComputeStatistic(data, "min").value.rows;
            var m := MinValue(Values(data));
            r != [] &&
            (exists i :: 0 <= i < |data| && data[i].value == m) &&
            (forall j :: 0 <= j < |data| ==> m <= data[j].value) &&
            (forall s :: multiset(r)[s] == if s.value == m then multiset(data)[s] else 0)
  {
    var vs := Values(data);
    var m := MinValue(vs);
    var i :| 0 <= i < |vs| && vs[i] == m;
    var r := KeepValue(data, m);
    assert data[i] in multiset(data);
    assert multiset(r)[data[i]] > 0;
    assert ComputeStatistic(data, "min") == Ok(Rows(r));
  }

  /** `max` returns the rows holding the greatest value, every tie and nothing else. */
  lemma MaxKeepsEveryTie(data: seq<Sample>)
    requires data != []
    ensures ComputeStatistic(data, "max").Ok? && ComputeStatistic(data, "max").value.Rows?
    ensures var r := ComputeStatistic(data, "max").value.rows;
            var m := MaxValue(Values(data));
            r != [] &&
            (exists i :: 0 <= i < |data| && data[i].value == m) &&
            (forall j :: 0 <= j < |data| ==> data[j].value <= m) &&
            (forall s :: multiset(r)[s] == if s.value == m then multiset(data)[s] else 0)
  {
    var vs := Values(data);
    var m := MaxValue(vs);
    var i :| 0 <= i < |vs| && vs[i] == m;
    var r := KeepValue(data, m);
    assert data[i] in multiset(data);
    assert multiset(r)[data[i]] > 0;
    assert ComputeStatistic(data, "max") == Ok(Rows(r));
  }

  /** `last` returns the first row, in input order, whose clock is the greatest. */
  lemma LastIsFirstLatest(data: seq<Sample>)
    requires data != []
    ensures ComputeStatistic(data, "last").Ok? && ComputeStatistic(data, "last").value.Single?
    ensures var s := ComputeStatistic(data, "last").value.sample;
            exists i :: 0 <= i < |data| && data[i] == s &&
              (forall j :: 0 <= j < |data| ==> data[j].clock <= s.clock) &&
              (forall j :: 0 <= j < i ==> data[j].clock < s.clock)
  {
    var i := LastIndex(data);
    assert data[i] == ComputeStatistic(data, "last").value.sample;
  }

  lemma {:induction false} SumAppend(a: seq<real>, b: seq<real>)
    ensures Sum(a + b) == Sum(a) + Sum(b)
  {
    if a == [] {
      assert a + b == b;
    } else {
      assert (a + b)[1..] == a[1..] + b;
      SumAppend(a[1..], b);
    }
  }

  /**
   * `count` is the number of rows and `sum` adds up across a concatenation,
   * as when history rows and trend rows are combined.
   */
  lemma CountAndSumOfConcatenation(a: seq<Sample>, b: seq<Sample>)
    requires a != [] && b != []
    ensures ComputeStatistic(a + b, "count") == Ok(Count(|a| + |b|))
    ensures ComputeStatistic(a + b, "sum").value.x ==
            ComputeStatistic(a, "sum").value.x + ComputeStatistic(b, "sum").value.x
  {
    assert Values(a + b) == Values(a) + Values(b);
    SumAppend(Values(a), Values(b));
  }

  /** `count` is the number of rows and `sum` the sum of their values. */
  lemma CountAndSumOfRows(data: seq<Sample>)
    requires data != []
    ensures ComputeStatistic(data, "count") == Ok(Count(|data|))
    ensures ComputeStatistic(data, "sum") == Ok(Number(Sum(Values(data))))
  {
  }

  /** `range` is never negative, and is zero exactly when all values are equal. */
  lemma RangeIsSpread(data: seq<Sample>)
    requires data != []
    ensures ComputeStatistic(data, "range").Ok? && ComputeStatistic(data, "range").value.Number?
    ensures var r := ComputeStatistic(data, "range").value.x;
            r >= 0.0 &&
            (r == 0.0 <==> forall i, j :: 0 <= i < |data| && 0 <= j < |data| ==> data[i].value == data[j].value)
  {
    var vs := Values(data);
    var lo, hi := MinValue(vs), MaxValue(vs);
    var i :| 0 <= i < |vs| && vs[i] == lo;
    var k :| 0 <= k < |vs| && vs[k] == hi;
    if forall i, j :: 0 <= i < |data| && 0 <= j < |data| ==> data[i].value == data[j].value {
      assert data[i].value == data[k].value;
    }
  }

  /** The mean of non-empty values lies within any bounds on the values. */
  lemma MeanWithinBounds(xs: seq<real>, lo: real, hi: real)
    requires xs != []
    requires forall i :: 0 <= i < |xs| ==> lo <= xs[i] <= hi
    ensures lo <= Sum(xs) / |xs| as real <= hi
  {
    SumBounds(xs, lo, hi);
    DivideBounds(Sum(xs), |xs| as real, lo, hi);
  }

  lemma DivideBounds(total: real, n: real, lo: real, hi: real)
    requires n > 0.0 && n * lo <= total <= n * hi
    ensures lo <= total / n <= hi
  {
    assert total / n * n == total;
  }

  /** `mean` (and its alias `avg`) lies between the least and the greatest value. */
  lemma MeanBetweenExtremes(data: seq<Sample>)
    requires data != []
    ensures ComputeStatistic(data, "mean").Ok? && ComputeStatistic(data, "mean") == ComputeStatistic(data, "avg")
    ensures var mean := ComputeStatistic(data, "mean").value.x;
            (exists i :: 0 <= i < |data| && data[i].value <= mean) &&
            (exists i :: 0 <= i < |data| && mean <= data[i].value)
  {
    var vs := Values(data);
    MeanWithinBounds(vs, MinValue(vs), MaxValue(vs));
    var mean := Sum(vs) / |vs| as real;
    assert ComputeStatistic(data, "mean") == Ok(Number(mean));
    var a :| 0 <= a < |vs| && vs[a] == MinValue(vs);
    var b :| 0 <= b < |vs| && vs[b] == MaxValue(vs);
    assert data[a].value <= mean <= data[b].value;
  }

  /** `mean` is `sum` over `count`: the mean times the number of rows is the sum. */
  lemma MeanTimesCountIsSum(data: seq<Sample>)
    requires data != []
    ensures var mean, sum := ComputeStatistic(data, "mean"), ComputeStatistic(data, "sum");
            mean.Ok? && mean.value.Number? && sum.Ok? && sum.value.Number? &&
            mean.value.x * |data| as real == sum.value.x
  {
    var vs := Values(data);
    assert ComputeStatistic(data, "mean") == Ok(Number(Sum(vs) / |vs| as real));
    assert ComputeStatistic(data, "sum") == Ok(Number(Sum(vs)));
  }

  /** `range` is the value of the `max` rows minus the value of the `min` rows. */
  lemma RangeIsMaxMinusMin(data: seq<Sample>)
    requires data != []
    ensures ComputeStatistic(data, "max").Ok? && ComputeStatistic(data, "max").value.Rows? &&
            ComputeStatistic(data, "max").value.rows != []
    ensures ComputeStatistic(data, "min").Ok? && ComputeStatistic(data, "min").value.Rows? &&
            ComputeStatistic(data, "min").value.rows != []
    ensures ComputeStatistic(data, "range").Ok? && ComputeStatistic(data, "range").value.Number?
    ensures ComputeStatistic(data, "range").value.x ==
            ComputeStatistic(data, "max").value.rows[0].value - ComputeStatistic(data, "min").value.rows[0].value
  {
    var vs := Values(data);
    var hi, lo := MaxValue(vs), MinValue(vs);
    RangeOfExtremes(data, hi, lo);
    assert ComputeStatistic(data, "max").value.rows[0].value == hi by {
      MaxRowsOf(data);
      KeptRowsHoldValue(data, hi);
    }
    assert ComputeStatistic(data, "min").value.rows[0].value == lo by {
      MinRowsOf(data);
      KeptRowsHoldValue(data, lo);
    }
  }

  lemma MaxRowsOf(data: seq<Sample>)
    requires data != []
    ensures ComputeStatistic(data, "max") == Ok(Rows(KeepValue(data, MaxValue(Values(data)))))
  {
  }

  lemma MinRowsOf(data: seq<Sample>)
    requires data != []
    ensures ComputeStatistic(data, "min") == Ok(Rows(KeepValue(data, MinValue(Values(data)))))
  {
  }

  lemma RangeOfExtremes(data: seq<Sample>, hi: real, lo: real)
    requires data != [] && hi == MaxValue(Values(data)) && lo == MinValue(Values(data))
    ensures ComputeStatistic(data, "range").Ok? && ComputeStatistic(data, "range").value.Number?
    ensures ComputeStatistic(data, "range").value.x == hi - lo
  {
    var op := "range";
    assert op[0] != "min"[0] && op[0] != "max"[0] && op[0] != "last"[0] && op[0] != "mean"[0];
    assert op[0] != "avg"[0] && op[0] != "median"[0] && op[0] != "stdev"[0] && op[0] != "sum"[0];
    assert op[0] != "count"[0];
  }

  /** The rows kept for a value the data holds are non-empty and all hold that value. */
  lemma KeptRowsHoldValue(data: seq<Sample>, v: real)
    requires v in Values(data)
    ensures KeepValue(data, v) != [] && KeepValue(data, v)[0].value == v
  {
    var r := KeepValue(data, v);
    var i :| 0 <= i < |data| && Values(data)[i] == v;
    assert data[i] in multiset(data);
    assert multiset(r)[data[i]] > 0;
    assert r[0] in multiset(r);
  }

  /** Which side of a pivot a value is counted on. */
  datatype Side = AtMost | AtLeast

  predicate OnSide(side: Side, y: real, pivot: real)
  {
    match side
    case AtMost => y <= pivot
    case AtLeast => pivot <= y
  }

  /** How many values lie on the given side of the pivot. */
  function CountOnSide(xs: seq<real>, side: Side, pivot: real): nat
  {
    if xs == [] then 0
    else (if OnSide(side, xs[0], pivot) then 1 else 0) + CountOnSide(xs[1..], side, pivot)
  }

  lemma {:induction false} CountInsert(x: real, s: seq<real>, side: Side, pivot: real)
    requires Ascending(s)
    ensures CountOnSide(Insert(x, s), side, pivot) ==
            (if OnSide(side, x, pivot) then 1 else 0) + CountOnSide(s, side, pivot)
  {
    if s == [] || x <= s[0] {
      assert ([x] + s)[1..] == s;
    } else {
      var r := Insert(x, s);
      assert r[1..] == Insert(x, s[1..]);
      CountInsert(x, s[1..], side, pivot);
    }
  }

  lemma {:induction false} CountSorted(xs: seq<real>, side: Side, pivot: real)
    ensures CountOnSide(SortAscending(xs), side, pivot) == CountOnSide(xs, side, pivot)
  {
    if xs != [] {
      CountSorted(xs[1..], side, pivot);
      CountInsert(xs[0], SortAscending(xs[1..]), side, pivot);
    }
  }

  lemma {:induction false} CountAtLeastRun(s: seq<real>, side: Side, pivot: real, lo: nat, hi: nat)
    requires lo <= hi <= |s|
    requires forall i :: lo <= i < hi ==> OnSide(side, s[i], pivot)
    ensures CountOnSide(s, side, pivot) >= hi - lo
  {
    if lo < hi {
      if lo == 0 {
        CountAtLeastRun(s[1..], side, pivot, 0, hi - 1);
      } else {
        CountAtLeastRun(s[1..], side, pivot, lo - 1, hi - 1);
      }
    }
  }

  /**
   * The median has at least half of the values at or below it and at least
   * half at or above it. For an odd count it is the middle value: more than
   * half lie on each side. For an even count it is the midpoint of the two
   * middle values `a` and `b`: `a` has half the values at or below it and
   * one more than half at or above it, and `b` the other way round.
   */
  lemma MedianSplitsValues(xs: seq<real>)
    requires xs != []
    ensures 2 * CountOnSide(xs, AtMost, Median(xs)) >= |xs|
    ensures 2 * CountOnSide(xs, AtLeast, Median(xs)) >= |xs|
    ensures |xs| % 2 == 1 ==>
              2 * CountOnSide(xs, AtMost, Median(xs)) > |xs| && 2 * CountOnSide(xs, AtLeast, Median(xs)) > |xs|
    ensures |xs| % 2 == 0 ==> exists a, b :: MiddlePair(xs, a, b) && Median(xs) == (a + b) / 2.0
  {
    var med := Median(xs);
    var s := SortAscending(xs);
    assert |s| == |multiset(s)| == |multiset(xs)| == |xs|;
    var n := |s|;
    var k := n / 2;
    CountSorted(xs, AtMost, med);
    CountSorted(xs, AtLeast, med);
    // the last index counted at or below the median, and the first counted at or above it
    var below := if n % 2 == 1 then k else k - 1;
    AscendingAt(s, below, k);
    assert s[below] <= med <= s[k];
    forall i | 0 <= i <= below ensures OnSide(AtMost, s[i], med) {
      AscendingAt(s, i, below);
    }
    forall i | k <= i < n ensures OnSide(AtLeast, s[i], med) {
      AscendingAt(s, k, i);
    }
    CountAtLeastRun(s, AtMost, med, 0, below + 1);
    CountAtLeastRun(s, AtLeast, med, k, n);
    if n % 2 == 0 {
      MiddlePairOfSorted(xs, s, k - 1);
      MiddlePairOfSorted(xs, s, k);
      assert MiddlePair(xs, s[k - 1], s[k]);
    }
  }

  /** `a` and `b` are the two middle values of an even number of values. */
  ghost predicate MiddlePair(xs: seq<real>, a: real, b: real)
  {
    2 * CountOnSide(xs, AtMost, a) >= |xs| && 2 * CountOnSide(xs, AtLeast, a) >= |xs| + 2 &&
    2 * CountOnSide(xs, AtMost, b) >= |xs| + 2 && 2 * CountOnSide(xs, AtLeast, b) >= |xs|
  }

  /** The value at index `i` of the sorted values has `i + 1` values at or below it and `n - i` at or above it. */
  lemma MiddlePairOfSorted(xs: seq<real>, s: seq<real>, i: nat)
    requires s == SortAscending(xs) && i < |s| == |xs|
    ensures CountOnSide(xs, AtMost, s[i]) >= i + 1
    ensures CountOnSide(xs, AtLeast, s[i]) >= |xs| - i
  {
    CountSorted(xs, AtMost, s[i]);
    CountSorted(xs, AtLeast, s[i]);
    forall j | 0 <= j <= i ensures OnSide(AtMost, s[j], s[i]) {
      AscendingAt(s, j, i);
    }
    forall j | i <= j < |s| ensures OnSide(AtLeast, s[j], s[i]) {
      AscendingAt(s, i, j);
    }
    CountAtLeastRun(s, AtMost, s[i], 0, i + 1);
    CountAtLeastRun(s, AtLeast, s[i], i, |s|);
  }

  /**
   * `median` has at least half of the values at or below it and at least
   * half at or above it; for an even count it is the midpoint of the two
   * middle values.
   */
  lemma MedianSplits(data: seq<Sample>)
    requires data != []
    ensures ComputeStatistic(data, "median").Ok? && ComputeStatistic(data, "median").value.Number?
    ensures var med := ComputeStatistic(data, "median").value.x;
            2 * CountOnSide(Values(data), AtMost, med) >= |data| &&
            2 * CountOnSide(Values(data), AtLeast, med) >= |data| &&
            (|data| % 2 == 1 ==> 2 * CountOnSide(Values(data), AtMost, med) > |data| &&
                                 2 * CountOnSide(Values(data), AtLeast, med) > |data|) &&
            (|data| % 2 == 0 ==> exists a, b :: MiddlePair(Values(data), a, b) && med == (a + b) / 2.0)
  {
    MedianSplitsValues(Values(data));
    assert ComputeStatistic(data, "median") == Ok(Number(Median(Values(data))));
  }

  /** The median of non-empty values lies between their least and greatest value. */
  lemma MedianWithinBounds(xs: seq<real>, lo: real, hi: real)
    requires xs != []
    requires forall i :: 0 <= i < |xs| ==> lo <= xs[i] <= hi
    ensures lo <= Median(xs) <= hi
  {
    var s := SortAscending(xs);
    assert |s| == |multiset(s)| == |multiset(xs)| == |xs|;
    forall i | 0 <= i < |s| ensures lo <= s[i] <= hi {
      assert s[i] in multiset(s);
      assert s[i] in multiset(xs);
      var j :| 0 <= j < |xs| && xs[j] == s[i];
    }
  }

  lemma MadIsMedianOfDeviations(data: seq<Sample>)
    requires data != []
    ensures ComputeStatistic(data, "mad") == Ok(Number(Median(Deviations(Values(data), Median(Values(data))))))
  {
    var op := "mad";
    assert op[0] != "sum"[0] && op[0] != "count"[0] && op[0] != "range"[0] && op[0] != "last"[0];
    assert op[1] != "min"[1] && op[2] != "max"[2] && op[1] != "median"[1] && op[1] != "mean"[1];
    assert op != "min" && op != "max" && op != "last" && op != "mean" && op != "avg" && op != "median";
    assert op != "stdev" && op != "sum" && op != "count" && op != "range";
  }

  lemma DeviationsMedianNonNegative(ds: seq<real>)
    requires ds != []
    requires forall i :: 0 <= i < |ds| ==> 0.0 <= ds[i]
    ensures Median(ds) >= 0.0
  {
    MedianWithinBounds(ds, 0.0, MaxValue(ds));
  }

  /** `mad`, the median absolute deviation from the median, is never negative. */
  lemma MadNonNegative(data: seq<Sample>)
    requires data != []
    ensures ComputeStatistic(data, "mad").Ok? && ComputeStatistic(data, "mad").value.Number?
    ensures ComputeStatistic(data, "mad").value.x >= 0.0
  {
    var vs := Values(data);
    var ds := Deviations(vs, Median(vs));
    MadIsMedianOfDeviations(data);
    DeviationsMedianNonNegative(ds);
  }

  lemma {:induction false} SumSquaresNonNegative(xs: seq<real>, mu: real)
    ensures SumSquares(xs, mu) >= 0.0
  {
    if xs != [] {
      SumSquaresNonNegative(xs[1..], mu);
      var d := xs[0] - mu;
      assert d * d >= 0.0 by {
        if d < 0.0 {
          assert d * d == (-d) * (-d);
        }
      }
    }
  }

  /** `stdev` fails on a single row and otherwise is the root of a non-negative variance. */
  lemma StdevNeedsTwoRows(data: seq<Sample>)
    requires data != []
    ensures |data| == 1 <==> ComputeStatistic(data, "stdev") == Err(TooFewForStdev)
    ensures |data| >= 2 ==>
              ComputeStatistic(data, "stdev").Ok? && ComputeStatistic(data, "stdev").value.SqrtOf? &&
              ComputeStatistic(data, "stdev").value.variance >= 0.0
  {
  }
}
