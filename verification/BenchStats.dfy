/** Summary statistics of a benchmark: interpolated percentiles of the sorted samples, and two-pass moments. */
module BenchStats {
  import opened Options
  import opened Moments
  import opened Ordering

  // ---- Percentiles ----

  function Clamp(p: real): (r: real)
    ensures 0.0 <= r <= 1.0
  {
    if p < 0.0 then 0.0 else if p > 1.0 then 1.0 else p
  }

  function Ceil(x: real): (r: int)
    ensures r as real - 1.0 < x <= r as real
  {
    -(-x).Floor
  }

  function Interpolate(x: real, y: real, f: real): real {
    x * (1.0 - f) + y * f
  }

  /** The value at a rank that may fall between two samples. */
  function At(sorted: seq<real>, pos: real): real
    requires sorted != [] && 0.0 <= pos <= (|sorted| - 1) as real
  {
    var lower, upper := pos.Floor, Ceil(pos);
    if lower == upper then sorted[lower]
    else Interpolate(sorted[lower], sorted[upper], pos - lower as real)
  }

  function Position(n: nat, p: real): (r: real)
    requires n > 0
    ensures 0.0 <= r <= (n - 1) as real
  {
    PositionInRange(n - 1, Clamp(p));
    Scale(n - 1, Clamp(p))
  }

  function Percentile(sorted: seq<real>, p: real): Option<real> {
    if sorted == [] then None
    else if |sorted| == 1 then Some(sorted[0])
    else Some(At(sorted, Position(|sorted|, p)))
  }

  lemma PositionInRange(n: nat, p: real)
    requires 0.0 <= p <= 1.0
    ensures 0.0 <= Scale(n, p) <= n as real
  {
    ProductMonotone(n, 0.0, p);
    ProductMonotone(n, p, 1.0);
  }

  lemma ProductMonotone(n: nat, p: real, q: real)
    requires p <= q
    ensures Scale(n, p) <= Scale(n, q)
  {
    assert n as real * (q - p) >= 0.0;
  }

  predicate AtMost(x: real, y: real) {
    x <= y
  }

  ghost predicate Ascending(xs: seq<real>) {
    Ordered(xs, AtMost)
  }

  lemma InterpolateMonotone(x: real, y: real, f: real, g: real)
    requires x <= y && f <= g
    ensures Interpolate(x, y, f) <= Interpolate(x, y, g)
    ensures Interpolate(x, y, 0.0) == x && Interpolate(x, y, 1.0) == y
  {
    assert Interpolate(x, y, g) - Interpolate(x, y, f) == (y - x) * (g - f);
    Product(y - x, g - f);
  }

  lemma Product(a: real, b: real)
    requires a >= 0.0 && b >= 0.0
    ensures a * b >= 0.0
  {
  }

  /** Below the rank no sample is larger, above it none is smaller. */
  lemma AtSplits(sorted: seq<real>, pos: real, k: nat)
    requires Ascending(sorted) && k < |sorted| && 0.0 <= pos <= (|sorted| - 1) as real
    ensures k as real <= pos ==> sorted[k] <= At(sorted, pos)
    ensures k as real >= pos ==> sorted[k] >= At(sorted, pos)
  {
    var lower, upper := pos.Floor, Ceil(pos);
    if lower != upper {
      hide Interpolate;
      InterpolateMonotone(sorted[lower], sorted[upper], 0.0, pos - lower as real);
      InterpolateMonotone(sorted[lower], sorted[upper], pos - lower as real, 1.0);
    }
  }

  lemma AtMonotone(sorted: seq<real>, pos: real, pos': real)
    requires Ascending(sorted) && sorted != [] && 0.0 <= pos <= pos' <= (|sorted| - 1) as real
    ensures At(sorted, pos) <= At(sorted, pos')
  {
    if Ceil(pos) as real <= pos' {
      AtSplits(sorted, pos, Ceil(pos));
      AtSplits(sorted, pos', Ceil(pos));
    } else if pos'.Floor as real >= pos {
      AtSplits(sorted, pos, pos'.Floor);
      AtSplits(sorted, pos', pos'.Floor);
    } else {
      hide Interpolate;
      var lower := pos.Floor;
      assert pos'.Floor == lower && Ceil(pos) == Ceil(pos') == lower + 1;
      InterpolateMonotone(sorted[lower], sorted[lower + 1], pos - lower as real, pos' - lower as real);
    }
  }

  lemma PositionMonotone(n: nat, p: real, q: real)
    requires n > 0 && p <= q
    ensures Position(n, p) <= Position(n, q)
  {
    ProductMonotone(n - 1, Clamp(p), Clamp(q));
  }

  /** A larger p never gives a smaller value, across every rank it passes. */
  lemma PercentileMonotone(sorted: seq<real>, p: real, q: real)
    requires Ascending(sorted) && sorted != [] && p <= q
    ensures Percentile(sorted, p).value <= Percentile(sorted, q).value
  {
    if |sorted| > 1 {
      hide At, Position;
      PositionMonotone(|sorted|, p, q);
      AtMonotone(sorted, Position(|sorted|, p), Position(|sorted|, q));
    }
  }

  /** At p = j / (n - 1) the percentile is sample j itself. */
  lemma PercentileHitsSamples(sorted: seq<real>, j: nat)
    requires |sorted| > 1 && j < |sorted|
    ensures Percentile(sorted, j as real / (|sorted| - 1) as real) == Some(sorted[j])
  {
    var m := (|sorted| - 1) as real;
    Quotient(j as real, m);
    FractionInRange(j as real, m);
    assert Position(|sorted|, j as real / m) == j as real;
  }

  lemma FractionInRange(a: real, m: real)
    requires 0.0 <= a <= m && m > 0.0
    ensures 0.0 <= a / m <= 1.0
  {
  }

  /** The p-th percentile separates the samples at rank p (n - 1), so it lies within their range. */
  lemma PercentileSplits(sorted: seq<real>, p: real, k: nat)
    requires Ascending(sorted) && k < |sorted|
    ensures Percentile(sorted, p).Some?
    ensures k as real <= Position(|sorted|, p) ==> sorted[k] <= Percentile(sorted, p).value
    ensures k as real >= Position(|sorted|, p) ==> sorted[k] >= Percentile(sorted, p).value
  {
    if |sorted| > 1 {
      hide At;
      AtSplits(sorted, Position(|sorted|, p), k);
    }
  }

  lemma AtInterpolates(sorted: seq<real>, pos: real, k: nat)
    requires k + 1 < |sorted| && k as real <= pos <= (k + 1) as real
    ensures pos <= (|sorted| - 1) as real
    ensures At(sorted, pos) - sorted[k] == (pos - k as real) * (sorted[k + 1] - sorted[k])
  {
    var x, y, f := sorted[k], sorted[k + 1], pos - k as real;
    assert x * (1.0 - f) + y * f - x == f * (y - x);
    if pos == (k + 1) as real {
      assert pos.Floor == Ceil(pos) == k + 1;
    } else {
      assert pos.Floor == k;
      assert pos == k as real || Ceil(pos) == k + 1;
    }
  }

  /** Between the ranks k and k + 1 the percentile runs straight from sample k to sample k + 1, as far along as
      p (n - 1) has come; p below 0 or above 1 gives the first or the last. */
  lemma PercentileInterpolates(sorted: seq<real>, p: real, k: nat)
    requires k + 1 < |sorted|
    ensures 0.0 <= p <= 1.0 && k as real <= p * (|sorted| - 1) as real <= (k + 1) as real ==>
              Percentile(sorted, p).Some? &&
              Percentile(sorted, p).value - sorted[k] == (p * (|sorted| - 1) as real - k as real) * (sorted[k + 1] - sorted[k])
    ensures p <= 0.0 ==> Percentile(sorted, p) == Some(sorted[0])
    ensures p >= 1.0 ==> Percentile(sorted, p) == Some(sorted[|sorted| - 1])
  {
    PercentileClamps(sorted, p);
    hide At;
    if 0.0 <= p <= 1.0 && k as real <= p * (|sorted| - 1) as real <= (k + 1) as real {
      assert Position(|sorted|, p) == p * (|sorted| - 1) as real;
      AtInterpolates(sorted, Position(|sorted|, p), k);
    }
  }

  lemma PercentileClamps(sorted: seq<real>, p: real)
    requires sorted != []
    ensures p <= 0.0 ==> Percentile(sorted, p) == Some(sorted[0])
    ensures p >= 1.0 ==> Percentile(sorted, p) == Some(sorted[|sorted| - 1])
  {
    if p <= 0.0 {
      assert Position(|sorted|, p) == 0.0;
    } else if p >= 1.0 {
      assert Position(|sorted|, p) == (|sorted| - 1) as real;
    }
  }

  // ---- Summaries ----

  datatype MetricStats = MetricStats(
    count: nat, min: real, max: real, mean: real, variance: real, p50: real, p90: real, p95: real, p99: real)

  function Sorted(xs: seq<real>): (r: seq<real>)
    ensures |r| == |xs|
  {
    Sort(xs, AtMost)
  }

  function Summarize(samples: seq<real>): Option<MetricStats> {
    if samples == [] then None
    else
      var sorted := Sorted(samples);
      var mean := Mean(sorted);
      Some(MetricStats(
        |sorted|, sorted[0], sorted[|sorted| - 1], mean,
        if |sorted| == 1 then 0.0 else SquaredDeviations(sorted, mean) / |sorted| as real,
        Percentile(sorted, 0.5).GetOr(mean), Percentile(sorted, 0.9).GetOr(mean),
        Percentile(sorted, 0.95).GetOr(mean), Percentile(sorted, 0.99).GetOr(mean)))
  }

  lemma SortedProperties(xs: seq<real>)
    ensures Ascending(Sorted(xs)) && multiset(Sorted(xs)) == multiset(xs)
  {
    assert IsPreorder(AtMost);
    SortPermutes(xs, AtMost);
    SortOrders(xs, AtMost);
  }

  /** There is one way to sort. */
  lemma AscendingIsUnique(a: seq<real>, b: seq<real>)
    requires Ascending(a) && Ascending(b) && multiset(a) == multiset(b)
    ensures a == b
  {
    assert NoTies(a, AtMost);
    OrderedIsUnique(a, b, AtMost);
  }

  lemma {:induction false} InsertKeepsSums(xs: seq<real>, x: real, c: real)
    ensures Sum(Insert(xs, x, AtMost)) == Sum(xs) + x
    ensures SquaredDeviations(Insert(xs, x, AtMost), c) == SquaredDeviations(xs, c) + Square(x - c)
  {
    hide Sum, SquaredDeviations, Square;
    if xs == [] || xs[|xs| - 1] <= x {
      Snoc(xs, x);
      DeviationsSnoc(xs, x, c);
    } else {
      var init, last := xs[..|xs| - 1], xs[|xs| - 1];
      InsertKeepsSums(init, x, c);
      assert xs == init + [last];
      Snoc(Insert(init, x, AtMost), last);
      Snoc(init, last);
      DeviationsSnoc(Insert(init, x, AtMost), last, c);
      DeviationsSnoc(init, last, c);
    }
  }

  lemma {:induction false} SortingKeepsSums(xs: seq<real>, c: real)
    ensures Sum(Sorted(xs)) == Sum(xs) && SquaredDeviations(Sorted(xs), c) == SquaredDeviations(xs, c)
  {
    if xs != [] {
      SortingKeepsSums(xs[..|xs| - 1], c);
      InsertKeepsSums(Sorted(xs[..|xs| - 1]), xs[|xs| - 1], c);
    }
  }

  /** The moments are those of the samples as they came, and the extremes are theirs. */
  lemma SummaryDescribesSamples(samples: seq<real>)
    requires samples != []
    ensures var s := Summarize(samples);
            && s.Some? && s.value.count == |samples|
            && s.value.mean == Mean(samples) && s.value.variance == Variance(samples)
            && IsMinimum(Some(s.value.min), samples) && IsMaximum(Some(s.value.max), samples)
  {
    hide Percentile;
    var sorted := Sorted(samples);
    SortedProperties(samples);
    SortingKeepsSums(samples, Mean(samples));
    SameElements(sorted, samples);
    if |sorted| == 1 {
      LoneDeviation(samples);
    }
  }

  lemma LoneDeviation(xs: seq<real>)
    requires |xs| == 1
    ensures Variance(xs) == 0.0
  {
    assert xs[..0] == [];
    assert Sum(xs) == xs[0] && Mean(xs) == xs[0];
    assert SquaredDeviations(xs, xs[0]) == Square(0.0) == 0.0;
  }

  lemma SameElements(sorted: seq<real>, samples: seq<real>)
    requires multiset(sorted) == multiset(samples)
    ensures forall x :: x in samples <==> x in sorted
  {
    assert forall x :: x in samples <==> x in multiset(samples);
    assert forall x :: x in sorted <==> x in multiset(sorted);
  }

  /** min <= p50 <= p90 <= p95 <= p99 <= max, the mean is within the range and the variance is not negative. */
  lemma SummaryOrder(samples: seq<real>)
    requires samples != []
    ensures var s := Summarize(samples).value;
            && s.min <= s.p50 <= s.p90 <= s.p95 <= s.p99 <= s.max
            && s.min <= s.mean <= s.max
            && s.variance >= 0.0
  {
    hide Percentile;
    var sorted := Sorted(samples);
    SortedProperties(samples);
    PercentileInRange(sorted, 0.5);
    PercentileInRange(sorted, 0.99);
    PercentileMonotone(sorted, 0.5, 0.9);
    PercentileMonotone(sorted, 0.9, 0.95);
    PercentileMonotone(sorted, 0.95, 0.99);
    PercentileInRange(sorted, 0.9);
    PercentileInRange(sorted, 0.95);
    MeanBetweenExtremes(sorted, sorted[0], sorted[|sorted| - 1]);
    DeviationsNonNegative(sorted, Mean(sorted));
    QuotientNonNegative(SquaredDeviations(sorted, Mean(sorted)), |sorted| as real);
  }

  lemma QuotientNonNegative(a: real, b: real)
    requires a >= 0.0 && b > 0.0
    ensures a / b >= 0.0
  {
  }

  lemma PercentileInRange(sorted: seq<real>, p: real)
    requires Ascending(sorted) && sorted != []
    ensures Percentile(sorted, p).Some? && sorted[0] <= Percentile(sorted, p).value <= sorted[|sorted| - 1]
  {
    hide Percentile;
    PercentileSplits(sorted, p, 0);
    PercentileSplits(sorted, p, |sorted| - 1);
  }

  /** In any ascending arrangement of the samples, value separates the places up to rank p (n - 1) from the rest. */
  ghost predicate Separates(value: real, sorted: seq<real>, p: real)
    requires sorted != []
  {
    && (forall k :: 0 <= k < |sorted| && k as real <= Scale(|sorted| - 1, p) ==> sorted[k] <= value)
    && (forall k :: 0 <= k < |sorted| && k as real >= Scale(|sorted| - 1, p) ==> sorted[k] >= value)
  }

  lemma PercentileSeparates(sorted: seq<real>, p: real)
    requires Ascending(sorted) && sorted != [] && 0.0 <= p <= 1.0
    ensures Percentile(sorted, p).Some? && Separates(Percentile(sorted, p).value, sorted, p)
  {
    PercentileInRange(sorted, p);
    hide Percentile, Scale;
    forall k | 0 <= k < |sorted|
      ensures k as real <= Scale(|sorted| - 1, p) ==> sorted[k] <= Percentile(sorted, p).value
      ensures k as real >= Scale(|sorted| - 1, p) ==> sorted[k] >= Percentile(sorted, p).value
    {
      PercentileSplits(sorted, p, k);
    }
  }

  predicate Around(n: nat, p: real, k: int) {
    k as real <= p * (n - 1) as real <= (k + 1) as real
  }

  predicate OnTheLine(value: real, sorted: seq<real>, p: real, k: int)
    requires 0 <= k < |sorted| - 1
  {
    value - sorted[k] == (p * (|sorted| - 1) as real - k as real) * (sorted[k + 1] - sorted[k])
  }

  /** The value lies on the line between the two samples around rank p (n - 1). */
  ghost predicate Interpolates(value: real, sorted: seq<real>, p: real) {
    && (|sorted| == 1 ==> value == sorted[0])
    && forall k :: 0 <= k < |sorted| - 1 && Around(|sorted|, p, k) ==> OnTheLine(value, sorted, p, k)
  }

  lemma PercentileLiesBetween(sorted: seq<real>, p: real)
    requires sorted != [] && 0.0 <= p <= 1.0
    ensures Percentile(sorted, p).Some? && Interpolates(Percentile(sorted, p).value, sorted, p)
  {
    if |sorted| > 1 {
      hide Percentile;
      assert Percentile(sorted, p).Some? by { PercentileIsThere(sorted, p); }
      forall k | 0 <= k < |sorted| - 1 && Around(|sorted|, p, k)
        ensures OnTheLine(Percentile(sorted, p).value, sorted, p, k)
      {
        PercentileInterpolates(sorted, p, k);
      }
    }
  }

  lemma PercentileIsThere(sorted: seq<real>, p: real)
    ensures Percentile(sorted, p).Some? <==> sorted != []
  {
  }

  /** Each reported percentile is one, and is interpolated, for any ascending arrangement of the samples. */
  lemma SummaryPercentiles(samples: seq<real>, sorted: seq<real>)
    requires samples != [] && Ascending(sorted) && multiset(sorted) == multiset(samples)
    ensures sorted != []
    ensures var s := Summarize(samples).value;
            && Separates(s.p50, sorted, 0.5) && Separates(s.p90, sorted, 0.9)
            && Separates(s.p95, sorted, 0.95) && Separates(s.p99, sorted, 0.99)
            && Interpolates(s.p50, sorted, 0.5) && Interpolates(s.p90, sorted, 0.9)
            && Interpolates(s.p95, sorted, 0.95) && Interpolates(s.p99, sorted, 0.99)
  {
    hide Percentile, Separates, Interpolates;
    SameSize(sorted, samples);
    SortedProperties(samples);
    AscendingIsUnique(sorted, Sorted(samples));
    PercentileSeparates(sorted, 0.5);
    PercentileSeparates(sorted, 0.9);
    PercentileSeparates(sorted, 0.95);
    PercentileSeparates(sorted, 0.99);
    PercentileLiesBetween(sorted, 0.5);
    PercentileLiesBetween(sorted, 0.9);
    PercentileLiesBetween(sorted, 0.95);
    PercentileLiesBetween(sorted, 0.99);
  }

  /** The order in which the samples came does not matter. */
  lemma SummaryIgnoresOrder(a: seq<real>, b: seq<real>)
    requires multiset(a) == multiset(b)
    ensures Summarize(a) == Summarize(b)
  {
    SameSize(a, b);
    SortedProperties(a);
    SortedProperties(b);
    AscendingIsUnique(Sorted(a), Sorted(b));
  }
}
