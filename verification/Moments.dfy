/** Two-pass definitions over a sample, and the one-pass update that agrees with them. */
module Moments {
  import opened Options

  function Sum(xs: seq<real>): real {
    if xs == [] then 0.0 else Sum(xs[..|xs| - 1]) + xs[|xs| - 1]
  }

  /** Sum of the squared deviations from c. */
  function SquaredDeviations(xs: seq<real>, c: real): real {
    if xs == [] then 0.0
    else SquaredDeviations(xs[..|xs| - 1], c) + Square(xs[|xs| - 1] - c)
  }

  function Mean(xs: seq<real>): real {
    if xs == [] then 0.0 else Sum(xs) / (|xs| as real)
  }

  function Variance(xs: seq<real>): real {
    if xs == [] then 0.0 else SquaredDeviations(xs, Mean(xs)) / (|xs| as real)
  }

  ghost predicate IsMinimum(m: Option<real>, xs: seq<real>) {
    if xs == [] then m == None
    else m.Some? && m.value in xs && forall x :: x in xs ==> m.value <= x
  }

  ghost predicate IsMaximum(m: Option<real>, xs: seq<real>) {
    if xs == [] then m == None
    else m.Some? && m.value in xs && forall x :: x in xs ==> x <= m.value
  }

  function Abs(x: real): (r: real)
    ensures r >= 0.0
  {
    if x < 0.0 then -x else x
  }

  lemma Snoc(xs: seq<real>, x: real)
    ensures Sum(xs + [x]) == Sum(xs) + x
  {
    assert (xs + [x])[..|xs|] == xs;
  }

  lemma DeviationsSnoc(xs: seq<real>, x: real, c: real)
    ensures SquaredDeviations(xs + [x], c) == SquaredDeviations(xs, c) + Square(x - c)
  {
    assert (xs + [x])[..|xs|] == xs;
  }

  /** Moving the reference point by e, away from a point where the deviations sum to rest. */
  lemma {:induction false} DeviationsShift(xs: seq<real>, c: real, e: real)
    ensures SquaredDeviations(xs, c + e) ==
            Shifted(SquaredDeviations(xs, c), Sum(xs) - Scale(|xs|, c), |xs|, e)
  {
    if xs == [] {
      assert Scale(0, c) == 0.0;
    } else {
      var init, x := xs[..|xs| - 1], xs[|xs| - 1];
      DeviationsShift(init, c, e);
      ShiftedStep(SquaredDeviations(init, c), Sum(init) - Scale(|init|, c), |init|, e, x - c);
      assert x - (c + e) == (x - c) - e;
      ScaleStep(|init|, c);
    }
  }

  function Square(d: real): real {
    d * d
  }

  function Scale(n: nat, c: real): real {
    n as real * c
  }

  function Shifted(squares: real, rest: real, n: nat, e: real): real {
    squares - 2.0 * e * rest + n as real * e * e
  }

  lemma ScaleStep(n: nat, c: real)
    ensures Scale(n + 1, c) == Scale(n, c) + c
  {
  }

  lemma ShiftedStep(squares: real, rest: real, n: nat, e: real, u: real)
    ensures Shifted(squares, rest, n, e) + Square(u - e) == Shifted(squares + Square(u), rest + u, n + 1, e)
  {
  }

  lemma {:induction false} DeviationsNonNegative(xs: seq<real>, c: real)
    ensures SquaredDeviations(xs, c) >= 0.0
  {
    if xs != [] {
      DeviationsNonNegative(xs[..|xs| - 1], c);
      SquareNonNegative(xs[|xs| - 1] - c);
    }
  }

  lemma SquareNonNegative(d: real)
    ensures Square(d) >= 0.0
  {
  }

  lemma Quotient(d: real, n: real)
    requires n > 0.0
    ensures n * (d / n) == d
  {
  }

  lemma MeanTimesCount(xs: seq<real>)
    ensures Scale(|xs|, Mean(xs)) == Sum(xs)
  {
    if xs != [] {
      Quotient(Sum(xs), |xs| as real);
    }
  }

  lemma MeanStep(xs: seq<real>, x: real)
    ensures Mean(xs + [x]) == Mean(xs) + (x - Mean(xs)) / (|xs| as real + 1.0)
  {
    Snoc(xs, x);
    MeanTimesCount(xs);
    DivideMean(Sum(xs), |xs|, Mean(xs), x);
  }

  lemma DivideMean(s: real, n: nat, m: real, x: real)
    requires Scale(n, m) == s
    ensures (s + x) / ((n + 1) as real) == m + (x - m) / (n as real + 1.0)
  {
    var k := n as real + 1.0;
    var e := (x - m) / k;
    Quotient(x - m, k);
    assert k * (m + e) == k * m + k * e;
    assert k * m == n as real * m + m;
  }

  /** Welford's step: the running mean and squared deviations of xs become those of xs + [x]. */
  lemma WelfordStep(xs: seq<real>, x: real, mean: real, m2: real, next: real)
    requires mean == Mean(xs)
    requires m2 == SquaredDeviations(xs, mean)
    requires next == mean + (x - mean) / (|xs| as real + 1.0)
    ensures next == Mean(xs + [x])
    ensures m2 + (x - mean) * (x - next) == SquaredDeviations(xs + [x], next)
  {
    MeanStep(xs, x);
    MeanTimesCount(xs);
    DeviationsShift(xs, mean, next - mean);
    assert mean + (next - mean) == next;
    DeviationsSnoc(xs, x, next);
    WelfordCorrection(m2, x, mean, next, |xs|);
  }

  /** The step as the running fields take it: n is the new count. */
  lemma WelfordUpdate(xs: seq<real>, x: real, n: nat, mean: real, m2: real, next: real, next2: real)
    requires n == |xs| + 1
    requires mean == Mean(xs) && m2 == SquaredDeviations(xs, mean)
    requires next == mean + (x - mean) / n as real
    requires next2 == m2 + (x - mean) * (x - next)
    ensures next == Mean(xs + [x])
    ensures next2 == SquaredDeviations(xs + [x], next)
  {
    assert n as real == |xs| as real + 1.0;
    WelfordStep(xs, x, mean, m2, next);
  }

  lemma WelfordCorrection(m2: real, x: real, mean: real, next: real, n: nat)
    requires next == mean + (x - mean) / (n as real + 1.0)
    ensures Shifted(m2, 0.0, n, next - mean) + Square(x - next) == m2 + (x - mean) * (x - next)
  {
    var d := x - mean;
    var e := d / (n as real + 1.0);
    Quotient(d, n as real + 1.0);
    WelfordAlgebra(m2, d, e, n);
    assert next - mean == e && x - next == d - e;
  }

  lemma WelfordAlgebra(m2: real, d: real, e: real, n: nat)
    requires (n as real + 1.0) * e == d
    ensures Shifted(m2, 0.0, n, e) + Square(d - e) == m2 + d * (d - e)
  {
    var k := n as real;
    assert k * e == d - e;
    assert k * e * e == (d - e) * e;
  }

  /** The first value becomes both extremes; later ones can only move them outwards. */
  lemma ExtremeStep(m: Option<real>, xs: seq<real>, x: real)
    ensures IsMinimum(m, xs) ==>
              IsMinimum(Some(if m == None || x < m.value then x else m.value), xs + [x])
    ensures IsMaximum(m, xs) ==>
              IsMaximum(Some(if m == None || x > m.value then x else m.value), xs + [x])
  {
    assert forall y :: y in xs + [x] <==> y in xs || y == x;
  }

  lemma {:induction false} SumBounds(xs: seq<real>, lo: real, hi: real)
    requires forall k :: 0 <= k < |xs| ==> lo <= xs[k] <= hi
    ensures Scale(|xs|, lo) <= Sum(xs) <= Scale(|xs|, hi)
  {
    if xs == [] {
      assert Scale(0, lo) == 0.0 == Scale(0, hi);
    } else {
      var init := xs[..|xs| - 1];
      SumBounds(init, lo, hi);
      ScaleStep(|init|, lo);
      ScaleStep(|init|, hi);
    }
  }

  lemma MeanBetweenExtremes(xs: seq<real>, lo: real, hi: real)
    requires xs != []
    requires forall k :: 0 <= k < |xs| ==> lo <= xs[k] <= hi
    ensures lo <= Mean(xs) <= hi
  {
    SumBounds(xs, lo, hi);
    MeanTimesCount(xs);
    CancelCount(|xs|, lo, Mean(xs));
    CancelCount(|xs|, Mean(xs), hi);
  }

  lemma CancelCount(n: nat, a: real, b: real)
    requires n > 0 && Scale(n, a) <= Scale(n, b)
    ensures a <= b
  {
    if a > b {
      NegativeProduct(n as real, b - a);
    }
  }

  lemma NegativeProduct(n: real, g: real)
    requires n > 0.0 && g < 0.0
    ensures n * g < 0.0
  {
  }
}
