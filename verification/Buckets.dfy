/** Splitting n items into k buckets at the exact boundaries floor(i * n / k). */
module Buckets {

  function Boundary(i: nat, n: nat, k: nat): nat
    requires k > 0
  {
    i * n / k
  }

  lemma DivisionBounds(a: nat, k: nat)
    requires k > 0
    ensures k * (a / k) <= a < k * (a / k) + k
  {
    assert a == k * (a / k) + a % k;
  }

  /** A quotient is the only integer between its bounds. */
  lemma QuotientAtLeast(a: nat, k: nat, q: nat)
    requires k > 0 && k * q <= a
    ensures q <= a / k
  {
    DivisionBounds(a, k);
    if a / k < q {
      Scaled(k, a / k + 1, q);
    }
  }

  lemma QuotientAtMost(a: nat, k: nat, q: nat)
    requires k > 0 && a < k * (q + 1)
    ensures a / k <= q
  {
    DivisionBounds(a, k);
    if a / k > q {
      Scaled(k, q + 1, a / k);
    }
  }

  lemma Scaled(k: nat, a: nat, b: nat)
    requires a <= b
    ensures k * a <= k * b
  {
    assert k * b == k * a + k * (b - a);
  }

  lemma Ends(n: nat, k: nat)
    requires k > 0
    ensures Boundary(0, n, k) == 0 && Boundary(k, n, k) == n
  {
    QuotientAtLeast(k * n, k, n);
    QuotientAtMost(k * n, k, n);
  }

  /** One bucket is never negative, holds at most one item when there are more buckets than items,
      and at least one when there are more items than buckets. */
  lemma Width(i: nat, n: nat, k: nat)
    requires k > 0
    ensures Boundary(i, n, k) <= Boundary(i + 1, n, k)
    ensures n <= k ==> Boundary(i + 1, n, k) <= Boundary(i, n, k) + 1
    ensures n >= k ==> Boundary(i, n, k) + 1 <= Boundary(i + 1, n, k)
  {
    var a, b := i * n, Boundary(i, n, k);
    assert (i + 1) * n == a + n;
    DivisionBounds(a, k);
    assert k * (b + 1) == k * b + k && k * (b + 2) == k * b + 2 * k;
    QuotientAtLeast(a + n, k, b);
    if n <= k {
      QuotientAtMost(a + n, k, b + 1);
    }
    if n >= k {
      QuotientAtLeast(a + n, k, b + 1);
    }
  }

  lemma {:induction false} BoundariesAscend(i: nat, j: nat, n: nat, k: nat)
    requires k > 0 && i <= j
    ensures Boundary(i, n, k) <= Boundary(j, n, k)
    decreases j - i
  {
    if i < j {
      Width(i, n, k);
      BoundariesAscend(i + 1, j, n, k);
    }
  }

  /** Number of buckets below i that hold anything. */
  function Occupied(i: nat, n: nat, k: nat): nat
    requires k > 0
  {
    if i == 0 then 0
    else Occupied(i - 1, n, k) + if Boundary(i - 1, n, k) < Boundary(i, n, k) then 1 else 0
  }

  lemma {:induction false} OccupiedCount(i: nat, n: nat, k: nat)
    requires k > 0 && i <= k
    ensures n <= k ==> Occupied(i, n, k) == Boundary(i, n, k)
    ensures n >= k ==> Occupied(i, n, k) == i
  {
    if i == 0 {
      Ends(n, k);
    } else {
      OccupiedCount(i - 1, n, k);
      Width(i - 1, n, k);
    }
  }

  /** The buckets that hold anything number min(n, k). */
  lemma OccupiedTotal(n: nat, k: nat)
    requires k > 0
    ensures Occupied(k, n, k) == if n < k then n else k
  {
    OccupiedCount(k, n, k);
    Ends(n, k);
  }

  /** Every item is in some bucket. */
  lemma {:induction false} BucketOf(g: nat, i: nat, n: nat, k: nat) returns (b: nat)
    requires k > 0 && i > 0 && g < Boundary(i, n, k)
    ensures b < i && Boundary(b, n, k) <= g < Boundary(b + 1, n, k)
    decreases i
  {
    Ends(n, k);
    hide Boundary;
    if Boundary(i - 1, n, k) <= g {
      b := i - 1;
    } else {
      b := BucketOf(g, i - 1, n, k);
    }
  }

  /** And in no other. */
  lemma OneBucket(g: nat, b: nat, c: nat, n: nat, k: nat)
    requires k > 0
    requires Boundary(b, n, k) <= g < Boundary(b + 1, n, k)
    requires Boundary(c, n, k) <= g < Boundary(c + 1, n, k)
    ensures b == c
  {
    if b < c {
      BoundariesAscend(b + 1, c, n, k);
    } else if c < b {
      BoundariesAscend(c + 1, b, n, k);
    }
  }
}
