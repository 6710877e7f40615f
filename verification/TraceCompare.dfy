/** Two traceroutes joined hop by hop. */
module TraceCompare {
  import opened Options
  import opened HopTable
  import opened Ordering

  datatype Status = Same | Changed | AOnly | BOnly
  datatype Compared = Compared(hop: int, a: Option<HopRow>, b: Option<HopRow>, status: Status)

  function StatusOf(a: Option<HopRow>, b: Option<HopRow>): Status {
    if a.Some? && b.Some? then (if a.value.address == b.value.address then Same else Changed)
    else if a.Some? then AOnly
    else BOnly
  }

  /** The join of hops 1 to n. */
  function Joined(a: seq<HopRow>, b: seq<HopRow>, n: int): seq<Compared>
    decreases if n < 0 then 0 else n
  {
    if n <= 0 then []
    else
      var x, y := Find(a, n), Find(b, n);
      if x == None && y == None then Joined(a, b, n - 1)
      else Joined(a, b, n - 1) + [Compared(n, x, y, StatusOf(x, y))]
  }

  function LastHop(rows: seq<HopRow>): int {
    if rows == [] then 0 else rows[|rows| - 1].hop
  }

  function Max(x: int, y: int): int {
    if x < y then y else x
  }

  method CompareTraceHops(a: seq<HopRow>, b: seq<HopRow>) returns (rows: seq<Compared>)
    ensures rows == Comparison(a, b)
  {
    hide SortByHop, Find;
    var aSorted, bSorted := SortByHop(a), SortByHop(b);
    var maxHop := Max(LastHop(aSorted), LastHop(bSorted));
    rows := [];
    var hop := 1;
    while hop <= maxHop
      invariant 1 <= hop && (hop == 1 || hop <= maxHop + 1)
      invariant rows == Joined(aSorted, bSorted, hop - 1)
    {
      var aRow, bRow := Find(aSorted, hop), Find(bSorted, hop);
      if aRow.Some? || bRow.Some? {
        var status;
        if aRow.Some? && bRow.Some? {
          status := if aRow.value.address == bRow.value.address then Same else Changed;
        } else if aRow.Some? {
          status := AOnly;
        } else {
          status := BOnly;
        }
        rows := rows + [Compared(hop, aRow, bRow, status)];
      }
      hop := hop + 1;
    }
  }

  function Comparison(a: seq<HopRow>, b: seq<HopRow>): seq<Compared> {
    Joined(SortByHop(a), SortByHop(b), Max(LastHop(SortByHop(a)), LastHop(SortByHop(b))))
  }

  function ASide(rows: seq<Compared>): seq<HopRow> {
    if rows == [] then []
    else
      var last := rows[|rows| - 1];
      if last.a.Some? then ASide(rows[..|rows| - 1]) + [last.a.value] else ASide(rows[..|rows| - 1])
  }

  function Mirrored(row: Compared): Compared {
    Compared(row.hop, row.b, row.a, match row.status case AOnly => BOnly case BOnly => AOnly case s => s)
  }

  function Mirror(rows: seq<Compared>): (r: seq<Compared>)
    ensures |r| == |rows|
  {
    if rows == [] then [] else Mirror(rows[..|rows| - 1]) + [Mirrored(rows[|rows| - 1])]
  }

  /** The rows with hops 1 to n of strictly ascending rows. */
  function UpTo(rows: seq<HopRow>, n: int): seq<HopRow> {
    if rows == [] then [] else if rows[|rows| - 1].hop > n then UpTo(rows[..|rows| - 1], n) else rows
  }

  lemma {:induction false} UpToStep(rows: seq<HopRow>, n: int)
    requires Strict(rows)
    ensures UpTo(rows, n) == if Find(rows, n).Some? then UpTo(rows, n - 1) + [Find(rows, n).value] else UpTo(rows, n - 1)
  {
    hide Find;
    if rows == [] {
      FindHop(rows, n);
    } else {
      var init, last := rows[..|rows| - 1], rows[|rows| - 1];
      assert rows == init + [last];
      FindLast(init, last, n);
      if last.hop > n {
        UpToStep(init, n);
      } else {
        NotFoundBelow(init, n);
        if last.hop == n && init != [] {
          assert init[|init| - 1].hop < n;
        }
      }
    }
  }

  lemma NotFoundBelow(rows: seq<HopRow>, n: int)
    requires forall k :: 0 <= k < |rows| ==> rows[k].hop < n
    ensures Find(rows, n) == None
  {
  }

  lemma {:induction false} ASideIsUpTo(a: seq<HopRow>, b: seq<HopRow>, n: int)
    requires Strict(a) && (a != [] ==> a[0].hop > 0)
    ensures ASide(Joined(a, b, n)) == UpTo(a, n)
    decreases if n < 0 then 0 else n
  {
    if n <= 0 {
      NothingUpToZero(a, n);
    } else {
      hide Find, StatusOf, Strict, UpTo;
      ASideIsUpTo(a, b, n - 1);
      UpToStep(a, n);
      var x, y := Find(a, n), Find(b, n);
      if x.Some? || y.Some? {
        var c := Compared(n, x, y, StatusOf(x, y));
        assert (Joined(a, b, n - 1) + [c])[..|Joined(a, b, n - 1)|] == Joined(a, b, n - 1);
      }
    }
  }

  lemma {:induction false} NothingUpToZero(rows: seq<HopRow>, n: int)
    requires Strict(rows) && (rows != [] ==> rows[0].hop > 0) && n <= 0
    ensures UpTo(rows, n) == []
  {
    if rows != [] {
      NothingUpToZero(rows[..|rows| - 1], n);
    }
  }

  ghost predicate AscendingHops(rows: seq<Compared>) {
    forall i, j :: 0 <= i < j < |rows| ==> rows[i].hop < rows[j].hop
  }

  /** The row pairs the first rows of its hop in the two traces. */
  predicate Pairs(row: Compared, a: seq<HopRow>, b: seq<HopRow>) {
    && row.hop >= 1 && row.a == Find(a, row.hop) && row.b == Find(b, row.hop)
    && (row.a.Some? || row.b.Some?)
    && (row.status == AOnly <==> row.b == None) && (row.status == BOnly <==> row.a == None)
    && (row.status == Same <==> row.a.Some? && row.b.Some? && row.a.value.address == row.b.value.address)
  }

  lemma {:induction false} JoinedShape(a: seq<HopRow>, b: seq<HopRow>, n: int)
    ensures AscendingHops(Joined(a, b, n))
    ensures forall i :: 0 <= i < |Joined(a, b, n)| ==> Pairs(Joined(a, b, n)[i], a, b) && Joined(a, b, n)[i].hop <= n
    decreases if n < 0 then 0 else n
  {
    hide Find;
    if n > 0 {
      JoinedShape(a, b, n - 1);
    }
  }

  /** Strictly ascending hops; each row pairs the first rows of its hop in the two traces. */
  lemma ComparisonJoinsByHop(a: seq<HopRow>, b: seq<HopRow>)
    ensures AscendingHops(Comparison(a, b))
    ensures forall i :: 0 <= i < |Comparison(a, b)| ==> Pairs(Comparison(a, b)[i], a, b)
  {
    hide Find, SortByHop, AscendingHops;
    var rows := Comparison(a, b);
    JoinedShape(SortByHop(a), SortByHop(b), Max(LastHop(SortByHop(a)), LastHop(SortByHop(b))));
    forall i | 0 <= i < |rows|
      ensures Pairs(rows[i], a, b)
    {
      SortProperties(a, rows[i].hop);
      SortProperties(b, rows[i].hop);
    }
  }

  lemma {:induction false} JoinedCovers(a: seq<HopRow>, b: seq<HopRow>, n: int, hop: int)
    requires 1 <= hop <= n && (Find(a, hop).Some? || Find(b, hop).Some?)
    ensures exists i :: 0 <= i < |Joined(a, b, n)| && Joined(a, b, n)[i].hop == hop
    decreases n
  {
    hide Find, StatusOf;
    if hop < n {
      JoinedCovers(a, b, n - 1, hop);
      var i :| 0 <= i < |Joined(a, b, n - 1)| && Joined(a, b, n - 1)[i].hop == hop;
      assert Joined(a, b, n)[i].hop == hop;
    } else {
      assert Joined(a, b, n)[|Joined(a, b, n)| - 1].hop == hop;
    }
  }

  lemma NoneAfterTheLast(rows: seq<HopRow>, hop: int)
    requires Ordered(rows, NotAfter) && Find(rows, hop).Some?
    ensures hop <= LastHop(rows)
  {
    FoundIsThere(rows, hop);
    FindHop(rows, hop);
    var k :| 0 <= k < |rows| && rows[k] == Find(rows, hop).value;
    assert k < |rows| - 1 ==> NotAfter(rows[k], rows[|rows| - 1]);
  }

  /** Every hop from 1 on that either trace has gets its row, repeated or not. */
  lemma ComparisonCoversEveryHop(a: seq<HopRow>, b: seq<HopRow>, hop: int)
    requires hop >= 1 && (Find(a, hop).Some? || Find(b, hop).Some?)
    ensures exists i :: 0 <= i < |Comparison(a, b)| && Comparison(a, b)[i].hop == hop
  {
    hide Find, SortByHop, Joined;
    SortProperties(a, hop);
    SortProperties(b, hop);
    if Find(a, hop).Some? {
      NoneAfterTheLast(SortByHop(a), hop);
    } else {
      NoneAfterTheLast(SortByHop(b), hop);
    }
    var n := Max(LastHop(SortByHop(a)), LastHop(SortByHop(b)));
    JoinedCovers(SortByHop(a), SortByHop(b), n, hop);
    var i :| 0 <= i < |Joined(SortByHop(a), SortByHop(b), n)| && Joined(SortByHop(a), SortByHop(b), n)[i].hop == hop;
    assert Comparison(a, b)[i].hop == hop;
  }

  ghost predicate Joinable(rows: seq<HopRow>) {
    Distinct(rows) && forall k :: 0 <= k < |rows| ==> rows[k].hop > 0
  }

  lemma JoinableSorts(a: seq<HopRow>)
    ensures Joinable(a) <==> Strict(SortByHop(a)) && forall k :: 0 <= k < |SortByHop(a)| ==> SortByHop(a)[k].hop > 0
  {
    var s := SortByHop(a);
    SortProperties(a, 0);
    if Joinable(a) {
      DistinctSortsStrict(a);
      forall k | 0 <= k < |s|
        ensures s[k].hop > 0
      {
        assert s[k] in multiset(a);
      }
    }
    if Strict(s) && forall k :: 0 <= k < |s| ==> s[k].hop > 0 {
      StrictPermutation(s, a);
    }
  }

  lemma UpToLast(rows: seq<HopRow>, n: int)
    requires n >= LastHop(rows)
    ensures UpTo(rows, n) == rows
  {
  }

  /** The a sides, read down, are exactly trace a in hop order if and only if its hops are positive and distinct. */
  lemma ASideIsTheTrace(a: seq<HopRow>, b: seq<HopRow>)
    ensures ASide(Comparison(a, b)) == SortByHop(a) <==> Joinable(a)
  {
    hide Find, SortByHop, Joinable, Joined, UpTo, ASide, StatusOf, Strict;
    var s, t := SortByHop(a), SortByHop(b);
    var n := Max(LastHop(s), LastHop(t));
    JoinableSorts(a);
    if Joinable(a) {
      ASideIsUpTo(s, t, n);
      UpToLast(s, n);
    }
    JoinedShape(s, t, n);
    var rows := Comparison(a, b);
    forall i | 0 <= i < |rows|
      ensures rows[i].hop > 0 && (rows[i].a.Some? ==> rows[i].a.value.hop == rows[i].hop)
    {
      FindHop(s, rows[i].hop);
    }
    ASideAscends(rows);
  }

  lemma {:induction false} ASideAscends(rows: seq<Compared>)
    requires AscendingHops(rows)
    requires forall i :: 0 <= i < |rows| ==> rows[i].hop > 0 && (rows[i].a.Some? ==> rows[i].a.value.hop == rows[i].hop)
    ensures Strict(ASide(rows)) && forall k :: 0 <= k < |ASide(rows)| ==> ASide(rows)[k].hop > 0
    ensures ASide(rows) != [] ==> rows != [] && ASide(rows)[|ASide(rows)| - 1].hop <= rows[|rows| - 1].hop
  {
    if rows != [] {
      ASideAscends(rows[..|rows| - 1]);
    }
  }

  lemma StrictPermutation(s: seq<HopRow>, a: seq<HopRow>)
    requires Strict(s) && multiset(s) == multiset(a) && forall k :: 0 <= k < |s| ==> s[k].hop > 0
    ensures Joinable(a)
  {
    forall k | 0 <= k < |a|
      ensures a[k] in s
    {
      assert a[k] in multiset(a);
      assert a[k] in multiset(s);
    }
    forall i, j | 0 <= i < j < |a|
      ensures a[i].hop != a[j].hop
    {
      if a[i].hop == a[j].hop {
        var p :| 0 <= p < |s| && s[p] == a[i];
        var q :| 0 <= q < |s| && s[q] == a[j];
        assert p == q;
        TwiceInMultiset(a, i, j);
        OnceInStrict(s, p);
      }
    }
  }

  lemma TwiceInMultiset(a: seq<HopRow>, i: nat, j: nat)
    requires i < j < |a| && a[i] == a[j]
    ensures multiset(a)[a[i]] >= 2
  {
    assert a == a[..j] + [a[j]] + a[j + 1..];
    assert a[i] in a[..j];
    assert a[i] in multiset(a[..j]);
  }

  lemma OnceInStrict(s: seq<HopRow>, p: nat)
    requires Strict(s) && p < |s|
    ensures multiset(s)[s[p]] == 1
  {
    assert s == s[..p] + [s[p]] + s[p + 1..];
    assert s[p] !in s[..p] && s[p] !in s[p + 1..];
    assert s[p] !in multiset(s[..p]) && s[p] !in multiset(s[p + 1..]);
  }

  lemma {:induction false} JoinedMirrors(a: seq<HopRow>, b: seq<HopRow>, n: int)
    ensures Joined(b, a, n) == Mirror(Joined(a, b, n))
    decreases if n < 0 then 0 else n
  {
    if n > 0 {
      JoinedMirrors(a, b, n - 1);
      var x, y := Find(a, n), Find(b, n);
      if x.Some? || y.Some? {
        var c := Compared(n, x, y, StatusOf(x, y));
        assert (Joined(a, b, n - 1) + [c])[..|Joined(a, b, n - 1)|] == Joined(a, b, n - 1);
        assert Mirrored(c) == Compared(n, y, x, StatusOf(y, x));
      }
    }
  }

  /** Swapping the traces swaps the sides of every row. */
  lemma SwappingMirrors(a: seq<HopRow>, b: seq<HopRow>)
    ensures Comparison(b, a) == Mirror(Comparison(a, b))
  {
    JoinedMirrors(SortByHop(a), SortByHop(b), Max(LastHop(SortByHop(a)), LastHop(SortByHop(b))));
  }

  function BSide(rows: seq<Compared>): seq<HopRow> {
    if rows == [] then []
    else
      var last := rows[|rows| - 1];
      if last.b.Some? then BSide(rows[..|rows| - 1]) + [last.b.value] else BSide(rows[..|rows| - 1])
  }

  lemma {:induction false} MirrorSwapsSides(rows: seq<Compared>)
    ensures ASide(Mirror(rows)) == BSide(rows)
  {
    if rows != [] {
      MirrorSwapsSides(rows[..|rows| - 1]);
    }
  }

  /** So the b sides are exactly trace b in hop order, under the same condition on b. */
  lemma BSideIsTheTrace(a: seq<HopRow>, b: seq<HopRow>)
    ensures BSide(Comparison(a, b)) == SortByHop(b) <==> Joinable(b)
  {
    SwappingMirrors(a, b);
    MirrorSwapsSides(Comparison(a, b));
    ASideIsTheTrace(b, a);
  }

  /** A trace against itself never differs. */
  lemma SelfComparisonIsSame(a: seq<HopRow>)
    ensures forall i :: 0 <= i < |Comparison(a, a)| ==>
              var c := Comparison(a, a)[i]; c.status == Same && c.a == c.b && c.a.Some?
  {
    ComparisonJoinsByHop(a, a);
  }
}
