/** The stable sort that the host languages provide, for any comparator that is a total preorder. */
module Ordering {
  /** le(a, b) means that a need not move behind b. */
  ghost predicate IsPreorder<T(!new)>(le: (T, T) -> bool) {
    && (forall a, b :: le(a, b) || le(b, a))
    && (forall a, b, c :: le(a, b) && le(b, c) ==> le(a, c))
  }

  ghost predicate Ordered<T>(rows: seq<T>, le: (T, T) -> bool) {
    forall i, j :: 0 <= i < j < |rows| ==> le(rows[i], rows[j])
  }

  /** Behind every row that need not move behind x. */
  function Insert<T>(rows: seq<T>, x: T, le: (T, T) -> bool): (r: seq<T>)
    ensures |r| == |rows| + 1
  {
    if rows == [] || le(rows[|rows| - 1], x) then rows + [x]
    else Insert(rows[..|rows| - 1], x, le) + [rows[|rows| - 1]]
  }

  function Sort<T>(rows: seq<T>, le: (T, T) -> bool): (r: seq<T>)
    ensures |r| == |rows|
  {
    if rows == [] then [] else Insert(Sort(rows[..|rows| - 1], le), rows[|rows| - 1], le)
  }

  lemma LastOfMultiset<T>(rows: seq<T>)
    requires rows != []
    ensures multiset(rows[..|rows| - 1]) + multiset{rows[|rows| - 1]} == multiset(rows)
    ensures multiset(rows[..|rows| - 1]) == multiset(rows) - multiset{rows[|rows| - 1]}
  {
    assert rows == rows[..|rows| - 1] + [rows[|rows| - 1]];
  }

  lemma {:induction false} InsertPermutes<T>(rows: seq<T>, x: T, le: (T, T) -> bool)
    ensures multiset(Insert(rows, x, le)) == multiset(rows) + multiset{x}
  {
    if rows != [] && !le(rows[|rows| - 1], x) {
      InsertPermutes(rows[..|rows| - 1], x, le);
      LastOfMultiset(rows);
    }
  }

  lemma {:induction false} SortPermutes<T>(rows: seq<T>, le: (T, T) -> bool)
    ensures multiset(Sort(rows, le)) == multiset(rows)
  {
    if rows != [] {
      SortPermutes(rows[..|rows| - 1], le);
      InsertPermutes(Sort(rows[..|rows| - 1], le), rows[|rows| - 1], le);
      LastOfMultiset(rows);
    }
  }

  lemma {:induction false} InsertStaysBefore<T(!new)>(rows: seq<T>, x: T, last: T, le: (T, T) -> bool)
    requires le(x, last) && forall k :: 0 <= k < |rows| ==> le(rows[k], last)
    ensures forall k :: 0 <= k < |Insert(rows, x, le)| ==> le(Insert(rows, x, le)[k], last)
  {
    if rows != [] {
      InsertStaysBefore(rows[..|rows| - 1], x, last, le);
    }
  }

  lemma {:induction false} InsertKeepsOrder<T(!new)>(rows: seq<T>, x: T, le: (T, T) -> bool)
    requires IsPreorder(le) && Ordered(rows, le)
    ensures Ordered(Insert(rows, x, le), le)
  {
    if rows != [] {
      var init, last := rows[..|rows| - 1], rows[|rows| - 1];
      if le(last, x) {
        assert forall k :: 0 <= k < |rows| ==> le(rows[k], last) || k == |rows| - 1;
      } else {
        InsertKeepsOrder(init, x, le);
        InsertStaysBefore(init, x, last, le);
      }
    }
  }

  lemma {:induction false} SortOrders<T(!new)>(rows: seq<T>, le: (T, T) -> bool)
    requires IsPreorder(le)
    ensures Ordered(Sort(rows, le), le)
  {
    hide IsPreorder;
    if rows != [] {
      SortOrders(rows[..|rows| - 1], le);
      InsertKeepsOrder(Sort(rows[..|rows| - 1], le), rows[|rows| - 1], le);
    }
  }

  lemma SameSize<T>(a: seq<T>, b: seq<T>)
    requires multiset(a) == multiset(b)
    ensures |a| == |b|
  {
    assert |multiset(a)| == |a| && |multiset(b)| == |b|;
  }

  /** No two different rows tie. */
  ghost predicate NoTies<T>(rows: seq<T>, le: (T, T) -> bool) {
    forall x, y :: x in rows && y in rows && le(x, y) && le(y, x) ==> x == y
  }

  lemma SameLast<T(!new)>(a: seq<T>, b: seq<T>, le: (T, T) -> bool)
    requires Ordered(a, le) && Ordered(b, le) && multiset(a) == multiset(b) && a != [] && b != [] && NoTies(a, le)
    ensures a[|a| - 1] == b[|b| - 1]
  {
    var x, y := a[|a| - 1], b[|b| - 1];
    assert x in multiset(b) && y in multiset(a);
  }

  lemma InitIsOrdered<T(!new)>(rows: seq<T>, le: (T, T) -> bool)
    requires Ordered(rows, le) && rows != []
    ensures Ordered(rows[..|rows| - 1], le) && (NoTies(rows, le) ==> NoTies(rows[..|rows| - 1], le))
  {
  }

  /** There is one way to put rows without ties in order, whatever procedure does it. */
  lemma {:induction false} OrderedIsUnique<T(!new)>(a: seq<T>, b: seq<T>, le: (T, T) -> bool)
    requires Ordered(a, le) && Ordered(b, le) && multiset(a) == multiset(b) && NoTies(a, le)
    ensures a == b
  {
    hide Ordered, NoTies;
    SameSize(a, b);
    if a != [] {
      SameLast(a, b, le);
      LastOfMultiset(a);
      LastOfMultiset(b);
      InitIsOrdered(a, le);
      InitIsOrdered(b, le);
      OrderedIsUnique(a[..|a| - 1], b[..|b| - 1], le);
      assert a == a[..|a| - 1] + [a[|a| - 1]] && b == b[..|b| - 1] + [b[|b| - 1]];
    }
  }
}
