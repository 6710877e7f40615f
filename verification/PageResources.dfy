/** The resource table of a page load: filters, the five slowest, and a sort that leaves nothing to chance. */
module PageResources {
  import opened Options
  import opened Ordering

  datatype Resource = Resource(
    kind: string, url: string, statusCode: Option<int>, bytesReceived: int,
    startOffsetMs: real, durationMs: real, averageMbps: real, error: Option<string>)

  datatype SortKey = Type | Url | StatusCode | Size | Start | Duration | Speed | Failure
  datatype SortDir = Asc | Desc
  datatype StatusFilter = All | Hundreds(first: int) | Failed

  datatype Filters = Filters(kinds: set<string>, status: StatusFilter, slowestOnly: bool)

  /** The locale's collation: texts compare the way their weights do, and different texts may weigh the same. */
  type Collation = string -> real

  datatype Sorting = Sorting(key: SortKey, dir: SortDir, weight: Collation)

  /** Negative, zero or positive, like the comparator of a sort. */
  function CompareResources(a: Resource, b: Resource, key: SortKey, weight: Collation): real {
    match key
    case Type => weight(a.kind) - weight(b.kind)
    case Url => weight(a.url) - weight(b.url)
    case StatusCode =>
      if a.statusCode == None then (if b.statusCode == None then 0.0 else 1.0)
      else if b.statusCode == None then -1.0
      else (a.statusCode.value - b.statusCode.value) as real
    case Size => (a.bytesReceived - b.bytesReceived) as real
    case Start => a.startOffsetMs - b.startOffsetMs
    case Duration => a.durationMs - b.durationMs
    case Speed => a.averageMbps - b.averageMbps
    case Failure =>
      if a.error == None then (if b.error == None then 0.0 else 1.0)
      else if b.error == None then -1.0
      else weight(a.error.value) - weight(b.error.value)
  }

  predicate MatchesStatus(r: Resource, status: StatusFilter) {
    match status
    case All => true
    case Failed => r.error.Some?
    case Hundreds(first) => r.statusCode.Some? && r.statusCode.value / 100 == first
  }

  // ---- The five slowest ----

  /** Stable: behind every earlier place that took at least as long. */
  function InsertBySlowness(resources: seq<Resource>, order: seq<nat>, p: nat): seq<nat>
    requires p < |resources| && forall k :: 0 <= k < |order| ==> order[k] < |resources|
  {
    if order == [] || resources[order[|order| - 1]].durationMs >= resources[p].durationMs then order + [p]
    else InsertBySlowness(resources, order[..|order| - 1], p) + [order[|order| - 1]]
  }

  function BySlowness(resources: seq<Resource>, n: nat): (order: seq<nat>)
    requires n <= |resources|
    ensures forall k :: 0 <= k < |order| ==> order[k] < n
  {
    if n == 0 then []
    else
      var order := BySlowness(resources, n - 1);
      InsertStaysBelow(resources, order, n - 1, n);
      InsertBySlowness(resources, order, n - 1)
  }

  lemma {:induction false} InsertStaysBelow(resources: seq<Resource>, order: seq<nat>, p: nat, n: nat)
    requires p < n <= |resources| && forall k :: 0 <= k < |order| ==> order[k] < n
    ensures forall k :: 0 <= k < |InsertBySlowness(resources, order, p)| ==> InsertBySlowness(resources, order, p)[k] < n
  {
    if order != [] {
      InsertStaysBelow(resources, order[..|order| - 1], p, n);
    }
  }

  function Slowest(resources: seq<Resource>): seq<nat> {
    var order := BySlowness(resources, |resources|);
    if |order| <= 5 then order else order[..5]
  }

  /** q took longer than p, or as long and came first. */
  predicate Beats(resources: seq<Resource>, q: nat, p: nat)
    requires q < |resources| && p < |resources|
  {
    resources[q].durationMs > resources[p].durationMs || (resources[q].durationMs == resources[p].durationMs && q < p)
  }

  ghost predicate AllBeat(resources: seq<Resource>, order: seq<nat>)
    requires forall k :: 0 <= k < |order| ==> order[k] < |resources|
  {
    forall i, j :: 0 <= i < j < |order| ==> Beats(resources, order[i], order[j])
  }

  ghost predicate Ranked(resources: seq<Resource>, order: seq<nat>, n: nat) {
    && n <= |resources|
    && (forall k :: 0 <= k < |order| ==> order[k] < n)
    && AllBeat(resources, order)
    && (forall p: nat :: p < n ==> p in order)
  }

  lemma {:induction false} InsertMembers(resources: seq<Resource>, order: seq<nat>, p: nat, q: nat)
    requires p < |resources| && forall k :: 0 <= k < |order| ==> order[k] < |resources|
    ensures q in InsertBySlowness(resources, order, p) <==> q in order || q == p
  {
    if order != [] {
      InsertMembers(resources, order[..|order| - 1], p, q);
      assert order == order[..|order| - 1] + [order[|order| - 1]];
    }
  }

  lemma {:induction false} InsertKeepsBeats(resources: seq<Resource>, order: seq<nat>, p: nat)
    requires p < |resources| && forall k :: 0 <= k < |order| ==> order[k] < p
    requires AllBeat(resources, order)
    ensures var r := InsertBySlowness(resources, order, p);
            (forall k :: 0 <= k < |r| ==> r[k] <= p) && AllBeat(resources, r)
  {
    InsertStaysBelow(resources, order, p, p + 1);
    if order != [] && resources[order[|order| - 1]].durationMs < resources[p].durationMs {
      var init, last := order[..|order| - 1], order[|order| - 1];
      InsertKeepsBeats(resources, init, p);
      InsertStaysBelow(resources, init, p, p + 1);
      var r := InsertBySlowness(resources, init, p);
      forall i | 0 <= i < |r|
        ensures Beats(resources, r[i], last)
      {
        InsertMembers(resources, init, p, r[i]);
      }
    }
  }

  lemma {:induction false} SlownessRanks(resources: seq<Resource>, n: nat)
    requires n <= |resources|
    ensures Ranked(resources, BySlowness(resources, n), n)
  {
    if n > 0 {
      var order := BySlowness(resources, n - 1);
      SlownessRanks(resources, n - 1);
      InsertKeepsBeats(resources, order, n - 1);
      forall p: nat | p < n
        ensures p in BySlowness(resources, n)
      {
        InsertMembers(resources, order, n - 1, p);
      }
    }
  }

  /** Everything that took longer than p, ties going to the earlier. */
  function Slower(resources: seq<Resource>, p: nat): set<nat>
    requires p < |resources|
  {
    set q: nat | q < |resources| && Beats(resources, q, p)
  }

  function Members(order: seq<nat>): set<nat> {
    set q | q in order
  }

  lemma {:induction false} DistinctCount(order: seq<nat>)
    requires forall i, j :: 0 <= i < j < |order| ==> order[i] != order[j]
    ensures |Members(order)| == |order|
  {
    if order != [] {
      DistinctCount(order[..|order| - 1]);
      assert order == order[..|order| - 1] + [order[|order| - 1]];
      assert Members(order) == Members(order[..|order| - 1]) + {order[|order| - 1]};
    }
  }

  lemma RankIsPlace(resources: seq<Resource>, order: seq<nat>, k: nat)
    requires Ranked(resources, order, |resources|) && k < |order|
    ensures |Slower(resources, order[k])| == k
  {
    DistinctCount(order[..k]);
    assert Slower(resources, order[k]) == Members(order[..k]) by {
      forall q: nat
        ensures q in Slower(resources, order[k]) <==> q in order[..k]
      {
        if q < |resources| && q in order {
          var i :| 0 <= i < |order| && order[i] == q;
          assert i < k ==> q == order[..k][i];
          assert i > k ==> Beats(resources, order[k], order[i]);
          assert i < k ==> Beats(resources, order[i], order[k]);
        }
      }
    }
  }

  /** A resource is one of the slowest exactly when fewer than five others beat it. */
  lemma SlowestByRank(resources: seq<Resource>, p: nat)
    requires p < |resources|
    ensures p in Slowest(resources) <==> |Slower(resources, p)| < 5
  {
    var order := BySlowness(resources, |resources|);
    SlownessRanks(resources, |resources|);
    assert p in order;
    var k :| 0 <= k < |order| && order[k] == p;
    RankIsPlace(resources, order, k);
    if k < 5 {
      assert p == Slowest(resources)[k];
    }
  }

  // ---- Filtering ----

  predicate Passes(resources: seq<Resource>, filters: Filters, p: nat)
    requires p < |resources|
  {
    && resources[p].kind in filters.kinds
    && MatchesStatus(resources[p], filters.status)
    && (filters.slowestOnly ==> p in Slowest(resources))
  }

  function Filtered(resources: seq<Resource>, filters: Filters, n: nat): (places: seq<nat>)
    requires n <= |resources|
    ensures forall k :: 0 <= k < |places| ==> places[k] < n
  {
    if n == 0 then []
    else if Passes(resources, filters, n - 1) then Filtered(resources, filters, n - 1) + [n - 1]
    else Filtered(resources, filters, n - 1)
  }

  lemma {:induction false} FilteredInOrder(resources: seq<Resource>, filters: Filters, n: nat)
    requires n <= |resources|
    ensures var places := Filtered(resources, filters, n);
            && (forall i, j :: 0 <= i < j < |places| ==> places[i] < places[j])
            && forall p: nat :: p in places <==> p < n && Passes(resources, filters, p)
  {
    if n > 0 {
      FilteredInOrder(resources, filters, n - 1);
    }
  }

  /** A resource is listed exactly if its type is wanted, its status is (any; one of the hundred codes from 200, 300,
      400 or 500 on; or an error instead) and, when only the slowest are wanted, fewer than
      five of all resources beat it, filtered out or not. */
  lemma ListedExactlyIfItPasses(resources: seq<Resource>, filters: Filters, p: nat)
    requires p < |resources|
    ensures p in Filtered(resources, filters, |resources|) <==>
            && resources[p].kind in filters.kinds
            && (match filters.status
                case All => true
                case Hundreds(first) =>
                  resources[p].statusCode.Some? && 100 * first <= resources[p].statusCode.value < 100 * first + 100
                case Failed => resources[p].error.Some?)
            && (filters.slowestOnly ==> |Slower(resources, p)| < 5)
  {
    FilteredInOrder(resources, filters, |resources|);
    SlowestByRank(resources, p);
  }

  // ---- Sorting ----

  /** A filtered resource with its index among the filtered. */
  datatype Entry = Entry(resource: Resource, index: nat)

  function Order(a: Entry, b: Entry, how: Sorting): real {
    var comparison := CompareResources(a.resource, b.resource, how.key, how.weight);
    if comparison != 0.0 then
      if how.key == StatusCode && (a.resource.statusCode == None || b.resource.statusCode == None) then comparison
      else if how.dir == Asc then comparison else -comparison
    else
      var byUrl := how.weight(a.resource.url) - how.weight(b.resource.url);
      if byUrl != 0.0 then byUrl else (a.index - b.index) as real
  }

  function Entries(resources: seq<Resource>, filters: Filters): seq<Entry> {
    var places := Filtered(resources, filters, |resources|);
    seq(|places|, k requires 0 <= k < |places| => Entry(resources[places[k]], k))
  }

  /** The comparator of the sort, as a relation. */
  function NotAfter(how: Sorting): (Entry, Entry) -> bool {
    (a, b) => Order(a, b, how) <= 0.0
  }

  function ApplyFiltersAndSort(resources: seq<Resource>, filters: Filters, how: Sorting): seq<Resource> {
    var rows := Sort(Entries(resources, filters), NotAfter(how));
    seq(|rows|, k requires 0 <= k < |rows| => rows[k].resource)
  }

  /** The comparator is a strict total order on entries of different index. */
  lemma OrderIsTotal(a: Entry, b: Entry, c: Entry, how: Sorting)
    ensures Order(a, b, how) == -Order(b, a, how)
    ensures a.index != b.index ==> Order(a, b, how) != 0.0
    ensures Order(a, b, how) <= 0.0 && Order(b, c, how) <= 0.0 ==> Order(a, c, how) <= 0.0
    ensures Order(a, b, how) < 0.0 && Order(b, c, how) < 0.0 ==> Order(a, c, how) < 0.0
  {
  }

  lemma OrderIsPreorder(how: Sorting)
    ensures IsPreorder(NotAfter(how))
  {
    hide Order;
    forall a, b, c
      ensures NotAfter(how)(a, b) || NotAfter(how)(b, a)
      ensures NotAfter(how)(a, b) && NotAfter(how)(b, c) ==> NotAfter(how)(a, c)
    {
      OrderIsTotal(a, b, c, how);
    }
  }

  lemma EntriesDoNotTie(resources: seq<Resource>, filters: Filters, how: Sorting)
    ensures NoTies(Entries(resources, filters), NotAfter(how))
  {
    hide Order;
    var rows := Entries(resources, filters);
    forall x, y | x in rows && y in rows && NotAfter(how)(x, y) && NotAfter(how)(y, x)
      ensures x == y
    {
      OrderIsTotal(x, y, x, how);
    }
  }

  lemma SameMembers(a: seq<Entry>, b: seq<Entry>, how: Sorting)
    requires multiset(a) == multiset(b) && NoTies(a, NotAfter(how))
    ensures NoTies(b, NotAfter(how))
  {
    hide NotAfter;
    forall x | x in b
      ensures x in a
    {
      assert x in multiset(b);
      assert x in multiset(a);
    }
  }

  /** The table shows exactly the resources that pass, each once, in the one order the comparator allows, whatever
      sorting procedure produces it. */
  lemma TableIsDetermined(resources: seq<Resource>, filters: Filters, how: Sorting, rows: seq<Entry>)
    requires Ordered(rows, NotAfter(how)) && multiset(rows) == multiset(Entries(resources, filters))
    ensures |rows| == |ApplyFiltersAndSort(resources, filters, how)|
    ensures forall k :: 0 <= k < |rows| ==> ApplyFiltersAndSort(resources, filters, how)[k] == rows[k].resource
  {
    hide Order, Ordered, NoTies, IsPreorder, NotAfter;
    var entries := Entries(resources, filters);
    OrderIsPreorder(how);
    EntriesDoNotTie(resources, filters, how);
    SameMembers(entries, rows, how);
    SortOrders(entries, NotAfter(how));
    SortPermutes(entries, NotAfter(how));
    OrderedIsUnique(rows, Sort(entries, NotAfter(how)), NotAfter(how));
  }

  lemma RowsAreOrdered(resources: seq<Resource>, filters: Filters, how: Sorting, i: nat, j: nat)
    requires i < j < |ApplyFiltersAndSort(resources, filters, how)|
    ensures exists a: Entry, b: Entry ::
              && a.resource == ApplyFiltersAndSort(resources, filters, how)[i]
              && b.resource == ApplyFiltersAndSort(resources, filters, how)[j]
              && Order(a, b, how) <= 0.0
  {
    hide Order;
    OrderIsPreorder(how);
    SortOrders(Entries(resources, filters), NotAfter(how));
    var rows := Sort(Entries(resources, filters), NotAfter(how));
    assert NotAfter(how)(rows[i], rows[j]);
    assert Order(rows[i], rows[j], how) <= 0.0;
  }

  /** What a reader of the column expects of two rows, the first above the second. */
  predicate Follows(a: Resource, b: Resource, key: SortKey, weight: Collation) {
    match key
    case Type => weight(a.kind) <= weight(b.kind)
    case Url => weight(a.url) <= weight(b.url)
    case StatusCode => b.statusCode == None || (a.statusCode.Some? && a.statusCode.value <= b.statusCode.value)
    case Size => a.bytesReceived <= b.bytesReceived
    case Start => a.startOffsetMs <= b.startOffsetMs
    case Duration => a.durationMs <= b.durationMs
    case Speed => a.averageMbps <= b.averageMbps
    case Failure => b.error == None || (a.error.Some? && weight(a.error.value) <= weight(b.error.value))
  }

  /** The chosen column ascends or descends, missing status codes aside, and rows equal in it ascend by URL. */
  lemma ColumnIsSorted(resources: seq<Resource>, filters: Filters, how: Sorting, i: nat, j: nat)
    requires i < j < |ApplyFiltersAndSort(resources, filters, how)|
    ensures var a, b := ApplyFiltersAndSort(resources, filters, how)[i], ApplyFiltersAndSort(resources, filters, how)[j];
            && (how.key != StatusCode || (a.statusCode.Some? && b.statusCode.Some?) ==>
                  if how.dir == Asc then Follows(a, b, how.key, how.weight) else Follows(b, a, how.key, how.weight))
            && (Follows(a, b, how.key, how.weight) && Follows(b, a, how.key, how.weight) ==>
                  how.weight(a.url) <= how.weight(b.url))
  {
    RowsAreOrdered(resources, filters, how, i, j);
  }

  /** Rows equal in the column and in the URL keep the order in which they were listed. */
  lemma TiesKeepTheirOrder(rows: seq<Entry>, how: Sorting, i: nat, j: nat)
    requires Ordered(rows, NotAfter(how)) && i < j < |rows|
    ensures var a, b := rows[i].resource, rows[j].resource;
            Follows(a, b, how.key, how.weight) && Follows(b, a, how.key, how.weight) && how.weight(a.url) == how.weight(b.url) ==>
              rows[i].index <= rows[j].index
  {
    assert NotAfter(how)(rows[i], rows[j]);
  }

  /** In either direction the resources without a status code come last. */
  lemma MissingStatusComesLast(
    resources: seq<Resource>, filters: Filters, dir: SortDir, weight: Collation, i: nat, j: nat)
    requires var shown := ApplyFiltersAndSort(resources, filters, Sorting(StatusCode, dir, weight));
             i < j < |shown| && shown[i].statusCode == None
    ensures ApplyFiltersAndSort(resources, filters, Sorting(StatusCode, dir, weight))[j].statusCode == None
  {
    RowsAreOrdered(resources, filters, Sorting(StatusCode, dir, weight), i, j);
  }

  /** Resources without an error follow the direction instead: last when ascending, first when descending. */
  lemma MissingErrorFollowsDirection(
    resources: seq<Resource>, filters: Filters, dir: SortDir, weight: Collation, i: nat, j: nat)
    requires i < j < |ApplyFiltersAndSort(resources, filters, Sorting(Failure, dir, weight))|
    ensures var shown := ApplyFiltersAndSort(resources, filters, Sorting(Failure, dir, weight));
            if dir == Asc then shown[i].error == None ==> shown[j].error == None
            else shown[j].error == None ==> shown[i].error == None
  {
    RowsAreOrdered(resources, filters, Sorting(Failure, dir, weight), i, j);
  }
}
