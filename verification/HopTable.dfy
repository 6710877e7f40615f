/** The rows of a running traceroute: events folded into a table sorted by hop. */
module HopTable {
  import opened Options
  import opened Ordering

  datatype HopRow = HopRow(
    hop: int, address: Option<string>, hostname: Option<string>,
    rtt1Ms: Option<real>, rtt2Ms: Option<real>, rtt3Ms: Option<real>,
    annotation: Option<string>, at: string)

  datatype Event =
    | Hop(hop: int, address: Option<string>, rtt1Ms: Option<real>, rtt2Ms: Option<real>, rtt3Ms: Option<real>,
          annotation: Option<string>, at: string)
    | Hostname(hop: int, hostAddress: string, hostname: Option<string>)

  // ---- Finding and sorting rows ----

  function IndexOf(rows: seq<HopRow>, hop: int): (r: Option<nat>)
    ensures r.Some? ==>
              && r.value < |rows| && rows[r.value].hop == hop
              && forall k :: 0 <= k < r.value ==> rows[k].hop != hop
    ensures r == None ==> forall k :: 0 <= k < |rows| ==> rows[k].hop != hop
  {
    if rows == [] then None
    else
      var earlier := IndexOf(rows[..|rows| - 1], hop);
      if earlier.Some? then earlier
      else if rows[|rows| - 1].hop == hop then Some(|rows| - 1) else None
  }

  /** The first row of that hop. */
  function Find(rows: seq<HopRow>, hop: int): Option<HopRow> {
    match IndexOf(rows, hop)
    case None => None
    case Some(i) => Some(rows[i])
  }

  predicate NotAfter(a: HopRow, b: HopRow) {
    a.hop <= b.hop
  }

  function SortByHop(rows: seq<HopRow>): seq<HopRow> {
    Sort(rows, NotAfter)
  }

  ghost predicate Strict(rows: seq<HopRow>) {
    forall i, j :: 0 <= i < j < |rows| ==> rows[i].hop < rows[j].hop
  }

  ghost predicate Distinct(rows: seq<HopRow>) {
    forall i, j :: 0 <= i < j < |rows| ==> rows[i].hop != rows[j].hop
  }

  lemma FindLast(rows: seq<HopRow>, row: HopRow, hop: int)
    ensures Find(rows + [row], hop) ==
            if Find(rows, hop).Some? then Find(rows, hop) else if row.hop == hop then Some(row) else None
  {
    assert (rows + [row])[..|rows|] == rows;
  }

  lemma FindHop(rows: seq<HopRow>, hop: int)
    ensures Find(rows, hop).Some? ==> Find(rows, hop).value.hop == hop
    ensures Find([], hop) == None
  {
  }

  lemma {:induction false} InsertFind(rows: seq<HopRow>, row: HopRow, hop: int)
    requires Ordered(rows, NotAfter)
    ensures Find(Insert(rows, row, NotAfter), hop) == Find(rows + [row], hop)
  {
    hide Find;
    if rows != [] && rows[|rows| - 1].hop > row.hop {
      var init, last := rows[..|rows| - 1], rows[|rows| - 1];
      InsertFind(init, row, hop);
      assert rows == init + [last];
      FindLast(Insert(init, row, NotAfter), last, hop);
      FindLast(init, row, hop);
      FindLast(init, last, hop);
      FindLast(rows, row, hop);
    }
  }

  lemma {:induction false} SortFind(rows: seq<HopRow>, hop: int)
    ensures Find(SortByHop(rows), hop) == Find(rows, hop)
  {
    hide Find;
    if rows != [] {
      var init, last := rows[..|rows| - 1], rows[|rows| - 1];
      SortFind(init, hop);
      assert IsPreorder(NotAfter);
      SortOrders(init, NotAfter);
      InsertFind(SortByHop(init), last, hop);
      assert rows == init + [last];
      FindLast(SortByHop(init), last, hop);
      FindLast(init, last, hop);
    }
  }

  /** Sorting permutes the rows and leaves the first row of each hop the first. */
  lemma SortProperties(rows: seq<HopRow>, hop: int)
    ensures Ordered(SortByHop(rows), NotAfter)
    ensures multiset(SortByHop(rows)) == multiset(rows)
    ensures Find(SortByHop(rows), hop) == Find(rows, hop)
  {
    assert IsPreorder(NotAfter);
    SortOrders(rows, NotAfter);
    SortPermutes(rows, NotAfter);
    SortFind(rows, hop);
  }

  lemma {:induction false} InsertKeepsStrict(rows: seq<HopRow>, row: HopRow)
    requires Strict(rows) && forall k :: 0 <= k < |rows| ==> rows[k].hop != row.hop
    ensures Strict(Insert(rows, row, NotAfter))
  {
    if rows != [] && rows[|rows| - 1].hop > row.hop {
      var init, last := rows[..|rows| - 1], rows[|rows| - 1];
      InsertKeepsStrict(init, row);
      InsertPermutes(init, row, NotAfter);
      forall k | 0 <= k < |init| + 1
        ensures Insert(init, row, NotAfter)[k].hop < last.hop
      {
        assert Insert(init, row, NotAfter)[k] in multiset(init) + multiset{row};
      }
    }
  }

  lemma {:induction false} DistinctSortsStrict(rows: seq<HopRow>)
    requires Distinct(rows)
    ensures Strict(SortByHop(rows))
  {
    if rows != [] {
      var init, last := rows[..|rows| - 1], rows[|rows| - 1];
      DistinctSortsStrict(init);
      SortPermutes(init, NotAfter);
      var sorted := SortByHop(init);
      forall k | 0 <= k < |sorted|
        ensures sorted[k].hop != last.hop
      {
        assert sorted[k] in multiset(init);
      }
      InsertKeepsStrict(sorted, last);
    }
  }

  // ---- Folding live events ----

  function NewRow(e: Event): HopRow
    requires e.Hop?
  {
    HopRow(e.hop, e.address, None, e.rtt1Ms, e.rtt2Ms, e.rtt3Ms, e.annotation, e.at)
  }

  function Probed(row: HopRow, e: Event): HopRow
    requires e.Hop?
  {
    row.(address := e.address, rtt1Ms := e.rtt1Ms, rtt2Ms := e.rtt2Ms, rtt3Ms := e.rtt3Ms,
         annotation := e.annotation, at := e.at)
  }

  function ApplyHopEvent(rows: seq<HopRow>, e: Event): seq<HopRow>
    requires e.Hop?
  {
    match IndexOf(rows, e.hop)
    case None => SortByHop(rows + [NewRow(e)])
    case Some(i) => SortByHop(rows[i := Probed(rows[i], e)])
  }

  function HostIndex(rows: seq<HopRow>, e: Event): (r: Option<nat>)
    requires e.Hostname?
    ensures r.Some? ==> r.value < |rows| && rows[r.value].hop == e.hop && rows[r.value].address == Some(e.hostAddress)
    ensures r == None ==>
              forall k :: 0 <= k < |rows| ==> !(rows[k].hop == e.hop && rows[k].address == Some(e.hostAddress))
  {
    if rows == [] then None
    else
      var earlier := HostIndex(rows[..|rows| - 1], e);
      if earlier.Some? then earlier
      else if rows[|rows| - 1].hop == e.hop && rows[|rows| - 1].address == Some(e.hostAddress) then Some(|rows| - 1)
      else None
  }

  function ApplyHostnameEvent(rows: seq<HopRow>, e: Event): seq<HopRow>
    requires e.Hostname?
  {
    match HostIndex(rows, e)
    case None => rows
    case Some(i) => SortByHop(rows[i := rows[i].(hostname := e.hostname)])
  }

  function Apply(rows: seq<HopRow>, e: Event): seq<HopRow> {
    if e.Hop? then ApplyHopEvent(rows, e) else ApplyHostnameEvent(rows, e)
  }

  function Fold(events: seq<Event>): seq<HopRow> {
    if events == [] then [] else Apply(Fold(events[..|events| - 1]), events[|events| - 1])
  }

  /** The row of one hop after one event of that hop. */
  function ApplyToRow(row: Option<HopRow>, e: Event): Option<HopRow> {
    if e.Hop? then Some(if row == None then NewRow(e) else Probed(row.value, e))
    else if row.Some? && row.value.address == Some(e.hostAddress) then Some(row.value.(hostname := e.hostname))
    else row
  }

  /** The row of one hop, from the events of that hop alone. */
  function RowOf(events: seq<Event>): Option<HopRow> {
    if events == [] then None else ApplyToRow(RowOf(events[..|events| - 1]), events[|events| - 1])
  }

  function EventsOf(events: seq<Event>, hop: int): seq<Event> {
    if events == [] then []
    else
      var init, e := EventsOf(events[..|events| - 1], hop), events[|events| - 1];
      if e.hop == hop then init + [e] else init
  }

  lemma FindUpdated(rows: seq<HopRow>, i: nat, row: HopRow, hop: int)
    requires Distinct(rows) && i < |rows| && row.hop == rows[i].hop
    ensures Distinct(rows[i := row])
    ensures Find(rows[i := row], hop) == if hop == row.hop then Some(row) else Find(rows, hop)
  {
    var next := rows[i := row];
    assert forall k :: 0 <= k < |rows| ==> next[k].hop == rows[k].hop;
  }

  /** One event changes the row of its own hop, whatever the other rows are, and keeps hops unique and ascending. */
  lemma ApplyIsLocal(rows: seq<HopRow>, e: Event, hop: int)
    requires Strict(rows)
    ensures Strict(Apply(rows, e))
    ensures Find(Apply(rows, e), hop) == if hop == e.hop then ApplyToRow(Find(rows, hop), e) else Find(rows, hop)
  {
    if e.Hop? {
      match IndexOf(rows, e.hop) {
        case None =>
          SortedUpdate(rows + [NewRow(e)], hop);
          FindLast(rows, NewRow(e), hop);
        case Some(i) =>
          FindUpdated(rows, i, Probed(rows[i], e), hop);
          SortedUpdate(rows[i := Probed(rows[i], e)], hop);
      }
    } else {
      match HostIndex(rows, e) {
        case None =>
        case Some(i) =>
          FindUpdated(rows, i, rows[i].(hostname := e.hostname), hop);
          SortedUpdate(rows[i := rows[i].(hostname := e.hostname)], hop);
          FindUnique(rows, i);
      }
    }
  }

  /** After a hop event its row shows the event, and keeps the hostname it had. */
  lemma HopEventIsShown(rows: seq<HopRow>, e: Event)
    requires Strict(rows) && e.Hop?
    ensures var before, after := Find(rows, e.hop), Find(Apply(rows, e), e.hop);
            && after.Some? && after.value.hop == e.hop && after.value.address == e.address
            && after.value.rtt1Ms == e.rtt1Ms && after.value.rtt2Ms == e.rtt2Ms && after.value.rtt3Ms == e.rtt3Ms
            && after.value.annotation == e.annotation && after.value.at == e.at
            && after.value.hostname == if before == None then None else before.value.hostname
  {
    FindHop(rows, e.hop);
    hide Find, Apply, Strict;
    ApplyIsLocal(rows, e, e.hop);
  }

  /** A hostname reaches its row only while the row still has the address it was resolved for. */
  lemma HostnameNeedsItsAddress(rows: seq<HopRow>, e: Event)
    requires Strict(rows) && e.Hostname?
    ensures var before, after := Find(rows, e.hop), Find(Apply(rows, e), e.hop);
            if before.Some? && before.value.address == Some(e.hostAddress)
            then after == Some(before.value.(hostname := e.hostname)) else Apply(rows, e) == rows
  {
    FoundIsThere(rows, e.hop);
    ApplyIsLocal(rows, e, e.hop);
  }

  lemma FindUnique(rows: seq<HopRow>, i: nat)
    requires Distinct(rows) && i < |rows|
    ensures Find(rows, rows[i].hop) == Some(rows[i])
  {
  }

  lemma SortedUpdate(rows: seq<HopRow>, hop: int)
    requires Distinct(rows)
    ensures Strict(SortByHop(rows)) && Find(SortByHop(rows), hop) == Find(rows, hop)
  {
    DistinctSortsStrict(rows);
    SortProperties(rows, hop);
  }

  /** Folding any events gives rows with unique ascending hops, and each row depends on its own hop's events only. */
  lemma {:induction false} FoldIsPerHop(events: seq<Event>, hop: int)
    ensures Strict(Fold(events))
    ensures Find(Fold(events), hop) == RowOf(EventsOf(events, hop))
  {
    if events != [] {
      var init, e := events[..|events| - 1], events[|events| - 1];
      FoldIsPerHop(init, hop);
      ApplyIsLocal(Fold(init), e, hop);
      assert (EventsOf(init, hop) + [e])[..|EventsOf(init, hop)|] == EventsOf(init, hop);
    }
  }

  lemma NonEmptyFinds(rows: seq<HopRow>)
    ensures if rows == [] then forall hop :: Find(rows, hop) == None else Find(rows, rows[0].hop).Some?
  {
  }

  /** Rows with strictly ascending hops are determined by what is found at each hop. */
  lemma {:induction false} StrictByFind(a: seq<HopRow>, b: seq<HopRow>)
    requires Strict(a) && Strict(b) && forall hop :: Find(a, hop) == Find(b, hop)
    ensures a == b
  {
    hide Find;
    NonEmptyFinds(a);
    NonEmptyFinds(b);
    if a != [] && b != [] {
      var initA, x, initB, y := a[..|a| - 1], a[|a| - 1], b[..|b| - 1], b[|b| - 1];
      assert a == initA + [x] && b == initB + [y];
      SameLast(a, b);
      forall hop
        ensures Find(initA, hop) == Find(initB, hop)
      {
        assert Find(a, hop) == Find(b, hop);
        FindLast(initA, x, hop);
        FindLast(initB, y, hop);
        LastIsNew(a);
        LastIsNew(b);
      }
      StrictByFind(initA, initB);
    }
  }

  lemma LastIsNew(rows: seq<HopRow>)
    requires Strict(rows) && rows != []
    ensures Find(rows[..|rows| - 1], rows[|rows| - 1].hop) == None
  {
  }

  lemma SameLast(a: seq<HopRow>, b: seq<HopRow>)
    requires Strict(a) && Strict(b) && a != [] && b != [] && forall hop :: Find(a, hop) == Find(b, hop)
    ensures a[|a| - 1] == b[|b| - 1]
  {
    var x, y := a[|a| - 1], b[|b| - 1];
    FindUnique(a, |a| - 1);
    FindUnique(b, |b| - 1);
    assert Find(b, x.hop) == Some(x) && Find(a, y.hop) == Some(y);
    FoundIsThere(b, x.hop);
    FoundIsThere(a, y.hop);
  }

  lemma FoundIsThere(rows: seq<HopRow>, hop: int)
    ensures if Find(rows, hop) == None then forall k :: 0 <= k < |rows| ==> rows[k].hop != hop
            else exists k :: 0 <= k < |rows| && rows[k] == Find(rows, hop).value
  {
  }

  /** Events of different hops may arrive in any order: only the order within each hop matters. */
  lemma OrderAcrossHopsIsIrrelevant(a: seq<Event>, b: seq<Event>)
    requires forall hop :: EventsOf(a, hop) == EventsOf(b, hop)
    ensures Fold(a) == Fold(b)
  {
    FoldIsPerHop(a, 0);
    FoldIsPerHop(b, 0);
    forall hop
      ensures Find(Fold(a), hop) == Find(Fold(b), hop)
    {
      hide Find, Fold, EventsOf;
      assert EventsOf(a, hop) == EventsOf(b, hop);
      FoldIsPerHop(a, hop);
      FoldIsPerHop(b, hop);
    }
    StrictByFind(Fold(a), Fold(b));
  }

  lemma EventsCommute(rows: seq<HopRow>, d: Event, e: Event)
    requires Strict(rows) && d.hop != e.hop
    ensures Apply(Apply(rows, d), e) == Apply(Apply(rows, e), d)
  {
    hide Apply, Find, Strict, ApplyToRow;
    forall hop
      ensures Strict(Apply(Apply(rows, d), e)) && Strict(Apply(Apply(rows, e), d))
      ensures Find(Apply(Apply(rows, d), e), hop) == Find(Apply(Apply(rows, e), d), hop)
    {
      ApplyIsLocal(rows, d, hop);
      ApplyIsLocal(rows, e, hop);
      ApplyIsLocal(Apply(rows, d), e, hop);
      ApplyIsLocal(Apply(rows, e), d, hop);
    }
    assert Find(Apply(Apply(rows, d), e), 0) == Find(Apply(Apply(rows, e), d), 0);
    StrictByFind(Apply(Apply(rows, d), e), Apply(Apply(rows, e), d));
  }
}
