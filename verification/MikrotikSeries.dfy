/** Rate history of a saved RouterOS session, rebuilt from the byte counters of its snapshots. */
module MikrotikSeries {
  import opened Options
  import opened CounterRates

  const CAPACITY: nat := 720

  datatype Interface = Interface(
    name: string, rxByte: Option<int>, txByte: Option<int>,
    rxBitsPerSecond: Option<real>, txBitsPerSecond: Option<real>)

  /** atMs is the parsed timestamp, None when it does not parse. */
  datatype Snapshot = Snapshot(
    at: string, atMs: Option<int>, interfaces: seq<Interface>,
    vlans: Option<seq<string>>, bridgeVlans: Option<seq<string>>, sensors: Option<seq<string>>)

  datatype Point = Point(at: string, rxBitsPerSecond: Option<real>, txBitsPerSecond: Option<real>)

  datatype Counters = Counters(atMs: Option<int>, rxByte: Option<int>, txByte: Option<int>)

  datatype History = History(
    latestSnapshot: Option<Snapshot>, snapshotHistory: seq<Snapshot>, rateSeries: map<string, seq<Point>>,
    vlans: seq<string>, bridgeVlans: seq<string>, sensors: seq<string>)

  // ---- What the history is, snapshot by snapshot ----

  /** The last entry of that name: later duplicates replace earlier ones. */
  function LastListed(items: seq<Interface>, name: string): Option<Interface> {
    if items == [] then None
    else if items[|items| - 1].name == name then Some(items[|items| - 1])
    else LastListed(items[..|items| - 1], name)
  }

  function Bytes(iface: Interface, tx: bool): Option<int> {
    if tx then iface.txByte else iface.rxByte
  }

  function ShownRate(iface: Interface, tx: bool): Option<real> {
    if tx then iface.txBitsPerSecond else iface.rxBitsPerSecond
  }

  function CountersIn(s: Snapshot, name: string): Option<Counters> {
    match LastListed(s.interfaces, name)
    case None => None
    case Some(iface) => Some(Counters(s.atMs, iface.rxByte, iface.txByte))
  }

  /** One interface with its rates taken against the counters remembered for its name. */
  function Reconstructed(iface: Interface, atMs: Option<int>, counters: Option<Counters>): Interface {
    match counters
    case None => iface.(rxBitsPerSecond := None, txBitsPerSecond := None)
    case Some(c) => iface.(
      rxBitsPerSecond := Rate(Sample(c.atMs, c.rxByte), Sample(atMs, iface.rxByte)),
      txBitsPerSecond := Rate(Sample(c.atMs, c.txByte), Sample(atMs, iface.txByte)))
  }

  function WithReconstructedRates(s: Snapshot, previous: map<string, Counters>): Snapshot {
    s.(interfaces := seq(|s.interfaces|, j requires 0 <= j < |s.interfaces| =>
      Reconstructed(s.interfaces[j], s.atMs,
                    if s.interfaces[j].name in previous then Some(previous[s.interfaces[j].name]) else None)))
  }

  /** Snapshot i with each rate taken against what snapshot i - 1 said of the same name. */
  function Rebuilt(rows: seq<Snapshot>, i: nat): Snapshot
    requires i < |rows|
  {
    rows[i].(interfaces := seq(|rows[i].interfaces|, j requires 0 <= j < |rows[i].interfaces| =>
      Reconstructed(rows[i].interfaces[j], rows[i].atMs,
                    if i == 0 then None else CountersIn(rows[i - 1], rows[i].interfaces[j].name))))
  }

  function PointOf(at: string, iface: Interface): Point {
    Point(at, iface.rxBitsPerSecond, iface.txBitsPerSecond)
  }

  function PointsIn(at: string, items: seq<Interface>, name: string): seq<Point> {
    if items == [] then []
    else if items[|items| - 1].name == name then PointsIn(at, items[..|items| - 1], name) + [PointOf(at, items[|items| - 1])]
    else PointsIn(at, items[..|items| - 1], name)
  }

  /** Every point the first n snapshots have for the name, in order and uncapped. */
  function AllPoints(rows: seq<Snapshot>, name: string, n: nat): seq<Point>
    requires n <= |rows|
  {
    if n == 0 then []
    else AllPoints(rows, name, n - 1) + PointsIn(rows[n - 1].at, Rebuilt(rows, n - 1).interfaces, name)
  }

  datatype Section = Vlans | BridgeVlans | Sensors

  function SectionOf(s: Snapshot, section: Section): Option<seq<string>> {
    match section
    case Vlans => s.vlans
    case BridgeVlans => s.bridgeVlans
    case Sensors => s.sensors
  }

  /** The section as the newest of the first n snapshots that has it reports it. */
  function Known(rows: seq<Snapshot>, section: Section, n: nat): seq<string>
    requires n <= |rows|
  {
    if n == 0 then [] else SectionOf(rows[n - 1], section).GetOr(Known(rows, section, n - 1))
  }

  // ---- What the points show, by place in the snapshots ----

  /** Entry j, and no other, has the name. */
  predicate OnlyAt(items: seq<Interface>, name: string, j: int) {
    0 <= j < |items| && items[j].name == name && forall k :: 0 <= k < |items| && k != j ==> items[k].name != name
  }

  /** Snapshot i lists the name once, as its entry place[i]. */
  ghost predicate ListedOnce(rows: seq<Snapshot>, name: string, place: seq<int>) {
    |place| == |rows| && forall i :: 0 <= i < |rows| ==> OnlyAt(rows[i].interfaces, name, place[i])
  }

  /** The point has the time of snapshot i and, for each direction, the rate from that counter in snapshot i - 1 to the
      same counter in snapshot i. */
  ghost predicate ShowsSnapshot(p: Point, rows: seq<Snapshot>, name: string, place: seq<int>, i: int)
    requires ListedOnce(rows, name, place) && 0 <= i < |rows|
  {
    var now := rows[i].interfaces[place[i]];
    && p.at == rows[i].at
    && if i == 0 then p.rxBitsPerSecond == None && p.txBitsPerSecond == None
       else
         var before := rows[i - 1].interfaces[place[i - 1]];
         && p.rxBitsPerSecond == Rate(Sample(rows[i - 1].atMs, before.rxByte), Sample(rows[i].atMs, now.rxByte))
         && p.txBitsPerSecond == Rate(Sample(rows[i - 1].atMs, before.txByte), Sample(rows[i].atMs, now.txByte))
  }

  /** One point for each of the newest 720 snapshots, oldest first. */
  ghost predicate ShowsSnapshots(points: seq<Point>, rows: seq<Snapshot>, name: string, place: seq<int>)
    requires ListedOnce(rows, name, place)
  {
    && |points| == (if |rows| < 720 then |rows| else 720)
    && forall k :: 0 <= k < |points| ==> ShowsSnapshot(points[k], rows, name, place, |rows| - |points| + k)
  }

  lemma {:induction false} LastListedIsTheLast(items: seq<Interface>, name: string, j: nat)
    requires j < |items| && items[j].name == name && forall k :: j < k < |items| ==> items[k].name != name
    ensures LastListed(items, name) == Some(items[j])
  {
    if j < |items| - 1 {
      LastListedIsTheLast(items[..|items| - 1], name, j);
    }
  }

  lemma {:induction false} PointsInOnce(at: string, items: seq<Interface>, name: string, j: int)
    ensures (forall k :: 0 <= k < |items| ==> items[k].name != name) ==> PointsIn(at, items, name) == []
    ensures OnlyAt(items, name, j) ==>
              PointsIn(at, items, name) == [Point(at, items[j].rxBitsPerSecond, items[j].txBitsPerSecond)]
  {
    if items != [] {
      PointsInOnce(at, items[..|items| - 1], name, j);
    }
  }

  lemma RebuiltPointShows(rows: seq<Snapshot>, name: string, place: seq<int>, i: nat)
    requires ListedOnce(rows, name, place) && i < |rows|
    ensures var points := PointsIn(rows[i].at, Rebuilt(rows, i).interfaces, name);
            |points| == 1 && ShowsSnapshot(points[0], rows, name, place, i)
  {
    assert OnlyAt(rows[i].interfaces, name, place[i]);
    var j := place[i];
    assert OnlyAt(Rebuilt(rows, i).interfaces, name, j);
    PointsInOnce(rows[i].at, Rebuilt(rows, i).interfaces, name, j);
    if i > 0 {
      assert OnlyAt(rows[i - 1].interfaces, name, place[i - 1]);
      LastListedIsTheLast(rows[i - 1].interfaces, name, place[i - 1]);
    }
    hide PointsIn, LastListed, Rate;
  }

  lemma {:induction false} AllPointsShow(rows: seq<Snapshot>, name: string, place: seq<int>, n: nat)
    requires ListedOnce(rows, name, place) && n <= |rows|
    ensures |AllPoints(rows, name, n)| == n
    ensures forall k :: 0 <= k < n ==> ShowsSnapshot(AllPoints(rows, name, n)[k], rows, name, place, k)
  {
    hide ShowsSnapshot, ListedOnce, PointsIn, Rebuilt;
    if n > 0 {
      AllPointsShow(rows, name, place, n - 1);
      RebuiltPointShows(rows, name, place, n - 1);
    }
  }

  lemma SeriesShows(rows: seq<Snapshot>, name: string, place: seq<int>)
    requires ListedOnce(rows, name, place)
    ensures AllPoints(rows, name, |rows|) == [] <==> rows == []
    ensures ShowsSnapshots(Tail(AllPoints(rows, name, |rows|), CAPACITY), rows, name, place)
  {
    hide ShowsSnapshot, ListedOnce, AllPoints;
    AllPointsShow(rows, name, place, |rows|);
  }

  // ---- The loops ----

  method RememberCounters(s: Snapshot) returns (next: map<string, Counters>)
    ensures forall name :: name in next <==> CountersIn(s, name).Some?
    ensures forall name :: name in next ==> Some(next[name]) == CountersIn(s, name)
  {
    next := map[];
    for j := 0 to |s.interfaces|
      invariant forall name :: name in next <==> LastListed(s.interfaces[..j], name).Some?
      invariant forall name :: name in next ==>
                  var iface := LastListed(s.interfaces[..j], name).value;
                  next[name] == Counters(s.atMs, iface.rxByte, iface.txByte)
    {
      var iface := s.interfaces[j];
      next := next[iface.name := Counters(s.atMs, iface.rxByte, iface.txByte)];
      assert s.interfaces[..j + 1][..j] == s.interfaces[..j];
    }
    assert s.interfaces[..|s.interfaces|] == s.interfaces;
  }

  function Before(series: map<string, seq<Point>>, name: string): seq<Point> {
    if name in series then series[name] else []
  }

  /** Pushed says what a series is after the points were pushed onto it. */
  function Pushed(before: seq<Point>, points: seq<Point>): seq<Point> {
    if points == [] then before else Tail(before + points, CAPACITY)
  }

  method PushRatePoint(series: map<string, seq<Point>>, s: Snapshot) returns (next: map<string, seq<Point>>)
    ensures forall name :: name in next <==> name in series || PointsIn(s.at, s.interfaces, name) != []
    ensures forall name :: name in next ==> next[name] == Pushed(Before(series, name), PointsIn(s.at, s.interfaces, name))
  {
    hide Tail, Pushed;
    next := series;
    NothingPushed(series);
    for j := 0 to |s.interfaces|
      invariant forall name :: name in next <==> name in series || PointsIn(s.at, s.interfaces[..j], name) != []
      invariant forall name :: name in next ==>
                  next[name] == Pushed(Before(series, name), PointsIn(s.at, s.interfaces[..j], name))
    {
      var iface := s.interfaces[j];
      var points := Before(next, iface.name) + [Point(s.at, iface.rxBitsPerSecond, iface.txBitsPerSecond)];
      PushedAgain(Before(series, iface.name), PointsIn(s.at, s.interfaces[..j], iface.name), PointOf(s.at, iface));
      next := next[iface.name := Tail(points, CAPACITY)];
      assert s.interfaces[..j + 1][..j] == s.interfaces[..j];
    }
    assert s.interfaces[..|s.interfaces|] == s.interfaces;
  }

  lemma NothingPushed(series: map<string, seq<Point>>)
    ensures forall name :: name in series ==> series[name] == Pushed(Before(series, name), [])
  {
  }

  lemma PushedAgain(before: seq<Point>, points: seq<Point>, p: Point)
    ensures Pushed(before, []) == before
    ensures Tail(Pushed(before, points) + [p], CAPACITY) == Pushed(before, points + [p])
  {
    if points == [] {
      assert points + [p] == [p];
    } else {
      TailAppend(before + points, [p], CAPACITY);
      assert before + points + [p] == before + (points + [p]);
    }
  }

  method BuildHistory(rows: seq<Snapshot>) returns (h: History)
    ensures |h.snapshotHistory| == |rows| && forall i :: 0 <= i < |rows| ==> h.snapshotHistory[i] == Rebuilt(rows, i)
    ensures h.latestSnapshot == if rows == [] then None else Some(Rebuilt(rows, |rows| - 1))
    ensures forall name :: name in h.rateSeries <==> AllPoints(rows, name, |rows|) != []
    ensures forall name :: name in h.rateSeries ==> h.rateSeries[name] == Tail(AllPoints(rows, name, |rows|), CAPACITY)
    ensures forall name, place :: ListedOnce(rows, name, place) && rows != [] ==>
              name in h.rateSeries && ShowsSnapshots(h.rateSeries[name], rows, name, place)
    ensures h.vlans == Known(rows, Vlans, |rows|)
    ensures h.bridgeVlans == Known(rows, BridgeVlans, |rows|) && h.sensors == Known(rows, Sensors, |rows|)
  {
    hide WithReconstructedRates, Rebuilt, Tail, Pushed, PointsIn, CountersIn, AllPoints, Remembers, SeriesSoFar,
         ListedOnce, ShowsSnapshots;
    var latest: Option<Snapshot> := None;
    var history: seq<Snapshot> := [];
    var series: map<string, seq<Point>> := map[];
    var vlans: seq<string>, bridgeVlans: seq<string>, sensors: seq<string> := [], [], [];
    var previous: map<string, Counters> := map[];
    NothingYet(previous, series, rows);
    for i := 0 to |rows|
      invariant |history| == i && forall k :: 0 <= k < i ==> history[k] == Rebuilt(rows, k)
      invariant latest == if i == 0 then None else Some(Rebuilt(rows, i - 1))
      invariant Remembers(previous, rows, i) && SeriesSoFar(series, rows, i)
      invariant vlans == Known(rows, Vlans, i)
      invariant bridgeVlans == Known(rows, BridgeVlans, i) && sensors == Known(rows, Sensors, i)
    {
      var rebuilt := WithReconstructedRates(rows[i], previous);
      RebuiltFromPrevious(rows, i, previous);
      previous := RememberCounters(rows[i]);
      RemembersLast(previous, rows, i);
      latest := Some(rebuilt);
      history := history + [rebuilt];
      var next := PushRatePoint(series, rebuilt);
      PushExtendsSeries(series, next, rows, i);
      series := next;
      if rebuilt.vlans.Some? { vlans := rebuilt.vlans.value; }
      if rebuilt.bridgeVlans.Some? { bridgeVlans := rebuilt.bridgeVlans.value; }
      if rebuilt.sensors.Some? { sensors := rebuilt.sensors.value; }
    }
    SeriesAtLast(series, rows);
    forall name, place | ListedOnce(rows, name, place) && rows != []
      ensures name in series && ShowsSnapshots(series[name], rows, name, place)
    {
      SeriesShows(rows, name, place);
    }
    h := History(latest, history, series, vlans, bridgeVlans, sensors);
  }

  lemma NothingYet(previous: map<string, Counters>, series: map<string, seq<Point>>, rows: seq<Snapshot>)
    requires previous == map[] && series == map[]
    ensures Remembers(previous, rows, 0) && SeriesSoFar(series, rows, 0)
  {
  }

  lemma SeriesAtLast(series: map<string, seq<Point>>, rows: seq<Snapshot>)
    requires SeriesSoFar(series, rows, |rows|)
    ensures forall name :: name in series <==> AllPoints(rows, name, |rows|) != []
    ensures forall name :: name in series ==> series[name] == Tail(AllPoints(rows, name, |rows|), CAPACITY)
  {
    hide Tail, AllPoints;
  }

  ghost predicate Remembers(previous: map<string, Counters>, rows: seq<Snapshot>, i: nat)
    requires i <= |rows|
  {
    forall name ::
      && (name in previous <==> i > 0 && CountersIn(rows[i - 1], name).Some?)
      && (name in previous ==> Some(previous[name]) == CountersIn(rows[i - 1], name))
  }

  ghost predicate SeriesSoFar(series: map<string, seq<Point>>, rows: seq<Snapshot>, i: nat)
    requires i <= |rows|
  {
    forall name ::
      && (name in series <==> AllPoints(rows, name, i) != [])
      && (name in series ==> series[name] == Tail(AllPoints(rows, name, i), CAPACITY))
  }

  lemma RemembersLast(previous: map<string, Counters>, rows: seq<Snapshot>, i: nat)
    requires i < |rows|
    requires forall name :: name in previous <==> CountersIn(rows[i], name).Some?
    requires forall name :: name in previous ==> Some(previous[name]) == CountersIn(rows[i], name)
    ensures Remembers(previous, rows, i + 1)
  {
  }

  lemma RebuiltFromPrevious(rows: seq<Snapshot>, i: nat, previous: map<string, Counters>)
    requires i < |rows| && Remembers(previous, rows, i)
    ensures WithReconstructedRates(rows[i], previous) == Rebuilt(rows, i)
    ensures Rebuilt(rows, i).at == rows[i].at && Rebuilt(rows, i).vlans == rows[i].vlans
    ensures Rebuilt(rows, i).bridgeVlans == rows[i].bridgeVlans && Rebuilt(rows, i).sensors == rows[i].sensors
  {
    hide CountersIn, Reconstructed;
    assert WithReconstructedRates(rows[i], previous).interfaces == Rebuilt(rows, i).interfaces;
  }

  lemma PushExtendsSeries(series: map<string, seq<Point>>, next: map<string, seq<Point>>, rows: seq<Snapshot>, i: nat)
    requires i < |rows| && SeriesSoFar(series, rows, i)
    requires var s := Rebuilt(rows, i);
             && (forall name :: name in next <==> name in series || PointsIn(s.at, s.interfaces, name) != [])
             && (forall name :: name in next ==>
                   next[name] == Pushed(Before(series, name), PointsIn(s.at, s.interfaces, name)))
    ensures SeriesSoFar(next, rows, i + 1)
  {
    hide PointsIn, Tail, Pushed;
    var s := Rebuilt(rows, i);
    assert s.at == rows[i].at;
    forall name
      ensures name in next <==> AllPoints(rows, name, i + 1) != []
      ensures name in next ==> next[name] == Tail(AllPoints(rows, name, i + 1), CAPACITY)
    {
      PushOntoTail(AllPoints(rows, name, i), PointsIn(s.at, s.interfaces, name));
    }
  }

  lemma PushOntoTail(all: seq<Point>, points: seq<Point>)
    ensures Pushed(Tail(all, CAPACITY), points) == Tail(all + points, CAPACITY)
    ensures all == [] ==> Tail(all, CAPACITY) == []
    ensures all + points == [] <==> all == [] && points == []
  {
    if points == [] {
      assert all + points == all;
    } else {
      TailAppend(all, points, CAPACITY);
    }
  }

  // ---- When a rate is there, and what the rates add up to ----

  /** A rebuilt rate is there exactly when the snapshot right before listed the interface, at a readable and
      earlier time, with a readable counter that is no larger. */
  lemma RateNeedsThePrecedingSnapshot(rows: seq<Snapshot>, i: nat, j: nat, tx: bool)
    requires i < |rows| && j < |rows[i].interfaces|
    ensures var iface := rows[i].interfaces[j];
            ShownRate(Rebuilt(rows, i).interfaces[j], tx).Some? <==>
              && i > 0 && rows[i].atMs.Some? && Bytes(iface, tx).Some?
              && var last := LastListed(rows[i - 1].interfaces, iface.name);
                 && last.Some? && rows[i - 1].atMs.Some? && Bytes(last.value, tx).Some?
                 && rows[i - 1].atMs.value < rows[i].atMs.value
                 && Bytes(last.value, tx).value <= Bytes(iface, tx).value
  {
    if i > 0 {
      var iface := rows[i].interfaces[j];
      var last := LastListed(rows[i - 1].interfaces, iface.name);
      if last.Some? {
        RateMeansBytes(Sample(rows[i - 1].atMs, Bytes(last.value, tx)), Sample(rows[i].atMs, Bytes(iface, tx)));
      }
    }
  }

  lemma {:induction false} LastListedRebuilt(rows: seq<Snapshot>, i: nat, n: nat, name: string)
    requires i < |rows| && n <= |rows[i].interfaces|
    ensures LastListed(Rebuilt(rows, i).interfaces[..n], name).Some? <==> LastListed(rows[i].interfaces[..n], name).Some?
    ensures LastListed(rows[i].interfaces[..n], name).Some? ==>
              LastListed(Rebuilt(rows, i).interfaces[..n], name).value ==
              Reconstructed(LastListed(rows[i].interfaces[..n], name).value, rows[i].atMs,
                            if i == 0 then None else CountersIn(rows[i - 1], name))
  {
    hide CountersIn, Reconstructed;
    if n > 0 {
      LastListedRebuilt(rows, i, n - 1, name);
      assert Rebuilt(rows, i).interfaces[..n][..n - 1] == Rebuilt(rows, i).interfaces[..n - 1];
      assert rows[i].interfaces[..n][..n - 1] == rows[i].interfaces[..n - 1];
      NameStays(rows, i, n - 1);
    }
  }

  lemma NameStays(rows: seq<Snapshot>, i: nat, j: nat)
    requires i < |rows| && j < |rows[i].interfaces|
    ensures Rebuilt(rows, i).interfaces[j].name == rows[i].interfaces[j].name
  {
  }

  /** The rate that snapshot i of the rebuilt history shows for a name. */
  function RateAt(rows: seq<Snapshot>, i: nat, name: string, tx: bool): Option<real>
    requires i < |rows|
  {
    match LastListed(Rebuilt(rows, i).interfaces, name)
    case None => None
    case Some(iface) => ShownRate(iface, tx)
  }

  function ReadingAt(rows: seq<Snapshot>, i: nat, name: string, tx: bool): Sample
    requires i < |rows|
  {
    match LastListed(rows[i].interfaces, name)
    case None => Sample(rows[i].atMs, None)
    case Some(iface) => Sample(rows[i].atMs, Bytes(iface, tx))
  }

  lemma RateBetweenReadings(rows: seq<Snapshot>, i: nat, name: string, tx: bool)
    requires 0 < i < |rows|
    ensures RateAt(rows, i, name, tx) == Rate(ReadingAt(rows, i - 1, name, tx), ReadingAt(rows, i, name, tx))
  {
    hide Elapsed;
    var n := |rows[i].interfaces|;
    LastListedRebuilt(rows, i, n, name);
    assert rows[i].interfaces[..n] == rows[i].interfaces;
    assert Rebuilt(rows, i).interfaces[..n] == Rebuilt(rows, i).interfaces;
  }

  /** Bytes that the rates shown by snapshots lo + 1 to hi stand for. */
  function ShownVolume(rows: seq<Snapshot>, name: string, tx: bool, lo: nat, hi: nat): real
    requires lo <= hi < |rows|
  {
    if lo == hi then 0.0
    else
      ShownVolume(rows, name, tx, lo, hi - 1) +
      if RateAt(rows, hi, name, tx).Some? && rows[hi - 1].atMs.Some? && rows[hi].atMs.Some?
      then RateAt(rows, hi, name, tx).value * ((rows[hi].atMs.value - rows[hi - 1].atMs.value) as real / 1000.0) / 8.0
      else 0.0
  }

  /** Over any stretch of snapshots that all show a rate for the interface, the rates account for exactly the
      bytes between the reading before the stretch and the last reading in it. */
  lemma {:induction false} RebuiltRatesConserveBytes(rows: seq<Snapshot>, name: string, tx: bool, lo: nat, hi: nat)
    requires lo < hi < |rows|
    requires forall i :: lo < i <= hi ==> RateAt(rows, i, name, tx).Some?
    ensures ReadingAt(rows, lo, name, tx).bytes.Some? && ReadingAt(rows, hi, name, tx).bytes.Some?
    ensures ShownVolume(rows, name, tx, lo, hi) ==
            (ReadingAt(rows, hi, name, tx).bytes.value - ReadingAt(rows, lo, name, tx).bytes.value) as real
  {
    hide RateAt, Rate;
    RateBetweenReadings(rows, hi, name, tx);
    RateMeansBytes(ReadingAt(rows, hi - 1, name, tx), ReadingAt(rows, hi, name, tx));
    if lo < hi - 1 {
      RebuiltRatesConserveBytes(rows, name, tx, lo, hi - 1);
    }
  }

  lemma {:induction false} ListingHasItsPoint(at: string, items: seq<Interface>, name: string, j: nat)
    requires j < |items| && items[j].name == name
    ensures var points, k := PointsIn(at, items, name), |PointsIn(at, items[..j], name)|;
            k < |points| && points[k] == Point(at, items[j].rxBitsPerSecond, items[j].txBitsPerSecond)
  {
    if j < |items| - 1 {
      ListingHasItsPoint(at, items[..|items| - 1], name, j);
      assert items[..|items| - 1][..j] == items[..j];
    }
  }

  lemma {:induction false} PointsStay(rows: seq<Snapshot>, name: string, i: nat, n: nat)
    requires i <= n <= |rows|
    ensures |AllPoints(rows, name, i)| <= |AllPoints(rows, name, n)|
    ensures AllPoints(rows, name, n)[..|AllPoints(rows, name, i)|] == AllPoints(rows, name, i)
  {
    hide PointsIn, Rebuilt;
    if i < n {
      PointsStay(rows, name, i, n - 1);
    }
  }

  /** However often a snapshot lists a name, each listing has its point, in order, with the rates that the rebuilt
      snapshot shows for that listing. */
  lemma EveryListingHasItsPoint(rows: seq<Snapshot>, name: string, i: nat, j: nat)
    requires i < |rows| && j < |rows[i].interfaces| && rows[i].interfaces[j].name == name
    ensures var rebuilt, all := Rebuilt(rows, i).interfaces, AllPoints(rows, name, |rows|);
            var k := |AllPoints(rows, name, i)| + |PointsIn(rows[i].at, rebuilt[..j], name)|;
            && k < |all| && all[k].at == rows[i].at
            && all[k].rxBitsPerSecond == rebuilt[j].rxBitsPerSecond && all[k].txBitsPerSecond == rebuilt[j].txBitsPerSecond
  {
    hide PointsIn, Rebuilt, AllPoints;
    RebuiltLength(rows, i);
    NameStays(rows, i, j);
    var rebuilt := Rebuilt(rows, i).interfaces;
    PointsOfNext(rows, name, i);
    ListingHasItsPoint(rows[i].at, rebuilt, name, j);
    PointsStay(rows, name, i + 1, |rows|);
    PrefixPlace(AllPoints(rows, name, |rows|), AllPoints(rows, name, i), PointsIn(rows[i].at, rebuilt, name),
                |PointsIn(rows[i].at, rebuilt[..j], name)|);
  }

  lemma RebuiltLength(rows: seq<Snapshot>, i: nat)
    requires i < |rows|
    ensures |Rebuilt(rows, i).interfaces| == |rows[i].interfaces|
  {
  }

  lemma PointsOfNext(rows: seq<Snapshot>, name: string, i: nat)
    requires i < |rows|
    ensures AllPoints(rows, name, i + 1) ==
            AllPoints(rows, name, i) + PointsIn(rows[i].at, Rebuilt(rows, i).interfaces, name)
  {
    hide PointsIn, Rebuilt;
  }

  lemma PrefixPlace(all: seq<Point>, before: seq<Point>, points: seq<Point>, k: nat)
    requires |before + points| <= |all| && all[..|before + points|] == before + points && k < |points|
    ensures all[|before| + k] == points[k]
  {
    assert all[|before| + k] == all[..|before + points|][|before| + k];
  }

  // ---- What the points of a series add up to ----

  function PointRate(p: Point, tx: bool): Option<real> {
    if tx then p.txBitsPerSecond else p.rxBitsPerSecond
  }

  /** Bytes that points lo + 1 to hi stand for; the last point is of the last snapshot. */
  function SeriesVolume(points: seq<Point>, rows: seq<Snapshot>, tx: bool, lo: nat, hi: nat): real
    requires lo <= hi < |points| <= |rows|
  {
    if lo == hi then 0.0
    else
      var i := |rows| - |points| + hi;
      SeriesVolume(points, rows, tx, lo, hi - 1) +
      if PointRate(points[hi], tx).Some? && rows[i - 1].atMs.Some? && rows[i].atMs.Some?
      then PointRate(points[hi], tx).value * (rows[i].atMs.value - rows[i - 1].atMs.value) as real / 8000.0
      else 0.0
  }

  function CounterAt(rows: seq<Snapshot>, place: seq<int>, tx: bool, i: int): Option<int>
    requires |place| == |rows| && 0 <= i < |rows|
  {
    if !(0 <= place[i] < |rows[i].interfaces|) then None
    else if tx then rows[i].interfaces[place[i]].txByte else rows[i].interfaces[place[i]].rxByte
  }

  lemma PointMeansBytes(p: Point, rows: seq<Snapshot>, name: string, place: seq<int>, tx: bool, i: int)
    requires ListedOnce(rows, name, place) && 0 < i < |rows|
    requires ShowsSnapshot(p, rows, name, place, i) && PointRate(p, tx).Some?
    ensures var before, after := CounterAt(rows, place, tx, i - 1), CounterAt(rows, place, tx, i);
            && before.Some? && after.Some? && rows[i - 1].atMs.Some? && rows[i].atMs.Some?
            && PointRate(p, tx).value * (rows[i].atMs.value - rows[i - 1].atMs.value) as real / 8000.0
               == (after.value - before.value) as real
  {
    assert OnlyAt(rows[i].interfaces, name, place[i]) && OnlyAt(rows[i - 1].interfaces, name, place[i - 1]);
    RateMeansBytes(Sample(rows[i - 1].atMs, CounterAt(rows, place, tx, i - 1)),
                   Sample(rows[i].atMs, CounterAt(rows, place, tx, i)));
    hide Rate, Elapsed, OnlyAt;
  }

  /** Over any stretch of a series in which every point has a rate, each direction accounts for exactly the bytes of
      its own counter between the snapshot before the stretch and the last one in it. */
  lemma {:induction false} SeriesAccountsForBytes(
    points: seq<Point>, rows: seq<Snapshot>, name: string, place: seq<int>, tx: bool, lo: nat, hi: nat)
    requires ListedOnce(rows, name, place) && ShowsSnapshots(points, rows, name, place)
    requires lo < hi < |points| && forall k :: lo < k <= hi ==> PointRate(points[k], tx).Some?
    ensures var first := |rows| - |points|;
            var before, after := CounterAt(rows, place, tx, first + lo), CounterAt(rows, place, tx, first + hi);
            && before.Some? && after.Some?
            && SeriesVolume(points, rows, tx, lo, hi) == (after.value - before.value) as real
  {
    hide ShowsSnapshot, ListedOnce, OnlyAt, CounterAt, PointRate;
    var i := |rows| - |points| + hi;
    PointMeansBytes(points[hi], rows, name, place, tx, i);
    if lo < hi - 1 {
      SeriesAccountsForBytes(points, rows, name, place, tx, lo, hi - 1);
    }
  }

  // ---- The rest of the history ----

  /** Rebuilding a snapshot changes nothing but the rates of its interfaces. */
  lemma RebuiltChangesOnlyRates(rows: seq<Snapshot>, i: nat)
    requires i < |rows|
    ensures var s := Rebuilt(rows, i);
            && s == rows[i].(interfaces := s.interfaces) && |s.interfaces| == |rows[i].interfaces|
            && forall j :: 0 <= j < |s.interfaces| ==>
                 s.interfaces[j] == rows[i].interfaces[j].(rxBitsPerSecond := s.interfaces[j].rxBitsPerSecond,
                                                           txBitsPerSecond := s.interfaces[j].txBitsPerSecond)
  {
    hide CountersIn, Rate;
  }

  lemma {:induction false} KnownIsTheNewest(rows: seq<Snapshot>, section: Section, n: nat, i: nat)
    requires i < n <= |rows| && forall k :: i < k < n ==> SectionOf(rows[k], section) == None
    ensures SectionOf(rows[i], section).Some? ==> Known(rows, section, n) == SectionOf(rows[i], section).value
    ensures SectionOf(rows[i], section) == None ==> Known(rows, section, n) == Known(rows, section, i)
  {
    if i < n - 1 {
      KnownIsTheNewest(rows, section, n - 1, i);
    }
  }

  /** Each section is as the newest snapshot that carries it reports it, and empty if none does. */
  lemma {:induction false} SectionsAreTheNewest(rows: seq<Snapshot>, i: nat)
    requires i < |rows|
    ensures rows[i].vlans.Some? && (forall k :: i < k < |rows| ==> rows[k].vlans == None) ==>
              Known(rows, Vlans, |rows|) == rows[i].vlans.value
    ensures rows[i].bridgeVlans.Some? && (forall k :: i < k < |rows| ==> rows[k].bridgeVlans == None) ==>
              Known(rows, BridgeVlans, |rows|) == rows[i].bridgeVlans.value
    ensures rows[i].sensors.Some? && (forall k :: i < k < |rows| ==> rows[k].sensors == None) ==>
              Known(rows, Sensors, |rows|) == rows[i].sensors.value
  {
    if forall k :: i < k < |rows| ==> rows[k].vlans == None {
      KnownIsTheNewest(rows, Vlans, |rows|, i);
    }
    if forall k :: i < k < |rows| ==> rows[k].bridgeVlans == None {
      KnownIsTheNewest(rows, BridgeVlans, |rows|, i);
    }
    if forall k :: i < k < |rows| ==> rows[k].sensors == None {
      KnownIsTheNewest(rows, Sensors, |rows|, i);
    }
  }

  lemma {:induction false} UnseenSectionsAreEmpty(rows: seq<Snapshot>, section: Section, n: nat)
    requires n <= |rows| && forall k :: 0 <= k < n ==> SectionOf(rows[k], section) == None
    ensures Known(rows, section, n) == []
  {
    if n > 0 {
      UnseenSectionsAreEmpty(rows, section, n - 1);
    }
  }
}
