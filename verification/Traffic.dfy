/** The live traffic history of the selected sources of one firewall. */
module Traffic {
  import opened Options
  import opened CounterRates

  const CAPACITY: nat := 720
  const MAX_SAFE_INTEGER := 9_007_199_254_740_991

  /** Its key text lists the kind and the names, so equal keys are equal sources. */
  datatype Source = Interface(name: string) | Wireguard(interfaceName: string, name: string) | Openvpn(name: string)

  datatype Rates = Rates(rx: seq<Option<real>>, tx: seq<Option<real>>)
  datatype Baseline = Baseline(atMs: int, rxBytes: Option<int>, txBytes: Option<int>)
  datatype History = History(
    selected: seq<Source>, times: seq<real>, rates: map<Source, Rates>, baselines: map<Source, Baseline>)

  const EMPTY := History([], [], map[], map[])

  // ---- Reading counters out of a snapshot ----

  datatype Named = Named(name: string, rxBytes: Option<real>, txBytes: Option<real>)
  datatype WireguardInterface = WireguardInterface(name: string, peers: seq<Named>)

  /** A failed section, or one without data, is None. */
  datatype Snapshot = Snapshot(
    at: Option<int>,
    interfaces: Option<seq<Named>>,
    wireguard: Option<seq<WireguardInterface>>,
    openvpn: Option<seq<Named>>)

  datatype Counters = Counters(rxBytes: Option<int>, txBytes: Option<int>)

  /** Only non-negative integers that a double holds exactly count. */
  function ValidCounter(value: Option<real>): (count: Option<int>)
    ensures forall n: int :: count == Some(n) <==> value == Some(n as real) && 0 <= n <= 9_007_199_254_740_991
  {
    if value.Some? && value.value == value.value.Floor as real && 0 <= value.value.Floor <= MAX_SAFE_INTEGER
    then Some(value.value.Floor) else None
  }

  /** The counters of the first entry of that name. */
  function Find(items: seq<Named>, name: string): Option<Counters> {
    if items == [] then None
    else if items[0].name == name then Some(Counters(ValidCounter(items[0].rxBytes), ValidCounter(items[0].txBytes)))
    else Find(items[1..], name)
  }

  function FindInterface(items: seq<WireguardInterface>, name: string): Option<WireguardInterface> {
    if items == [] then None else if items[0].name == name then Some(items[0]) else FindInterface(items[1..], name)
  }

  function CountersOf(source: Source, s: Snapshot): Option<Counters> {
    match source
    case Interface(name) => if s.interfaces == None then None else Find(s.interfaces.value, name)
    case Wireguard(interfaceName, name) =>
      if s.wireguard == None then None
      else
        var iface := FindInterface(s.wireguard.value, interfaceName);
        if iface == None then None else Find(iface.value.peers, name)
    case Openvpn(name) => if s.openvpn == None then None else Find(s.openvpn.value, name)
  }

  /** Entry k is the first of that name. */
  predicate FirstNamed(items: seq<Named>, name: string, k: int) {
    0 <= k < |items| && items[k].name == name && forall j :: 0 <= j < k ==> items[j].name != name
  }

  predicate FirstInterface(items: seq<WireguardInterface>, name: string, k: int) {
    0 <= k < |items| && items[k].name == name && forall j :: 0 <= j < k ==> items[j].name != name
  }

  /** The section that a source belongs to lists it first as that entry. */
  ghost predicate Lists(s: Snapshot, source: Source, entry: Named) {
    match source
    case Interface(name) =>
      s.interfaces.Some? && exists k :: FirstNamed(s.interfaces.value, name, k) && s.interfaces.value[k] == entry
    case Wireguard(interfaceName, name) =>
      s.wireguard.Some? && exists i, k ::
        && FirstInterface(s.wireguard.value, interfaceName, i)
        && FirstNamed(s.wireguard.value[i].peers, name, k) && s.wireguard.value[i].peers[k] == entry
    case Openvpn(name) =>
      s.openvpn.Some? && exists k :: FirstNamed(s.openvpn.value, name, k) && s.openvpn.value[k] == entry
  }

  lemma {:induction false} FindInterfaceTakesTheFirst(items: seq<WireguardInterface>, name: string)
    ensures match FindInterface(items, name)
            case None => forall k :: 0 <= k < |items| ==> items[k].name != name
            case Some(iface) => exists k :: FirstInterface(items, name, k) && items[k] == iface
  {
    if items != [] {
      FindInterfaceTakesTheFirst(items[1..], name);
      assert forall k :: 0 <= k < |items| ==> items[k] == if k == 0 then items[0] else items[1..][k - 1];
      if items[0].name == name {
        assert FirstInterface(items, name, 0);
      } else if FindInterface(items, name).Some? {
        var k :| FirstInterface(items[1..], name, k) && items[1..][k] == FindInterface(items, name).value;
        assert FirstInterface(items, name, k + 1);
      }
    }
  }

  lemma {:induction false} FindReadsTheFirst(items: seq<Named>, name: string)
    ensures match Find(items, name)
            case None => forall k :: 0 <= k < |items| ==> items[k].name != name
            case Some(c) => exists k :: FirstNamed(items, name, k)
                                        && c == Counters(ValidCounter(items[k].rxBytes), ValidCounter(items[k].txBytes))
  {
    hide ValidCounter;
    if items != [] {
      FindReadsTheFirst(items[1..], name);
      assert forall k :: 0 <= k < |items| ==> items[k] == if k == 0 then items[0] else items[1..][k - 1];
      if items[0].name == name {
        assert FirstNamed(items, name, 0);
      } else if Find(items, name).Some? {
        var k :| FirstNamed(items[1..], name, k)
                 && Find(items, name).value == Counters(ValidCounter(items[1..][k].rxBytes), ValidCounter(items[1..][k].txBytes));
        assert FirstNamed(items, name, k + 1);
      }
    }
  }

  lemma PeerIsRead(s: Snapshot, interfaceName: string, name: string)
    requires s.wireguard.Some? && FindInterface(s.wireguard.value, interfaceName).Some?
    ensures var source := Wireguard(interfaceName, name);
            && (forall entry :: Lists(s, source, entry) ==>
                  CountersOf(source, s) == Some(Counters(ValidCounter(entry.rxBytes), ValidCounter(entry.txBytes))))
            && (CountersOf(source, s) == None <==> forall entry :: !Lists(s, source, entry))
  {
    hide ValidCounter, Find, FindInterface;
    var items := s.wireguard.value;
    FindInterfaceTakesTheFirst(items, interfaceName);
    var i :| FirstInterface(items, interfaceName, i) && items[i] == FindInterface(items, interfaceName).value;
    assert forall i' :: FirstInterface(items, interfaceName, i') ==> i' == i;
    FindReadsTheFirst(items[i].peers, name);
    if Find(items[i].peers, name).Some? {
      var k :| FirstNamed(items[i].peers, name, k);
      assert Lists(s, Wireguard(interfaceName, name), items[i].peers[k]);
    }
  }

  /** A source reads the first entry of its name in its own section, received as received and sent as sent, and
      nothing exactly when that section is missing or does not list it. */
  lemma CountersReadTheirEntry(s: Snapshot, source: Source)
    ensures forall entry :: Lists(s, source, entry) ==>
              CountersOf(source, s) == Some(Counters(ValidCounter(entry.rxBytes), ValidCounter(entry.txBytes)))
    ensures CountersOf(source, s) == None <==> forall entry :: !Lists(s, source, entry)
  {
    hide ValidCounter, Find, FindInterface;
    match source {
      case Interface(name) =>
        if s.interfaces.Some? {
          FindReadsTheFirst(s.interfaces.value, name);
          if Find(s.interfaces.value, name).Some? {
            var k :| FirstNamed(s.interfaces.value, name, k);
            assert Lists(s, Interface(name), s.interfaces.value[k]);
          }
        }
      case Wireguard(interfaceName, name) =>
        if s.wireguard.Some? {
          FindInterfaceTakesTheFirst(s.wireguard.value, interfaceName);
          if FindInterface(s.wireguard.value, interfaceName).Some? {
            PeerIsRead(s, interfaceName, name);
          }
        }
      case Openvpn(name) =>
        if s.openvpn.Some? {
          FindReadsTheFirst(s.openvpn.value, name);
          if Find(s.openvpn.value, name).Some? {
            var k :| FirstNamed(s.openvpn.value, name, k);
            assert Lists(s, Openvpn(name), s.openvpn.value[k]);
          }
        }
    }
  }

  // ---- Toggling a source ----

  datatype Reading = Reading(at: Option<int>, rxBytes: Option<real>, txBytes: Option<real>)

  function Nulls(n: nat): seq<Option<real>> {
    seq(n, _ => None)
  }

  function Toggle(h: History, source: Source, baseline: Option<Reading>): History {
    if source in h.selected then
      var selected := Drop(h.selected, source);
      if selected == [] then EMPTY
      else History(selected, h.times, h.rates - {source}, h.baselines - {source})
    else
      History(h.selected + [source], h.times,
              h.rates[source := Rates(Nulls(|h.times|), Nulls(|h.times|))],
              if baseline.Some? && baseline.value.at.Some?
              then h.baselines[source := Baseline(baseline.value.at.value, ValidCounter(baseline.value.rxBytes), ValidCounter(baseline.value.txBytes))]
              else h.baselines)
  }

  /** Removes the first occurrence. */
  function Drop(selected: seq<Source>, source: Source): seq<Source> {
    if selected == [] then []
    else if selected[0] == source then selected[1..]
    else [selected[0]] + Drop(selected[1..], source)
  }

  // ---- Appending a snapshot ----

  function Accepts(h: History, s: Snapshot): bool {
    h.selected != [] && s.at.Some? && (h.times == [] || s.at.value as real > h.times[|h.times| - 1] * 1000.0)
  }

  predicate Keyed(h: History) {
    forall k :: k in h.selected ==> k in h.rates
  }

  function Rx(h: History, source: Source): Sample {
    if source in h.baselines then Sample(Some(h.baselines[source].atMs), h.baselines[source].rxBytes) else Sample(None, None)
  }

  function Tx(h: History, source: Source): Sample {
    if source in h.baselines then Sample(Some(h.baselines[source].atMs), h.baselines[source].txBytes) else Sample(None, None)
  }

  function NewBaseline(source: Source, s: Snapshot, atMs: int): Baseline {
    var c := CountersOf(source, s);
    if c == None then Baseline(atMs, None, None) else Baseline(atMs, c.value.rxBytes, c.value.txBytes)
  }

  function NewBaselines(selected: seq<Source>, s: Snapshot, atMs: int): map<Source, Baseline> {
    map k | k in selected :: NewBaseline(k, s, atMs)
  }

  /** The series of one source after a snapshot that reads b for it. */
  function NextRates(h: History, source: Source, b: Baseline, cap: nat): Rates
    requires source in h.rates
  {
    Rates(Shift(h.rates[source].rx + [Rate(Rx(h, source), Sample(Some(b.atMs), b.rxBytes))], |h.times| + 1, cap),
          Shift(h.rates[source].tx + [Rate(Tx(h, source), Sample(Some(b.atMs), b.txBytes))], |h.times| + 1, cap))
  }

  /** cap is the capacity; the view's is 720. */
  function AppendCapped(h: History, s: Snapshot, cap: nat): History
    requires Keyed(h)
  {
    if !Accepts(h, s) then h
    else
      var atMs := s.at.value;
      History(h.selected, Tail(h.times + [atMs as real / 1000.0], cap),
              map k | k in h.selected :: NextRates(h, k, NewBaseline(k, s, atMs), cap),
              NewBaselines(h.selected, s, atMs))
  }

  /** Drops as many leading entries as the n times lose to the cap. */
  function Shift<T>(xs: seq<T>, n: nat, cap: nat): seq<T> {
    if n <= cap then xs else SliceFrom(xs, n - cap)
  }

  function SliceFrom<T>(xs: seq<T>, i: nat): seq<T> {
    if i >= |xs| then [] else xs[i..]
  }

  function Append(h: History, s: Snapshot): History
    requires Keyed(h)
  {
    AppendCapped(h, s, CAPACITY)
  }

  method AppendSnapshot(h: History, s: Snapshot) returns (next: History)
    requires Keyed(h)
    ensures next == Append(h, s)
  {
    hide AppendCapped, NewBaseline, CountersOf, SliceFrom, Rate, Rx, Tx, Find, FindInterface, ValidCounter, Elapsed;
    AppendRejects(h, s, CAPACITY);
    if |h.selected| == 0 {
      return h;
    }
    if s.at == None || (h.times != [] && s.at.value as real <= h.times[|h.times| - 1] * 1000.0) {
      return h;
    }
    var atMs := s.at.value;
    var times := h.times + [atMs as real / 1000.0];
    var overflow := if |times| > CAPACITY then |times| - CAPACITY else 0;
    var rates: map<Source, Rates>, baselines: map<Source, Baseline> := map[], map[];
    for i := 0 to |h.selected|
      invariant rates.Keys == baselines.Keys == set k | k in h.selected[..i]
      invariant forall k :: k in rates ==>
                  baselines[k] == NewBaseline(k, s, atMs) && rates[k] == NextRates(h, k, baselines[k], CAPACITY)
    {
      hide Tail, Accepts, NextRates, Shift;
      var source := h.selected[i];
      var b := NewBaseline(source, s, atMs);
      var rx := h.rates[source].rx + [Rate(Rx(h, source), Sample(Some(atMs), b.rxBytes))];
      var tx := h.rates[source].tx + [Rate(Tx(h, source), Sample(Some(atMs), b.txBytes))];
      NewBaselineTime(source, s, atMs);
      SlicesAreNextRates(h, source, b, overflow);
      rates := rates[source := Rates(if overflow == 0 then rx else SliceFrom(rx, overflow),
                                     if overflow == 0 then tx else SliceFrom(tx, overflow))];
      baselines := baselines[source := b];
      assert h.selected[..i + 1] == h.selected[..i] + [source];
    }
    assert h.selected[..|h.selected|] == h.selected;
    AppendIs(h, s, rates, baselines, CAPACITY);
    next := History(h.selected, if overflow == 0 then times else times[overflow..], rates, baselines);
  }

  lemma AppendRejects(h: History, s: Snapshot, cap: nat)
    requires Keyed(h)
    ensures !Accepts(h, s) ==> AppendCapped(h, s, cap) == h
  {
  }

  lemma AppendIs(h: History, s: Snapshot, rates: map<Source, Rates>, baselines: map<Source, Baseline>, cap: nat)
    requires Keyed(h) && Accepts(h, s)
    requires rates.Keys == baselines.Keys == set k | k in h.selected
    requires forall k :: k in rates ==>
               baselines[k] == NewBaseline(k, s, s.at.value) && rates[k] == NextRates(h, k, baselines[k], cap)
    ensures AppendCapped(h, s, cap) ==
            History(h.selected, Tail(h.times + [s.at.value as real / 1000.0], cap), rates, baselines)
  {
    hide NewBaseline, NextRates, Accepts, Tail;
  }

  lemma SlicesAreNextRates(h: History, source: Source, b: Baseline, overflow: nat)
    requires source in h.rates && overflow == if |h.times| + 1 > CAPACITY then |h.times| + 1 - CAPACITY else 0
    ensures var rx := h.rates[source].rx + [Rate(Rx(h, source), Sample(Some(b.atMs), b.rxBytes))];
            var tx := h.rates[source].tx + [Rate(Tx(h, source), Sample(Some(b.atMs), b.txBytes))];
            NextRates(h, source, b, CAPACITY) == Rates(if overflow == 0 then rx else SliceFrom(rx, overflow),
                                                       if overflow == 0 then tx else SliceFrom(tx, overflow))
  {
    hide Rate, Rx, Tx, SliceFrom;
  }

  lemma NewBaselineTime(source: Source, s: Snapshot, atMs: int)
    ensures NewBaseline(source, s, atMs).atMs == atMs
  {
  }

  // ---- Every reachable history ----

  datatype Op = ToggleOp(source: Source, baseline: Option<Reading>) | AppendOp(snapshot: Snapshot)

  function Step(h: History, op: Op, cap: nat): History {
    match op
    case ToggleOp(source, baseline) => Toggle(h, source, baseline)
    case AppendOp(s) => if Keyed(h) then AppendCapped(h, s, cap) else h
  }

  function Run(ops: seq<Op>, cap: nat): History {
    if ops == [] then EMPTY else Step(Run(ops[..|ops| - 1], cap), ops[|ops| - 1], cap)
  }

  predicate Distinct(selected: seq<Source>) {
    forall i, j :: 0 <= i < j < |selected| ==> selected[i] != selected[j]
  }

  ghost predicate Known(xs: seq<Option<real>>) {
    forall i :: 0 <= i < |xs| && xs[i].Some? ==> xs[i].value >= 0.0
  }

  ghost predicate Inv(h: History, cap: nat) {
    && Distinct(h.selected)
    && h.rates.Keys == (set k | k in h.selected)
    && h.baselines.Keys <= h.rates.Keys
    && |h.times| <= cap
    && Ascending(h.times)
    && (forall k :: k in h.rates ==>
          && |h.rates[k].rx| == |h.rates[k].tx| == |h.times|
          && Known(h.rates[k].rx) && Known(h.rates[k].tx))
    && (h.selected == [] ==> h == EMPTY)
  }

  lemma {:induction false} DropProperties(selected: seq<Source>, source: Source)
    requires Distinct(selected) && source in selected
    ensures Distinct(Drop(selected, source))
    ensures forall k :: k in Drop(selected, source) <==> k in selected && k != source
  {
    if selected[0] == source {
      assert forall k :: k in selected <==> k == selected[0] || k in selected[1..];
    } else {
      DropProperties(selected[1..], source);
      var rest := Drop(selected[1..], source);
      assert selected[0] !in rest;
      assert forall i :: 0 < i < |[selected[0]] + rest| ==> ([selected[0]] + rest)[i] in rest;
      assert forall k :: k in [selected[0]] + rest <==> k == selected[0] || k in rest;
      assert forall k :: k in selected <==> k == selected[0] || k in selected[1..];
    }
  }

  lemma DeselectKeepsInv(h: History, source: Source, baseline: Option<Reading>, cap: nat)
    requires Inv(h, cap) && source in h.selected
    ensures Inv(Toggle(h, source, baseline), cap)
  {
    assert Ascending([]);
    hide Known, Ascending, ValidCounter, Nulls, Drop;
    DropProperties(h.selected, source);
  }

  lemma SelectedOneMore(selected: seq<Source>, source: Source)
    requires Distinct(selected) && source !in selected
    ensures Distinct(selected + [source])
    ensures (set k | k in selected + [source]) == (set k | k in selected) + {source}
  {
  }

  lemma SelectKeepsInv(h: History, source: Source, baseline: Option<Reading>, cap: nat)
    requires Inv(h, cap) && source !in h.selected
    ensures Inv(Toggle(h, source, baseline), cap)
  {
    SelectedOneMore(h.selected, source);
    assert |Nulls(|h.times|)| == |h.times| && Known(Nulls(|h.times|));
    hide Known, Ascending, ValidCounter, Nulls, Distinct;
  }

  lemma ToggleKeepsInv(h: History, source: Source, baseline: Option<Reading>, cap: nat)
    requires Inv(h, cap)
    ensures Inv(Toggle(h, source, baseline), cap)
  {
    hide Inv, Toggle;
    if source in h.selected {
      DeselectKeepsInv(h, source, baseline, cap);
    } else {
      SelectKeepsInv(h, source, baseline, cap);
    }
  }

  lemma ShiftKeepsKnown(xs: seq<Option<real>>, previous: Sample, current: Sample, n: nat, cap: nat)
    requires Known(xs)
    ensures Known(Shift(xs + [Rate(previous, current)], n, cap))
  {
    RateMeansBytes(previous, current);
  }

  predicate Ascending(times: seq<real>) {
    forall i, j :: 0 <= i < j < |times| ==> times[i] < times[j]
  }

  lemma LaterTime(times: seq<real>, atMs: int, cap: nat)
    requires Ascending(times)
    requires times == [] || atMs as real > times[|times| - 1] * 1000.0
    ensures Ascending(Tail(times + [atMs as real / 1000.0], cap))
  {
    assert times != [] ==> times[|times| - 1] < atMs as real / 1000.0;
  }

  lemma SeriesKeepsShape(xs: seq<Option<real>>, previous: Sample, current: Sample, times: seq<real>, time: real, cap: nat)
    requires Known(xs) && |xs| == |times| && cap > 0
    ensures var next := Shift(xs + [Rate(previous, current)], |times| + 1, cap);
            Known(next) && |next| == |Tail(times + [time], cap)|
  {
    ShiftKeepsKnown(xs, previous, current, |times| + 1, cap);
  }

  lemma NextRatesKeepShape(h: History, source: Source, b: Baseline, time: real, cap: nat)
    requires Inv(h, cap) && cap > 0 && source in h.rates
    ensures var r := NextRates(h, source, b, cap);
            |r.rx| == |r.tx| == |Tail(h.times + [time], cap)| && Known(r.rx) && Known(r.tx)
  {
    hide Rate, Known, Tail, Shift, Ascending, Distinct, Rx, Tx;
    SeriesKeepsShape(h.rates[source].rx, Rx(h, source), Sample(Some(b.atMs), b.rxBytes), h.times, time, cap);
    SeriesKeepsShape(h.rates[source].tx, Tx(h, source), Sample(Some(b.atMs), b.txBytes), h.times, time, cap);
  }

  lemma AcceptedKeepsInv(h: History, s: Snapshot, cap: nat)
    requires Inv(h, cap) && cap > 0 && Accepts(h, s)
    requires var times := Tail(h.times + [s.at.value as real / 1000.0], cap);
             && Ascending(times) && |times| <= cap
             && forall k :: k in h.rates ==>
                  var r := NextRates(h, k, NewBaseline(k, s, s.at.value), cap);
                  |r.rx| == |r.tx| == |times| && Known(r.rx) && Known(r.tx)
    ensures Inv(AppendCapped(h, s, cap), cap)
  {
    hide Known, Tail, Ascending, NewBaseline, NextRates, Distinct;
  }

  lemma AppendKeepsInv(h: History, s: Snapshot, cap: nat)
    requires Inv(h, cap) && cap > 0
    ensures Inv(AppendCapped(h, s, cap), cap)
  {
    if Accepts(h, s) {
      hide Known, Tail, Ascending, NewBaseline, NextRates, Distinct, AppendCapped;
      var time := s.at.value as real / 1000.0;
      LaterTime(h.times, s.at.value, cap);
      TailLength(h.times + [time], cap);
      forall k | k in h.rates
        ensures var r := NextRates(h, k, NewBaseline(k, s, s.at.value), cap);
                |r.rx| == |r.tx| == |Tail(h.times + [time], cap)| && Known(r.rx) && Known(r.tx)
      {
        NextRatesKeepShape(h, k, NewBaseline(k, s, s.at.value), time, cap);
      }
      AcceptedKeepsInv(h, s, cap);
    }
  }

  lemma TailLength<T>(xs: seq<T>, n: nat)
    ensures |Tail(xs, n)| == if |xs| <= n then |xs| else n
  {
  }

  /** The shape of every history that toggles and appends can reach. */
  lemma {:induction false} ReachableHistories(ops: seq<Op>, cap: nat)
    requires cap > 0
    ensures Inv(Run(ops, cap), cap)
  {
    if ops != [] {
      ReachableHistories(ops[..|ops| - 1], cap);
      match ops[|ops| - 1] {
        case ToggleOp(source, baseline) => ToggleKeepsInv(Run(ops[..|ops| - 1], cap), source, baseline, cap);
        case AppendOp(s) => AppendKeepsInv(Run(ops[..|ops| - 1], cap), s, cap);
      }
    }
  }

  lemma {:induction false} DropLast(selected: seq<Source>, source: Source)
    requires source !in selected
    ensures Drop(selected + [source], source) == selected
  {
    if selected != [] {
      assert (selected + [source])[1..] == selected[1..] + [source];
      DropLast(selected[1..], source);
    }
  }

  /** Selecting a source and deselecting it again restores the history. */
  lemma ToggleTwiceRestores(ops: seq<Op>, cap: nat, source: Source, on: Option<Reading>, off: Option<Reading>)
    requires cap > 0 && source !in Run(ops, cap).selected
    ensures Toggle(Toggle(Run(ops, cap), source, on), source, off) == Run(ops, cap)
  {
    var h := Run(ops, cap);
    ReachableHistories(ops, cap);
    DropLast(h.selected, source);
    hide Run, Known, Ascending, ValidCounter, Drop, Distinct, Nulls;
    var h' := Toggle(h, source, on);
    assert source in h'.selected;
    Undone(h.rates, source, h'.rates[source]);
    Undone(h.baselines, source, if source in h'.baselines then h'.baselines[source] else Baseline(0, None, None));
  }

  lemma Undone<T>(m: map<Source, T>, source: Source, v: T)
    requires source !in m
    ensures m[source := v] - {source} == m && m - {source} == m
  {
  }

  /** A newly selected source starts with nothing shown, from the baseline if that has a time, and disturbs no other. */
  lemma SelectingStartsFromBaseline(h: History, source: Source, baseline: Option<Reading>, other: Source, cap: nat)
    requires Inv(h, cap) && source !in h.selected
    ensures var h' := Toggle(h, source, baseline);
            && h'.selected == h.selected + [source] && source in h'.rates
            && |h'.rates[source].rx| == |h'.rates[source].tx| == |h.times|
            && (forall i :: 0 <= i < |h.times| ==> h'.rates[source].rx[i] == None && h'.rates[source].tx[i] == None)
            && LastReading(h', source, false) == BaselineSample(baseline, false)
            && LastReading(h', source, true) == BaselineSample(baseline, true)
            && (other in h.rates ==>
                  && other in h'.rates && h'.rates[other] == h.rates[other]
                  && LastReading(h', other, false) == LastReading(h, other, false)
                  && LastReading(h', other, true) == LastReading(h, other, true))
  {
    hide ValidCounter, Known, Ascending;
  }

  lemma {:induction false} DropRemovesOne(selected: seq<Source>, source: Source, i: nat)
    requires Distinct(selected) && i < |selected| && selected[i] == source
    ensures Drop(selected, source) == selected[..i] + selected[i + 1..]
  {
    if i > 0 {
      DropRemovesOne(selected[1..], source, i - 1);
      assert selected[1..][..i - 1] == selected[1..i] && selected[1..][i..] == selected[i + 1..];
    }
  }

  /** Deselecting takes away that source alone, with its series and its baseline; the last one takes the times too. */
  lemma DeselectingForgetsOneSource(h: History, baseline: Option<Reading>, i: nat, other: Source, cap: nat)
    requires Inv(h, cap) && i < |h.selected|
    ensures var source, h' := h.selected[i], Toggle(h, h.selected[i], baseline);
            && h'.selected == h.selected[..i] + h.selected[i + 1..]
            && h'.times == (if |h.selected| == 1 then [] else h.times)
            && source !in h'.rates && source !in h'.baselines
            && (other in h.rates && other != source ==>
                  && other in h'.rates && h'.rates[other] == h.rates[other]
                  && LastReading(h', other, false) == LastReading(h, other, false)
                  && LastReading(h', other, true) == LastReading(h, other, true))
  {
    DropRemovesOne(h.selected, h.selected[i], i);
    hide Known, Ascending, Drop, Distinct;
    if |h.selected| == 1 {
      assert h.selected == [h.selected[i]];
    } else {
      assert |h.selected[..i] + h.selected[i + 1..]| == |h.selected| - 1;
    }
  }

  function BaselineSample(baseline: Option<Reading>, tx: bool): Sample {
    if baseline == None || baseline.value.at == None then Sample(None, None)
    else Sample(baseline.value.at, ValidCounter(if tx then baseline.value.txBytes else baseline.value.rxBytes))
  }

  // ---- Capping keeps a suffix ----

  /** c is u with all but the last cap samples dropped. */
  ghost predicate IsCapped(c: History, u: History, cap: nat) {
    && c.selected == u.selected && c.baselines == u.baselines
    && c.times == Tail(u.times, cap)
    && c.rates.Keys == u.rates.Keys
    && forall k :: k in c.rates ==>
         CappedRates(c.rates[k], u.rates[k], |u.times|, cap)
  }

  ghost predicate CappedRates(c: Rates, u: Rates, n: nat, cap: nat) {
    && c.rx == Tail(u.rx, cap) && c.tx == Tail(u.tx, cap)
    && |u.rx| == |u.tx| == n
  }

  lemma ToggleKeepsCapped(c: History, u: History, cap: nat, source: Source, baseline: Option<Reading>)
    requires IsCapped(c, u, cap)
    ensures IsCapped(Toggle(c, source, baseline), Toggle(u, source, baseline), cap)
  {
    hide Tail, Nulls, ValidCounter, Drop;
    NullsTail(u.times, cap);
    TailOfEmpty<real>(cap);
  }

  lemma TailOfEmpty<T>(cap: nat)
    ensures Tail<T>([], cap) == []
  {
  }

  lemma NullsTail(times: seq<real>, cap: nat)
    ensures Tail(Nulls(|times|), cap) == Nulls(|Tail(times, cap)|) && |Nulls(|times|)| == |times|
  {
  }

  lemma NextRatesKeepCapped(c: History, u: History, k: Source, b: Baseline, cap: nat)
    requires IsCapped(c, u, cap) && cap > 0 && k in c.rates
    ensures CappedRates(NextRates(c, k, b, cap), NextRates(u, k, b, |u.times| + 1), |u.times| + 1, cap)
  {
    hide Rate, Tail, Shift;
    TailLength(u.rates[k].rx, cap);
    TailLength(u.rates[k].tx, cap);
    TailLength(u.times, cap);
    ShiftIsTail(u.rates[k].rx, Rate(Rx(u, k), Sample(Some(b.atMs), b.rxBytes)), cap);
    ShiftIsTail(u.rates[k].tx, Rate(Tx(u, k), Sample(Some(b.atMs), b.txBytes)), cap);
  }

  lemma SameAcceptance(c: History, u: History, s: Snapshot, cap: nat)
    requires c.selected == u.selected && c.times == Tail(u.times, cap) && cap > 0
    ensures Accepts(c, s) == Accepts(u, s)
  {
  }

  lemma AppendKeepsCapped(c: History, u: History, cap: nat, s: Snapshot)
    requires IsCapped(c, u, cap) && cap > 0 && Keyed(c) && Keyed(u)
    ensures IsCapped(AppendCapped(c, s, cap), AppendCapped(u, s, |u.times| + 1), cap)
  {
    SameAcceptance(c, u, s, cap);
    if Accepts(c, s) {
      hide Tail, Accepts, AppendCapped, NewBaselines, Keyed;
      AppendFields(c, s, cap);
      AppendFields(u, s, |u.times| + 1);
      TailAppend(u.times, [s.at.value as real / 1000.0], cap);
      TailOfLonger(u.times + [s.at.value as real / 1000.0]);
      forall k | k in c.selected && k in c.rates && k in u.rates
        ensures var b := NewBaseline(k, s, s.at.value);
                CappedRates(NextRates(c, k, b, cap), NextRates(u, k, b, |u.times| + 1), |u.times| + 1, cap)
      {
        NextRatesKeepCapped(c, u, k, NewBaseline(k, s, s.at.value), cap);
      }
    } else {
      hide Tail, Accepts, AppendCapped;
      AppendRejects(c, s, cap);
      AppendRejects(u, s, |u.times| + 1);
    }
  }

  lemma AppendFields(h: History, s: Snapshot, cap: nat)
    requires Keyed(h) && Accepts(h, s)
    ensures var next := AppendCapped(h, s, cap);
            && next.selected == h.selected
            && next.times == Tail(h.times + [s.at.value as real / 1000.0], cap)
            && next.baselines == NewBaselines(h.selected, s, s.at.value)
            && next.rates.Keys == (set k | k in h.selected)
            && forall k :: k in next.rates ==> next.rates[k] == NextRates(h, k, NewBaseline(k, s, s.at.value), cap)
  {
    hide NewBaseline, NewBaselines, NextRates, Accepts, Tail;
  }

  lemma TailOfLonger<T>(xs: seq<T>)
    ensures Tail(xs, |xs|) == xs
  {
  }

  lemma ShiftIsTail(xs: seq<Option<real>>, x: Option<real>, cap: nat)
    requires cap > 0
    ensures Shift(Tail(xs, cap) + [x], |Tail(xs, cap)| + 1, cap) == Tail(xs + [x], cap)
    ensures Shift(xs + [x], |xs| + 1, |xs| + 1) == xs + [x]
  {
  }

  /** One session of the view beside one whose arrays are never shortened. */
  function RunUncapped(ops: seq<Op>): History {
    if ops == [] then EMPTY
    else
      var h := RunUncapped(ops[..|ops| - 1]);
      Step(h, ops[|ops| - 1], |h.times| + 1)
  }

  /** Every capped series is the suffix of the uncapped one, after any toggles and appends. */
  lemma {:induction false} CappedHistoriesAreSuffixes(ops: seq<Op>, cap: nat)
    requires cap > 0
    ensures IsCapped(Run(ops, cap), RunUncapped(ops), cap)
  {
    if ops != [] {
      var init, op := ops[..|ops| - 1], ops[|ops| - 1];
      CappedHistoriesAreSuffixes(init, cap);
      ReachableHistories(init, cap);
      match op {
        case ToggleOp(source, baseline) => ToggleKeepsCapped(Run(init, cap), RunUncapped(init), cap, source, baseline);
        case AppendOp(s) => AppendKeepsCapped(Run(init, cap), RunUncapped(init), cap, s);
      }
    }
  }

  // ---- Bytes ----

  function LastReading(h: History, source: Source, tx: bool): Sample {
    if tx then Tx(h, source) else Rx(h, source)
  }

  function Shown(h: History, source: Source, tx: bool): seq<Option<real>>
    requires source in h.rates
  {
    if tx then h.rates[source].tx else h.rates[source].rx
  }

  /** What a snapshot says about one counter of a source. */
  function Read(s: Snapshot, source: Source, tx: bool): Sample {
    var c := CountersOf(source, s);
    Sample(s.at, if c == None then None else if tx then c.value.txBytes else c.value.rxBytes)
  }

  /** The reading has the snapshot's time, and the counter of the entry that the snapshot lists for the source; with
      no such entry there is no counter. */
  ghost predicate ReadsEntry(r: Sample, s: Snapshot, source: Source, tx: bool) {
    && r.atMs == s.at
    && (forall entry :: Lists(s, source, entry) ==> r.bytes == ValidCounter(if tx then entry.txBytes else entry.rxBytes))
    && ((forall entry :: !Lists(s, source, entry)) ==> r.bytes == None)
  }

  lemma ReadIsOfTheEntry(s: Snapshot, source: Source, tx: bool)
    ensures ReadsEntry(Read(s, source, tx), s, source, tx)
  {
    hide CountersOf, Lists, ValidCounter;
    CountersReadTheirEntry(s, source);
  }

  /** The next rate on display is the one between the source's last reading and the snapshot's, which is that of the
      entry the snapshot lists for it; the next time is the snapshot's, in seconds. */
  lemma AppendShowsRate(h: History, s: Snapshot, source: Source, tx: bool)
    requires Inv(h, CAPACITY) && source in h.selected && Accepts(h, s)
    ensures var next := Append(h, s);
            && next.selected == h.selected && source in next.rates
            && ReadsEntry(LastReading(next, source, tx), s, source, tx)
            && LastReading(next, source, tx) == Read(s, source, tx)
            && Shown(next, source, tx) != []
            && Shown(next, source, tx)[|Shown(next, source, tx)| - 1] ==
               Rate(LastReading(h, source, tx), LastReading(next, source, tx))
            && next.times != [] && next.times[|next.times| - 1] * 1000.0 == s.at.value as real
  {
    ReadIsOfTheEntry(s, source, tx);
    hide Rate, CountersOf, Shift, Ascending, Known, Distinct, ReadsEntry;
    var b := NewBaseline(source, s, s.at.value);
    LastOfShift(h.rates[source].rx, Rate(Rx(h, source), Sample(Some(b.atMs), b.rxBytes)), |h.times| + 1, CAPACITY);
    LastOfShift(h.rates[source].tx, Rate(Tx(h, source), Sample(Some(b.atMs), b.txBytes)), |h.times| + 1, CAPACITY);
  }

  /** A snapshot changes a history exactly when something is selected and its time can be read and is later than the
      newest one. */
  lemma LaterSnapshotsAreAppended(h: History, s: Snapshot)
    requires Inv(h, CAPACITY)
    ensures Keyed(h)
    ensures Append(h, s) != h <==>
              && h.selected != [] && s.at.Some?
              && (h.times == [] || h.times[|h.times| - 1] * 1000.0 < s.at.value as real)
  {
    assert Keyed(h);
    if Accepts(h, s) {
      AppendShowsRate(h, s, h.selected[0], false);
    }
  }

  /** Appending keeps all older times and rates, except that the oldest of 720 makes room. */
  lemma AppendDropsOnlyTheOldest(h: History, s: Snapshot, source: Source, tx: bool)
    requires Inv(h, CAPACITY) && source in h.selected && Accepts(h, s)
    ensures var next, oldest := Append(h, s), if |h.times| < 720 then 0 else 1;
            && source in next.rates && next.times != [] && Shown(next, source, tx) != []
            && next.times[..|next.times| - 1] == h.times[oldest..]
            && Shown(next, source, tx)[..|Shown(next, source, tx)| - 1] == Shown(h, source, tx)[oldest..]
  {
    assert Keyed(h);
    AppendFields(h, s, CAPACITY);
    OneMakesRoom(h.times, s.at.value as real / 1000.0, CAPACITY);
    var b := NewBaseline(source, s, s.at.value);
    OneMakesRoom(h.rates[source].rx, Rate(Rx(h, source), Sample(Some(b.atMs), b.rxBytes)), CAPACITY);
    OneMakesRoom(h.rates[source].tx, Rate(Tx(h, source), Sample(Some(b.atMs), b.txBytes)), CAPACITY);
    hide AppendCapped, NewBaseline, NewBaselines, Rate, Rx, Tx, Shift, Tail, Accepts, Keyed;
  }

  lemma OneMakesRoom<T>(xs: seq<T>, x: T, cap: nat)
    requires |xs| <= cap && cap > 0
    ensures var s, oldest := Tail(xs + [x], cap), if |xs| < cap then 0 else 1;
            s != [] && s[..|s| - 1] == xs[oldest..] && Shift(xs + [x], |xs| + 1, cap) == s
  {
  }

  lemma LastOfShift(xs: seq<Option<real>>, x: Option<real>, n: nat, cap: nat)
    requires cap > 0 && n == |xs| + 1
    ensures var s := Shift(xs + [x], n, cap); |s| > 0 && s[|s| - 1] == x
  {
  }

  /** Histories after each of the snapshots, all accepted, and every one showing a rate for the source. */
  ghost predicate ShownThroughout(h: History, source: Source, tx: bool, snapshots: seq<Snapshot>, trace: seq<History>) {
    && |trace| == |snapshots| + 1 && trace[0] == h
    && forall i :: 0 <= i < |snapshots| ==> Shows(trace[i], snapshots[i], trace[i + 1], source, tx)
  }

  ghost predicate Shows(h: History, s: Snapshot, next: History, source: Source, tx: bool) {
    && Keyed(h) && Accepts(h, s) && next == Append(h, s)
    && source in next.rates
    && Shown(next, source, tx) != [] && Shown(next, source, tx)[|Shown(next, source, tx)| - 1].Some?
  }

  function Readings(trace: seq<History>, source: Source, tx: bool): seq<Sample> {
    seq(|trace|, i requires 0 <= i < |trace| => LastReading(trace[i], source, tx))
  }

  lemma AppendKeepsSelected(h: History, s: Snapshot)
    requires Inv(h, CAPACITY) && Keyed(h)
    ensures Inv(Append(h, s), CAPACITY) && Append(h, s).selected == h.selected
  {
    AppendKeepsInv(h, s, CAPACITY);
    hide Inv;
  }

  lemma {:induction false} TraceKeepsInv(h: History, source: Source, tx: bool, snapshots: seq<Snapshot>, trace: seq<History>, i: nat)
    requires Inv(h, CAPACITY) && source in h.selected
    requires ShownThroughout(h, source, tx, snapshots, trace) && i <= |snapshots|
    ensures Inv(trace[i], CAPACITY) && source in trace[i].selected
  {
    hide Inv, Append, Shown, Accepts;
    if i > 0 {
      TraceKeepsInv(h, source, tx, snapshots, trace, i - 1);
      assert Shows(trace[i - 1], snapshots[i - 1], trace[i], source, tx);
      AppendKeepsSelected(trace[i - 1], snapshots[i - 1]);
    }
  }

  lemma TraceReads(h: History, source: Source, tx: bool, snapshots: seq<Snapshot>, trace: seq<History>, i: nat)
    requires Inv(h, CAPACITY) && source in h.selected && i < |snapshots|
    requires ShownThroughout(h, source, tx, snapshots, trace)
    ensures Rate(LastReading(trace[i], source, tx), LastReading(trace[i + 1], source, tx)).Some?
    ensures LastReading(trace[i + 1], source, tx) == Read(snapshots[i], source, tx)
  {
    hide Rate, Append, Inv, Read, LastReading, Accepts, Keyed;
    TraceKeepsInv(h, source, tx, snapshots, trace, i);
    assert Shows(trace[i], snapshots[i], trace[i + 1], source, tx);
    AppendShowsRate(trace[i], snapshots[i], source, tx);
  }

  /** The rate that the newest entry of a source's series displays. */
  function Newest(h: History, source: Source, tx: bool): Option<real>
    requires source in h.rates && Shown(h, source, tx) != []
  {
    Shown(h, source, tx)[|Shown(h, source, tx)| - 1]
  }

  /** Bytes that the newest displayed rates of histories 1 to n stand for. */
  ghost function ShownVolume(
    h: History, source: Source, tx: bool, snapshots: seq<Snapshot>, trace: seq<History>, n: nat): real
    requires ShownThroughout(h, source, tx, snapshots, trace) && n <= |snapshots|
  {
    if n == 0 then 0.0
    else
      assert Shows(trace[n - 1], snapshots[n - 1], trace[n], source, tx);
      var elapsed := Elapsed(LastReading(trace[n - 1], source, tx), Read(snapshots[n - 1], source, tx));
      ShownVolume(h, source, tx, snapshots, trace, n - 1) + Newest(trace[n], source, tx).value * elapsed.GetOr(0.0) / 8.0
  }

  lemma {:induction false} ShownVolumeIsVolume(
    h: History, source: Source, tx: bool, snapshots: seq<Snapshot>, trace: seq<History>, n: nat)
    requires Inv(h, CAPACITY) && source in h.selected && n <= |snapshots|
    requires ShownThroughout(h, source, tx, snapshots, trace)
    ensures ShownVolume(h, source, tx, snapshots, trace, n) == Volume(Readings(trace, source, tx)[..n + 1])
  {
    hide Rate, Append, Inv, Read, LastReading, Accepts, Keyed, Elapsed;
    var rs := Readings(trace, source, tx);
    if n > 0 {
      ShownVolumeIsVolume(h, source, tx, snapshots, trace, n - 1);
      TraceKeepsInv(h, source, tx, snapshots, trace, n - 1);
      assert Shows(trace[n - 1], snapshots[n - 1], trace[n], source, tx);
      AppendShowsRate(trace[n - 1], snapshots[n - 1], source, tx);
      VolumeStep(rs, n);
      RateHasElapsed(rs[n - 1], rs[n]);
      hide Volume, Readings;
    }
  }

  lemma VolumeStep(rs: seq<Sample>, n: nat)
    requires 0 < n < |rs|
    ensures Volume(rs[..n + 1]) == Volume(rs[..n]) +
              if Rate(rs[n - 1], rs[n]).Some? then Rate(rs[n - 1], rs[n]).value * Elapsed(rs[n - 1], rs[n]).value / 8.0 else 0.0
  {
    RateHasElapsed(rs[n - 1], rs[n]);
    assert rs[..n + 1][..n] == rs[..n];
  }

  lemma RateHasElapsed(a: Sample, b: Sample)
    ensures Rate(a, b).Some? ==> Elapsed(a, b).Some?
  {
  }

  /** Over consecutive snapshots that all show a rate, displayed rate times elapsed seconds over eight adds up to
      exactly the bytes the counter moved since the reading before them. */
  lemma ShownRatesConserveBytes(h: History, source: Source, tx: bool, snapshots: seq<Snapshot>, trace: seq<History>)
    requires Inv(h, CAPACITY) && source in h.selected && snapshots != []
    requires ShownThroughout(h, source, tx, snapshots, trace)
    ensures var before, after := LastReading(h, source, tx), Read(snapshots[|snapshots| - 1], source, tx);
            && ReadsEntry(after, snapshots[|snapshots| - 1], source, tx)
            && before.bytes.Some? && after.bytes.Some?
            && ShownVolume(h, source, tx, snapshots, trace, |snapshots|) == (after.bytes.value - before.bytes.value) as real
  {
    hide Rate, Append, Inv, Read, LastReading, Shows, Volume, ShownVolume, ReadsEntry;
    ReadIsOfTheEntry(snapshots[|snapshots| - 1], source, tx);
    var rs := Readings(trace, source, tx);
    forall i | 0 <= i < |snapshots|
      ensures Rate(rs[i], rs[i + 1]).Some? && rs[i + 1] == Read(snapshots[i], source, tx)
    {
      TraceReads(h, source, tx, snapshots, trace, i);
    }
    BytesAreConserved(rs);
    ShownVolumeIsVolume(h, source, tx, snapshots, trace, |snapshots|);
    assert rs[..|snapshots| + 1] == rs;
  }
}
