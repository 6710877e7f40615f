/** The one-pass summary that the user interface computes over a stored series. */
module SnapshotView {
  import opened Options
  import opened Moments
  import Stats

  datatype ProbeRow = ProbeRow(rttMs: Option<real>, lost: bool)

  predicate Failed(probe: ProbeRow) {
    probe.lost || probe.rttMs == None
  }

  /** Round trips of the probes that count as answered. */
  function Samples(probes: seq<ProbeRow>): seq<real> {
    if probes == [] then []
    else
      var last := probes[|probes| - 1];
      Samples(probes[..|probes| - 1]) + if Failed(last) then [] else [last.rttMs.value]
  }

  function LossCount(probes: seq<ProbeRow>): nat {
    if probes == [] then 0
    else LossCount(probes[..|probes| - 1]) + if Failed(probes[|probes| - 1]) then 1 else 0
  }

  /** |D| of successive samples, however many losses lie between them. */
  function Deltas(samples: seq<real>): seq<real> {
    if |samples| < 2 then []
    else Deltas(samples[..|samples| - 1]) + [Abs(samples[|samples| - 1] - samples[|samples| - 2])]
  }

  /** The estimator seeded with the first difference. */
  function Seeded(deltas: seq<real>): Option<real> {
    if deltas == [] then None
    else
      var d := deltas[|deltas| - 1];
      match Seeded(deltas[..|deltas| - 1])
      case None => Some(d)
      case Some(j) => Some(j + (d - j) / 16.0)
  }

  function RunningJitter(probes: seq<ProbeRow>): Option<real> {
    Seeded(Deltas(Samples(probes)))
  }

  function LastSample(samples: seq<real>): Option<real> {
    if samples == [] then None else Some(samples[|samples| - 1])
  }

  lemma OneMoreProbe(probes: seq<ProbeRow>, probe: ProbeRow)
    ensures var more := probes + [probe];
            if Failed(probe) then Samples(more) == Samples(probes) && LossCount(more) == LossCount(probes) + 1
            else Samples(more) == Samples(probes) + [probe.rttMs.value] && LossCount(more) == LossCount(probes)
  {
    assert (probes + [probe])[..|probes|] == probes;
  }

  lemma OneMoreSample(samples: seq<real>, x: real)
    ensures Seeded(Deltas(samples + [x])) ==
            match LastSample(samples)
            case None => Seeded(Deltas(samples))
            case Some(prev) =>
              var d := Abs(x - prev);
              Some(match Seeded(Deltas(samples)) case None => d case Some(j) => j + (d - j) / 16.0)
  {
    var more := samples + [x];
    assert more[..|more| - 1] == samples;
    if samples != [] {
      var ds := Deltas(samples);
      var d := Abs(x - samples[|samples| - 1]);
      assert Deltas(more) == ds + [d];
      assert (ds + [d])[..|ds + [d]| - 1] == ds;
    } else {
      assert Deltas(more) == [];
    }
  }

  ghost function LostPlaces(probes: seq<ProbeRow>): set<int> {
    set i | 0 <= i < |probes| && (probes[i].lost || probes[i].rttMs == None)
  }

  lemma LostPlacesOfPrefix(probes: seq<ProbeRow>)
    requires probes != []
    ensures var n := |probes| - 1;
            && LostPlaces(probes) == LostPlaces(probes[..n]) + (if probes[n].lost || probes[n].rttMs == None then {n} else {})
            && n !in LostPlaces(probes[..n])
  {
  }

  lemma {:induction false} LossesAreCounted(probes: seq<ProbeRow>)
    ensures LossCount(probes) == |LostPlaces(probes)| && |Samples(probes)| + |LostPlaces(probes)| == |probes|
  {
    if probes == [] {
      assert LostPlaces(probes) == {};
    } else {
      LossesAreCounted(probes[..|probes| - 1]);
      LostPlacesOfPrefix(probes);
      hide LostPlaces;
    }
  }

  /** A row marked lost, or without a round trip, is a loss; every other one is a sample, in order. */
  lemma {:induction false} SamplesAreTheAnswered(probes: seq<ProbeRow>, i: nat)
    requires i < |probes| && !probes[i].lost && probes[i].rttMs.Some?
    ensures LossCount(probes) == |LostPlaces(probes)|
    ensures var k := i - |LostPlaces(probes[..i])|;
            0 <= k < |Samples(probes)| && Samples(probes)[k] == probes[i].rttMs.value
  {
    LossesAreCounted(probes);
    LossesAreCounted(probes[..i]);
    var n := |probes| - 1;
    hide LostPlaces;
    if i < n {
      SamplesAreTheAnswered(probes[..n], i);
      assert probes[..n][..i] == probes[..i];
    }
  }

  lemma {:induction false} DeltasAreOfNeighbours(samples: seq<real>)
    ensures |Deltas(samples)| == if samples == [] then 0 else |samples| - 1
    ensures forall k :: 0 <= k < |Deltas(samples)| ==>
              var d := samples[k + 1] - samples[k];
              Deltas(samples)[k] == if d < 0.0 then -d else d
  {
    if |samples| >= 2 {
      DeltasAreOfNeighbours(samples[..|samples| - 1]);
    }
  }

  /** The first difference of neighbouring samples is the first estimate; each further one changes it by a sixteenth
      of how far it is off. */
  lemma JitterStartsFromTheFirst(deltas: seq<real>, d: real)
    ensures Seeded([]) == None && Seeded([d]) == Some(d)
    ensures Seeded(deltas + [d]).Some?
    ensures deltas != [] ==>
              Seeded(deltas).Some? && 16.0 * Seeded(deltas + [d]).value == 15.0 * Seeded(deltas).value + d
  {
    assert (deltas + [d])[..|deltas|] == deltas;
    assert [d][..0] == [];
  }

  method UpdateJitter(ghost samples: seq<real>, jitterMs: Option<real>, previousRtt: Option<real>, rtt: real)
    returns (next: Option<real>)
    requires jitterMs == Seeded(Deltas(samples)) && previousRtt == LastSample(samples)
    ensures next == Seeded(Deltas(samples + [rtt]))
  {
    OneMoreSample(samples, rtt);
    next := jitterMs;
    if previousRtt.Some? {
      var delta := Abs(rtt - previousRtt.value);
      next := Some(if jitterMs == None then delta else jitterMs.value + (delta - jitterMs.value) / 16.0);
    }
  }

  method ComputeSnapshot(probes: seq<ProbeRow>) returns (snap: Stats.Snapshot)
    ensures Stats.Describes(snap, |probes|, LossCount(probes), Samples(probes))
    ensures snap.jitterMs == RunningJitter(probes)
  {
    var count := |probes|;
    var lossCount, n := 0, 0;
    var minMs: Option<real>, maxMs: Option<real> := None, None;
    var mean, m2 := 0.0, 0.0;
    var jitterMs: Option<real>, previousRtt: Option<real> := None, None;

    for i := 0 to |probes|
      invariant lossCount == LossCount(probes[..i])
      invariant n == |Samples(probes[..i])|
      invariant mean == Mean(Samples(probes[..i]))
      invariant m2 == SquaredDeviations(Samples(probes[..i]), mean)
      invariant IsMinimum(minMs, Samples(probes[..i])) && IsMaximum(maxMs, Samples(probes[..i]))
      invariant jitterMs == Seeded(Deltas(Samples(probes[..i])))
      invariant previousRtt == LastSample(Samples(probes[..i]))
    {
      hide Mean, SquaredDeviations, IsMinimum, IsMaximum, Samples, LossCount, Deltas, Seeded;
      var probe := probes[i];
      assert probes[..i + 1] == probes[..i] + [probe];
      ghost var samples := Samples(probes[..i]);
      OneMoreProbe(probes[..i], probe);
      if probe.lost || probe.rttMs == None {
        lossCount := lossCount + 1;
        continue;
      }
      var rtt := probe.rttMs.value;
      n := n + 1;
      mean, m2 := Stats.Welford(samples, n, mean, m2, rtt);
      ExtremeStep(minMs, samples, rtt);
      ExtremeStep(maxMs, samples, rtt);
      if minMs == None || rtt < minMs.value { minMs := Some(rtt); }
      if maxMs == None || rtt > maxMs.value { maxMs := Some(rtt); }
      jitterMs := UpdateJitter(samples, jitterMs, previousRtt, rtt);
      previousRtt := Some(rtt);
    }
    assert probes[..|probes|] == probes;
    var avgMs := if n > 0 then Some(mean) else None;
    var variance := if n > 0 then Some(m2 / n as real) else None;
    // A negative variance would be reported as missing; it cannot be negative.
    VarianceNonNegative(Samples(probes));
    variance := if variance.Some? && variance.value >= 0.0 then variance else None;
    snap := Stats.Snapshot(count, lossCount, if count > 0 then lossCount as real / count as real else 0.0,
                           minMs, avgMs, maxMs, variance, jitterMs);
  }

  lemma VarianceNonNegative(xs: seq<real>)
    ensures Variance(xs) >= 0.0
  {
    DeviationsNonNegative(xs, Mean(xs));
  }

  // ---- The live engine and the stored series describe the same probes ----

  /** The row that a probe outcome is stored and reloaded as. */
  function RowOf(outcome: Stats.ProbeOutcome): ProbeRow {
    if outcome.Rtt? then ProbeRow(Some(Stats.Ms(outcome.rtt)), false) else ProbeRow(None, true)
  }

  function RowsOf(outcomes: seq<Stats.ProbeOutcome>): seq<ProbeRow> {
    seq(|outcomes|, i requires 0 <= i < |outcomes| => RowOf(outcomes[i]))
  }

  lemma {:induction false} SameSamples(outcomes: seq<Stats.ProbeOutcome>)
    ensures Samples(RowsOf(outcomes)) == Stats.Rtts(outcomes)
    ensures LossCount(RowsOf(outcomes)) == Stats.Losses(outcomes)
  {
    if outcomes != [] {
      var init := outcomes[..|outcomes| - 1];
      SameSamples(init);
      var rows := RowsOf(outcomes);
      assert rows[..|rows| - 1] == RowsOf(init);
    }
  }

  /** Any snapshot of the running engine agrees with the summary of the stored rows, jitter aside. */
  lemma LiveAndStoredAgree(outcomes: seq<Stats.ProbeOutcome>, live: Stats.Snapshot, stored: Stats.Snapshot)
    requires Stats.Describes(live, |outcomes|, Stats.Losses(outcomes), Stats.Rtts(outcomes))
    requires Stats.Describes(stored, |outcomes|, LossCount(RowsOf(outcomes)), Samples(RowsOf(outcomes)))
    ensures live.(jitterMs := None) == stored.(jitterMs := None)
    ensures live.count == |Stats.Rtts(outcomes)| + live.lossCount
    ensures live.avgMs.Some? ==> live.minMs.value <= live.avgMs.value <= live.maxMs.value && live.variance.value >= 0.0
  {
    SameSamples(outcomes);
    Stats.SuccessesAndLosses(outcomes);
    var rtts := Stats.Rtts(outcomes);
    VarianceNonNegative(rtts);
    if rtts != [] {
      assert forall k :: 0 <= k < |rtts| ==> rtts[k] in rtts;
      MeanBetweenExtremes(rtts, live.minMs.value, live.maxMs.value);
    }
  }
}
