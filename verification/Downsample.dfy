/** Reducing a probe series to the columns of a canvas without losing extremes or losses. */
module Downsample {
  import opened Options
  import opened Buckets
  import Moments
  import Live = SnapshotView

  datatype ProbePoint = ProbePoint(x: real, rttMs: Option<real>, lost: bool)
  datatype RttPoint = RttPoint(x: real, y: Option<real>)
  datatype LossPoint = LossPoint(x: real, lossCount: nat, totalCount: nat)
  datatype Enriched = Enriched(probe: ProbePoint, jitter: Option<real>)
  datatype Peak = Peak(x: real, rtt: real)

  predicate Failed(p: ProbePoint) {
    p.lost || p.rttMs == None
  }

  function PeakOf(p: ProbePoint): Peak
    requires !Failed(p)
  {
    Peak(p.x, p.rttMs.value)
  }

  // ---- Running jitter ----

  function Rows(probes: seq<ProbePoint>): seq<Live.ProbeRow> {
    seq(|probes|, i requires 0 <= i < |probes| => Live.ProbeRow(probes[i].rttMs, probes[i].lost))
  }

  /** The estimate after probe i, shown at successful probes only. */
  function JitterAt(probes: seq<ProbePoint>, i: nat): Option<real>
    requires i < |probes|
  {
    if Failed(probes[i]) then None else Live.RunningJitter(Rows(probes[..i + 1]))
  }

  method AttachJitter(probes: seq<ProbePoint>) returns (enriched: seq<Enriched>)
    ensures |enriched| == |probes|
    ensures forall i :: 0 <= i < |probes| ==> enriched[i] == Enriched(probes[i], JitterAt(probes, i))
  {
    enriched := [];
    var previousRtt: Option<real>, runningJitter: Option<real> := None, None;
    for i := 0 to |probes|
      invariant |enriched| == i
      invariant forall j :: 0 <= j < i ==> enriched[j] == Enriched(probes[j], JitterAt(probes, j))
      invariant runningJitter == Live.Seeded(Live.Deltas(Live.Samples(Rows(probes[..i]))))
      invariant previousRtt == Live.LastSample(Live.Samples(Rows(probes[..i])))
    {
      hide Live.Seeded, Live.Deltas, Live.Samples, Live.LastSample, JitterAt, Rows;
      var probe := probes[i];
      ghost var before := Rows(probes[..i]);
      JitterStep(probes, i);
      var jitter: Option<real> := None;
      if !probe.lost && probe.rttMs.Some? {
        runningJitter, jitter := NextJitter(Live.Samples(before), runningJitter, previousRtt, probe.rttMs.value);
        previousRtt := Some(probe.rttMs.value);
      }
      enriched := enriched + [Enriched(probe, jitter)];
    }
  }

  lemma JitterStep(probes: seq<ProbePoint>, i: nat)
    requires i < |probes|
    ensures var samples, after := Live.Samples(Rows(probes[..i])), Live.Samples(Rows(probes[..i + 1]));
            if Failed(probes[i]) then after == samples && JitterAt(probes, i) == None
            else
              && after == samples + [probes[i].rttMs.value]
              && JitterAt(probes, i) == Live.Seeded(Live.Deltas(after))
              && Live.LastSample(after) == probes[i].rttMs
  {
    var row := Live.ProbeRow(probes[i].rttMs, probes[i].lost);
    assert Rows(probes[..i + 1]) == Rows(probes[..i]) + [row];
    Live.OneMoreProbe(Rows(probes[..i]), row);
  }

  /** The running estimate moves, and is shown, from the second successful probe on. */
  method NextJitter(ghost samples: seq<real>, runningJitter: Option<real>, previousRtt: Option<real>, rtt: real)
    returns (next: Option<real>, shown: Option<real>)
    requires runningJitter == Live.Seeded(Live.Deltas(samples)) && previousRtt == Live.LastSample(samples)
    ensures next == shown == Live.Seeded(Live.Deltas(samples + [rtt]))
  {
    if previousRtt.Some? {
      next := Live.UpdateJitter(samples, runningJitter, previousRtt, rtt);
      shown := next;
    } else {
      next, shown := runningJitter, None;
      FirstSampleHasNoJitter(samples, rtt);
    }
  }

  lemma FirstSampleHasNoJitter(samples: seq<real>, x: real)
    requires Live.LastSample(samples) == None
    ensures Live.Seeded(Live.Deltas(samples)) == None && Live.Seeded(Live.Deltas(samples + [x])) == None
  {
    assert samples == [];
  }

  /** The last estimate in the series is the jitter of the whole-series summary. */
  lemma {:induction false} LastJitterIsSummaryJitter(probes: seq<ProbePoint>, last: nat)
    requires last < |probes| && !Failed(probes[last])
    requires forall i :: last < i < |probes| ==> Failed(probes[i])
    ensures JitterAt(probes, last) == Live.RunningJitter(Rows(probes))
  {
    if last == |probes| - 1 {
      assert probes[..last + 1] == probes;
    } else {
      var init := probes[..|probes| - 1];
      var rows := Rows(probes);
      LastJitterIsSummaryJitter(init, last);
      assert init[..last + 1] == probes[..last + 1];
      assert rows == Rows(init) + [rows[|rows| - 1]];
      Live.OneMoreProbe(Rows(init), rows[|rows| - 1]);
    }
  }

  // ---- Statistics of one bucket ----

  function LostCount(es: seq<Enriched>): nat {
    if es == [] then 0 else LostCount(es[..|es| - 1]) + if Failed(es[|es| - 1].probe) then 1 else 0
  }

  /** Position of the first successful probe with the least (up: greatest) round trip. */
  function ExtremeAt(es: seq<Enriched>, up: bool): (at: Option<nat>)
    ensures at.Some? ==> at.value < |es| && !Failed(es[at.value].probe)
  {
    if es == [] then None
    else
      var n := |es| - 1;
      var before := ExtremeAt(es[..n], up);
      if Failed(es[n].probe) then before
      else if before == None || Beyond(es[n].probe, es[before.value].probe, up) then Some(n)
      else before
  }

  predicate Beyond(p: ProbePoint, q: ProbePoint, up: bool)
    requires !Failed(p) && !Failed(q)
  {
    if up then p.rttMs.value > q.rttMs.value else p.rttMs.value < q.rttMs.value
  }

  ghost predicate IsFirstExtreme(es: seq<Enriched>, up: bool, at: Option<nat>) {
    match at
    case None => forall i :: 0 <= i < |es| ==> Failed(es[i].probe)
    case Some(j) =>
      && j < |es| && !Failed(es[j].probe)
      && (forall i :: 0 <= i < |es| && !Failed(es[i].probe) ==> !Beyond(es[i].probe, es[j].probe, up))
      && (forall i :: 0 <= i < j && !Failed(es[i].probe) ==> Beyond(es[j].probe, es[i].probe, up))
  }

  lemma {:induction false} ExtremeIsFirst(es: seq<Enriched>, up: bool)
    ensures IsFirstExtreme(es, up, ExtremeAt(es, up))
  {
    if es != [] {
      ExtremeIsFirst(es[..|es| - 1], up);
    }
  }

  lemma FirstExtremeIsUnique(es: seq<Enriched>, up: bool, a: Option<nat>, b: Option<nat>)
    requires IsFirstExtreme(es, up, a) && IsFirstExtreme(es, up, b)
    ensures a == b
  {
  }

  function ExtremePeak(es: seq<Enriched>, up: bool): Option<Peak> {
    var at := ExtremeAt(es, up);
    if at.Some? then Some(PeakOf(es[at.value].probe)) else None
  }

  function FirstLossX(es: seq<Enriched>): Option<real> {
    if es == [] then None
    else
      var before := FirstLossX(es[..|es| - 1]);
      if before.Some? then before
      else if Failed(es[|es| - 1].probe) then Some(es[|es| - 1].probe.x) else None
  }

  function Jitters(es: seq<Enriched>): seq<real> {
    if es == [] then []
    else
      var last := es[|es| - 1];
      Jitters(es[..|es| - 1]) + if !Failed(last.probe) && last.jitter.Some? then [last.jitter.value] else []
  }

  datatype BucketStats = BucketStats(
    count: nat, lossCount: nat, firstLossX: Option<real>,
    minRtt: Option<Peak>, maxRtt: Option<Peak>, jitter: Option<real>, lastX: real)

  function Summary(es: seq<Enriched>): BucketStats {
    BucketStats(|es|, LostCount(es), FirstLossX(es), ExtremePeak(es, false), ExtremePeak(es, true),
                if Jitters(es) == [] then None else Some(Moments.Mean(Jitters(es))),
                if es == [] then 0.0 else es[|es| - 1].probe.x)
  }

  lemma PeakStep(es: seq<Enriched>, e: Enriched, up: bool)
    ensures ExtremePeak(es + [e], up) ==
            if Failed(e.probe) then ExtremePeak(es, up) else Outermost(ExtremePeak(es, up), e.probe, up)
  {
    var more := es + [e];
    assert more[..|es|] == es;
    ExtremeIsFirst(es, up);
    ExtremeIsFirst(more, up);
  }

  lemma StatsStep(es: seq<Enriched>, e: Enriched)
    ensures LostCount(es + [e]) == LostCount(es) + if Failed(e.probe) then 1 else 0
    ensures FirstLossX(es + [e]) == if FirstLossX(es).Some? then FirstLossX(es) else if Failed(e.probe) then Some(e.probe.x) else None
    ensures Jitters(es + [e]) == if !Failed(e.probe) && e.jitter.Some? then Jitters(es) + [e.jitter.value] else Jitters(es)
  {
    assert (es + [e])[..|es|] == es;
  }

  /** The running extreme after a successful probe: replaced only by a strictly more extreme one. */
  function Outermost(peak: Option<Peak>, p: ProbePoint, up: bool): Option<Peak>
    requires !Failed(p)
  {
    var rtt := p.rttMs.value;
    if peak == None || (if up then rtt > peak.value.rtt else rtt < peak.value.rtt) then Some(Peak(p.x, rtt)) else peak
  }

  method AggregateBucket(bucket: seq<Enriched>) returns (stats: BucketStats)
    ensures stats == Summary(bucket)
  {
    var count, lossCount := 0, 0;
    var firstLossX: Option<real> := None;
    var minRtt: Option<Peak>, maxRtt: Option<Peak> := None, None;
    var sumJitter, jitterCount := 0.0, 0;

    for i := 0 to |bucket|
      invariant count == i && lossCount == LostCount(bucket[..i])
      invariant firstLossX == FirstLossX(bucket[..i])
      invariant minRtt == ExtremePeak(bucket[..i], false) && maxRtt == ExtremePeak(bucket[..i], true)
      invariant sumJitter == Moments.Sum(Jitters(bucket[..i])) && jitterCount == |Jitters(bucket[..i])|
    {
      hide LostCount, FirstLossX, ExtremePeak, ExtremeAt, Jitters, Moments.Sum;
      var e := bucket[i];
      var probe := e.probe;
      assert bucket[..i + 1] == bucket[..i] + [e];
      StatsStep(bucket[..i], e);
      PeakStep(bucket[..i], e, false);
      PeakStep(bucket[..i], e, true);
      count := count + 1;
      if probe.lost || probe.rttMs == None {
        lossCount := lossCount + 1;
        if firstLossX == None {
          firstLossX := Some(probe.x);
        }
      } else {
        if e.jitter.Some? {
          Moments.Snoc(Jitters(bucket[..i]), e.jitter.value);
          sumJitter := sumJitter + e.jitter.value;
          jitterCount := jitterCount + 1;
        }
        minRtt := Outermost(minRtt, probe, false);
        maxRtt := Outermost(maxRtt, probe, true);
      }
    }
    hide LostCount, FirstLossX, ExtremePeak, ExtremeAt, Jitters, Moments.Sum;
    assert bucket[..|bucket|] == bucket;
    var jitter := if jitterCount > 0 then Some(sumJitter / jitterCount as real) else None;
    stats := BucketStats(count, lossCount, firstLossX, minRtt, maxRtt, jitter,
                         if bucket == [] then 0.0 else bucket[|bucket| - 1].probe.x);
  }

  // ---- The series ----

  /** A column per whole unit of width, and at least one. */
  function BucketCount(canvasWidth: real): (k: nat)
    ensures k > 0
    ensures canvasWidth < 2.0 ==> k == 1
    ensures canvasWidth >= 1.0 ==> k as real <= canvasWidth < k as real + 1.0
  {
    if canvasWidth.Floor <= 1 then 1 else canvasWidth.Floor
  }

  function Slice(es: seq<Enriched>, k: nat, i: nat): seq<Enriched>
    requires 0 < k && i < k
  {
    BucketFits(i, |es|, k);
    es[Boundary(i, |es|, k)..Boundary(i + 1, |es|, k)]
  }

  lemma BucketFits(i: nat, n: nat, k: nat)
    requires 0 < k && i < k
    ensures Boundary(i, n, k) <= Boundary(i + 1, n, k) <= n
  {
    Width(i, n, k);
    BoundariesAscend(i + 1, k, n, k);
    Ends(n, k);
  }

  function RepresentativeX(s: BucketStats): real {
    if s.maxRtt.Some? then s.maxRtt.value.x else s.firstLossX.GetOr(s.lastX)
  }

  /** What one bucket contributes to the round-trip line; minPoint and maxPoint are the global extremes. */
  function RttPart(s: BucketStats, minPoint: Option<Peak>, maxPoint: Option<Peak>): seq<RttPoint> {
    var lossX := s.firstLossX.GetOr(s.lastX);
    if s.minRtt == None || s.maxRtt == None then [RttPoint(s.lastX, None)]
    else
      var lo, hi := RttPoint(s.minRtt.value.x, Some(s.minRtt.value.rtt)), RttPoint(s.maxRtt.value.x, Some(s.maxRtt.value.rtt));
      if s.lossCount == 0 then (if s.minRtt == s.maxRtt then [lo] else [lo, hi])
      else if s.minRtt == minPoint && s.maxRtt == maxPoint then [lo, hi]
      else if s.minRtt == minPoint then [lo, RttPoint(lossX, None)]
      else [hi, RttPoint(lossX, None)]
  }

  function RttSeries(es: seq<Enriched>, k: nat, i: nat): seq<RttPoint>
    requires 0 < k && i <= k
  {
    if i == 0 then []
    else
      var b := Slice(es, k, i - 1);
      RttSeries(es, k, i - 1) + if b == [] then [] else RttPart(Summary(b), ExtremePeak(es, false), ExtremePeak(es, true))
  }

  function LossSeries(es: seq<Enriched>, k: nat, i: nat): seq<LossPoint>
    requires 0 < k && i <= k
  {
    if i == 0 then []
    else
      var b := Slice(es, k, i - 1);
      LossSeries(es, k, i - 1) +
      if b == [] then [] else [LossPoint(RepresentativeX(Summary(b)), LostCount(b), |b|)]
  }

  function JitterSeries(es: seq<Enriched>, k: nat, i: nat): seq<RttPoint>
    requires 0 < k && i <= k
  {
    if i == 0 then []
    else
      var b := Slice(es, k, i - 1);
      JitterSeries(es, k, i - 1) + if b == [] then [] else [RttPoint(RepresentativeX(Summary(b)), Summary(b).jitter)]
  }

  datatype Result = Result(
    rtt: seq<RttPoint>, loss: seq<LossPoint>, jitter: seq<RttPoint>, globalMin: Option<real>, globalMax: Option<real>)

  function EnrichedOf(probes: seq<ProbePoint>): seq<Enriched> {
    seq(|probes|, i requires 0 <= i < |probes| => Enriched(probes[i], JitterAt(probes, i)))
  }

  function RttOf(p: Option<Peak>): Option<real> {
    if p.Some? then Some(p.value.rtt) else None
  }

  /** The least (up: greatest) round trip of the successful probes, if there are any. */
  ghost predicate IsExtremeRtt(m: Option<real>, probes: seq<ProbePoint>, up: bool) {
    match m
    case None => forall i :: 0 <= i < |probes| ==> Failed(probes[i])
    case Some(rtt) =>
      && (exists i :: 0 <= i < |probes| && !Failed(probes[i]) && probes[i].rttMs.value == rtt)
      && forall i :: 0 <= i < |probes| && !Failed(probes[i]) ==>
           if up then probes[i].rttMs.value <= rtt else rtt <= probes[i].rttMs.value
  }

  lemma PeakIsExtremeRtt(probes: seq<ProbePoint>, up: bool)
    ensures IsExtremeRtt(RttOf(ExtremePeak(EnrichedOf(probes), up)), probes, up)
  {
    hide JitterAt, ExtremeAt;
    var es := EnrichedOf(probes);
    ExtremeIsFirst(es, up);
    assert forall i :: 0 <= i < |probes| ==> es[i].probe == probes[i];
    if ExtremeAt(es, up).Some? {
      assert !Failed(probes[ExtremeAt(es, up).value]);
    }
  }

  lemma NothingIsExtreme(up: bool)
    ensures IsExtremeRtt(None, [], up)
  {
  }

  method GlobalExtreme(es: seq<Enriched>, up: bool) returns (peak: Option<Peak>)
    ensures peak == ExtremePeak(es, up)
  {
    peak := None;
    for i := 0 to |es|
      invariant peak == ExtremePeak(es[..i], up)
    {
      hide ExtremePeak;
      var probe := es[i].probe;
      assert es[..i + 1] == es[..i] + [es[i]];
      PeakStep(es[..i], es[i], up);
      if probe.lost || probe.rttMs == None {
        continue;
      }
      peak := Outermost(peak, probe, up);
    }
    assert es[..|es|] == es;
  }

  method Downsample(probes: seq<ProbePoint>, canvasWidth: real) returns (r: Result)
    ensures var es, k := EnrichedOf(probes), BucketCount(canvasWidth);
            r == if probes == [] then Result([], [], [], None, None)
                 else Result(RttSeries(es, k, k), LossSeries(es, k, k), JitterSeries(es, k, k),
                             RttOf(ExtremePeak(es, false)), RttOf(ExtremePeak(es, true)))
    ensures IsExtremeRtt(r.globalMin, probes, false) && IsExtremeRtt(r.globalMax, probes, true)
  {
    hide ExtremePeak, Summary, Boundary, RttPart, JitterAt, RepresentativeX, BucketCount, IsExtremeRtt;
    PeakIsExtremeRtt(probes, false);
    PeakIsExtremeRtt(probes, true);
    NothingIsExtreme(false);
    NothingIsExtreme(true);
    if probes == [] {
      return Result([], [], [], None, None);
    }
    var bucketCount := BucketCount(canvasWidth);
    var enriched := AttachJitter(probes);
    assert enriched == EnrichedOf(probes);
    var minPoint := GlobalExtreme(enriched, false);
    var maxPoint := GlobalExtreme(enriched, true);
    var rtt: seq<RttPoint>, loss: seq<LossPoint>, jitter: seq<RttPoint> := [], [], [];

    for i := 0 to bucketCount
      invariant rtt == RttSeries(enriched, bucketCount, i)
      invariant loss == LossSeries(enriched, bucketCount, i)
      invariant jitter == JitterSeries(enriched, bucketCount, i)
    {
      BucketFits(i, |enriched|, bucketCount);
      var start, end := Boundary(i, |probes|, bucketCount), Boundary(i + 1, |probes|, bucketCount);
      if start >= end {
        continue;
      }
      var bucket := enriched[start..end];
      var stats := AggregateBucket(bucket);
      assert bucket == Slice(enriched, bucketCount, i);
      SummaryCounts(bucket);
      var representativeX := RepresentativeX(stats);
      loss := loss + [LossPoint(representativeX, stats.lossCount, stats.count)];
      jitter := jitter + [RttPoint(representativeX, stats.jitter)];
      var part := PushRtt(stats, minPoint, maxPoint);
      rtt := rtt + part;
    }
    r := Result(rtt, loss, jitter, RttOf(minPoint), RttOf(maxPoint));
  }

  lemma SummaryCounts(es: seq<Enriched>)
    ensures Summary(es).count == |es| && Summary(es).lossCount == LostCount(es)
    ensures Summary(es).minRtt == ExtremePeak(es, false) && Summary(es).maxRtt == ExtremePeak(es, true)
  {
  }

  /** The branches of the loop body that push points of one bucket. */
  method PushRtt(stats: BucketStats, minPoint: Option<Peak>, maxPoint: Option<Peak>) returns (rtt: seq<RttPoint>)
    ensures rtt == RttPart(stats, minPoint, maxPoint)
  {
    rtt := [];
    if stats.minRtt == None || stats.maxRtt == None {
      return rtt + [RttPoint(stats.lastX, None)];
    }
    var lo, hi := stats.minRtt.value, stats.maxRtt.value;
    var hasLoss := stats.lossCount > 0;
    var hasGlobalMin := minPoint.Some? && lo.x == minPoint.value.x && lo.rtt == minPoint.value.rtt;
    var hasGlobalMax := maxPoint.Some? && hi.x == maxPoint.value.x && hi.rtt == maxPoint.value.rtt;
    if !hasLoss {
      if lo.x == hi.x && lo.rtt == hi.rtt {
        rtt := rtt + [RttPoint(lo.x, Some(lo.rtt))];
      } else {
        rtt := rtt + [RttPoint(lo.x, Some(lo.rtt))];
        rtt := rtt + [RttPoint(hi.x, Some(hi.rtt))];
      }
      return;
    }
    var lossX := stats.firstLossX.GetOr(stats.lastX);
    if hasGlobalMin && hasGlobalMax {
      rtt := rtt + [RttPoint(lo.x, Some(lo.rtt))];
      rtt := rtt + [RttPoint(hi.x, Some(hi.rtt))];
    } else if hasGlobalMin {
      rtt := rtt + [RttPoint(lo.x, Some(lo.rtt))];
      rtt := rtt + [RttPoint(lossX, None)];
    } else {
      rtt := rtt + [RttPoint(hi.x, Some(hi.rtt))];
      rtt := rtt + [RttPoint(lossX, None)];
    }
  }
}
