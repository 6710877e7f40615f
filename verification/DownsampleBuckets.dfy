/** What each bucket of a downsampled series draws, told by the probes in it. */
module DownsampleBuckets {
  import opened Options
  import opened Buckets
  import opened Downsample
  import DownsampleKeeps
  import Moments

  // ---- One bucket ----

  ghost function LostPlaces(es: seq<Enriched>): set<int> {
    set i | 0 <= i < |es| && Failed(es[i].probe)
  }

  /** Successful probes that carry an estimate. */
  ghost function EstimatePlaces(es: seq<Enriched>): set<int> {
    set i | 0 <= i < |es| && !Failed(es[i].probe) && es[i].jitter.Some?
  }

  lemma PlacesOfPrefix(es: seq<Enriched>)
    requires es != []
    ensures var n := |es| - 1;
            && LostPlaces(es) == LostPlaces(es[..n]) + (if Failed(es[n].probe) then {n} else {}) && n !in LostPlaces(es[..n])
            && EstimatePlaces(es) ==
               EstimatePlaces(es[..n]) + (if !Failed(es[n].probe) && es[n].jitter.Some? then {n} else {})
            && n !in EstimatePlaces(es[..n])
  {
  }

  lemma {:induction false} PlacesAreCounted(es: seq<Enriched>)
    ensures LostCount(es) == |LostPlaces(es)| && |Jitters(es)| == |EstimatePlaces(es)|
  {
    if es == [] {
      assert LostPlaces(es) == {} && EstimatePlaces(es) == {};
    } else {
      PlacesAreCounted(es[..|es| - 1]);
      PlacesOfPrefix(es);
      hide LostPlaces, EstimatePlaces;
    }
  }

  /** The jitters of a bucket are its estimates, in order. */
  lemma {:induction false} JittersAreTheEstimates(es: seq<Enriched>, i: nat)
    requires i < |es| && !Failed(es[i].probe) && es[i].jitter.Some?
    ensures var k := |EstimatePlaces(es[..i])|;
            k < |Jitters(es)| && Jitters(es)[k] == es[i].jitter.value
  {
    PlacesAreCounted(es[..i]);
    hide EstimatePlaces;
    var n := |es| - 1;
    if i < n {
      JittersAreTheEstimates(es[..n], i);
      assert es[..n][..i] == es[..i];
    }
  }

  /** Place f is the first lost probe; no place if none is lost. */
  ghost predicate IsFirstLoss(es: seq<Enriched>, f: Option<nat>) {
    match f
    case None => forall i :: 0 <= i < |es| ==> !Failed(es[i].probe)
    case Some(j) => j < |es| && Failed(es[j].probe) && forall i :: 0 <= i < j ==> !Failed(es[i].probe)
  }

  lemma {:induction false} FirstLossIsFirst(es: seq<Enriched>, f: Option<nat>)
    requires IsFirstLoss(es, f)
    ensures LostCount(es) == 0 <==> f == None
    ensures FirstLossX(es) == if f == None then None else Some(es[f.value].probe.x)
  {
    DownsampleKeeps.AllLost(es);
    if es != [] {
      var n := |es| - 1;
      var f' := if f == Some(n) then None else f;
      assert IsFirstLoss(es[..n], f');
      FirstLossIsFirst(es[..n], f');
    }
  }

  /** The points of a bucket with a successful probe: first least and first greatest round trip if nothing was lost,
      as one point if they coincide; otherwise a gap at the first loss takes the place of one of them, unless both
      are the global ones. */
  function Drawn(least: RttPoint, greatest: RttPoint, gap: Option<RttPoint>, globalLeast: RttPoint, globalGreatest: RttPoint):
    seq<RttPoint>
  {
    match gap
    case None => if least == greatest then [least] else [least, greatest]
    case Some(g) =>
      if least == globalLeast then [least, if greatest == globalGreatest then greatest else g] else [greatest, g]
  }

  lemma PartIsDrawn(s: seq<Enriched>, es: seq<Enriched>, lo: nat, hi: nat, f: Option<nat>, gl: nat, gh: nat)
    requires IsFirstExtreme(s, false, Some(lo)) && IsFirstExtreme(s, true, Some(hi)) && IsFirstLoss(s, f)
    requires IsFirstExtreme(es, false, Some(gl)) && IsFirstExtreme(es, true, Some(gh))
    ensures RttPart(Summary(s), ExtremePeak(es, false), ExtremePeak(es, true)) ==
            Drawn(DownsampleKeeps.PointOf(s[lo].probe), DownsampleKeeps.PointOf(s[hi].probe),
                  if f == None then None else Some(RttPoint(s[f.value].probe.x, None)),
                  DownsampleKeeps.PointOf(es[gl].probe), DownsampleKeeps.PointOf(es[gh].probe))
  {
    PeakIsAt(s, false, lo);
    PeakIsAt(s, true, hi);
    PeakIsAt(es, false, gl);
    PeakIsAt(es, true, gh);
    FirstLossIsFirst(s, f);
    hide IsFirstExtreme, IsFirstLoss, ExtremePeak, LostCount, FirstLossX, Jitters, Moments.Mean, RttPart, Drawn;
    PartOfPeaks(Summary(s), s[lo].probe, s[hi].probe, es[gl].probe, es[gh].probe);
  }

  lemma PartOfPeaks(s: BucketStats, lo: ProbePoint, hi: ProbePoint, gl: ProbePoint, gh: ProbePoint)
    requires !Failed(lo) && !Failed(hi) && !Failed(gl) && !Failed(gh)
    requires s.minRtt == Some(PeakOf(lo)) && s.maxRtt == Some(PeakOf(hi)) && (s.lossCount > 0 <==> s.firstLossX.Some?)
    ensures RttPart(s, Some(PeakOf(gl)), Some(PeakOf(gh))) ==
            Drawn(DownsampleKeeps.PointOf(lo), DownsampleKeeps.PointOf(hi),
                  if s.firstLossX == None then None else Some(RttPoint(s.firstLossX.value, None)),
                  DownsampleKeeps.PointOf(gl), DownsampleKeeps.PointOf(gh))
  {
  }

  lemma PeakIsAt(es: seq<Enriched>, up: bool, j: nat)
    requires IsFirstExtreme(es, up, Some(j))
    ensures ExtremePeak(es, up) == Some(PeakOf(es[j].probe))
  {
    ExtremeIsFirst(es, up);
    FirstExtremeIsUnique(es, up, ExtremeAt(es, up), Some(j));
    hide ExtremeAt, IsFirstExtreme;
  }

  lemma LostBucketIsDrawn(s: seq<Enriched>, minPoint: Option<Peak>, maxPoint: Option<Peak>)
    requires s != [] && forall i :: 0 <= i < |s| ==> Failed(s[i].probe)
    ensures RttPart(Summary(s), minPoint, maxPoint) == [RttPoint(s[|s| - 1].probe.x, None)]
  {
    ExtremeIsFirst(s, false);
    hide ExtremeAt, LostCount, FirstLossX, Jitters, Moments.Mean;
  }

  // ---- Its place in the series ----

  /** Bucket b of k holds the probes from floor(b n / k) to floor((b + 1) n / k). */
  function Bucket(es: seq<Enriched>, k: nat, b: nat): seq<Enriched>
    requires b < k
  {
    BucketFits(b, |es|, k);
    es[b * |es| / k..(b + 1) * |es| / k]
  }

  lemma BucketIsSlice(es: seq<Enriched>, k: nat, b: nat)
    requires b < k
    ensures Bucket(es, k, b) == Slice(es, k, b)
  {
  }

  lemma {:induction false} PartsStay(es: seq<Enriched>, k: nat, b: nat, i: nat)
    requires 0 < k && b <= i <= k
    ensures RttSeries(es, k, b) <= RttSeries(es, k, i)
    ensures LossSeries(es, k, b) <= LossSeries(es, k, i)
    ensures JitterSeries(es, k, b) <= JitterSeries(es, k, i)
  {
    hide RttPart, Summary, Slice, ExtremePeak, RepresentativeX;
    if b < i {
      PartsStay(es, k, b, i - 1);
    }
  }

  lemma PartsOfNext(es: seq<Enriched>, k: nat, b: nat)
    requires b < k && Slice(es, k, b) != []
    ensures var s := Slice(es, k, b);
            && RttSeries(es, k, b + 1) ==
               RttSeries(es, k, b) + RttPart(Summary(s), ExtremePeak(es, false), ExtremePeak(es, true))
            && LossSeries(es, k, b + 1) == LossSeries(es, k, b) + [LossPoint(RepresentativeX(Summary(s)), LostCount(s), |s|)]
            && JitterSeries(es, k, b + 1) == JitterSeries(es, k, b) + [RttPoint(RepresentativeX(Summary(s)), Summary(s).jitter)]
  {
    hide RttPart, Summary, Slice, ExtremePeak, RepresentativeX, LostCount;
  }

  lemma PrefixPlace<T>(all: seq<T>, before: seq<T>, part: seq<T>)
    requires before + part <= all
    ensures |before| + |part| <= |all| && all[|before|..|before| + |part|] == part
  {
    assert (before + part)[|before|..] == part;
  }

  lemma BucketHasItsParts(es: seq<Enriched>, k: nat, b: nat)
    requires b < k && Bucket(es, k, b) != []
    ensures var s, r := Bucket(es, k, b), |RttSeries(es, k, b)|;
            var part := RttPart(Summary(s), ExtremePeak(es, false), ExtremePeak(es, true));
            r + |part| <= |RttSeries(es, k, k)| && RttSeries(es, k, k)[r..r + |part|] == part
    ensures var s, at := Bucket(es, k, b), |LossSeries(es, k, b)|;
            && at < |LossSeries(es, k, k)| && LossSeries(es, k, k)[at] == LossPoint(RepresentativeX(Summary(s)), LostCount(s), |s|)
    ensures var s, at := Bucket(es, k, b), |JitterSeries(es, k, b)|;
            at < |JitterSeries(es, k, k)| && JitterSeries(es, k, k)[at] == RttPoint(RepresentativeX(Summary(s)), Summary(s).jitter)
  {
    hide Bucket, Slice, RttPart, Summary, ExtremePeak, RepresentativeX, RttSeries, LossSeries, JitterSeries, LostCount;
    BucketIsSlice(es, k, b);
    var s := Slice(es, k, b);
    PartsOfNext(es, k, b);
    PartsStay(es, k, b + 1, k);
    PrefixPlace(RttSeries(es, k, k), RttSeries(es, k, b), RttPart(Summary(s), ExtremePeak(es, false), ExtremePeak(es, true)));
    PrefixPlace(LossSeries(es, k, k), LossSeries(es, k, b), [LossPoint(RepresentativeX(Summary(s)), LostCount(s), |s|)]);
    PrefixPlace(JitterSeries(es, k, k), JitterSeries(es, k, b), [RttPoint(RepresentativeX(Summary(s)), Summary(s).jitter)]);
  }

  /** In the line each bucket has its own stretch: its first extremes, with a gap at its first loss as Drawn says. */
  lemma LineDrawsTheBucket(es: seq<Enriched>, k: nat, b: nat, lo: nat, hi: nat, f: Option<nat>, gl: nat, gh: nat)
    requires b < k && Bucket(es, k, b) != []
    requires IsFirstExtreme(Bucket(es, k, b), false, Some(lo)) && IsFirstExtreme(Bucket(es, k, b), true, Some(hi))
    requires IsFirstLoss(Bucket(es, k, b), f)
    requires IsFirstExtreme(es, false, Some(gl)) && IsFirstExtreme(es, true, Some(gh))
    ensures var s, r := Bucket(es, k, b), |RttSeries(es, k, b)|;
            var part := Drawn(DownsampleKeeps.PointOf(s[lo].probe), DownsampleKeeps.PointOf(s[hi].probe),
                              if f == None then None else Some(RttPoint(s[f.value].probe.x, None)),
                              DownsampleKeeps.PointOf(es[gl].probe), DownsampleKeeps.PointOf(es[gh].probe));
            r + |part| <= |RttSeries(es, k, k)| && RttSeries(es, k, k)[r..r + |part|] == part
  {
    hide Bucket, RttPart, Summary, ExtremePeak, RepresentativeX, RttSeries, LossSeries, JitterSeries, LostCount, Drawn;
    BucketHasItsParts(es, k, b);
    PartIsDrawn(Bucket(es, k, b), es, lo, hi, f, gl, gh);
  }

  /** A bucket without a success is one gap at its last probe. */
  lemma LineDrawsTheLostBucket(es: seq<Enriched>, k: nat, b: nat)
    requires b < k && Bucket(es, k, b) != []
    requires forall i :: 0 <= i < |Bucket(es, k, b)| ==> Failed(Bucket(es, k, b)[i].probe)
    ensures var s, r := Bucket(es, k, b), |RttSeries(es, k, b)|;
            r < |RttSeries(es, k, k)| && RttSeries(es, k, k)[r] == RttPoint(s[|s| - 1].probe.x, None)
  {
    hide Bucket, RttPart, Summary, ExtremePeak, RepresentativeX, RttSeries, LossSeries, JitterSeries, LostCount;
    BucketHasItsParts(es, k, b);
    LostBucketIsDrawn(Bucket(es, k, b), ExtremePeak(es, false), ExtremePeak(es, true));
    var r := |RttSeries(es, k, b)|;
    assert RttSeries(es, k, k)[r] == RttSeries(es, k, k)[r..r + 1][0];
  }

  /** The other two series have one point a bucket, with its lost probes, its probes and the mean of its estimates. */
  lemma BucketIsCounted(es: seq<Enriched>, k: nat, b: nat)
    requires b < k && Bucket(es, k, b) != []
    ensures var s, at := Bucket(es, k, b), |LossSeries(es, k, b)|;
            && at < |LossSeries(es, k, k)|
            && LossSeries(es, k, k)[at].lossCount == |LostPlaces(s)| && LossSeries(es, k, k)[at].totalCount == |s|
    ensures var s, at := Bucket(es, k, b), |JitterSeries(es, k, b)|;
            && at < |JitterSeries(es, k, k)|
            && var y := JitterSeries(es, k, k)[at].y;
               && (y.Some? <==> EstimatePlaces(s) != {})
               && (y.Some? ==> y.value * |EstimatePlaces(s)| as real == Moments.Sum(Jitters(s)))
  {
    hide Bucket, RttPart, Summary, ExtremePeak, RepresentativeX, RttSeries, LossSeries, JitterSeries, LostCount, Jitters,
         EstimatePlaces, LostPlaces, Moments.Sum;
    BucketHasItsParts(es, k, b);
    JitterIsTheMean(Bucket(es, k, b));
    PlacesAreCounted(Bucket(es, k, b));
  }

  lemma JitterIsTheMean(es: seq<Enriched>)
    ensures var y := Summary(es).jitter;
            && (y.Some? <==> EstimatePlaces(es) != {})
            && (y.Some? ==> y.value * |EstimatePlaces(es)| as real == Moments.Sum(Jitters(es)))
  {
    PlacesAreCounted(es);
    hide EstimatePlaces, LostPlaces, Jitters, Moments.Sum, ExtremePeak, LostCount, FirstLossX;
    if Jitters(es) != [] {
      MeanUndone(Moments.Sum(Jitters(es)), |Jitters(es)|);
    }
  }

  lemma MeanUndone(sum: real, n: nat)
    requires n > 0
    ensures sum / n as real * n as real == sum
  {
  }
}
