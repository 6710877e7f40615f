/** What survives downsampling, for every width and loss pattern. */
module DownsampleKeeps {
  import opened Options
  import opened Buckets
  import opened Downsample

  function PointOf(p: ProbePoint): RttPoint
    requires !Failed(p)
  {
    RttPoint(p.x, p.rttMs)
  }

  // ---- Extremes ----

  lemma PartHasExtremes(s: BucketStats, minPoint: Option<Peak>, maxPoint: Option<Peak>)
    requires s.minRtt.Some? && s.maxRtt.Some?
    ensures s.minRtt == minPoint ==> RttPoint(minPoint.value.x, Some(minPoint.value.rtt)) in RttPart(s, minPoint, maxPoint)
    ensures s.maxRtt == maxPoint ==> RttPoint(maxPoint.value.x, Some(maxPoint.value.rtt)) in RttPart(s, minPoint, maxPoint)
  {
  }

  lemma ExtremeOfPart(es: seq<Enriched>, lo: nat, hi: nat, up: bool, g: nat)
    requires lo <= g < hi <= |es| && ExtremeAt(es, up) == Some(g)
    ensures ExtremeAt(es[lo..hi], up) == Some(g - lo)
  {
    hide ExtremeAt;
    var s := es[lo..hi];
    ExtremeIsFirst(es, up);
    ExtremeIsFirst(s, up);
    assert forall i :: 0 <= i < |s| ==> s[i] == es[lo + i];
    FirstExtremeIsUnique(s, up, ExtremeAt(s, up), Some(g - lo));
  }

  /** The bucket that holds the global extreme finds it as its own. */
  lemma ExtremeOfSlice(es: seq<Enriched>, k: nat, b: nat, up: bool, g: nat)
    requires 0 < k && b < k && ExtremeAt(es, up) == Some(g)
    requires Boundary(b, |es|, k) <= g < Boundary(b + 1, |es|, k)
    ensures ExtremePeak(Slice(es, k, b), up) == ExtremePeak(es, up)
  {
    hide Boundary;
    BucketFits(b, |es|, k);
    var s, lo := Slice(es, k, b), Boundary(b, |es|, k);
    ExtremeOfPart(es, lo, Boundary(b + 1, |es|, k), up, g);
    assert s[g - lo] == es[g];
  }

  lemma {:induction false} PartInSeries(es: seq<Enriched>, k: nat, i: nat, b: nat)
    requires 0 < k && b < i <= k && Slice(es, k, b) != []
    ensures forall pt :: pt in RttPart(Summary(Slice(es, k, b)), ExtremePeak(es, false), ExtremePeak(es, true)) ==>
              pt in RttSeries(es, k, i)
  {
    hide RttPart, Summary, Slice, ExtremePeak;
    if b < i - 1 {
      PartInSeries(es, k, i - 1, b);
    }
  }

  /** If any probe succeeded, the line contains the first probe with the least round trip and the first with
      the greatest. */
  lemma ExtremesAreKept(es: seq<Enriched>, k: nat, up: bool)
    requires 0 < k && ExtremeAt(es, up).Some?
    ensures PointOf(es[ExtremeAt(es, up).value].probe) in RttSeries(es, k, k)
  {
    var g := ExtremeAt(es, up).value;
    Ends(|es|, k);
    var b := BucketOf(g, k, |es|, k);
    BucketFits(b, |es|, k);
    var s := Slice(es, k, b);
    ExtremeOfSlice(es, k, b, up, g);
    BothExtremes(s, up);
    SummaryCounts(s);
    PartHasExtremes(Summary(s), ExtremePeak(es, false), ExtremePeak(es, true));
    PartInSeries(es, k, k, b);
  }

  lemma BothExtremes(es: seq<Enriched>, up: bool)
    requires ExtremePeak(es, up).Some?
    ensures ExtremePeak(es, !up).Some?
  {
    ExtremeIsFirst(es, up);
    ExtremeIsFirst(es, !up);
  }

  // ---- Only real probes, and a gap for every lossy bucket ----

  /** A point with a value shows a successful probe, a gap shows a lost one, each at that probe's own x. */
  predicate Draws(pt: RttPoint, p: ProbePoint) {
    pt == if Failed(p) then RttPoint(p.x, None) else PointOf(p)
  }

  ghost predicate IsRealProbe(pt: RttPoint, es: seq<Enriched>) {
    exists i :: 0 <= i < |es| && Draws(pt, es[i].probe)
  }

  lemma {:induction false} FirstLossIsLost(es: seq<Enriched>)
    ensures FirstLossX(es).Some? ==> exists j :: 0 <= j < |es| && Failed(es[j].probe) && FirstLossX(es).value == es[j].probe.x
    ensures LostCount(es) > 0 ==> FirstLossX(es).Some?
  {
    if es != [] {
      FirstLossIsLost(es[..|es| - 1]);
    }
  }

  lemma PeakIsDrawn(es: seq<Enriched>, up: bool)
    requires ExtremePeak(es, up).Some?
    ensures var p := ExtremePeak(es, up).value; IsRealProbe(RttPoint(p.x, Some(p.rtt)), es)
  {
    var p := ExtremePeak(es, up).value;
    assert Draws(RttPoint(p.x, Some(p.rtt)), es[ExtremeAt(es, up).value].probe);
  }

  lemma LossIsDrawn(es: seq<Enriched>)
    requires es != [] && (LostCount(es) > 0 || ExtremePeak(es, false) == None || ExtremePeak(es, true) == None)
    ensures LostCount(es) > 0 ==> IsRealProbe(RttPoint(FirstLossX(es).GetOr(Summary(es).lastX), None), es)
    ensures ExtremePeak(es, false) == None || ExtremePeak(es, true) == None ==> IsRealProbe(RttPoint(Summary(es).lastX, None), es)
  {
    FirstLossIsLost(es);
    if LostCount(es) > 0 {
      var j :| 0 <= j < |es| && Failed(es[j].probe) && FirstLossX(es).value == es[j].probe.x;
      assert Draws(RttPoint(FirstLossX(es).value, None), es[j].probe);
    }
    if ExtremePeak(es, false) == None || ExtremePeak(es, true) == None {
      ExtremeIsFirst(es, false);
      ExtremeIsFirst(es, true);
      assert Draws(RttPoint(Summary(es).lastX, None), es[|es| - 1].probe);
    }
  }

  lemma PartIsReal(es: seq<Enriched>, minPoint: Option<Peak>, maxPoint: Option<Peak>)
    requires es != []
    ensures forall pt :: pt in RttPart(Summary(es), minPoint, maxPoint) ==> IsRealProbe(pt, es)
  {
    hide IsRealProbe, FirstLossX, ExtremePeak, LostCount;
    if ExtremePeak(es, false).Some? { PeakIsDrawn(es, false); }
    if ExtremePeak(es, true).Some? { PeakIsDrawn(es, true); }
    if LostCount(es) > 0 || ExtremePeak(es, false) == None || ExtremePeak(es, true) == None { LossIsDrawn(es); }
  }

  /** The line draws nothing but probes of the input: values at successful ones and gaps at lost ones. */
  lemma {:induction false} EveryPointIsReal(es: seq<Enriched>, k: nat, i: nat)
    requires 0 < k && i <= k
    ensures forall pt :: pt in RttSeries(es, k, i) ==> IsRealProbe(pt, es)
  {
    hide Boundary, RttPart, Summary, ExtremePeak;
    if i > 0 {
      EveryPointIsReal(es, k, i - 1);
      BucketFits(i - 1, |es|, k);
      var s := Slice(es, k, i - 1);
      if s != [] {
        PartIsReal(s, ExtremePeak(es, false), ExtremePeak(es, true));
        PartOfReal(es, Boundary(i - 1, |es|, k), Boundary(i, |es|, k));
      }
    }
  }

  lemma PartOfReal(es: seq<Enriched>, lo: nat, hi: nat)
    requires lo <= hi <= |es|
    ensures forall pt :: IsRealProbe(pt, es[lo..hi]) ==> IsRealProbe(pt, es)
  {
    var s := es[lo..hi];
    forall pt | IsRealProbe(pt, s) ensures IsRealProbe(pt, es) {
      var j :| 0 <= j < |s| && Draws(pt, s[j].probe);
      assert s[j] == es[lo + j];
    }
  }

  lemma {:induction false} AllLost(es: seq<Enriched>)
    ensures LostCount(es) <= |es|
    ensures LostCount(es) == 0 <==> forall i :: 0 <= i < |es| ==> !Failed(es[i].probe)
    ensures LostCount(es) == |es| <==> forall i :: 0 <= i < |es| ==> Failed(es[i].probe)
  {
    if es != [] {
      AllLost(es[..|es| - 1]);
    }
  }

  /** A bucket leaves a gap in the line exactly when it has a loss and does not hold both global extremes. */
  lemma GapsShowLosses(es: seq<Enriched>, minPoint: Option<Peak>, maxPoint: Option<Peak>)
    requires es != []
    ensures var s := Summary(es);
            (exists pt :: pt in RttPart(s, minPoint, maxPoint) && pt.y == None) <==>
            s.lossCount > 0 && !(s.minRtt.Some? && s.minRtt == minPoint && s.maxRtt == maxPoint)
  {
    var s := Summary(es);
    var part := RttPart(s, minPoint, maxPoint);
    AllLost(es);
    ExtremeIsFirst(es, false);
    ExtremeIsFirst(es, true);
    if s.minRtt == None || s.maxRtt == None {
      assert part[0].y == None;
    } else if s.lossCount > 0 && !(s.minRtt == minPoint && s.maxRtt == maxPoint) {
      assert part[1].y == None;
    }
  }

  // ---- The buckets tile the input ----

  function TotalCounts(points: seq<LossPoint>): nat {
    if points == [] then 0 else TotalCounts(points[..|points| - 1]) + points[|points| - 1].totalCount
  }

  function LossCounts(points: seq<LossPoint>): nat {
    if points == [] then 0 else LossCounts(points[..|points| - 1]) + points[|points| - 1].lossCount
  }

  lemma {:induction false} LostCountAppend(a: seq<Enriched>, b: seq<Enriched>)
    ensures LostCount(a + b) == LostCount(a) + LostCount(b)
  {
    if b == [] {
      assert a + b == a;
    } else {
      assert (a + b)[..|a + b| - 1] == a + b[..|b| - 1];
      LostCountAppend(a, b[..|b| - 1]);
    }
  }

  lemma {:induction false} CountsUpTo(es: seq<Enriched>, k: nat, i: nat)
    requires 0 < k && i <= k && Boundary(i, |es|, k) <= |es|
    ensures TotalCounts(LossSeries(es, k, i)) == Boundary(i, |es|, k)
    ensures LossCounts(LossSeries(es, k, i)) == LostCount(es[..Boundary(i, |es|, k)])
    ensures |LossSeries(es, k, i)| == |JitterSeries(es, k, i)| == Occupied(i, |es|, k)
    ensures |LossSeries(es, k, i)| <= |RttSeries(es, k, i)| <= 2 * |LossSeries(es, k, i)|
  {
    hide Boundary, ExtremePeak, Summary, RepresentativeX, RttPart;
    if i == 0 {
      Ends(|es|, k);
    } else {
      var n := |es|;
      BucketFits(i - 1, n, k);
      CountsUpTo(es, k, i - 1);
      var lo, hi, s := Boundary(i - 1, n, k), Boundary(i, n, k), Slice(es, k, i - 1);
      assert es[..hi] == es[..lo] + s;
      LostCountAppend(es[..lo], s);
      assert |s| == hi - lo;
      if s == [] {
        assert LossSeries(es, k, i) == LossSeries(es, k, i - 1);
      } else {
        PartLength(Summary(s), ExtremePeak(es, false), ExtremePeak(es, true));
        OneMorePoint(LossSeries(es, k, i - 1), LossPoint(RepresentativeX(Summary(s)), LostCount(s), |s|));
      }
    }
  }

  lemma PartLength(s: BucketStats, minPoint: Option<Peak>, maxPoint: Option<Peak>)
    ensures 1 <= |RttPart(s, minPoint, maxPoint)| <= 2
  {
  }

  lemma OneMorePoint(points: seq<LossPoint>, pt: LossPoint)
    ensures TotalCounts(points + [pt]) == TotalCounts(points) + pt.totalCount
    ensures LossCounts(points + [pt]) == LossCounts(points) + pt.lossCount
  {
    assert (points + [pt])[..|points|] == points;
  }

  /** Nothing is dropped or counted twice: min(n, k) loss points, whose totals are the input's. */
  lemma BucketsTileTheInput(es: seq<Enriched>, k: nat)
    requires 0 < k
    ensures |LossSeries(es, k, k)| == |JitterSeries(es, k, k)| == if |es| < k then |es| else k
    ensures |RttSeries(es, k, k)| <= 2 * if |es| < k then |es| else k
    ensures TotalCounts(LossSeries(es, k, k)) == |es|
    ensures LossCounts(LossSeries(es, k, k)) == LostCount(es)
  {
    Ends(|es|, k);
    CountsUpTo(es, k, k);
    OccupiedTotal(|es|, k);
    assert es[..|es|] == es;
  }

  // ---- Order along the x axis ----

  ghost predicate AscendingX(es: seq<Enriched>) {
    forall i, j :: 0 <= i <= j < |es| ==> es[i].probe.x <= es[j].probe.x
  }

  /** A bucket's loss and jitter points stand at its first greatest round trip, or, if all its probes were lost, at
      the first of them. */
  lemma DrawnAtThePeak(es: seq<Enriched>)
    requires es != []
    ensures RepresentativeX(Summary(es)) == es[ExtremeAt(es, true).GetOr(0)].probe.x
  {
    if ExtremeAt(es, true) == None {
      ExtremeIsFirst(es, true);
      FirstOfAllLost(es);
    }
  }

  lemma {:induction false} FirstOfAllLost(es: seq<Enriched>)
    requires es != [] && forall i :: 0 <= i < |es| ==> Failed(es[i].probe)
    ensures FirstLossX(es) == Some(es[0].probe.x)
  {
    if |es| > 1 {
      FirstOfAllLost(es[..|es| - 1]);
    } else {
      assert es[..0] == [];
    }
  }

  lemma DrawnInside(es: seq<Enriched>)
    requires es != []
    ensures exists j :: 0 <= j < |es| && RepresentativeX(Summary(es)) == es[j].probe.x
  {
    DrawnAtThePeak(es);
  }

  ghost predicate DrawnBefore(es: seq<Enriched>, x: real, end: nat) {
    exists j :: 0 <= j < |es| && j < end && x == es[j].probe.x
  }

  /** Loss and jitter points never step back along the x axis when the probes do not. */
  lemma {:induction false} SeriesAscends(es: seq<Enriched>, k: nat, i: nat)
    requires 0 < k && i <= k && AscendingX(es)
    ensures forall a, b :: 0 <= a <= b < |LossSeries(es, k, i)| ==> LossSeries(es, k, i)[a].x <= LossSeries(es, k, i)[b].x
    ensures forall a :: 0 <= a < |LossSeries(es, k, i)| ==>
              DrawnBefore(es, LossSeries(es, k, i)[a].x, Boundary(i, |es|, k))
    ensures |JitterSeries(es, k, i)| == |LossSeries(es, k, i)|
    ensures forall a :: 0 <= a < |LossSeries(es, k, i)| ==> JitterSeries(es, k, i)[a].x == LossSeries(es, k, i)[a].x
  {
    hide Boundary, ExtremePeak, Summary, RepresentativeX, DrawnBefore;
    if i > 0 {
      BucketFits(i - 1, |es|, k);
      SeriesAscends(es, k, i - 1);
      var before, s := LossSeries(es, k, i - 1), Slice(es, k, i - 1);
      forall a | 0 <= a < |before|
        ensures DrawnBefore(es, before[a].x, Boundary(i, |es|, k))
      {
        StillDrawnBefore(es, before[a].x, Boundary(i - 1, |es|, k), Boundary(i, |es|, k));
      }
      if s != [] {
        var x := RepresentativeX(Summary(s));
        BucketDrawnWithin(es, k, i);
        forall a | 0 <= a < |before|
          ensures before[a].x <= x
        {
          DrawnInOrder(es, before[a].x, x, Boundary(i - 1, |es|, k), Boundary(i, |es|, k));
        }
      }
    }
  }

  lemma StillDrawnBefore(es: seq<Enriched>, x: real, end: nat, later: nat)
    requires DrawnBefore(es, x, end) && end <= later
    ensures DrawnBefore(es, x, later)
  {
  }

  ghost predicate DrawnFrom(es: seq<Enriched>, x: real, start: nat, end: nat) {
    exists j :: 0 <= j < |es| && start <= j < end && x == es[j].probe.x
  }

  lemma BucketDrawnWithin(es: seq<Enriched>, k: nat, i: nat)
    requires 0 < i <= k && Slice(es, k, i - 1) != []
    ensures var x := RepresentativeX(Summary(Slice(es, k, i - 1)));
            DrawnFrom(es, x, Boundary(i - 1, |es|, k), Boundary(i, |es|, k)) && DrawnBefore(es, x, Boundary(i, |es|, k))
  {
    hide Boundary, Summary, RepresentativeX;
    BucketFits(i - 1, |es|, k);
    var s, lo := Slice(es, k, i - 1), Boundary(i - 1, |es|, k);
    DrawnInside(s);
    var j :| 0 <= j < |s| && RepresentativeX(Summary(s)) == s[j].probe.x;
    assert s[j] == es[lo + j];
  }

  lemma DrawnInOrder(es: seq<Enriched>, x: real, y: real, start: nat, end: nat)
    requires AscendingX(es) && DrawnBefore(es, x, start) && DrawnFrom(es, y, start, end)
    ensures x <= y
  {
  }

}
