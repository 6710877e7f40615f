/** The incremental statistics of a running ping session. */
module Stats {
  import opened Options
  import opened Moments

  type Duration = seconds: real | 0.0 <= seconds

  datatype ProbeOutcome = Rtt(rtt: Duration) | Timeout | Error(message: string)

  datatype ProbeRecord = ProbeRecord(seqNo: nat, outcome: ProbeOutcome, at: int)

  /** All aggregates at one point in time; variance stands for the square of the reported deviation. */
  datatype Snapshot = Snapshot(
    count: nat,
    lossCount: nat,
    lossFraction: real,
    minMs: Option<real>,
    avgMs: Option<real>,
    maxMs: Option<real>,
    variance: Option<real>,
    jitterMs: Option<real>)

  function Ms(rtt: Duration): real {
    rtt * 1000.0
  }

  function OutcomesOf(history: seq<ProbeRecord>): seq<ProbeOutcome> {
    seq(|history|, i requires 0 <= i < |history| => history[i].outcome)
  }

  // ---- What the aggregates mean, computed from the whole history ----

  function Rtts(outcomes: seq<ProbeOutcome>): seq<real> {
    if outcomes == [] then []
    else
      var last := outcomes[|outcomes| - 1];
      Rtts(outcomes[..|outcomes| - 1]) + if last.Rtt? then [Ms(last.rtt)] else []
  }

  function Losses(outcomes: seq<ProbeOutcome>): nat {
    if outcomes == [] then 0
    else Losses(outcomes[..|outcomes| - 1]) + if outcomes[|outcomes| - 1].Rtt? then 0 else 1
  }

  function LastRtt(outcomes: seq<ProbeOutcome>): Option<real> {
    if outcomes != [] && outcomes[|outcomes| - 1].Rtt? then Some(Ms(outcomes[|outcomes| - 1].rtt)) else None
  }

  /** |D| of every two neighbouring successful probes; a loss in between contributes nothing. */
  function AdjacentDeltas(outcomes: seq<ProbeOutcome>): seq<real> {
    if |outcomes| < 2 then []
    else
      var a, b := outcomes[|outcomes| - 2], outcomes[|outcomes| - 1];
      AdjacentDeltas(outcomes[..|outcomes| - 1]) + if a.Rtt? && b.Rtt? then [Abs(Ms(b.rtt) - Ms(a.rtt))] else []
  }

  /** The estimator of RFC 3550, appendix A.8: J += (|D| - J) / 16, from zero. */
  function Smoothed(deltas: seq<real>): real {
    if deltas == [] then 0.0
    else
      var j := Smoothed(deltas[..|deltas| - 1]);
      j + (deltas[|deltas| - 1] - j) / 16.0
  }

  function Jitter(deltas: seq<real>): Option<real> {
    if deltas == [] then None else Some(Smoothed(deltas))
  }

  function Fraction(part: nat, whole: nat): real {
    if whole == 0 then 0.0 else part as real / whole as real
  }

  ghost predicate Describes(snap: Snapshot, count: nat, losses: nat, rtts: seq<real>) {
    && snap.count == count
    && snap.lossCount == losses
    && snap.lossFraction == Fraction(losses, count)
    && IsMinimum(snap.minMs, rtts)
    && IsMaximum(snap.maxMs, rtts)
    && snap.avgMs == (if rtts == [] then None else Some(Mean(rtts)))
    && snap.variance == (if rtts == [] then None else Some(Variance(rtts)))
  }

  class StatsEngine {
    var history: seq<ProbeRecord>
    var count: nat
    var lossCount: nat
    var rttCount: nat
    var minMs: Option<real>
    var maxMs: Option<real>
    var meanMs: real
    var m2Ms: real
    var jitterMs: Option<real>
    var lastRttMs: Option<real>

    ghost function Outcomes(): (outcomes: seq<ProbeOutcome>)
      reads `history
    {
      OutcomesOf(history)
    }

    /** The constant-size aggregates are what a second pass over outcomes would compute. */
    ghost predicate Aggregates(outcomes: seq<ProbeOutcome>)
      reads `rttCount, `meanMs, `m2Ms, `minMs, `maxMs, `jitterMs, `lastRttMs
    {
      && rttCount == |Rtts(outcomes)|
      && meanMs == Mean(Rtts(outcomes))
      && m2Ms == SquaredDeviations(Rtts(outcomes), meanMs)
      && IsMinimum(minMs, Rtts(outcomes))
      && IsMaximum(maxMs, Rtts(outcomes))
      && jitterMs == Jitter(AdjacentDeltas(outcomes))
      && lastRttMs == LastRtt(outcomes)
    }

    ghost predicate Valid()
      reads this
    {
      && count == |history|
      && lossCount == Losses(Outcomes())
      && Aggregates(Outcomes())
      && forall i :: 0 <= i < |history| ==> history[i].seqNo == i + 1
    }

    constructor ()
      ensures Valid() && history == []
    {
      history := [];
      count, lossCount, rttCount := 0, 0, 0;
      minMs, maxMs, jitterMs, lastRttMs := None, None, None, None;
      meanMs, m2Ms := 0.0, 0.0;
    }

    method Feed(outcome: ProbeOutcome, at: int)
      requires Valid()
      modifies this
      ensures Valid()
      ensures history == old(history) + [ProbeRecord(old(|history|) + 1, outcome, at)]
      ensures Outcomes() == old(Outcomes()) + [outcome]
    {
      hide Mean, SquaredDeviations, IsMinimum, IsMaximum, Rtts, Losses, LastRtt, AdjacentDeltas, Jitter;
      ghost var before := Outcomes();
      count := count + 1;
      var seqNo := count;
      match outcome {
        case Rtt(rtt) =>
          FeedRtt(Ms(rtt), before, rtt);
        case _ =>
          FeedLoss(before, outcome);
      }
      history := history + [ProbeRecord(seqNo, outcome, at)];
      assert OutcomesOf(history) == before + [outcome];
    }

    method FeedLoss(ghost before: seq<ProbeOutcome>, ghost outcome: ProbeOutcome)
      requires Aggregates(before) && lossCount == Losses(before) && !outcome.Rtt?
      modifies `lossCount, `lastRttMs
      ensures Aggregates(before + [outcome]) && lossCount == Losses(before + [outcome])
    {
      hide Mean, SquaredDeviations, IsMinimum, IsMaximum, Rtts, Losses, LastRtt, AdjacentDeltas, Jitter;
      OneMore(before, outcome);
      lossCount := lossCount + 1;
      // The next success starts a new pair instead of differing across the gap.
      lastRttMs := None;
    }

    method FeedRtt(ms: real, ghost before: seq<ProbeOutcome>, ghost rtt: Duration)
      requires Aggregates(before) && lossCount == Losses(before) && ms == Ms(rtt)
      modifies `rttCount, `meanMs, `m2Ms, `minMs, `maxMs, `jitterMs, `lastRttMs
      ensures Aggregates(before + [Rtt(rtt)]) && lossCount == Losses(before + [Rtt(rtt)])
    {
      hide Mean, SquaredDeviations, IsMinimum, IsMaximum, Rtts, Losses, LastRtt, AdjacentDeltas, Jitter;
      ghost var rtts := Rtts(before);
      OneMore(before, Rtt(rtt));
      rttCount := rttCount + 1;
      meanMs, m2Ms := Welford(rtts, rttCount, meanMs, m2Ms, ms);
      ExtremeStep(minMs, rtts, ms);
      ExtremeStep(maxMs, rtts, ms);
      minMs := Some(match minMs case None => ms case Some(m) => if ms < m then ms else m);
      maxMs := Some(match maxMs case None => ms case Some(m) => if ms > m then ms else m);
      if lastRttMs.Some? {
        var d := Abs(ms - lastRttMs.value);
        jitterMs := Smooth(AdjacentDeltas(before), jitterMs, d);
      }
      lastRttMs := Some(ms);
    }

    method TakeSnapshot() returns (snap: Snapshot)
      requires Valid()
      ensures Describes(snap, |history|, Losses(Outcomes()), Rtts(Outcomes()))
      ensures snap.jitterMs == Jitter(AdjacentDeltas(Outcomes()))
    {
      var hasRtt := rttCount > 0;
      var lossFraction := if count == 0 then 0.0 else lossCount as real / count as real;
      snap := Snapshot(count, lossCount, lossFraction, minMs,
                       if hasRtt then Some(meanMs) else None, maxMs,
                       if hasRtt then Some(m2Ms / rttCount as real) else None, jitterMs);
    }
  }

  /** One pass of Welford's update; n already counts ms. */
  method Welford(ghost rtts: seq<real>, n: nat, mean: real, m2: real, ms: real) returns (next: real, next2: real)
    requires n == |rtts| + 1
    requires mean == Mean(rtts) && m2 == SquaredDeviations(rtts, mean)
    ensures next == Mean(rtts + [ms])
    ensures next2 == SquaredDeviations(rtts + [ms], next)
  {
    var delta := ms - mean;
    next := mean + delta / n as real;
    var delta2 := ms - next;
    next2 := m2 + delta * delta2;
    WelfordUpdate(rtts, ms, n, mean, m2, next, next2);
  }

  method Smooth(ghost deltas: seq<real>, jitter: Option<real>, d: real) returns (next: Option<real>)
    requires jitter == Jitter(deltas)
    ensures next == Jitter(deltas + [d])
  {
    var j := jitter.GetOr(0.0);
    next := Some(j + (d - j) / 16.0);
    JitterStep(deltas, d);
  }

  lemma OneMore(outcomes: seq<ProbeOutcome>, outcome: ProbeOutcome)
    ensures var more := outcomes + [outcome];
            if outcome.Rtt? then
              && Rtts(more) == Rtts(outcomes) + [Ms(outcome.rtt)]
              && Losses(more) == Losses(outcomes)
              && LastRtt(more) == Some(Ms(outcome.rtt))
              && AdjacentDeltas(more) == (match LastRtt(outcomes)
                                          case None => AdjacentDeltas(outcomes)
                                          case Some(prev) => AdjacentDeltas(outcomes) + [Abs(Ms(outcome.rtt) - prev)])
            else
              && Rtts(more) == Rtts(outcomes)
              && Losses(more) == Losses(outcomes) + 1
              && LastRtt(more) == None
              && AdjacentDeltas(more) == AdjacentDeltas(outcomes)
  {
    assert (outcomes + [outcome])[..|outcomes|] == outcomes;
  }

  lemma JitterStep(deltas: seq<real>, d: real)
    ensures Jitter(deltas + [d]) == Some(Jitter(deltas).GetOr(0.0) + (d - Jitter(deltas).GetOr(0.0)) / 16.0)
  {
    var more := deltas + [d];
    assert more[..|more| - 1] == deltas;
    assert Smoothed(deltas) == Jitter(deltas).GetOr(0.0);
  }

  // ---- Properties of the definitions ----

  /** The estimate keeps fifteen sixteenths and takes one sixteenth of the new difference. */
  lemma JitterKeepsFifteenSixteenths(deltas: seq<real>, d: real)
    ensures Jitter([]) == None
    ensures Jitter(deltas + [d]).Some?
    ensures 16.0 * Jitter(deltas + [d]).value == 15.0 * Jitter(deltas).GetOr(0.0) + d
  {
    JitterStep(deltas, d);
  }

  ghost function LossPlaces(outcomes: seq<ProbeOutcome>): set<int> {
    set i | 0 <= i < |outcomes| && !outcomes[i].Rtt?
  }

  lemma LossPlacesOfPrefix(outcomes: seq<ProbeOutcome>)
    requires outcomes != []
    ensures var n := |outcomes| - 1;
            && LossPlaces(outcomes) == LossPlaces(outcomes[..n]) + (if outcomes[n].Rtt? then {} else {n})
            && n !in LossPlaces(outcomes[..n])
  {
  }

  lemma {:induction false} LossesAreCounted(outcomes: seq<ProbeOutcome>)
    ensures Losses(outcomes) == |LossPlaces(outcomes)|
  {
    if outcomes == [] {
      assert LossPlaces(outcomes) == {};
    } else {
      LossesAreCounted(outcomes[..|outcomes| - 1]);
      LossPlacesOfPrefix(outcomes);
      hide LossPlaces;
    }
  }

  /** Each success has its place among the round trips, counted in milliseconds, in order. */
  lemma {:induction false} RttsAreMilliseconds(outcomes: seq<ProbeOutcome>, i: nat)
    requires i < |outcomes| && outcomes[i].Rtt?
    ensures 0 <= i - Losses(outcomes[..i]) < |Rtts(outcomes)|
    ensures Rtts(outcomes)[i - Losses(outcomes[..i])] == 1000.0 * outcomes[i].rtt
  {
    var n := |outcomes| - 1;
    SuccessesAndLosses(outcomes[..i]);
    if i < n {
      RttsAreMilliseconds(outcomes[..n], i);
      assert outcomes[..n][..i] == outcomes[..i];
    }
  }

  /** Every probe is either a success or a loss. */
  lemma {:induction false} SuccessesAndLosses(outcomes: seq<ProbeOutcome>)
    ensures |Rtts(outcomes)| + Losses(outcomes) == |outcomes|
  {
    if outcomes != [] {
      SuccessesAndLosses(outcomes[..|outcomes| - 1]);
    }
  }

  lemma Undone(a: real, n: nat)
    requires n > 0
    ensures a / n as real * n as real == a
  {
  }

  /** What a snapshot says of the outcomes, with every division undone. */
  lemma SnapshotUndivided(snap: Snapshot, outcomes: seq<ProbeOutcome>)
    requires Describes(snap, |outcomes|, Losses(outcomes), Rtts(outcomes))
    ensures snap.count == |outcomes| && snap.lossCount == |LossPlaces(outcomes)| <= snap.count
    ensures snap.lossFraction * snap.count as real == snap.lossCount as real
    ensures snap.avgMs.Some? == snap.variance.Some? == (snap.lossCount < snap.count)
    ensures snap.avgMs.Some? ==>
              && snap.avgMs.value * (snap.count - snap.lossCount) as real == Sum(Rtts(outcomes))
              && snap.variance.value * (snap.count - snap.lossCount) as real ==
                 SquaredDeviations(Rtts(outcomes), snap.avgMs.value)
  {
    hide IsMinimum, IsMaximum, Sum, SquaredDeviations, LossPlaces, Losses, Rtts;
    LossesAreCounted(outcomes);
    SuccessesAndLosses(outcomes);
    var rtts := Rtts(outcomes);
    if outcomes != [] {
      Undone(snap.lossCount as real, |outcomes|);
    }
    if rtts != [] {
      Undone(Sum(rtts), |rtts|);
      Undone(SquaredDeviations(rtts, Mean(rtts)), |rtts|);
    }
  }

  /** The extremes bound every round trip and are two of them. */
  lemma ExtremesAreReached(snap: Snapshot, outcomes: seq<ProbeOutcome>, i: nat)
    requires Describes(snap, |outcomes|, Losses(outcomes), Rtts(outcomes)) && i < |outcomes| && outcomes[i].Rtt?
    ensures snap.minMs.Some? && snap.maxMs.Some?
    ensures snap.minMs.value <= 1000.0 * outcomes[i].rtt <= snap.maxMs.value
    ensures snap.minMs.value in Rtts(outcomes) && snap.maxMs.value in Rtts(outcomes)
  {
    hide Losses, Rtts, Mean, Variance;
    RttsAreMilliseconds(outcomes, i);
    assert Rtts(outcomes)[i - Losses(outcomes[..i])] in Rtts(outcomes);
  }

  ghost predicate AdjacentSuccesses(outcomes: seq<ProbeOutcome>, i: int) {
    0 <= i < |outcomes| - 1 && outcomes[i].Rtt? && outcomes[i + 1].Rtt?
  }

  /** There is a jitter estimate exactly when two successful probes are neighbours. */
  lemma {:induction false} JitterExists(outcomes: seq<ProbeOutcome>)
    ensures Jitter(AdjacentDeltas(outcomes)).Some? <==> exists i :: AdjacentSuccesses(outcomes, i)
  {
    if |outcomes| >= 2 {
      var n := |outcomes| - 1;
      var init := outcomes[..n];
      JitterExists(init);
      assert AdjacentSuccesses(outcomes, n - 1) <==> outcomes[n - 1].Rtt? && outcomes[n].Rtt?;
      assert forall i :: i < n - 1 ==> (AdjacentSuccesses(outcomes, i) <==> AdjacentSuccesses(init, i));
      assert forall i :: AdjacentSuccesses(outcomes, i) ==> i <= n - 1;
      assert forall i :: AdjacentSuccesses(init, i) ==> i < n - 1;
    }
  }

  ghost function Pairs(outcomes: seq<ProbeOutcome>): set<int> {
    set i | 0 <= i < |outcomes| && AdjacentSuccesses(outcomes, i)
  }

  lemma PairsOfPrefix(outcomes: seq<ProbeOutcome>)
    requires |outcomes| >= 2
    ensures var n := |outcomes| - 1;
            && Pairs(outcomes) == Pairs(outcomes[..n]) + (if AdjacentSuccesses(outcomes, n - 1) then {n - 1} else {})
            && n - 1 !in Pairs(outcomes[..n])
  {
  }

  lemma {:induction false} DeltasAreCounted(outcomes: seq<ProbeOutcome>)
    ensures |AdjacentDeltas(outcomes)| == |Pairs(outcomes)|
  {
    if |outcomes| < 2 {
      assert Pairs(outcomes) == {};
    } else {
      DeltasAreCounted(outcomes[..|outcomes| - 1]);
      PairsOfPrefix(outcomes);
      hide Pairs;
    }
  }

  /** Each two neighbouring successes, and nothing else, give one difference, in milliseconds and in order. */
  lemma {:induction false} DeltasAreOfNeighbours(outcomes: seq<ProbeOutcome>, i: nat)
    requires i + 1 < |outcomes| && outcomes[i].Rtt? && outcomes[i + 1].Rtt?
    ensures |AdjacentDeltas(outcomes)| == |Pairs(outcomes)|
    ensures var k, d := |Pairs(outcomes[..i + 1])|, 1000.0 * outcomes[i + 1].rtt - 1000.0 * outcomes[i].rtt;
            && k < |AdjacentDeltas(outcomes)|
            && AdjacentDeltas(outcomes)[k] == if d < 0.0 then -d else d
  {
    DeltasAreCounted(outcomes);
    var n := |outcomes| - 1;
    hide Pairs;
    if i + 1 == n {
      DeltasAreCounted(outcomes[..n]);
    } else {
      DeltasAreOfNeighbours(outcomes[..n], i);
      assert outcomes[..n][..i + 1] == outcomes[..i + 1];
    }
  }

  lemma {:induction false} RttsCovers(outcomes: seq<ProbeOutcome>, i: nat)
    requires i < |outcomes| && outcomes[i].Rtt?
    ensures Ms(outcomes[i].rtt) in Rtts(outcomes)
  {
    if i < |outcomes| - 1 {
      RttsCovers(outcomes[..|outcomes| - 1], i);
    }
  }

  lemma {:induction false} DeltasBounded(outcomes: seq<ProbeOutcome>, lo: real, hi: real)
    requires forall i :: 0 <= i < |outcomes| && outcomes[i].Rtt? ==> lo <= Ms(outcomes[i].rtt) <= hi
    ensures forall k :: 0 <= k < |AdjacentDeltas(outcomes)| ==> 0.0 <= AdjacentDeltas(outcomes)[k] <= hi - lo
  {
    if |outcomes| >= 2 {
      DeltasBounded(outcomes[..|outcomes| - 1], lo, hi);
    }
  }

  lemma {:induction false} SmoothedBounded(deltas: seq<real>, hi: real)
    requires 0.0 <= hi
    requires forall k :: 0 <= k < |deltas| ==> 0.0 <= deltas[k] <= hi
    ensures 0.0 <= Smoothed(deltas) <= hi
  {
    if deltas != [] {
      SmoothedBounded(deltas[..|deltas| - 1], hi);
    }
  }

  /** The estimate never leaves the range that the observed round trips span. */
  lemma JitterWithinSpread(outcomes: seq<ProbeOutcome>, lo: real, hi: real)
    requires IsMinimum(Some(lo), Rtts(outcomes)) && IsMaximum(Some(hi), Rtts(outcomes))
    ensures Jitter(AdjacentDeltas(outcomes)).Some? ==> 0.0 <= Jitter(AdjacentDeltas(outcomes)).value <= hi - lo
  {
    forall i | 0 <= i < |outcomes| && outcomes[i].Rtt?
      ensures lo <= Ms(outcomes[i].rtt) <= hi
    {
      RttsCovers(outcomes, i);
    }
    DeltasBounded(outcomes, lo, hi);
    SmoothedBounded(AdjacentDeltas(outcomes), hi - lo);
  }
}
