/** Turning byte counters into bit rates, and back. */
module CounterRates {
  import opened Options

  /** A counter reading; the time is None when the timestamp does not parse. */
  datatype Sample = Sample(atMs: Option<int>, bytes: Option<int>)

  /** Seconds between two readings, if the second is later. */
  function Elapsed(previous: Sample, current: Sample): Option<real> {
    if previous.atMs == None || current.atMs == None then None
    else
      var elapsed := (current.atMs.value - previous.atMs.value) as real / 1000.0;
      if elapsed > 0.0 then Some(elapsed) else None
  }

  function Rate(previous: Sample, current: Sample): Option<real> {
    var elapsed := Elapsed(previous, current);
    if previous.bytes == None || current.bytes == None || elapsed == None then None
    else if current.bytes.value < previous.bytes.value then None
    else Some(8.0 * (current.bytes.value - previous.bytes.value) as real / elapsed.value)
  }

  /** A rate exists exactly when time advanced and the counter was read twice without going back; it is never
      negative, and times the elapsed seconds it is the number of bits counted: eight a byte, a thousandth of it a
      millisecond. */
  lemma RateMeansBytes(previous: Sample, current: Sample)
    ensures Rate(previous, current).Some? <==>
            && previous.atMs.Some? && current.atMs.Some? && previous.atMs.value < current.atMs.value
            && previous.bytes.Some? && current.bytes.Some? && previous.bytes.value <= current.bytes.value
    ensures Rate(previous, current).Some? ==>
            && Rate(previous, current).value >= 0.0
            && Elapsed(previous, current).Some?
            && Rate(previous, current).value * Elapsed(previous, current).value / 8.0
               == (current.bytes.value - previous.bytes.value) as real
            && Rate(previous, current).value * (current.atMs.value - previous.atMs.value) as real
               == 8000.0 * (current.bytes.value - previous.bytes.value) as real
  {
    if Rate(previous, current).Some? {
      var d, e := (current.bytes.value - previous.bytes.value) as real, Elapsed(previous, current).value;
      Undo(8.0 * d, e);
      Thousandfold(Rate(previous, current).value, e, (current.atMs.value - previous.atMs.value) as real);
    }
  }

  lemma Undo(bits: real, e: real)
    requires e > 0.0 && bits >= 0.0
    ensures bits / e >= 0.0 && bits / e * e == bits
  {
  }

  lemma Thousandfold(rate: real, seconds: real, ms: real)
    requires seconds == ms / 1000.0
    ensures rate * ms == 1000.0 * (rate * seconds)
  {
    assert ms == 1000.0 * seconds;
  }

  /** Bytes that the rates between consecutive readings stand for. */
  function Volume(samples: seq<Sample>): real {
    if |samples| < 2 then 0.0
    else
      var a, b := samples[|samples| - 2], samples[|samples| - 1];
      Volume(samples[..|samples| - 1]) +
      if Rate(a, b).Some? then Rate(a, b).value * Elapsed(a, b).value / 8.0 else 0.0
  }

  /** Over any stretch without a missing rate, the rates account for every byte the counter moved. */
  lemma {:induction false} BytesAreConserved(samples: seq<Sample>)
    requires |samples| >= 2
    requires forall i :: 0 <= i < |samples| - 1 ==> Rate(samples[i], samples[i + 1]).Some?
    ensures samples[0].bytes.Some? && samples[|samples| - 1].bytes.Some?
    ensures Volume(samples) == (samples[|samples| - 1].bytes.value - samples[0].bytes.value) as real
  {
    var n := |samples|;
    RateMeansBytes(samples[n - 2], samples[n - 1]);
    if n > 2 {
      var init := samples[..n - 1];
      BytesAreConserved(init);
    } else {
      assert Volume(samples[..1]) == 0.0;
    }
  }

  // ---- Capped series ----

  /** The last n elements, or all of them. */
  function Tail<T>(xs: seq<T>, n: nat): seq<T> {
    if |xs| <= n then xs else xs[|xs| - n..]
  }

  /** Capping after every push loses nothing that the final cap would keep. */
  lemma TailAppend<T>(xs: seq<T>, ys: seq<T>, n: nat)
    ensures Tail(Tail(xs, n) + ys, n) == Tail(xs + ys, n)
  {
  }
}
