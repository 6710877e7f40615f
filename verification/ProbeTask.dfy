/** One running session: the probe loop, its bounded channel, and the write-behind consumer. */
module ProbeTask {
  import opened Options
  import opened SessionTables
  import Stats

  const FLUSH_BATCH_SIZE: nat := 50
  const PROBE_CHANNEL_CAPACITY: nat := 256
  const I64_MAX := 0x7fff_ffff_ffff_ffff

  datatype ProbeResult = Rtt(rtt: Stats.Duration) | Timeout | Error(message: string)

  /** A probe in the channel, with the clock reading the consumer will take for it. */
  datatype LoopProbe = LoopProbe(seqNo: nat, result: ProbeResult, at: string)

  datatype ProbeEvent = ProbeEvent(seqNo: nat, rttMs: Option<real>, lost: bool, at: string)

  datatype StatusEvent = EngineSelected | FlushError | SessionStopped(id: int, probeCount: nat, lossCount: nat)

  // ---- The three consumers of a single probe ----

  function OutcomeOf(p: LoopProbe): Stats.ProbeOutcome {
    match p.result
    case Rtt(rtt) => Stats.Rtt(rtt)
    case Timeout => Stats.Timeout
    case Error(message) => Stats.Error(message)
  }

  function RowOf(p: LoopProbe): ProbeRow {
    ProbeRow(if p.seqNo <= I64_MAX then p.seqNo else I64_MAX,
             if p.result.Rtt? then Some(Stats.Ms(p.result.rtt)) else None, !p.result.Rtt?, p.at)
  }

  function EventOf(p: LoopProbe): ProbeEvent {
    ProbeEvent(p.seqNo, if p.result.Rtt? then Some(Stats.Ms(p.result.rtt)) else None, !p.result.Rtt?, p.at)
  }

  /** Statistics, table row and live event tell the probe as it was: answered or lost, how long it took in
      milliseconds, and when; only a number beyond 64 signed bits is cut in the row. */
  lemma ThreeViewsAgree(p: LoopProbe)
    ensures var outcome, row, event := OutcomeOf(p), RowOf(p), EventOf(p);
            && row.loss == event.lost == !p.result.Rtt?
            && row.rttMs == event.rttMs == (if p.result.Rtt? then Some(p.result.rtt * 1000.0) else None)
            && (match p.result
                case Rtt(rtt) => outcome == Stats.Rtt(rtt)
                case Timeout => outcome == Stats.Timeout
                case Error(message) => outcome == Stats.Error(message))
            && row.at == event.at == p.at && event.seqNo == p.seqNo
            && row.seqNo == if p.seqNo < 9_223_372_036_854_775_808 then p.seqNo else 9_223_372_036_854_775_807
  {
  }

  // ---- The write-behind work of the consumer ----

  /** A finished flush: its rows, and whether the database took them. */
  datatype Flush = Flush(rows: seq<ProbeRow>, ok: bool)

  datatype Work = Work(
    batch: seq<ProbeRow>,
    outcomes: seq<Stats.ProbeOutcome>,
    events: seq<ProbeEvent>,
    statuses: seq<StatusEvent>,
    flushes: seq<Flush>)

  const IDLE := Work([], [], [], [EngineSelected], [])

  function Take(w: Work, p: LoopProbe): Work {
    w.(batch := w.batch + [RowOf(p)], outcomes := w.outcomes + [OutcomeOf(p)], events := w.events + [EventOf(p)])
  }

  /** On a database error the batch is dropped and an error status is emitted. */
  function FinishFlush(w: Work, ok: bool): Work {
    w.(batch := [], flushes := w.flushes + [Flush(w.batch, ok)],
       statuses := if ok then w.statuses else w.statuses + [FlushError])
  }

  // ---- What the rows in the database should be ----

  /** The row of the probe that an event announced. */
  function EmittedRow(e: ProbeEvent): ProbeRow {
    ProbeRow(if e.seqNo <= I64_MAX then e.seqNo else I64_MAX, e.rttMs, e.lost, e.at)
  }

  function EmittedRows(events: seq<ProbeEvent>): seq<ProbeRow> {
    seq(|events|, i requires 0 <= i < |events| => EmittedRow(events[i]))
  }

  function LostEvents(events: seq<ProbeEvent>): nat {
    if events == [] then 0 else LostEvents(events[..|events| - 1]) + if events[|events| - 1].lost then 1 else 0
  }

  /** All flushed batches end to end. */
  function Flushed(flushes: seq<Flush>): seq<ProbeRow> {
    if flushes == [] then [] else Flushed(flushes[..|flushes| - 1]) + flushes[|flushes| - 1].rows
  }

  /** The batches that reached the database, end to end. */
  function StoredRows(flushes: seq<Flush>): seq<ProbeRow> {
    if flushes == [] then []
    else
      var last := flushes[|flushes| - 1];
      StoredRows(flushes[..|flushes| - 1]) + if last.ok then last.rows else []
  }

  function Failures(flushes: seq<Flush>): nat {
    if flushes == [] then 0 else Failures(flushes[..|flushes| - 1]) + if flushes[|flushes| - 1].ok then 0 else 1
  }

  function FlushErrors(statuses: seq<StatusEvent>): nat {
    if statuses == [] then 0
    else FlushErrors(statuses[..|statuses| - 1]) + if statuses[|statuses| - 1].FlushError? then 1 else 0
  }

  /** Every emitted probe is in exactly one flushed batch or in the current one, in order. */
  ghost predicate Accounted(w: Work) {
    && EmittedRows(w.events) == Flushed(w.flushes) + w.batch
    && |w.outcomes| == |w.events| && Stats.Losses(w.outcomes) == LostEvents(w.events)
    && FlushErrors(w.statuses) == Failures(w.flushes)
    && forall i :: 0 <= i < |w.flushes| ==> 1 <= |w.flushes[i].rows| <= FLUSH_BATCH_SIZE
  }

  lemma IdleAccounted()
    ensures Accounted(IDLE)
  {
    assert EmittedRows([]) == [];
    assert FlushErrors([EngineSelected]) == FlushErrors([]);
  }

  lemma TakeAccounted(w: Work, p: LoopProbe)
    requires Accounted(w)
    ensures Accounted(Take(w, p))
  {
    var events, outcomes := w.events + [EventOf(p)], w.outcomes + [OutcomeOf(p)];
    assert events[..|w.events|] == w.events && outcomes[..|w.outcomes|] == w.outcomes;
    assert EmittedRow(EventOf(p)) == RowOf(p);
    assert EmittedRows(events) == EmittedRows(w.events) + [RowOf(p)];
  }

  lemma FinishFlushAccounted(w: Work, ok: bool)
    requires Accounted(w) && 1 <= |w.batch| <= FLUSH_BATCH_SIZE
    ensures Accounted(FinishFlush(w, ok))
    ensures StoredRows(FinishFlush(w, ok).flushes) == StoredRows(w.flushes) + if ok then w.batch else []
  {
    var flushes := w.flushes + [Flush(w.batch, ok)];
    assert flushes[..|w.flushes|] == w.flushes;
    assert (w.statuses + [FlushError])[..|w.statuses|] == w.statuses;
  }

  lemma AnnounceAccounted(w: Work, e: StatusEvent)
    requires Accounted(w) && !e.FlushError?
    ensures Accounted(w.(statuses := w.statuses + [e]))
  {
    assert (w.statuses + [e])[..|w.statuses|] == w.statuses;
  }

  lemma {:induction false} NothingFailed(flushes: seq<Flush>)
    requires forall i :: 0 <= i < |flushes| ==> |flushes[i].rows| >= 1
    ensures |StoredRows(flushes)| <= |Flushed(flushes)|
    ensures |StoredRows(flushes)| == |Flushed(flushes)| <==> Failures(flushes) == 0
    ensures Failures(flushes) == 0 ==> StoredRows(flushes) == Flushed(flushes)
  {
    if flushes != [] {
      NothingFailed(flushes[..|flushes| - 1]);
    }
  }

  lemma {:induction false} LossRowsOfEvents(events: seq<ProbeEvent>)
    ensures LossRows(EmittedRows(events)) == LostEvents(events)
  {
    if events != [] {
      var init := events[..|events| - 1];
      LossRowsOfEvents(init);
      assert EmittedRows(events)[..|events| - 1] == EmittedRows(init);
    }
  }

  // ---- The task as a state machine: one step between two await points ----

  datatype LoopPhase = AtTop | Probing | Waiting | Ended

  /** Where the consumer is suspended; final marks the flush after the channel closed. */
  datatype Phase =
    | Selecting
    | Inserting(final: bool)
    | Committed(final: bool)
    | Exited
    | Aborted(committed: bool)

  datatype Task = Task(
    loop: LoopPhase,
    stopAt: Option<nat>,      // probes sent when the stop flag was raised
    sent: seq<LoopProbe>,
    channel: seq<LoopProbe>,
    phase: Phase,
    work: Work)

  const SPAWNED := Task(AtTop, None, [], [], Selecting, IDLE)

  datatype Step =
    | RaiseStop
    | LoopTop
    | SendProbe(result: ProbeResult, at: string)
    | SendFails
    | LoopWakes
    | Receive
    | ReceiveClosed
    | Tick
    | Commit
    | FlushReturns(ok: bool)
    | Abort

  predicate Alive(t: Task) {
    !t.phase.Exited? && !t.phase.Aborted?
  }

  predicate CanStep(t: Task, step: Step) {
    match step
    case RaiseStop => true
    case LoopTop => t.loop == AtTop
    case SendProbe(_, _) => t.loop == Probing && Alive(t) && |t.channel| < PROBE_CHANNEL_CAPACITY
    case SendFails => t.loop == Probing && !Alive(t)
    case LoopWakes => t.loop == Waiting
    case Receive => t.phase == Selecting && t.channel != []
    case ReceiveClosed => t.phase == Selecting && t.channel == [] && t.loop == Ended
    case Tick => t.phase == Selecting
    case Commit => t.phase.Inserting?
    case FlushReturns(ok) => if ok then t.phase.Committed? else t.phase.Inserting?
    case Abort => Alive(t)
  }

  /** flush_batch returns at once on an empty batch; otherwise it suspends on the insert. */
  function EnterFlush(t: Task, final: bool): Task {
    if t.work.batch == [] then t.(phase := if final then Exited else Selecting) else t.(phase := Inserting(final))
  }

  function Next(t: Task, step: Step): Task
    requires CanStep(t, step)
  {
    match step
    case RaiseStop => t.(stopAt := Some(t.stopAt.GetOr(|t.sent|)))
    case LoopTop => t.(loop := if t.stopAt.Some? then Ended else Probing)
    case SendProbe(result, at) =>
      var p := LoopProbe(|t.sent| + 1, result, at);
      t.(sent := t.sent + [p], channel := t.channel + [p], loop := Waiting)
    case SendFails => t.(loop := Ended)
    case LoopWakes => t.(loop := if t.stopAt.Some? then Ended else AtTop)
    case Receive =>
      var t' := t.(channel := t.channel[1..], work := Take(t.work, t.channel[0]));
      if |t'.work.batch| >= FLUSH_BATCH_SIZE then EnterFlush(t', false) else t'
    case ReceiveClosed => EnterFlush(t, true)
    case Tick => EnterFlush(t, false)
    case Commit => t.(phase := Committed(t.phase.final))
    case FlushReturns(ok) =>
      t.(work := FinishFlush(t.work, ok), phase := if t.phase.final then Exited else Selecting)
    case Abort => t.(phase := Aborted(t.phase.Committed?))
  }

  /** A flush begins only with a tick, with the end of the channel, or with the probe that fills the batch to 50, and
      then whenever there is anything to flush; the one at the end is the last. Short of that a received probe just
      joins the batch. */
  lemma FlushesAreDue(t: Task, step: Step)
    requires CanStep(t, step) && |t.work.batch| < 50
    ensures !t.phase.Inserting? && Next(t, step).phase.Inserting? <==>
              || ((step.Tick? || step.ReceiveClosed?) && t.work.batch != [])
              || (step.Receive? && |t.work.batch| == 49)
    ensures step.Tick? || step.Receive? ==> Next(t, step).phase == Selecting || Next(t, step).phase == Inserting(false)
    ensures step.ReceiveClosed? ==> Next(t, step).phase == if t.work.batch == [] then Exited else Inserting(true)
    ensures step.Receive? ==>
              && Next(t, step).work.batch == t.work.batch + [RowOf(t.channel[0])]
              && Next(t, step).work.flushes == t.work.flushes && Next(t, step).channel == t.channel[1..]
    ensures !step.Receive? ==> Next(t, step).work.batch == if step.FlushReturns? then [] else t.work.batch
  {
    hide RowOf, OutcomeOf, EventOf;
  }

  /** The loop can send while the consumer lives and fewer than 256 probes wait; what it sends is the next number, and
      goes last. */
  lemma SendingNeedsRoom(t: Task, result: ProbeResult, at: string)
    ensures CanStep(t, SendProbe(result, at)) <==>
              t.loop == Probing && !t.phase.Exited? && !t.phase.Aborted? && |t.channel| < 256
    ensures CanStep(t, SendProbe(result, at)) ==>
              var next, p := Next(t, SendProbe(result, at)), LoopProbe(|t.sent| + 1, result, at);
              next.sent == t.sent + [p] && next.channel == t.channel + [p] && next.work == t.work && next.loop == Waiting
  {
  }

  /** Both tasks aborted at whatever await point they were suspended on. */
  function Kill(t: Task): Task {
    (if Alive(t) then Next(t, Abort) else t).(loop := Ended)
  }

  /** Whether the rows of the current batch are already in the database. */
  predicate BatchStored(t: Task) {
    t.phase.Committed? || (t.phase.Aborted? && t.phase.committed)
  }

  /** The rows a task has put into the database so far. */
  function Persisted(t: Task): seq<ProbeRow> {
    StoredRows(t.work.flushes) + if BatchStored(t) then t.work.batch else []
  }

  /** Emitted probes that only the task's memory still holds. */
  function Unflushed(t: Task): seq<ProbeRow> {
    if BatchStored(t) then [] else t.work.batch
  }

  function EventsOf(probes: seq<LoopProbe>): seq<ProbeEvent> {
    seq(|probes|, i requires 0 <= i < |probes| => EventOf(probes[i]))
  }

  ghost predicate TaskInv(t: Task) {
    && Accounted(t.work)
    // The channel is the part of what was sent that has not been received.
    && |t.channel| <= PROBE_CHANNEL_CAPACITY && |t.channel| <= |t.sent|
    && t.channel == t.sent[|t.sent| - |t.channel|..]
    && t.work.events == EventsOf(t.sent[..|t.sent| - |t.channel|])
    // Probes are numbered 1, 2, 3, ...; at most one more is sent once stop is raised.
    && (forall i :: 0 <= i < |t.sent| ==> t.sent[i].seqNo == i + 1)
    && (t.stopAt.Some? ==> t.stopAt.value <= |t.sent| <= t.stopAt.value + if t.loop == Probing then 0 else 1)
    && (t.stopAt.Some? && |t.sent| > t.stopAt.value ==> t.loop in {Waiting, Ended})
    // The batch is bounded, and empty once the consumer has drained everything.
    && |t.work.batch| <= FLUSH_BATCH_SIZE
    && (t.phase == Selecting ==> |t.work.batch| < FLUSH_BATCH_SIZE)
    && (t.phase.Inserting? || t.phase.Committed? ==> t.work.batch != [])
    && ((t.phase.Inserting? || t.phase.Committed?) && t.phase.final ==> t.channel == [] && t.loop == Ended)
    && (t.phase == Exited ==> t.work.batch == [] && t.channel == [] && t.loop == Ended)
    && (t.phase.Aborted? && t.phase.committed ==> t.work.batch != [])
  }

  lemma SpawnedInv()
    ensures TaskInv(SPAWNED) && Persisted(SPAWNED) == []
  {
    IdleAccounted();
    assert EventsOf([]) == [];
  }

  lemma EventsOfMore(probes: seq<LoopProbe>, p: LoopProbe)
    ensures EventsOf(probes + [p]) == EventsOf(probes) + [EventOf(p)]
  {
  }

  lemma ReceiveKeepsInv(t: Task)
    requires TaskInv(t) && CanStep(t, Receive)
    ensures TaskInv(Next(t, Receive)) && Persisted(Next(t, Receive)) == Persisted(t)
  {
    hide EventsOf, Accounted, EventOf, RowOf, OutcomeOf, StoredRows;
    var n, c := |t.sent|, |t.channel|;
    var p := t.channel[0];
    assert p == t.sent[n - c];
    TakeAccounted(t.work, p);
    assert t.sent[..n - c + 1] == t.sent[..n - c] + [p];
    EventsOfMore(t.sent[..n - c], p);
  }

  lemma SendKeepsInv(t: Task, result: ProbeResult, at: string)
    requires TaskInv(t) && CanStep(t, SendProbe(result, at))
    ensures TaskInv(Next(t, SendProbe(result, at))) && Persisted(Next(t, SendProbe(result, at))) == Persisted(t)
  {
    hide Accounted, StoredRows;
    var p := LoopProbe(|t.sent| + 1, result, at);
    var n, c := |t.sent|, |t.channel|;
    assert (t.sent + [p])[..n - c] == t.sent[..n - c];
    assert (t.sent + [p])[n - c..] == t.sent[n - c..] + [p];
  }

  lemma FlushKeepsInv(t: Task, ok: bool)
    requires TaskInv(t) && CanStep(t, FlushReturns(ok))
    ensures TaskInv(Next(t, FlushReturns(ok))) && Persisted(Next(t, FlushReturns(ok))) == Persisted(t)
  {
    hide Accounted, StoredRows, EventsOf, FlushErrors;
    FinishFlushAccounted(t.work, ok);
  }

  /** A tick with anything in the batch starts a flush of all of it; once that succeeds nothing is held back. */
  lemma TickFlushesEverything(t: Task)
    requires TaskInv(t) && CanStep(t, Tick)
    ensures t.work.batch == [] ==> Next(t, Tick) == t
    ensures t.work.batch != [] ==>
              && CanStep(Next(t, Tick), Commit)
              && var stored := Next(Next(t, Tick), Commit);
              && CanStep(stored, FlushReturns(true))
              && var done := Next(stored, FlushReturns(true));
              && done.phase == Selecting && Unflushed(done) == [] && Persisted(done) == Persisted(t) + Unflushed(t)
  {
    hide EventsOf, Accounted;
    if t.work.batch != [] {
      var flushes := t.work.flushes + [Flush(t.work.batch, true)];
      assert flushes[..|flushes| - 1] == t.work.flushes;
    }
  }

  lemma LoopKeepsInv(t: Task, step: Step)
    requires TaskInv(t) && CanStep(t, step)
    requires step.RaiseStop? || step.LoopTop? || step.SendFails? || step.LoopWakes?
    ensures TaskInv(Next(t, step)) && Persisted(Next(t, step)) == Persisted(t)
  {
    hide Accounted, StoredRows;
  }

  lemma ConsumerKeepsInv(t: Task, step: Step)
    requires TaskInv(t) && CanStep(t, step)
    requires step.ReceiveClosed? || step.Tick? || step.Commit? || step.Abort?
    ensures TaskInv(Next(t, step))
    ensures Persisted(Next(t, step)) == Persisted(t) + if step.Commit? then t.work.batch else []
  {
    hide Accounted, StoredRows;
  }

  /** Every step keeps the invariant, and only a commit adds rows: the whole current batch. */
  lemma StepKeepsInv(t: Task, step: Step)
    requires TaskInv(t) && CanStep(t, step)
    ensures TaskInv(Next(t, step))
    ensures Persisted(Next(t, step)) == Persisted(t) + if step.Commit? then t.work.batch else []
  {
    hide TaskInv, Next, CanStep, Persisted;
    match step {
      case Receive => ReceiveKeepsInv(t);
      case SendProbe(result, at) => SendKeepsInv(t, result, at);
      case FlushReturns(ok) => FlushKeepsInv(t, ok);
      case RaiseStop => LoopKeepsInv(t, step);
      case LoopTop => LoopKeepsInv(t, step);
      case SendFails => LoopKeepsInv(t, step);
      case LoopWakes => LoopKeepsInv(t, step);
      case _ => ConsumerKeepsInv(t, step);
    }
  }

  lemma KillKeepsInv(t: Task)
    requires TaskInv(t)
    ensures TaskInv(Kill(t)) && !Alive(Kill(t)) && Persisted(Kill(t)) == Persisted(t)
  {
    hide Accounted, StoredRows;
  }

  /** Emitted probes are the persisted ones, the unflushed ones, and those of failed batches. */
  lemma EmittedSplits(t: Task)
    requires TaskInv(t)
    ensures |EmittedRows(t.work.events)| ==
            |Persisted(t)| + |Unflushed(t)| + |Flushed(t.work.flushes)| - |StoredRows(t.work.flushes)|
    ensures FlushErrors(t.work.statuses) == 0 ==> EmittedRows(t.work.events) == Persisted(t) + Unflushed(t)
    ensures |Unflushed(t)| <= FLUSH_BATCH_SIZE
  {
    NothingFailed(t.work.flushes);
  }
}
