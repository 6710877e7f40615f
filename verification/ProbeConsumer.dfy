/** The consumer task itself: it owns the batch, feeds the statistics, and writes to the shared database. */
module ProbeConsumer {
  import opened Options
  import opened ProbeTask
  import opened SessionTables
  import Stats

  /** What one turn of the select loop sees; failAt says where a flush it causes would fail, if anywhere. */
  datatype Select = Received(probe: LoopProbe, failAt: Option<nat>) | TimerTick(failAt: Option<nat>)

  function ProbesOf(turn: Select): seq<LoopProbe> {
    if turn.Received? then [turn.probe] else []
  }

  function ReceivedProbes(turns: seq<Select>): seq<LoopProbe> {
    if turns == [] then []
    else ReceivedProbes(turns[..|turns| - 1]) + ProbesOf(turns[|turns| - 1])
  }

  /** No other session's rows differ. */
  ghost predicate OthersKept(before: seq<StoredProbe>, after: seq<StoredProbe>, sessionId: int) {
    forall id :: id != sessionId ==> RowsOf(after, id) == RowsOf(before, id)
  }

  lemma OthersKeptTwice(a: seq<StoredProbe>, b: seq<StoredProbe>, c: seq<StoredProbe>, sessionId: int)
    requires OthersKept(a, b, sessionId) && OthersKept(b, c, sessionId)
    ensures OthersKept(a, c, sessionId)
  {
    hide RowsOf;
  }

  class Consumer {
    const db: Database
    const stats: Stats.StatsEngine
    const sessionId: int
    var batch: seq<ProbeRow>
    var events: seq<ProbeEvent>
    var statuses: seq<StatusEvent>
    ghost var flushes: seq<Flush>

    ghost function View(): Work
      reads this, stats
    {
      Work(batch, stats.Outcomes(), events, statuses, flushes)
    }

    ghost predicate Valid()
      reads this, stats, db
    {
      && stats.Valid()
      && Accounted(View())
      && |batch| < FLUSH_BATCH_SIZE
      && RowsOf(db.probes, sessionId) == StoredRows(flushes)
    }

    constructor (db: Database, stats: Stats.StatsEngine, sessionId: int)
      requires stats.Valid() && stats.history == [] && RowsOf(db.probes, sessionId) == []
      ensures Valid() && View() == IDLE
      ensures this.db == db && this.stats == stats && this.sessionId == sessionId
    {
      this.db, this.stats, this.sessionId := db, stats, sessionId;
      batch, events, statuses, flushes := [], [], [EngineSelected], [];
      new;
      assert stats.Outcomes() == [];
      IdleAccounted();
    }

    /** flush_batch: an empty batch does nothing; a failed insert drops the batch and reports it. */
    method FlushBatch(failAt: Option<nat>)
      requires stats.Valid() && Accounted(View()) && |batch| <= FLUSH_BATCH_SIZE
      requires RowsOf(db.probes, sessionId) == StoredRows(flushes)
      modifies this, db`probes
      ensures Valid() && batch == []
      ensures var ok := sessionId in db.sessions && (failAt.Some? ==> failAt.value > |old(batch)|);
              View() == if old(batch) == [] then old(View()) else FinishFlush(old(View()), ok)
      ensures OthersKept(old(db.probes), db.probes, sessionId)
    {
      hide Accounted, RowsOf, StoredRows, Stats.StatsEngine.Valid;
      if batch == [] {
        return;
      }
      ghost var before := View();
      ghost var probes := db.probes;
      var r := db.InsertProbesBatch(sessionId, batch, failAt);
      if r == Failed {
        statuses := statuses + [FlushError];
      }
      forall id ensures RowsOf(db.probes, id) == RowsOf(probes, id) + if r == Done && id == sessionId then before.batch else [] {
        BatchStaysInItsSession(probes, sessionId, before.batch, id);
      }
      FinishFlushAccounted(before, r == Done);
      flushes := flushes + [Flush(batch, r == Done)];
      batch := [];
    }

    method OnProbe(probe: LoopProbe, failAt: Option<nat>)
      requires Valid()
      modifies this, stats, db`probes
      ensures Valid()
      ensures events == old(events) + [EventOf(probe)]
      ensures stats.Outcomes() == old(stats.Outcomes()) + [OutcomeOf(probe)]
      ensures |old(batch)| < 49 ==>
                batch == old(batch) + [RowOf(probe)] && db.probes == old(db.probes) && statuses == old(statuses)
      ensures |old(batch)| == 49 ==> batch == []
      ensures old(statuses) <= statuses
      ensures OthersKept(old(db.probes), db.probes, sessionId)
    {
      hide Accounted, RowsOf, StoredRows, Stats.StatsEngine.Valid;
      ghost var before := View();
      stats.Feed(OutcomeOf(probe), 0);
      events := events + [EventOf(probe)];
      batch := batch + [RowOf(probe)];
      TakeAccounted(before, probe);
      assert View() == Take(before, probe);
      if |batch| >= FLUSH_BATCH_SIZE {
        FlushBatch(failAt);
      }
    }

    /** One turn of the select loop. */
    method TakeTurn(turn: Select)
      requires Valid()
      modifies this, stats, db`probes
      ensures Valid()
      ensures events == old(events) + EventsOf(ProbesOf(turn))
      ensures turn.TimerTick? ==> batch == [] && stats.Outcomes() == old(stats.Outcomes())
      ensures turn.Received? ==> batch == (if |old(batch)| < 49 then old(batch) + [RowOf(turn.probe)] else [])
      ensures OthersKept(old(db.probes), db.probes, sessionId)
    {
      match turn {
        case Received(probe, failAt) =>
          hide Accounted, RowsOf, StoredRows, Stats.StatsEngine.Valid;
          OnProbe(probe, failAt);
          assert EventsOf([probe]) == [EventOf(probe)];
        case TimerTick(failAt) =>
          hide RowsOf, StoredRows;
          FlushBatch(failAt);
          assert EventsOf([]) == [];
      }
    }

    /** The select loop, until the channel closes. */
    method TakeTurns(turns: seq<Select>)
      requires Valid()
      modifies this, stats, db`probes
      ensures Valid()
      ensures events == old(events) + EventsOf(ReceivedProbes(turns))
      ensures OthersKept(old(db.probes), db.probes, sessionId)
    {
      assert EventsOf([]) == [];
      hide Valid, EventsOf;
      assert turns[..0] == [];
      for i := 0 to |turns|
        invariant Valid()
        invariant events == old(events) + EventsOf(ReceivedProbes(turns[..i]))
        invariant OthersKept(old(db.probes), db.probes, sessionId)
      {
        hide OthersKept, ReceivedProbes, ProbesOf;
        ghost var before, soFar := db.probes, events;
        TakeTurn(turns[i]);
        EventsOneMore(old(events), soFar, events, turns, i);
        OthersKeptTwice(old(db.probes), before, db.probes, sessionId);
      }
      assert turns[..|turns|] == turns;
    }

    /** consume_probes: select until the channel closes, then flush what is left. */
    method ConsumeProbes(turns: seq<Select>, finalFailAt: Option<nat>)
      requires Valid()
      modifies this, stats, db`probes
      ensures Valid() && batch == []
      ensures events == old(events) + EventsOf(ReceivedProbes(turns))
      ensures FlushErrors(statuses) == 0 ==> RowsOf(db.probes, sessionId) == EmittedRows(events)
      ensures OthersKept(old(db.probes), db.probes, sessionId)
    {
      hide Valid, OthersKept, EventsOf, ReceivedProbes, RowsOf, EmittedRows, FlushErrors;
      TakeTurns(turns);
      ghost var before := db.probes;
      FinalFlush(finalFailAt);
      OthersKeptTwice(old(db.probes), before, db.probes, sessionId);
    }

    /** The channel has closed: what is left is flushed, and without a failure nothing emitted is missing. */
    method FinalFlush(failAt: Option<nat>)
      requires Valid()
      modifies this, db`probes
      ensures Valid() && batch == [] && events == old(events)
      ensures FlushErrors(statuses) == 0 ==> RowsOf(db.probes, sessionId) == EmittedRows(events)
      ensures OthersKept(old(db.probes), db.probes, sessionId)
    {
      hide RowsOf, StoredRows, EmittedRows;
      FlushBatch(failAt);
      NothingFailed(flushes);
    }
  }

  lemma EventsOneMore(start: seq<ProbeEvent>, before: seq<ProbeEvent>, after: seq<ProbeEvent>, turns: seq<Select>, i: nat)
    requires i < |turns| && before == start + EventsOf(ReceivedProbes(turns[..i]))
    requires after == before + EventsOf(ProbesOf(turns[i]))
    ensures after == start + EventsOf(ReceivedProbes(turns[..i + 1]))
  {
    hide EventsOf, ReceivedProbes, ProbesOf;
    ReceivedOneMore(turns, i);
  }

  lemma ReceivedOneMore(turns: seq<Select>, i: nat)
    requires i < |turns|
    ensures EventsOf(ReceivedProbes(turns[..i + 1])) == EventsOf(ReceivedProbes(turns[..i])) + EventsOf(ProbesOf(turns[i]))
  {
    assert turns[..i + 1][..i] == turns[..i];
  }
}
