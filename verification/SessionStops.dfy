/** When another stop of a session can succeed, and what a stop can announce. */
module SessionStops {
  import opened Options
  import opened ProbeTask
  import opened SessionSystem
  import Tables = SessionTables
  import Stats

  // ---- A stop call can always be brought to its end ----

  /** Steps left at most, once the stop flag is up and the consumer takes turns with the loop. */
  function Left(t: Task): nat {
    4 * |t.channel|
    + (match t.loop case Probing => 6 case AtTop => 1 case Waiting => 1 case Ended => 0)
    + (match t.phase
       case Selecting => 2
       case Inserting(final) => if final then 1 else 3
       case Committed(final) => if final then 1 else 3
       case Exited => 0
       case Aborted(_) => 0)
  }

  /** A step towards the end: finish a flush, empty the channel, end the loop, close. */
  function NextStep(t: Task): Step {
    if t.phase.Inserting? then FlushReturns(false)
    else if t.phase.Committed? then FlushReturns(true)
    else if t.phase == Selecting && t.channel != [] then Receive
    else if t.loop == Probing then (if Alive(t) then SendProbe(Timeout, "") else SendFails)
    else if t.loop == AtTop then LoopTop
    else if t.loop == Waiting then LoopWakes
    else ReceiveClosed
  }

  lemma StepGetsCloser(t: Task)
    requires TaskInv(t) && t.stopAt.Some? && !Joined(t)
    ensures CanStep(t, NextStep(t)) && !NextStep(t).RaiseStop?
    ensures Left(Next(t, NextStep(t))) < Left(t) && Next(t, NextStep(t)).stopAt == t.stopAt
  {
    hide Accounted, EventsOf;
  }

  lemma StepMoves(s: System, id: int, step: Step)
    requires SystemInv(s) && Enabled(s, TaskStep(id, step))
    ensures var s' := Apply(s, TaskStep(id, step));
            && id in s'.tasks && s'.tasks[id] == Next(s.tasks[id], step)
            && s'.stops == s.stops && s'.active == s.active && s'.stopLog == s.stopLog && s'.sessions == s.sessions
  {
  }

  /** Every action is about the one session. */
  predicate About(actions: seq<Action>, id: int) {
    forall i :: 0 <= i < |actions| ==> !actions[i].ProcessCrash? && actions[i].id == id
  }

  /** Every action is about the one session, and none deletes its row. */
  predicate Stopping(actions: seq<Action>, id: int) {
    About(actions, id) && !Deletes(actions, id)
  }

  lemma StoppingThen(a: Action, rest: seq<Action>, id: int)
    requires !a.ProcessCrash? && a.id == id && a != Delete(id) && Stopping(rest, id)
    ensures Stopping([a] + rest, id)
  {
  }

  lemma StoppingOne(a: Action, id: int)
    requires !a.ProcessCrash? && a.id == id && a != Delete(id)
    ensures Stopping([a], id)
  {
  }

  lemma StoppingConcat(a: seq<Action>, b: seq<Action>, id: int)
    requires Stopping(a, id) && Stopping(b, id)
    ensures Stopping(a + b, id)
  {
  }

  lemma RunNothing(s: System)
    ensures Run(s, []) == s
  {
  }

  lemma RunOne(s: System, a: Action)
    ensures Run(s, [a]) == Do(s, a)
  {
    RunAppend(s, [], a);
    assert [] + [a] == [a];
  }

  lemma RunThen(s: System, a: Action, rest: seq<Action>)
    requires Enabled(s, a)
    ensures Run(s, [a] + rest) == Run(Apply(s, a), rest)
  {
    hide Apply, Enabled;
    RunConcat(s, [a], rest);
    RunOne(s, a);
  }

  /** The stop call is waiting for its tasks. */
  predicate IsDraining(s: System, id: int) {
    id in s.stops && s.stops[id] == Draining && id in s.tasks
  }

  lemma DrainingTask(s: System, id: int)
    requires SystemInv(s) && id in s.stops && s.stops[id] == Draining
    ensures IsDraining(s, id) && TaskInv(s.tasks[id]) && s.tasks[id].stopAt.Some?
  {
    hide TaskInv;
    assert SessionInv(s, id);
  }

  lemma {:induction false} StopDrains(s: System, id: int) returns (later: seq<Action>)
    requires SystemInv(s) && IsDraining(s, id)
    ensures Stopping(later, id)
    ensures var s' := Run(s, later);
            SystemInv(s') && IsDraining(s', id) && Joined(s'.tasks[id]) && s'.stopLog == s.stopLog
    decreases Left(s.tasks[id])
  {
    DrainingTask(s, id);
    var t := s.tasks[id];
    if Joined(t) {
      later := [];
      RunNothing(s);
    } else {
      StepGetsCloser(t);
      var a := TaskStep(id, NextStep(t));
      StepMoves(s, id, NextStep(t));
      ActionKeepsInv(s, a);
      hide SystemInv, TaskInv, Next, CanStep, NextStep, Left, Run, Apply, Stopping, Joined;
      var rest := StopDrains(Apply(s, a), id);
      later := [a] + rest;
      RunThen(s, a, rest);
      StoppingThen(a, rest, id);
    }
  }

  // ---- When no further stop can succeed ----

  /** The session is neither running nor being stopped, and its row is there or its id never handed out. */
  predicate IsOver(s: System, id: int) {
    id !in s.active && id !in s.stops && (id in s.sessions || id < 1)
  }

  lemma StaysOver(s: System, a: Action, id: int)
    requires IsOver(s, id) && a != Delete(id)
    ensures IsOver(Do(s, a), id) && Successes(Do(s, a).stopLog, id) == Successes(s.stopLog, id)
  {
    if Enabled(s, a) {
      match a {
        case StopCall(other) => OneMoreResult(s.stopLog, NotRunning(other), id);
        case StopStampFails(other) => OneMoreResult(s.stopLog, DbFailed(other), id);
        case StopReturns(other) =>
          var w := s.tasks[other].work;
          OneMoreResult(s.stopLog, Stopped(other, |w.outcomes|, Stats.Losses(w.outcomes), s.stops[other].endedAt), id);
        case _ =>
      }
    }
  }

  lemma {:induction false} NoMoreStops(s: System, later: seq<Action>, id: int)
    requires IsOver(s, id) && !Deletes(later, id)
    ensures IsOver(Run(s, later), id) && Successes(Run(s, later).stopLog, id) == Successes(s.stopLog, id)
  {
    hide Do, IsOver;
    if later != [] {
      NoMoreStops(s, later[..|later| - 1], id);
      StaysOver(Run(s, later[..|later| - 1]), later[|later| - 1], id);
    }
  }

  // ---- Stopping one session leaves the others alone ----

  /** Nothing that matters for another session's row or stops has changed. */
  ghost predicate SameElsewhere(s: System, end: System, id: int) {
    forall other :: other != id ==>
      && (other in end.sessions <==> other in s.sessions)
      && Successes(end.stopLog, other) == Successes(s.stopLog, other)
  }

  lemma OtherStopsUncounted(s: System, a: Action, other: int)
    requires Enabled(s, a) && !a.ProcessCrash? && a.id != other
    ensures Successes(Apply(s, a).stopLog, other) == Successes(s.stopLog, other)
  {
    match a {
      case StopCall(id) => OneMoreResult(s.stopLog, NotRunning(id), other);
      case StopStampFails(id) => OneMoreResult(s.stopLog, DbFailed(id), other);
      case StopReturns(id) =>
        var w := s.tasks[id].work;
        OneMoreResult(s.stopLog, Stopped(id, |w.outcomes|, Stats.Losses(w.outcomes), s.stops[id].endedAt), other);
      case _ =>
    }
  }

  lemma {:induction false} AboutStaysElsewhere(s: System, actions: seq<Action>, id: int)
    requires About(actions, id)
    ensures SameElsewhere(s, Run(s, actions), id)
  {
    hide Apply, Enabled;
    if actions != [] {
      var init, a := actions[..|actions| - 1], actions[|actions| - 1];
      AboutStaysElsewhere(s, init, id);
      var m := Run(s, init);
      if Enabled(m, a) {
        forall other | other != id
          ensures other in Apply(m, a).sessions <==> other in m.sessions
          ensures Successes(Apply(m, a).stopLog, other) == Successes(m.stopLog, other)
        {
          SessionsAreIsolated(m, a, other);
          OtherStopsUncounted(m, a, other);
        }
      }
    }
  }

  // ---- Making a stop succeed ----

  /** One more stop of the id has succeeded, and its row may now be deleted. */
  ghost predicate StoppedOnceMore(s: System, end: System, id: int) {
    SystemInv(end) && Successes(end.stopLog, id) == Successes(s.stopLog, id) + 1 && Enabled(end, Delete(id))
  }

  lemma StampedStopReturns(s: System, id: int) returns (later: seq<Action>)
    requires SystemInv(s) && id in s.stops && s.stops[id].Stamped?
    ensures Stopping(later, id) && StoppedOnceMore(s, Run(s, later), id)
  {
    hide SystemInv, Apply, Stopping, Successes;
    StampedStopEnds(s, id);
    ActionKeepsInv(s, StopReturns(id));
    later := [StopReturns(id)];
    StoppingOne(StopReturns(id), id);
    RunOne(s, StopReturns(id));
  }

  lemma StampedStopEnds(s: System, id: int)
    requires SystemInv(s) && id in s.stops && s.stops[id].Stamped?
    ensures Enabled(s, StopReturns(id)) && Enabled(Apply(s, StopReturns(id)), Delete(id))
    ensures Successes(Apply(s, StopReturns(id)).stopLog, id) == Successes(s.stopLog, id) + 1
  {
    hide TaskInv, Persisted;
    assert SessionInv(s, id);
    var w := s.tasks[id].work;
    OneMoreResult(s.stopLog, Stopped(id, |w.outcomes|, Stats.Losses(w.outcomes), s.stops[id].endedAt), id);
  }

  lemma StampMoves(s: System, id: int)
    requires SystemInv(s) && IsDraining(s, id) && Joined(s.tasks[id])
    ensures Enabled(s, StopStamps(id, ""))
    ensures var s' := Apply(s, StopStamps(id, ""));
            SystemInv(s') && id in s'.stops && s'.stops[id].Stamped? && s'.stopLog == s.stopLog
  {
    ActionKeepsInv(s, StopStamps(id, ""));
    hide SystemInv, Joined;
  }

  lemma DrainedStopReturns(s: System, id: int) returns (later: seq<Action>)
    requires SystemInv(s) && IsDraining(s, id) && Joined(s.tasks[id])
    ensures Stopping(later, id) && StoppedOnceMore(s, Run(s, later), id)
  {
    hide SystemInv, Apply, Run, Enabled, Stopping, Joined;
    StampMoves(s, id);
    var rest := StampedStopReturns(Apply(s, StopStamps(id, "")), id);
    later := [StopStamps(id, "")] + rest;
    RunThen(s, StopStamps(id, ""), rest);
    StoppingThen(StopStamps(id, ""), rest, id);
  }

  lemma DrainingStopReturns(s: System, id: int) returns (later: seq<Action>)
    requires SystemInv(s) && id in s.stops && s.stops[id] == Draining
    ensures Stopping(later, id) && StoppedOnceMore(s, Run(s, later), id)
  {
    DrainingTask(s, id);
    hide SystemInv, Run, Stopping, Joined, IsDraining, TaskInv;
    var drained := StopDrains(s, id);
    var rest := DrainedStopReturns(Run(s, drained), id);
    later := drained + rest;
    RunConcat(s, drained, rest);
    StoppingConcat(drained, rest, id);
  }

  lemma StopCallMoves(s: System, id: int)
    requires SystemInv(s) && id in s.active
    ensures var s' := Apply(s, StopCall(id));
            SystemInv(s') && id in s'.stops && s'.stops[id] == Draining && s'.stopLog == s.stopLog
  {
    ActionKeepsInv(s, StopCall(id));
  }

  lemma RunningSessionCanBeStopped(s: System, id: int) returns (later: seq<Action>)
    requires SystemInv(s) && id in s.active
    ensures Stopping(later, id) && StoppedOnceMore(s, Run(s, later), id)
  {
    hide SystemInv, Apply, Run, Stopping;
    StopCallMoves(s, id);
    var rest := DrainingStopReturns(Apply(s, StopCall(id)), id);
    later := [StopCall(id)] + rest;
    RunThen(s, StopCall(id), rest);
    StoppingThen(StopCall(id), rest, id);
  }

  /** A session that runs or is being stopped can be brought to a successful stop. */
  lemma OpenSessionCanBeStopped(s: System, id: int) returns (later: seq<Action>)
    requires SystemInv(s) && (id in s.active || id in s.stops)
    ensures Stopping(later, id) && StoppedOnceMore(s, Run(s, later), id)
  {
    hide SystemInv, Run, Stopping;
    if id in s.active {
      later := RunningSessionCanBeStopped(s, id);
    } else if s.stops[id] == Draining {
      later := DrainingStopReturns(s, id);
    } else {
      later := StampedStopReturns(s, id);
    }
  }

  // ---- Making the database hand out an id ----

  lemma DeletableRowGoes(s: System, first: seq<Action>, id: int)
    requires SystemInv(Run(s, first)) && Enabled(Run(s, first), Delete(id))
    ensures SystemInv(Run(s, first + [Delete(id)])) && id !in Run(s, first + [Delete(id)]).sessions
  {
    RunAppend(s, first, Delete(id));
    ActionKeepsInv(Run(s, first), Delete(id));
    hide SystemInv, Run;
  }

  /** The row of any session can be made to go. */
  lemma RowCanBeDeleted(s: System, id: int) returns (later: seq<Action>)
    requires SystemInv(s) && id in s.sessions
    ensures About(later, id) && SystemInv(Run(s, later)) && id !in Run(s, later).sessions
  {
    hide Run, SystemInv, Enabled, Deletes;
    var first := [];
    if id in s.active || id in s.stops {
      first := OpenSessionCanBeStopped(s, id);
    } else {
      RunNothing(s);
      IdleRowIsDeletable(s, id);
    }
    DeletableRowGoes(s, first, id);
    later := first + [Delete(id)];
  }

  lemma IdleRowIsDeletable(s: System, id: int)
    requires SystemInv(s) && id in s.sessions && id !in s.active && id !in s.stops
    ensures Enabled(s, Delete(id))
  {
    hide TaskInv;
    if id in s.tasks {
      assert SessionInv(s, id);
    }
  }

  function RowsAbove(s: System, id: int): set<int> {
    set k | k in s.sessions && k > id
  }

  /** The id has no row, and its stops are the ones before. */
  ghost predicate StillFree(s: System, end: System, id: int) {
    SystemInv(end) && id !in end.sessions && Successes(end.stopLog, id) == Successes(s.stopLog, id)
  }

  lemma {:induction false} RowsAboveCanGo(s: System, id: int) returns (later: seq<Action>)
    requires SystemInv(s) && id !in s.sessions
    ensures !Deletes(later, id) && StillFree(s, Run(s, later), id)
    ensures forall k :: k in Run(s, later).sessions ==> k < id
    decreases |RowsAbove(s, id)|
  {
    hide SystemInv, Run;
    if k :| k in RowsAbove(s, id) {
      var first := RowCanBeDeleted(s, k);
      var m := Run(s, first);
      AboutStaysElsewhere(s, first, k);
      assert RowsAbove(m, id) == RowsAbove(s, id) - {k};
      var rest := RowsAboveCanGo(m, id);
      later := first + rest;
      RunConcat(s, first, rest);
    } else {
      later := [];
      RunNothing(s);
      forall k | k in s.sessions
        ensures k < id
      {
        assert k !in RowsAbove(s, id);
      }
    }
  }

  lemma StartMoves(s: System, id: int)
    requires SystemInv(s) && IsNextRowId(s, id)
    ensures var s' := Apply(s, Start(id));
            && SystemInv(s') && s'.sessions == s.sessions[id := None] && s'.stopLog == s.stopLog
            && id in s'.active && id in s'.tasks && s'.tasks[id] == SPAWNED
  {
    ActionKeepsInv(s, Start(id));
    hide SystemInv;
  }

  /** Starting the ids below one by one makes an id the next. */
  lemma {:induction false} RowsBelowCanCome(s: System, id: int) returns (later: seq<Action>)
    requires SystemInv(s) && id >= 1 && forall k :: k in s.sessions ==> k < id
    ensures (forall i :: 0 <= i < |later| ==> later[i].Start? && later[i].id < id)
    ensures StillFree(s, Run(s, later), id) && IsNextRowId(Run(s, later), id)
    decreases id
  {
    hide SystemInv, Run;
    if id == 1 || id - 1 in s.sessions {
      later := [];
      RunNothing(s);
    } else {
      var below := RowsBelowCanCome(s, id - 1);
      var m := Run(s, below);
      StartMoves(m, id - 1);
      later := below + [Start(id - 1)];
      RunAppend(s, below, Start(id - 1));
      StartsKeepLog(s, below);
    }
  }

  lemma {:induction false} StartsKeepLog(s: System, starts: seq<Action>)
    requires forall i :: 0 <= i < |starts| ==> starts[i].Start?
    ensures Run(s, starts).stopLog == s.stopLog
  {
    if starts != [] {
      StartsKeepLog(s, starts[..|starts| - 1]);
    }
  }

  /** Every id without a row, from 1 on, can be made the next one. */
  lemma IdCanComeUp(s: System, id: int) returns (later: seq<Action>)
    requires SystemInv(s) && id >= 1 && id !in s.sessions
    ensures !Deletes(later, id) && StillFree(s, Run(s, later), id) && IsNextRowId(Run(s, later), id)
  {
    hide SystemInv, Run;
    var clear := RowsAboveCanGo(s, id);
    var m := Run(s, clear);
    var fill := RowsBelowCanCome(m, id);
    later := clear + fill;
    RunConcat(s, clear, fill);
  }

  lemma NextIdCanBeStopped(s: System, id: int) returns (later: seq<Action>)
    requires SystemInv(s) && IsNextRowId(s, id)
    ensures Stopping(later, id) && StoppedOnceMore(s, Run(s, later), id)
  {
    hide SystemInv, Run, IsNextRowId, Apply, Stopping;
    StartMoves(s, id);
    var rest := RunningSessionCanBeStopped(Apply(s, Start(id)), id);
    later := [Start(id)] + rest;
    RunThen(s, Start(id), rest);
    StoppingThen(Start(id), rest, id);
  }

  lemma FreeIdCanBeStopped(s: System, id: int) returns (later: seq<Action>)
    requires SystemInv(s) && id >= 1 && id !in s.sessions
    ensures !Deletes(later, id) && StoppedOnceMore(s, Run(s, later), id)
  {
    hide SystemInv, Run, IsNextRowId, Enabled;
    var first := IdCanComeUp(s, id);
    var rest := NextIdCanBeStopped(Run(s, first), id);
    later := first + rest;
    RunConcat(s, first, rest);
  }

  /** Without deleting the row, another stop of an id can succeed if and only if the session is running, is being
      stopped, or has an id from 1 on without a row, which the database can still hand out. */
  lemma AnotherStopCanSucceed(s: System, id: int)
    requires SystemInv(s)
    ensures (exists later :: !Deletes(later, id) && Successes(Run(s, later).stopLog, id) > Successes(s.stopLog, id)) <==>
            id in s.active || id in s.stops || (id >= 1 && id !in s.sessions)
  {
    hide Run, SystemInv, Apply, StoppedOnceMore;
    if IsOver(s, id) {
      forall later | !Deletes(later, id)
        ensures Successes(Run(s, later).stopLog, id) == Successes(s.stopLog, id)
      {
        NoMoreStops(s, later, id);
      }
    } else {
      var later;
      if id in s.active || id in s.stops {
        later := OpenSessionCanBeStopped(s, id);
      } else {
        later := FreeIdCanBeStopped(s, id);
      }
      OneMoreCounts(s, Run(s, later), id);
    }
  }

  lemma OneMoreCounts(s: System, end: System, id: int)
    requires StoppedOnceMore(s, end, id)
    ensures Successes(end.stopLog, id) > Successes(s.stopLog, id)
  {
  }

  /** Deleting the row of a stopped session lets its id be handed out and stopped again. */
  lemma DeletedIdStopsTwice(s: System, id: int)
    requires SystemInv(s) && id >= 1 && id !in s.sessions
    ensures exists first, second :: !Deletes(first, id) && !Deletes(second, id) &&
              Successes(Run(s, first + [Delete(id)] + second).stopLog, id) == Successes(s.stopLog, id) + 2
  {
    hide Run, SystemInv;
    var first := FreeIdCanBeStopped(s, id);
    var s1 := Run(s, first);
    ActionKeepsInv(s1, Delete(id));
    var second := FreeIdCanBeStopped(Apply(s1, Delete(id)), id);
    RunAppend(s, first, Delete(id));
    RunConcat(s, first + [Delete(id)], second);
  }

  // ---- A stop can announce a probe that no table holds ----

  predicate CanRun(t: Task, steps: seq<Step>)
    decreases |steps|
  {
    steps != [] ==> !steps[0].RaiseStop? && CanStep(t, steps[0]) && CanRun(Next(t, steps[0]), steps[1..])
  }

  function After(t: Task, steps: seq<Step>): Task
    requires CanRun(t, steps)
    decreases |steps|
  {
    if steps == [] then t else After(Next(t, steps[0]), steps[1..])
  }

  lemma {:induction false} StepsRun(s: System, id: int, steps: seq<Step>) returns (later: seq<Action>)
    requires SystemInv(s) && id in s.tasks && CanRun(s.tasks[id], steps)
    ensures var s' := Run(s, later);
            && SystemInv(s') && id in s'.tasks && s'.tasks[id] == After(s.tasks[id], steps)
            && s'.stops == s.stops && s'.active == s.active && s'.stopLog == s.stopLog && s'.sessions == s.sessions
    decreases |steps|
  {
    hide SystemInv, Next, CanStep;
    if steps == [] {
      later := [];
    } else {
      var a := TaskStep(id, steps[0]);
      StepMoves(s, id, steps[0]);
      ActionKeepsInv(s, a);
      var rest := StepsRun(Apply(s, a), id, steps[1..]);
      later := [a] + rest;
      RunThen(s, a, rest);
    }
  }

  lemma ThreeSteps(t: Task, a: Step, b: Step, c: Step)
    requires !a.RaiseStop? && !b.RaiseStop? && !c.RaiseStop?
    requires CanStep(t, a) && CanStep(Next(t, a), b) && CanStep(Next(Next(t, a), b), c)
    ensures CanRun(t, [a, b, c]) && After(t, [a, b, c]) == Next(Next(Next(t, a), b), c)
  {
    hide CanStep, Next;
    assert [a, b, c][1..] == [b, c] && [b, c][1..] == [c] && [c][1..] == [];
    var t2 := Next(Next(t, a), b);
    assert CanRun(t2, [c]) && After(t2, [c]) == Next(t2, c);
    assert CanRun(Next(t, a), [b, c]) && After(Next(t, a), [b, c]) == Next(t2, c);
  }

  /** One probe is sent and received. */
  lemma OneProbeEmitted(result: ProbeResult, at: string) returns (t: Task)
    ensures CanRun(SPAWNED, [LoopTop, SendProbe(result, at), Receive])
    ensures t == After(SPAWNED, [LoopTop, SendProbe(result, at), Receive])
    ensures t.loop == Waiting && t.stopAt == None && t.channel == [] && t.phase == Selecting
    ensures |t.work.outcomes| == 1 && |t.work.batch| == 1 && t.work.flushes == []
  {
    hide CanRun, After;
    t := Next(Next(Next(SPAWNED, LoopTop), SendProbe(result, at)), Receive);
    ThreeSteps(SPAWNED, LoopTop, SendProbe(result, at), Receive);
  }

  lemma NothingStored(rows: seq<Tables.ProbeRow>)
    ensures StoredRows([Flush(rows, false)]) == []
  {
    assert [Flush(rows, false)][..0] == [];
  }

  /** Told to stop, the loop ends, the channel closes, and the final flush fails. */
  lemma FinalFlushFails(t: Task) returns (end: Task)
    requires t.loop == Waiting && t.stopAt.Some? && t.channel == [] && t.phase == Selecting
    requires |t.work.batch| == 1 && t.work.flushes == []
    ensures CanRun(t, [LoopWakes, ReceiveClosed, FlushReturns(false)])
    ensures end == After(t, [LoopWakes, ReceiveClosed, FlushReturns(false)])
    ensures Joined(end) && end.phase == Exited && end.work.outcomes == t.work.outcomes && Persisted(end) == []
  {
    hide CanRun, After, StoredRows;
    var t2 := Next(Next(t, LoopWakes), ReceiveClosed);
    end := Next(t2, FlushReturns(false));
    ThreeSteps(t, LoopWakes, ReceiveClosed, FlushReturns(false));
    assert end.work.flushes == [Flush(t.work.batch, false)];
    NothingStored(t.work.batch);
  }

  /** The session is new, its one probe emitted and in the batch. */
  lemma ProbeInBatch(s: System, id: int, result: ProbeResult, at: string) returns (later: seq<Action>)
    requires SystemInv(s) && IsNextRowId(s, id)
    ensures var m := Run(s, later);
            && SystemInv(m) && id in m.active && id in m.tasks
            && m.tasks[id].loop == Waiting && m.tasks[id].stopAt == None && m.tasks[id].channel == []
            && m.tasks[id].phase == Selecting && |m.tasks[id].work.outcomes| == 1
            && |m.tasks[id].work.batch| == 1 && m.tasks[id].work.flushes == []
  {
    hide SystemInv, Run, After, CanRun;
    StartMoves(s, id);
    hide Apply;
    var t := OneProbeEmitted(result, at);
    var emit := StepsRun(Apply(s, Start(id)), id, [LoopTop, SendProbe(result, at), Receive]);
    later := [Start(id)] + emit;
    RunThen(s, Start(id), emit);
  }

  lemma StopCallRaises(s: System, id: int)
    requires SystemInv(s) && id in s.active && id in s.tasks
    ensures var s' := Apply(s, StopCall(id));
            && id in s'.stops && s'.stops[id] == Draining && id in s'.tasks
            && s'.tasks[id] == Next(s.tasks[id], RaiseStop)
  {
  }

  /** Stopped, with its final flush failing. */
  lemma BatchIsDropped(s: System, id: int) returns (later: seq<Action>)
    requires SystemInv(s) && id in s.active && id in s.tasks
    requires var t := s.tasks[id];
             && t.loop == Waiting && t.stopAt == None && t.channel == [] && t.phase == Selecting
             && |t.work.outcomes| == 1 && |t.work.batch| == 1 && t.work.flushes == []
    ensures var m := Run(s, later);
            && SystemInv(m) && id in m.stops && m.stops[id] == Draining && id in m.tasks && Joined(m.tasks[id])
            && |m.tasks[id].work.outcomes| == 1 && Persisted(m.tasks[id]) == []
  {
    hide SystemInv, Run, Next, CanStep, After, CanRun, Persisted;
    ActionKeepsInv(s, StopCall(id));
    StopCallRaises(s, id);
    RaisedFlag(s.tasks[id]);
    var s1 := Apply(s, StopCall(id));
    hide Apply;
    var t := FinalFlushFails(s1.tasks[id]);
    var drain := StepsRun(s1, id, [LoopWakes, ReceiveClosed, FlushReturns(false)]);
    later := [StopCall(id)] + drain;
    RunThen(s, StopCall(id), drain);
  }

  /** The last stop of the run is this id's; it succeeded and announces one probe, and the table holds none. */
  ghost predicate AnnouncesUnsaved(end: System, id: int) {
    && end.stopLog != []
    && (var last := end.stopLog[|end.stopLog| - 1]; last.Stopped? && last.id == id && last.probeCount == 1)
    && id in end.sessions && end.sessions[id].Some?
    && Tables.RowsOf(end.probes, id) == []
  }

  lemma DroppedBatchIsAnnounced(s: System, id: int) returns (later: seq<Action>)
    requires SystemInv(s) && id in s.stops && s.stops[id] == Draining && id in s.tasks && Joined(s.tasks[id])
    requires |s.tasks[id].work.outcomes| == 1 && Persisted(s.tasks[id]) == []
    ensures AnnouncesUnsaved(Run(s, later), id)
  {
    hide SystemInv, Run, Persisted;
    ActionKeepsInv(s, StopStamps(id, ""));
    var s1 := Apply(s, StopStamps(id, ""));
    RowsArePersisted(s, id);
    RowsArePersisted(s1, id);
    later := [StopStamps(id, "")] + [StopReturns(id)];
    RunOne(s, StopStamps(id, ""));
    RunAppend(s, [StopStamps(id, "")], StopReturns(id));
    assert id in s1.sessions by { StampedHasRow(s, id); }
  }

  lemma StampedHasRow(s: System, id: int)
    requires SystemInv(s) && id in s.tasks
    ensures id in s.sessions
  {
    assert SessionInv(s, id);
  }

  /** From every system, for every id without a row that the database can hand out: a session whose one probe is lost
      to a failed final flush stops successfully and announces that probe, although the table holds none. */
  lemma StopAnnouncesUnsavedProbe(s: System, id: int, result: ProbeResult, at: string) returns (later: seq<Action>)
    requires SystemInv(s) && id >= 1 && id !in s.sessions
    ensures AnnouncesUnsaved(Run(s, later), id)
  {
    hide SystemInv, Run, IsNextRowId, Joined, Persisted, AnnouncesUnsaved;
    var first := IdCanComeUp(s, id);
    var s1 := Run(s, first);
    var emit := ProbeInBatch(s1, id, result, at);
    var s2 := Run(s1, emit);
    var drop := BatchIsDropped(s2, id);
    var s3 := Run(s2, drop);
    var end := DroppedBatchIsAnnounced(s3, id);
    later := first + (emit + (drop + end));
    RunConcat(s, first, emit + (drop + end));
    RunConcat(s1, emit, drop + end);
    RunConcat(s2, drop, end);
  }

  lemma RaisedFlag(t: Task)
    requires t.stopAt == None
    ensures CanStep(t, RaiseStop) && Next(t, RaiseStop) == t.(stopAt := Some(|t.sent|))
  {
  }

  lemma RowsArePersisted(s: System, id: int)
    requires SystemInv(s) && id in s.tasks
    ensures Tables.RowsOf(s.probes, id) == Persisted(s.tasks[id])
  {
    assert SessionInv(s, id);
  }
}
