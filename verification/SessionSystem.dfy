/** All sessions of one database: starts, stops, crashes and deletions interleaved with the tasks' steps. */
module SessionSystem {
  import opened Options
  import opened ProbeTask
  import Tables = SessionTables
  import Stats

  /** A stop call between taking the session out of the active map and returning. */
  datatype StopState = Draining | Stamped(endedAt: string)

  datatype StopResult =
    | NotRunning(id: int)
    | DbFailed(id: int)
    | Stopped(id: int, probeCount: nat, lossCount: nat, endedAt: string)

  datatype System = System(
    sessions: map<int, Option<string>>,   // ended_at by id
    probes: seq<Tables.StoredProbe>,
    active: set<int>,
    tasks: map<int, Task>,
    stops: map<int, StopState>,
    stopLog: seq<StopResult>,
    started: multiset<int>,               // every row ever created and deleted, by id
    deleted: multiset<int>)

  function Boot(sessions: map<int, Option<string>>, probes: seq<Tables.StoredProbe>): System {
    System(sessions, probes, {}, map[], map[], [], multiset(sessions.Keys), multiset{})
  }

  datatype Action =
    | Start(id: int)
    | TaskStep(id: int, step: Step)
    | StopCall(id: int)
    | StopStamps(id: int, endedAt: string)
    | StopStampFails(id: int)
    | StopReturns(id: int)
    | SimulateCrash(id: int)
    | ProcessCrash
    | Delete(id: int)

  /** The id the database gives a fresh row: one more than the largest, or 1. */
  predicate IsNextRowId(s: System, id: int) {
    && id >= 1 && (forall k :: k in s.sessions ==> k < id) && (id > 1 ==> id - 1 in s.sessions)
  }

  predicate Enabled(s: System, a: Action) {
    match a
    case Start(id) => IsNextRowId(s, id)
    case TaskStep(id, step) => id in s.tasks && !step.RaiseStop? && CanStep(s.tasks[id], step)
    case StopCall(id) => true
    case StopStamps(id, _) => id in s.stops && s.stops[id] == Draining && id in s.tasks && Joined(s.tasks[id])
    case StopStampFails(id) => id in s.stops && s.stops[id] == Draining && id in s.tasks && Joined(s.tasks[id])
    case StopReturns(id) => id in s.stops && s.stops[id].Stamped? && id in s.tasks
    case SimulateCrash(id) => id in s.active && id in s.tasks
    case ProcessCrash => true
    // A running session's row is not deleted.
    case Delete(id) => id in s.sessions && id !in s.active && id !in s.stops && (id in s.tasks ==> Joined(s.tasks[id]))
  }

  predicate Joined(t: Task) {
    t.loop == Ended && !Alive(t)
  }

  function Apply(s: System, a: Action): System
    requires Enabled(s, a)
  {
    match a
    case Start(id) =>
      s.(sessions := s.sessions[id := None], tasks := s.tasks[id := SPAWNED], active := s.active + {id},
         started := s.started + multiset{id})
    case TaskStep(id, step) =>
      var t := s.tasks[id];
      s.(tasks := s.tasks[id := Next(t, step)],
         probes := if step.Commit? then s.probes + Tables.Tagged(id, t.work.batch) else s.probes)
    case StopCall(id) =>
      if id in s.active && id in s.tasks then
        s.(active := s.active - {id}, stops := s.stops[id := Draining],
           tasks := s.tasks[id := Next(s.tasks[id], RaiseStop)])
      else s.(stopLog := s.stopLog + [NotRunning(id)])
    case StopStamps(id, endedAt) =>
      s.(stops := s.stops[id := Stamped(endedAt)],
         sessions := if id in s.sessions then s.sessions[id := Some(endedAt)] else s.sessions)
    case StopStampFails(id) =>
      s.(stops := s.stops - {id}, stopLog := s.stopLog + [DbFailed(id)])
    case StopReturns(id) =>
      var t := s.tasks[id];
      var pc, lc := |t.work.outcomes|, Stats.Losses(t.work.outcomes);
      s.(stops := s.stops - {id}, stopLog := s.stopLog + [Stopped(id, pc, lc, s.stops[id].endedAt)],
         tasks := s.tasks[id := t.(work := t.work.(statuses := t.work.statuses + [SessionStopped(id, pc, lc)]))])
    case SimulateCrash(id) =>
      s.(active := s.active - {id}, tasks := s.tasks[id := Kill(s.tasks[id])])
    case ProcessCrash =>
      s.(active := {}, stops := map[], tasks := map id | id in s.tasks :: Kill(s.tasks[id]))
    case Delete(id) =>
      s.(sessions := s.sessions - {id}, probes := Tables.Without(s.probes, id), tasks := s.tasks - {id},
         deleted := s.deleted + multiset{id})
  }

  /** An action that is not enabled does not happen. */
  function Do(s: System, a: Action): System {
    if Enabled(s, a) then Apply(s, a) else s
  }

  function Run(s: System, actions: seq<Action>): System {
    if actions == [] then s else Do(Run(s, actions[..|actions| - 1]), actions[|actions| - 1])
  }

  // ---- What every reachable system satisfies ----

  ghost predicate SessionInv(s: System, id: int)
    requires id in s.tasks
  {
    var t := s.tasks[id];
    && TaskInv(t)
    && id in s.sessions
    && Tables.RowsOf(s.probes, id) == Persisted(t)
    && (id in s.active ==> s.sessions[id] == None && id !in s.stops && t.stopAt == None)
    && (id in s.stops ==> t.stopAt.Some? && s.sessions[id] == (if s.stops[id].Stamped? then Some(s.stops[id].endedAt) else None))
    && (id in s.stops && s.stops[id].Stamped? ==> Joined(t))
    && (!Joined(t) ==> id in s.active || id in s.stops)
  }

  ghost predicate SystemInv(s: System) {
    && (forall id :: id in s.tasks ==> SessionInv(s, id))
    && s.active <= s.tasks.Keys && s.stops.Keys <= s.tasks.Keys
    && (forall id :: id !in s.sessions ==> Tables.RowsOf(s.probes, id) == [])
    && (forall id :: s.started[id] == s.deleted[id] + if id in s.sessions then 1 else 0)
    && (forall id :: Successes(s.stopLog, id) + (if id in s.active || id in s.stops then 1 else 0) <= s.started[id])
  }

  function Successes(log: seq<StopResult>, id: int): nat {
    if log == [] then 0
    else
      var last := log[|log| - 1];
      Successes(log[..|log| - 1], id) + if last.Stopped? && last.id == id then 1 else 0
  }

  lemma OneMoreResult(log: seq<StopResult>, r: StopResult, id: int)
    ensures Successes(log + [r], id) == Successes(log, id) + if r.Stopped? && r.id == id then 1 else 0
  {
    assert (log + [r])[..|log|] == log;
  }

  /** The session an action is about; a process crash is about all of them. */
  predicate Concerns(a: Action, id: int) {
    a.ProcessCrash? || a.id == id
  }

  ghost predicate SameSession(s: System, s': System, id: int) {
    && (id in s'.sessions <==> id in s.sessions) && (id in s.sessions ==> s'.sessions[id] == s.sessions[id])
    && (id in s'.tasks <==> id in s.tasks) && (id in s.tasks ==> s'.tasks[id] == s.tasks[id])
    && (id in s'.active <==> id in s.active)
    && (id in s'.stops <==> id in s.stops) && (id in s.stops ==> s'.stops[id] == s.stops[id])
    && Tables.RowsOf(s'.probes, id) == Tables.RowsOf(s.probes, id)
  }

  /** Sessions running side by side never touch each other's rows, task or ending. */
  lemma SessionsAreIsolated(s: System, a: Action, id: int)
    requires Enabled(s, a) && !Concerns(a, id)
    ensures SameSession(s, Apply(s, a), id)
  {
    match a {
      case TaskStep(owner, step) =>
        if step.Commit? {
          Tables.BatchStaysInItsSession(s.probes, owner, s.tasks[owner].work.batch, id);
        }
      case Delete(owner) =>
        Tables.CascadeTouchesOneSession(s.probes, owner, id);
      case _ =>
    }
  }

  /** Stopping an id that is not active is answered as not running and does nothing else; an active session leaves the
      active ones and drains, with its stop raised. */
  lemma StopNeedsAnActiveSession(s: System, id: int)
    requires SystemInv(s)
    ensures id !in s.active ==> Apply(s, StopCall(id)) == s.(stopLog := s.stopLog + [NotRunning(id)])
    ensures id in s.active ==>
              && id in s.tasks
              && var s' := Apply(s, StopCall(id));
                 && s' == s.(active := s'.active, stops := s'.stops, tasks := s'.tasks)
                 && id !in s'.active && id in s'.stops && s'.stops[id] == Draining
                 && id in s'.tasks && s'.tasks[id].stopAt.Some? && s'.tasks[id] == s.tasks[id].(stopAt := s'.tasks[id].stopAt)
  {
    hide SessionInv;
  }

  lemma TaskStepKeepsInv(s: System, id: int, step: Step)
    requires SystemInv(s) && Enabled(s, TaskStep(id, step))
    ensures SessionInv(Apply(s, TaskStep(id, step)), id)
  {
    hide TaskInv, Persisted, CanStep, Next;
    assert SessionInv(s, id);
    StepKeepsInv(s.tasks[id], step);
    StepKeepsJoined(s.tasks[id], step);
    if step.Commit? {
      Tables.BatchStaysInItsSession(s.probes, id, s.tasks[id].work.batch, id);
    }
  }

  lemma CrashKeepsInv(s: System, a: Action, id: int)
    requires SystemInv(s) && Enabled(s, a) && IsCrashOf(a, id) && id in s.tasks
    ensures SessionInv(Apply(s, a), id)
  {
    hide TaskInv, Persisted;
    assert SessionInv(s, id);
    KillKeepsInv(s.tasks[id]);
  }

  lemma StopKeepsInv(s: System, a: Action, id: int)
    requires SystemInv(s) && Enabled(s, a) && id in s.tasks
    requires a == StopCall(id) || a == StopStampFails(id) || a == StopReturns(id) || (a.StopStamps? && a.id == id)
    ensures SessionInv(Apply(s, a), id)
  {
    hide TaskInv, Persisted;
    assert SessionInv(s, id);
    StepKeepsInv(s.tasks[id], RaiseStop);
    AnnouncementKeepsInv(s.tasks[id], id);
  }

  lemma SubjectKeepsInv(s: System, a: Action, id: int)
    requires SystemInv(s) && Enabled(s, a) && Concerns(a, id)
    requires id in Apply(s, a).tasks
    ensures SessionInv(Apply(s, a), id)
  {
    hide TaskInv, Persisted, SessionInv;
    match a {
      case Start(_) => StartKeepsInv(s, id);
      case TaskStep(_, step) => TaskStepKeepsInv(s, id, step);
      case SimulateCrash(_) => CrashKeepsInv(s, a, id);
      case ProcessCrash => CrashKeepsInv(s, a, id);
      case Delete(_) =>
      case _ => StopKeepsInv(s, a, id);
    }
  }

  lemma StartKeepsInv(s: System, id: int)
    requires SystemInv(s) && Enabled(s, Start(id))
    ensures SessionInv(Apply(s, Start(id)), id)
  {
    SpawnedInv();
    assert id in s.tasks ==> SessionInv(s, id);
  }

  lemma StepKeepsJoined(t: Task, step: Step)
    requires CanStep(t, step) && !step.RaiseStop?
    ensures Next(t, step).stopAt == t.stopAt
    ensures Joined(t) ==> Joined(Next(t, step))
  {
  }

  lemma AnnouncementKeepsInv(t: Task, id: int)
    requires TaskInv(t)
    ensures var pc, lc := |t.work.outcomes|, Stats.Losses(t.work.outcomes);
            var t' := t.(work := t.work.(statuses := t.work.statuses + [SessionStopped(id, pc, lc)]));
            TaskInv(t') && Persisted(t') == Persisted(t)
  {
    hide Accounted, StoredRows, EventsOf, Stats.Losses;
    AnnounceAccounted(t.work, SessionStopped(id, |t.work.outcomes|, Stats.Losses(t.work.outcomes)));
  }

  lemma MissingRowsHaveNoProbes(s: System, a: Action, id: int)
    requires SystemInv(s) && Enabled(s, a)
    ensures id !in Apply(s, a).sessions ==> Tables.RowsOf(Apply(s, a).probes, id) == []
  {
    hide TaskInv, Persisted, Next, Successes, Joined;
    match a {
      case TaskStep(owner, step) =>
        if step.Commit? {
          assert SessionInv(s, owner);
          Tables.BatchStaysInItsSession(s.probes, owner, s.tasks[owner].work.batch, id);
        }
      case Delete(owner) =>
        Tables.CascadeTouchesOneSession(s.probes, owner, id);
      case _ =>
    }
  }

  lemma RowsAreCounted(s: System, a: Action, id: int)
    requires SystemInv(s) && Enabled(s, a)
    ensures Apply(s, a).started[id] == Apply(s, a).deleted[id] + if id in Apply(s, a).sessions then 1 else 0
  {
    hide TaskInv, Persisted, Next, Successes, Joined, Tables.RowsOf, Tables.Tagged, Tables.Without;
    if a.StopStamps? {
      assert SessionInv(s, a.id);
    }
  }

  /** Stops that may yet succeed count as if they had. */
  function Claims(s: System, id: int): nat {
    Successes(s.stopLog, id) + if id in s.active || id in s.stops then 1 else 0
  }

  lemma StopCallClaims(s: System, owner: int, id: int)
    requires SystemInv(s)
    ensures Claims(Apply(s, StopCall(owner)), id) <= Claims(s, id)
  {
    OneMoreResult(s.stopLog, NotRunning(owner), id);
    hide SessionInv, Successes;
  }

  lemma StopFailureClaims(s: System, owner: int, id: int)
    requires Enabled(s, StopStampFails(owner))
    ensures Claims(Apply(s, StopStampFails(owner)), id) <= Claims(s, id)
  {
    OneMoreResult(s.stopLog, DbFailed(owner), id);
    hide SessionInv, Successes;
  }

  lemma StopReturnClaims(s: System, owner: int, id: int)
    requires SystemInv(s) && Enabled(s, StopReturns(owner))
    ensures Claims(Apply(s, StopReturns(owner)), id) <= Claims(s, id)
  {
    hide TaskInv, Persisted, Joined;
    var t := s.tasks[owner];
    assert SessionInv(s, owner);
    OneMoreResult(s.stopLog, Stopped(owner, |t.work.outcomes|, Stats.Losses(t.work.outcomes), s.stops[owner].endedAt), id);
    hide SessionInv, Successes;
  }

  lemma OthersClaimNothing(s: System, a: Action, id: int)
    requires Enabled(s, a) && !a.Start? && !a.StopCall? && !a.StopStampFails? && !a.StopReturns?
    ensures Claims(Apply(s, a), id) <= Claims(s, id)
  {
    hide Successes, Next, CanStep, Joined, Tables.RowsOf, Tables.Tagged, Tables.Without;
  }

  lemma OnlyStartsCreate(s: System, a: Action)
    requires Enabled(s, a) && !a.Start?
    ensures Apply(s, a).started == s.started
  {
    hide Successes, Next, CanStep, Joined, Tables.RowsOf, Tables.Tagged, Tables.Without;
  }

  lemma StopsStayClaimed(s: System, a: Action, id: int)
    requires SystemInv(s) && Enabled(s, a) && !a.Start?
    ensures Claims(Apply(s, a), id) <= Claims(s, id) && Apply(s, a).started == s.started
  {
    OnlyStartsCreate(s, a);
    hide Claims, Apply, SystemInv;
    match a {
      case StopCall(owner) => StopCallClaims(s, owner, id);
      case StopStampFails(owner) => StopFailureClaims(s, owner, id);
      case StopReturns(owner) => StopReturnClaims(s, owner, id);
      case _ => OthersClaimNothing(s, a, id);
    }
  }

  lemma TasksHaveRows(s: System)
    requires SystemInv(s)
    ensures s.tasks.Keys <= s.sessions.Keys && s.active <= s.tasks.Keys && s.stops.Keys <= s.tasks.Keys
  {
    hide TaskInv, Persisted, Joined, Successes;
    forall id | id in s.tasks
      ensures id in s.sessions
    {
      assert SessionInv(s, id);
    }
  }

  lemma StartClaimsOne(s: System, owner: int)
    requires SystemInv(s) && Enabled(s, Start(owner))
    ensures var s' := Apply(s, Start(owner));
            s'.stopLog == s.stopLog && s'.stops == s.stops && s'.active == s.active + {owner}
            && s'.started == s.started + multiset{owner} && owner !in s.active && owner !in s.stops
  {
    TasksHaveRows(s);
    hide SystemInv, Successes;
  }

  lemma BooksKeepInv(s: System, a: Action, id: int)
    requires SystemInv(s) && Enabled(s, a)
    ensures var s' := Apply(s, a);
            && (id !in s'.sessions ==> Tables.RowsOf(s'.probes, id) == [])
            && s'.started[id] == s'.deleted[id] + (if id in s'.sessions then 1 else 0)
            && Successes(s'.stopLog, id) + (if id in s'.active || id in s'.stops then 1 else 0) <= s'.started[id]
  {
    MissingRowsHaveNoProbes(s, a, id);
    RowsAreCounted(s, a, id);
    if a.Start? {
      StartClaimsOne(s, a.id);
    } else {
      StopsStayClaimed(s, a, id);
    }
    hide Apply, Enabled, SessionInv, Successes, Tables.RowsOf;
    assert Claims(s, id) <= s.started[id];
  }

  lemma SessionStaysOk(s: System, a: Action, id: int)
    requires SystemInv(s) && Enabled(s, a) && id in Apply(s, a).tasks
    ensures SessionInv(Apply(s, a), id)
  {
    if Concerns(a, id) {
      SubjectKeepsInv(s, a, id);
    } else {
      SessionsAreIsolated(s, a, id);
      hide Apply, Enabled, TaskInv, Persisted, Joined;
      assert SessionInv(s, id);
    }
  }

  lemma OnlyTasksRun(s: System, a: Action)
    requires SystemInv(s) && Enabled(s, a)
    ensures Apply(s, a).active <= Apply(s, a).tasks.Keys && Apply(s, a).stops.Keys <= Apply(s, a).tasks.Keys
  {
    hide SessionInv;
  }

  lemma ActionKeepsInv(s: System, a: Action)
    requires SystemInv(s) && Enabled(s, a)
    ensures SystemInv(Apply(s, a))
  {
    OnlyTasksRun(s, a);
    AllSessionsOk(s, a);
    AllBooksOk(s, a);
    hide Apply, Enabled, SessionInv, Successes, Tables.RowsOf;
  }

  lemma AllSessionsOk(s: System, a: Action)
    requires SystemInv(s) && Enabled(s, a)
    ensures forall id :: id in Apply(s, a).tasks ==> SessionInv(Apply(s, a), id)
  {
    hide Apply, Enabled, SessionInv, SystemInv;
    forall id | id in Apply(s, a).tasks
      ensures SessionInv(Apply(s, a), id)
    {
      SessionStaysOk(s, a, id);
    }
  }

  lemma AllBooksOk(s: System, a: Action)
    requires SystemInv(s) && Enabled(s, a)
    ensures var s' := Apply(s, a);
            && (forall id :: id !in s'.sessions ==> Tables.RowsOf(s'.probes, id) == [])
            && (forall id :: s'.started[id] == s'.deleted[id] + if id in s'.sessions then 1 else 0)
            && (forall id :: Successes(s'.stopLog, id) + (if id in s'.active || id in s'.stops then 1 else 0) <= s'.started[id])
  {
    hide Apply, Enabled, SystemInv, Successes, Tables.RowsOf;
    forall id: int
      ensures id !in Apply(s, a).sessions ==> Tables.RowsOf(Apply(s, a).probes, id) == []
      ensures Apply(s, a).started[id] == Apply(s, a).deleted[id] + (if id in Apply(s, a).sessions then 1 else 0)
      ensures Successes(Apply(s, a).stopLog, id) + (if id in Apply(s, a).active || id in Apply(s, a).stops then 1 else 0)
              <= Apply(s, a).started[id]
    {
      BooksKeepInv(s, a, id);
    }
  }

  lemma {:induction false} RunKeepsInv(s: System, actions: seq<Action>)
    requires SystemInv(s)
    ensures SystemInv(Run(s, actions))
  {
    if actions != [] {
      var init, a := actions[..|actions| - 1], actions[|actions| - 1];
      RunKeepsInv(s, init);
      if Enabled(Run(s, init), a) {
        ActionKeepsInv(Run(s, init), a);
      }
    }
  }

  /** The tables a process starts from: no probe row without its session. */
  ghost predicate TablesOk(sessions: map<int, Option<string>>, probes: seq<Tables.StoredProbe>) {
    forall id :: id !in sessions ==> Tables.RowsOf(probes, id) == []
  }

  lemma BootInv(sessions: map<int, Option<string>>, probes: seq<Tables.StoredProbe>)
    requires TablesOk(sessions, probes)
    ensures SystemInv(Boot(sessions, probes))
  {
  }

  // ---- Safety over whole runs ----

  /** In every run, each emitted probe is in the table, in a batch whose flush was reported failed,
      or among the at most 50 that the consumer still holds; the batches are contiguous and in order. */
  lemma EmittedProbesAreAccountedFor(s: System, actions: seq<Action>, id: int)
    requires SystemInv(s) && id in Run(s, actions).tasks
    ensures var s' := Run(s, actions);
            var t := s'.tasks[id];
            && EmittedRows(t.work.events) == Flushed(t.work.flushes) + t.work.batch
            && Tables.RowsOf(s'.probes, id) == StoredRows(t.work.flushes) + (if BatchStored(t) then t.work.batch else [])
            && FlushErrors(t.work.statuses) == Failures(t.work.flushes)
            && (forall i :: 0 <= i < |t.work.flushes| ==> 1 <= |t.work.flushes[i].rows| <= 50)
            && |t.work.batch| <= 50
  {
    RunKeepsInv(s, actions);
    assert SessionInv(Run(s, actions), id);
  }

  lemma {:induction false} RunConcat(s: System, a: seq<Action>, b: seq<Action>)
    ensures Run(s, a + b) == Run(Run(s, a), b)
  {
    if b == [] {
      assert a + b == a;
    } else {
      assert (a + b)[..|a + b| - 1] == a + b[..|b| - 1];
      RunConcat(s, a, b[..|b| - 1]);
    }
  }

  lemma RunAppend(s: System, actions: seq<Action>, a: Action)
    ensures Run(s, actions + [a]) == Do(Run(s, actions), a)
  {
    assert (actions + [a])[..|actions|] == actions;
  }

  predicate Deletes(actions: seq<Action>, id: int) {
    Delete(id) in actions
  }

  lemma DoKeepsPersistedRows(s: System, a: Action, id: int)
    requires SystemInv(s) && a != Delete(id)
    ensures Tables.RowsOf(s.probes, id) <= Tables.RowsOf(Do(s, a).probes, id)
  {
    if Enabled(s, a) {
      match a {
        case TaskStep(owner, step) =>
          if step.Commit? {
            Tables.BatchStaysInItsSession(s.probes, owner, s.tasks[owner].work.batch, id);
          }
        case Delete(owner) =>
          Tables.CascadeTouchesOneSession(s.probes, owner, id);
        case _ =>
      }
    }
  }

  /** A flushed probe survives everything that follows, short of deleting its session. */
  lemma {:induction false} FlushedProbesSurvive(s: System, actions: seq<Action>, id: int)
    requires SystemInv(s) && !Deletes(actions, id)
    ensures Tables.RowsOf(s.probes, id) <= Tables.RowsOf(Run(s, actions).probes, id)
  {
    if actions != [] {
      var init := actions[..|actions| - 1];
      FlushedProbesSurvive(s, init, id);
      RunKeepsInv(s, init);
      DoKeepsPersistedRows(Run(s, init), actions[|actions| - 1], id);
    }
  }

  // ---- Crashes ----

  predicate IsCrashOf(a: Action, id: int) {
    a == SimulateCrash(id) || a == ProcessCrash
  }

  /** Both tasks of the session are gone and no stop call is under way. */
  predicate Dead(s: System, id: int) {
    id in s.tasks && Joined(s.tasks[id]) && id in s.sessions && id !in s.active && id !in s.stops
  }

  lemma {:induction false} DeadSessionsStayAsTheyAre(s: System, actions: seq<Action>, id: int)
    requires Dead(s, id) && !Deletes(actions, id)
    ensures Dead(Run(s, actions), id)
    ensures Run(s, actions).sessions[id] == s.sessions[id]
    ensures Tables.RowsOf(Run(s, actions).probes, id) == Tables.RowsOf(s.probes, id)
  {
    if actions != [] {
      var init, a := actions[..|actions| - 1], actions[|actions| - 1];
      DeadSessionsStayAsTheyAre(s, init, id);
      var m := Run(s, init);
      if Enabled(m, a) && !Concerns(a, id) {
        SessionsAreIsolated(m, a, id);
      }
    }
  }

  /** A crash at any await point, however the run went and whatever comes after it:
      nothing flushed is lost, what is lost is at most the 50 probes of the current batch,
      and the session is never stamped as ended. */
  lemma CrashLosesAtMostOneBatch(s: System, before: seq<Action>, crash: Action, after: seq<Action>, id: int)
    requires SystemInv(s)
    requires var m := Run(s, before);
             && IsCrashOf(crash, id) && Enabled(m, crash)
             && id in m.tasks && (id in m.active || (id in m.stops && m.stops[id] == Draining))
    requires !Deletes(after, id)
    ensures var m, end := Run(s, before), Run(Do(Run(s, before), crash), after);
            var w := m.tasks[id].work;
            var rows := Tables.RowsOf(end.probes, id);
            && rows == Tables.RowsOf(m.probes, id)
            && id in end.sessions && end.sessions[id] == None
            && |Unflushed(m.tasks[id])| <= 50
            && |EmittedRows(w.events)| == |rows| + |Unflushed(m.tasks[id])| + |Flushed(w.flushes)| - |StoredRows(w.flushes)|
            && (FlushErrors(w.statuses) == 0 ==> EmittedRows(w.events) == rows + Unflushed(m.tasks[id]))
  {
    hide TaskInv, Persisted, Unflushed, FlushErrors, Flushed, StoredRows, EmittedRows;
    RunKeepsInv(s, before);
    var m := Run(s, before);
    assert SessionInv(m, id);
    CrashKills(m, crash, id);
    DeadSessionsStayAsTheyAre(Do(m, crash), after, id);
    EmittedSplits(m.tasks[id]);
  }

  lemma CrashKills(m: System, crash: Action, id: int)
    requires SystemInv(m) && IsCrashOf(crash, id) && Enabled(m, crash)
    requires id in m.tasks && (id in m.active || (id in m.stops && m.stops[id] == Draining))
    ensures var c := Do(m, crash);
            Dead(c, id) && c.sessions[id] == None && Tables.RowsOf(c.probes, id) == Tables.RowsOf(m.probes, id)
  {
    hide TaskInv, Persisted;
    assert SessionInv(m, id);
    KillKeepsInv(m.tasks[id]);
  }

  // ---- Clean stops ----

  lemma EventsOfAll(t: Task)
    requires TaskInv(t) && t.phase == Exited
    ensures t.work.events == EventsOf(t.sent)
  {
    assert t.sent[..|t.sent|] == t.sent;
  }

  lemma NumberedInSequence(sent: seq<LoopProbe>)
    requires forall i :: 0 <= i < |sent| ==> sent[i].seqNo == i + 1
    requires |sent| <= I64_MAX
    ensures Tables.SeqAscending(EmittedRows(EventsOf(sent)))
  {
    var rows := EmittedRows(EventsOf(sent));
    forall i | 0 <= i < |rows| ensures rows[i].seqNo == i + 1 {
      assert rows[i] == EmittedRow(EventOf(sent[i]));
    }
  }

  /** When a stop returns after its consumer drained the channel, every probe the loop sent was emitted and
      counted, at most one of them after the stop was raised, and the announced counts are those of the
      database exactly when no flush failed. */
  lemma CleanStopAgrees(s: System, actions: seq<Action>, id: int)
    requires SystemInv(s)
    requires Enabled(Run(s, actions), StopReturns(id)) && Run(s, actions).tasks[id].phase == Exited
    ensures var m, end := Run(s, actions), Do(Run(s, actions), StopReturns(id));
            var t := m.tasks[id];
            var rows := Tables.RowsOf(end.probes, id);
            var result := end.stopLog[|end.stopLog| - 1];
            && end.stopLog == m.stopLog + [result]
            && result == Stopped(id, |t.sent|, LostEvents(t.work.events), m.stops[id].endedAt)
            && SessionStopped(id, |t.sent|, LostEvents(t.work.events)) in end.tasks[id].work.statuses
            && id in end.sessions && end.sessions[id] == Some(result.endedAt)
            && t.work.events == EventsOf(t.sent)
            && t.stopAt.Some? && |t.sent| <= t.stopAt.value + 1
            && |rows| <= |t.sent|
            && (|rows| == |t.sent| <==> FlushErrors(t.work.statuses) == 0)
            && (FlushErrors(t.work.statuses) == 0 ==>
                  && rows == EmittedRows(t.work.events)
                  && Tables.LossRows(rows) == result.lossCount)
  {
    RunKeepsInv(s, actions);
    var m := Run(s, actions);
    var t := m.tasks[id];
    assert SessionInv(m, id);
    EventsOfAll(t);
    EmittedSplits(t);
    NothingFailed(t.work.flushes);
    LossRowsOfEvents(t.work.events);
    var end := Do(m, StopReturns(id));
    var st := end.tasks[id].work.statuses;
    assert st[|st| - 1] == SessionStopped(id, |t.sent|, LostEvents(t.work.events));
  }

  lemma DrainedWithoutErrors(t: Task)
    requires TaskInv(t) && t.phase == Exited && FlushErrors(t.work.statuses) == 0
    ensures Persisted(t) == EmittedRows(EventsOf(t.sent))
    ensures |t.sent| <= I64_MAX ==> Tables.SeqAscending(Persisted(t))
  {
    EventsOfAll(t);
    EmittedSplits(t);
    if |t.sent| <= I64_MAX {
      NumberedInSequence(t.sent);
    }
  }

  /** After such a stop, loading the probes ordered by seq gives the emitted probes in emission order. */
  lemma LoadedProbesAreTheEmittedOnes(s: System, actions: seq<Action>, id: int, loaded: seq<Tables.ProbeRow>)
    requires SystemInv(s) && id in Run(s, actions).tasks
    requires var t := Run(s, actions).tasks[id];
             t.phase == Exited && FlushErrors(t.work.statuses) == 0 && |t.sent| <= I64_MAX
    requires Tables.IsOrderBySeq(loaded, Tables.RowsOf(Run(s, actions).probes, id))
    ensures loaded == EmittedRows(EventsOf(Run(s, actions).tasks[id].sent))
  {
    hide TaskInv, Persisted, EmittedRows, EventsOf, FlushErrors, Tables.SeqAscending, Tables.IsOrderBySeq;
    RunKeepsInv(s, actions);
    assert SessionInv(Run(s, actions), id);
    DrainedWithoutErrors(Run(s, actions).tasks[id]);
    Tables.OrderBySeqIsInsertionOrder(loaded, Tables.RowsOf(Run(s, actions).probes, id));
  }

  // ---- One stop per session ----

  /** An id can be stopped successfully once per time its row was created: once, and again after a deletion. */
  lemma OneStopPerCreatedRow(s: System, actions: seq<Action>, id: int)
    requires SystemInv(s)
    ensures Successes(Run(s, actions).stopLog, id) <= 1 + Run(s, actions).deleted[id]
  {
    RunKeepsInv(s, actions);
  }

  lemma {:induction false} DeletionsCounted(s: System, actions: seq<Action>, id: int)
    requires !Deletes(actions, id)
    ensures Run(s, actions).deleted[id] == s.deleted[id]
  {
    if actions != [] {
      DeletionsCounted(s, actions[..|actions| - 1], id);
    }
  }

  /** From the start of a process, as long as the row is not deleted, only one stop of an id can succeed. */
  lemma OnlyOneStopSucceeds(sessions: map<int, Option<string>>, probes: seq<Tables.StoredProbe>, actions: seq<Action>, id: int)
    requires TablesOk(sessions, probes) && !Deletes(actions, id)
    ensures Successes(Run(Boot(sessions, probes), actions).stopLog, id) <= 1
  {
    BootInv(sessions, probes);
    OneStopPerCreatedRow(Boot(sessions, probes), actions, id);
    DeletionsCounted(Boot(sessions, probes), actions, id);
  }
}
