/** What the log view says about itself: whether it runs, which error it shows, and which stop a start waits for. */
module LogView {
  import opened Options
  import opened LogHook
  import opened LogProtocol

  // ---- Running ----

  /** What an action says about running, if anything. */
  function SaysRunning(w: World, a: Action): Option<bool>
    requires Enabled(w, a)
  {
    match a
    case Select(choice) => if choice != w.hook.selected then Some(false) else None
    case Start(_) => if w.hook.active == None then Some(true) else None
    case StopPressed => Some(false)
    case StartFails(g, _) => if g == w.hook.generation then Some(false) else None
    case Notice(g, profile, status) =>
      if g == w.hook.generation && profile == w.channels[g] && status == StatusStarted then Some(true) else None
    case Terminal(g, _, _) => if g == w.hook.generation then Some(false) else None
    case _ => None
  }

  /** The last word of a run on whether the view is running. */
  function LastRunning(actions: seq<Action>): bool {
    if actions == [] then false
    else
      var w, a := Run(OPENED, actions[..|actions| - 1]), actions[|actions| - 1];
      if Enabled(w, a) then SaysRunning(w, a).GetOr(LastRunning(actions[..|actions| - 1]))
      else LastRunning(actions[..|actions| - 1])
  }

  lemma ActionSaysRunning(w: World, a: Action)
    requires Enabled(w, a)
    ensures Apply(w, a).hook.running == SaysRunning(w, a).GetOr(w.hook.running)
  {
    hide Saved, Capped;
  }

  /** Over every run, the view shows running exactly if the last action with a say in it says so: a start that was not
      ignored or a started status of the current channel, against a stop, a change of profile, the rejection of the
      current start or a terminal status of the current channel. */
  lemma {:induction false} RunningIsTheLastWord(actions: seq<Action>)
    ensures Run(OPENED, actions).hook.running == LastRunning(actions)
  {
    hide Apply, Enabled, SaysRunning;
    if actions != [] {
      var init, a := actions[..|actions| - 1], actions[|actions| - 1];
      RunningIsTheLastWord(init);
      if Enabled(Run(OPENED, init), a) {
        ActionSaysRunning(Run(OPENED, init), a);
      }
    }
  }

  lemma ActionKeepsHeldRunning(w: World, a: Action)
    requires Enabled(w, a) && (w.hook.active.Some? ==> w.hook.running)
    ensures Apply(w, a).hook.active.Some? ==> Apply(w, a).hook.running
  {
    hide Saved, Capped;
  }

  /** Whenever the view holds a stream it shows as running. */
  lemma {:induction false} HoldingShowsRunning(actions: seq<Action>)
    ensures Run(OPENED, actions).hook.active.Some? ==> Run(OPENED, actions).hook.running
  {
    hide Apply, Enabled;
    if actions != [] {
      var init, a := actions[..|actions| - 1], actions[|actions| - 1];
      HoldingShowsRunning(init);
      if Enabled(Run(OPENED, init), a) {
        ActionKeepsHeldRunning(Run(OPENED, init), a);
      }
    }
  }

  /** A rejected start gives up the stream it was to open and stops showing as running. */
  lemma RejectionStopsRunning(w: World, g: nat, message: string)
    requires Enabled(w, StartFails(g, message)) && g == w.hook.generation
    ensures var end := Do(w, StartFails(g, message));
            end.hook.active == None && !end.hook.running && end.hook.error == message
  {
  }

  // ---- The error shown ----

  /** What an action says about the error shown, if anything; the empty text shows none. */
  function SaysError(w: World, a: Action): Option<string>
    requires Enabled(w, a)
  {
    match a
    case Select(choice) => if choice != w.hook.selected then Some("") else None
    case Start(_) => if w.hook.active == None then Some("") else None
    case StartFails(g, message) => if g == w.hook.generation then Some(message) else None
    case Notice(g, profile, status) =>
      if g != w.hook.generation || profile != w.channels[g] then None
      else if status == StatusStarted then Some("")
      else if status.StatusWarning? then Some(status.message) else None
    case Terminal(g, status, _) =>
      if g == w.hook.generation && status.StatusError? then Some(status.message) else None
    case _ => None
  }

  function LastError(actions: seq<Action>): string {
    if actions == [] then ""
    else
      var w, a := Run(OPENED, actions[..|actions| - 1]), actions[|actions| - 1];
      if Enabled(w, a) then SaysError(w, a).GetOr(LastError(actions[..|actions| - 1]))
      else LastError(actions[..|actions| - 1])
  }

  lemma UserSaysError(w: World, a: Action)
    requires FromUser(a)
    ensures Apply(w, a).hook.error == SaysError(w, a).GetOr(w.hook.error)
  {
    hide Saved;
  }

  lemma MessageSaysError(w: World, a: Action)
    requires Enabled(w, a) && IsMessage(a)
    ensures Apply(w, a).hook.error == SaysError(w, a).GetOr(w.hook.error)
  {
    hide Saved, Capped;
  }

  lemma ActionSaysError(w: World, a: Action)
    requires Enabled(w, a)
    ensures Apply(w, a).hook.error == SaysError(w, a).GetOr(w.hook.error)
  {
    if FromUser(a) {
      UserSaysError(w, a);
    } else if IsMessage(a) {
      MessageSaysError(w, a);
    }
  }

  /** Over every run, the error shown is the message of the last warning or error status of the then current channel,
      or of the rejection of the then current start, unless a start, a change of profile or a started status came after. */
  lemma {:induction false} ErrorIsTheLastWord(actions: seq<Action>)
    ensures Run(OPENED, actions).hook.error == LastError(actions)
  {
    hide Apply, Enabled, SaysError;
    if actions != [] {
      var init, a := actions[..|actions| - 1], actions[|actions| - 1];
      ErrorIsTheLastWord(init);
      if Enabled(Run(OPENED, init), a) {
        ActionSaysError(Run(OPENED, init), a);
      }
    }
  }

  // ---- Events ----

  /** An event of the current channel, for its profile, comes out on top; at most the oldest of 500 makes room. */
  lemma EventComesOutOnTop(w: World, g: nat, e: LogEvent)
    requires Enabled(w, Event(g, e)) && g == w.hook.generation && e.profileId == w.channels[g]
    ensures var entries := Do(w, Event(g, e)).hook.entries;
            && entries != [] && entries[0] == e
            && entries[1..] == (if |w.hook.entries| >= 500 then w.hook.entries[..499] else w.hook.entries)
            && Saved(Do(w, Event(g, e)).hook, e.profileId) == entries
  {
  }

  // ---- Waiting for a stop ----

  /** Starting a profile again right after leaving it waits for the stop that leaving it asked for. */
  lemma RestartWaitsForTheStop(w: World, leave: Action, p: int)
    requires w.hook.active == Some(p)
    requires leave == StopPressed || (leave.Select? && leave.choice != w.hook.selected)
    ensures var w1 := Do(w, leave);
            var w2 := Do(w1, Start(p));
            && w2.hook.generation in w2.starts && w2.starts[w2.hook.generation] == Waiting(p, Some(w.calls))
            && w.calls in w2.stops && w2.stops[w.calls] == StopCall(p, NotYet)
            && !Enabled(w2, StartProceeds(w2.hook.generation))
  {
    LeaveRecords(w, leave, p);
    var w1 := Do(w, leave);
    hide Apply;
    StartWaits(w1, p);
  }

  lemma LeaveRecords(w: World, leave: Action, p: int)
    requires w.hook.active == Some(p)
    requires leave == StopPressed || (leave.Select? && leave.choice != w.hook.selected)
    ensures var w1 := Do(w, leave);
            && w1.hook.active == None && p in w1.hook.pendingStops && w1.hook.pendingStops[p] == w.calls
            && w.calls in w1.stops && w1.stops[w.calls] == StopCall(p, NotYet)
  {
  }

  lemma StartWaits(w: World, p: int)
    requires w.hook.active == None && p in w.hook.pendingStops
    ensures var w1, g := Do(w, Start(p)), w.hook.generation + 1;
            && w1.hook.generation == g && g in w1.starts && w1.starts[g] == Waiting(p, Some(w.hook.pendingStops[p]))
            && w1.stops == w.stops
  {
  }

  /** Every recorded stop is an unresolved one of its profile. */
  ghost predicate RecordedOk(w: World) {
    && (forall c :: c in w.stops ==> c < w.calls)
    && forall p :: p in w.hook.pendingStops ==>
         w.hook.pendingStops[p] in w.stops && w.stops[w.hook.pendingStops[p]].profile == p
  }

  lemma SelectKeepsRecorded(w: World, choice: Option<int>)
    requires RecordedOk(w)
    ensures RecordedOk(Apply(w, Select(choice)))
  {
    hide Saved;
  }

  lemma StartKeepsRecorded(w: World, p: int)
    requires RecordedOk(w)
    ensures RecordedOk(Apply(w, Start(p)))
  {
    hide Saved;
  }

  lemma StopKeepsRecorded(w: World)
    requires RecordedOk(w)
    ensures RecordedOk(Apply(w, StopPressed))
  {
  }

  lemma OthersKeepRecorded(w: World)
    requires RecordedOk(w)
    ensures RecordedOk(Apply(w, UnmountView)) && RecordedOk(Apply(w, ClearPressed))
  {
  }

  lemma UserKeepsRecorded(w: World, a: Action)
    requires RecordedOk(w) && FromUser(a)
    ensures RecordedOk(Apply(w, a))
  {
    hide Apply, RecordedOk;
    match a {
      case Select(choice) => SelectKeepsRecorded(w, choice);
      case Start(p) => StartKeepsRecorded(w, p);
      case StopPressed => StopKeepsRecorded(w);
      case _ => OthersKeepRecorded(w);
    }
  }

  lemma StartCallsKeepRecorded(w: World, a: Action)
    requires RecordedOk(w) && Enabled(w, a) && FromStart(a)
    ensures RecordedOk(Apply(w, a))
  {
  }

  lemma BackendKeepsRecorded(w: World, a: Action)
    requires RecordedOk(w) && Enabled(w, a) && FromBackend(a)
    ensures RecordedOk(Apply(w, a))
  {
  }

  lemma MessagesKeepRecorded(w: World, a: Action)
    requires RecordedOk(w) && Enabled(w, a) && IsMessage(a)
    ensures RecordedOk(Apply(w, a))
  {
    hide Saved, Capped;
  }

  /** So a start never waits for a stop that has already returned, nor for another profile's. */
  lemma {:induction false} RecordedStopsAreUnresolved(actions: seq<Action>)
    ensures RecordedOk(Run(OPENED, actions))
  {
    hide Apply, Enabled, RecordedOk;
    if actions == [] {
      assert RecordedOk(OPENED) by { NothingRecorded(); }
    } else {
      var init, a := actions[..|actions| - 1], actions[|actions| - 1];
      RecordedStopsAreUnresolved(init);
      var w := Run(OPENED, init);
      if Enabled(w, a) {
        if FromUser(a) {
          UserKeepsRecorded(w, a);
        } else if IsMessage(a) {
          MessagesKeepRecorded(w, a);
        } else if FromStart(a) {
          StartCallsKeepRecorded(w, a);
        } else {
          BackendKeepsRecorded(w, a);
        }
      }
    }
  }

  lemma NothingRecorded()
    ensures RecordedOk(OPENED)
  {
  }
}
