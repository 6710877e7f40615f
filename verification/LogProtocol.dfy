/** The log view racing with its backend: unresolved calls, running streams and undelivered statuses. */
module LogProtocol {
  import opened Options
  import opened LogHook

  datatype StartAnswer = Pending | Granted | Rejected

  /** A start call that has not returned: waiting for an earlier stop, or for the backend's answer. */
  datatype StartCall = Waiting(profile: int, on: Option<nat>) | Invoked(profile: int, answer: StartAnswer)

  datatype StopAnswer = NotYet | Closed | Refused

  datatype StopCall = StopCall(profile: int, answer: StopAnswer)

  datatype World = World(
    hook: Hook,
    starts: map<nat, StartCall>,      // by the generation they drew
    stops: map<nat, StopCall>,        // by call name
    calls: nat,                       // names handed out so far
    channels: map<nat, int>,          // profile of every generation whose handlers were created
    streams: map<int, nat>,           // the backend's running streams, and whose channel each one feeds
    terminal: set<nat>,               // channels with an undelivered terminal status
    dropped: set<nat>,                // streams that ended on their own without reporting it
    closed: set<nat>,                 // streams that a stop closed without their reporting it
    refused: set<nat>,                // streams the view had given up when a stop of their profile was refused
    accepted: map<int, seq<LogEvent>> // every event taken for a profile since it was last cleared, newest first
  )

  const OPENED := World(MOUNTED, map[], map[], 0, map[], map[], {}, {}, {}, {}, map[])

  datatype Action =
    // the user
    | Select(choice: Option<int>) | Start(profile: int) | StopPressed | ClearPressed | UnmountView
    // continuations of suspended code
    | StartProceeds(generation: nat) | StartReturns(generation: nat) | StartFails(generation: nat, message: string)
    | StopReturns(call: nat)
    // the backend
    | BackendOpens(generation: nat) | BackendRejects(generation: nat, reports: bool)
    | BackendCloses(call: nat, reports: bool) | BackendRefuses(call: nat)
    | StreamEnds(profile: int, reports: bool)
    // messages
    | Event(generation: nat, event: LogEvent)
    | Notice(generation: nat, eventProfile: int, status: LogStatus)
    | Terminal(generation: nat, status: LogStatus, more: bool)

  predicate IsTerminal(s: LogStatus) {
    s.StatusStopped? || s.StatusError?
  }

  predicate IsPending(w: World, g: nat) {
    g in w.starts && w.starts[g].Invoked? && w.starts[g].answer == Pending
  }

  predicate Enabled(w: World, a: Action) {
    match a
    case Select(_) => true
    case Start(_) => true
    case StopPressed => true
    case ClearPressed => true
    case UnmountView => true
    case StartProceeds(g) => g in w.starts && w.starts[g].Waiting? && (w.starts[g].on.Some? ==> w.starts[g].on.value !in w.stops)
    case StartReturns(g) => g in w.starts && w.starts[g].Invoked? && w.starts[g].answer == Granted
    case StartFails(g, _) => g in w.starts && w.starts[g].Invoked? && w.starts[g].answer == Rejected
    case StopReturns(c) => c in w.stops && w.stops[c].answer != NotYet
    // One stream per profile: a start of a profile that is streaming can only be rejected.
    case BackendOpens(g) => IsPending(w, g) && w.starts[g].profile !in w.streams
    case BackendRejects(g, _) => IsPending(w, g)
    case BackendCloses(c, _) => c in w.stops && w.stops[c].answer == NotYet
    case BackendRefuses(c) => c in w.stops && w.stops[c].answer == NotYet
    case StreamEnds(p, _) => p in w.streams
    case Event(g, _) => g in w.channels
    case Notice(g, _, s) => g in w.channels && !IsTerminal(s)
    case Terminal(g, s, _) => g in w.channels && g in w.terminal && IsTerminal(s)
  }

  function IssueStop(w: World, profile: int): World {
    w.(stops := w.stops[w.calls := StopCall(profile, NotYet)], calls := w.calls + 1)
  }

  function IssueStopIf(w: World, stopping: bool, profile: Option<int>): World {
    if stopping && profile.Some? then IssueStop(w, profile.value) else w
  }

  datatype Cause = OnItsOwn | ByStop

  /** The running stream of a profile, if any, ends; the backend may or may not report it. */
  function EndStream(w: World, profile: int, reports: bool, cause: Cause): World {
    if profile !in w.streams then w
    else
      var g := {w.streams[profile]};
      w.(streams := w.streams - {profile},
         terminal := if reports then w.terminal + g else w.terminal,
         dropped := if reports || cause == ByStop then w.dropped else w.dropped + g,
         closed := if reports || cause == OnItsOwn then w.closed else w.closed + g)
  }

  function Accepted(w: World, profile: int): seq<LogEvent> {
    if profile in w.accepted then w.accepted[profile] else []
  }

  function Apply(w: World, a: Action): World
    requires Enabled(w, a)
  {
    var h := w.hook;
    match a
    case Select(profile) =>
      IssueStopIf(w.(hook := SelectProfile(h, profile, w.calls)), SelectStops(h, profile), h.active)
    case Start(profile) =>
      if h.active.Some? then w
      else
        var h' := BeginStart(h, profile);
        var on := if profile in h.pendingStops then Some(h.pendingStops[profile]) else None;
        w.(hook := h', starts := w.starts[h'.generation := Waiting(profile, on)])
    case StopPressed =>
      IssueStopIf(w.(hook := Stop(h, w.calls)), true, h.active)
    case UnmountView =>
      IssueStopIf(w.(hook := Unmount(h)), true, h.active)
    case ClearPressed =>
      w.(hook := Clear(h), accepted := if h.selected.Some? then w.accepted[h.selected.value := []] else w.accepted)
    case StartProceeds(g) =>
      if h.generation != g then w.(starts := w.starts - {g})
      else
        var p := w.starts[g].profile;
        w.(starts := w.starts[g := Invoked(p, Pending)], channels := w.channels[g := p])
    case BackendOpens(g) =>
      var p := w.starts[g].profile;
      w.(streams := w.streams[p := g], starts := w.starts[g := Invoked(p, Granted)])
    case BackendRejects(g, reports) =>
      // A failed open reports a terminal error on a channel that never streamed.
      w.(starts := w.starts[g := Invoked(w.starts[g].profile, Rejected)],
         terminal := if reports then w.terminal + {g} else w.terminal)
    case StartReturns(g) =>
      // A start that lost its race closes what it opened, outside the pending stops.
      IssueStopIf(w.(starts := w.starts - {g}), h.generation != g, Some(w.starts[g].profile))
    case StartFails(g, message) =>
      w.(starts := w.starts - {g}, hook := StartRejected(h, g, message))
    case BackendCloses(c, reports) =>
      var p := w.stops[c].profile;
      EndStream(w, p, reports, ByStop).(stops := w.stops[c := StopCall(p, Closed)])
    case BackendRefuses(c) =>
      var p := w.stops[c].profile;
      w.(stops := w.stops[c := StopCall(p, Refused)],
         refused := if p in w.streams && w.streams[p] != h.generation then w.refused + {w.streams[p]} else w.refused)
    case StopReturns(c) =>
      w.(stops := w.stops - {c}, hook := StopSettled(h, w.stops[c].profile, c))
    case StreamEnds(p, reports) =>
      EndStream(w, p, reports, OnItsOwn)
    case Event(g, e) =>
      var p := w.channels[g];
      w.(hook := HandleEvent(h, g, p, e),
         accepted := if h.generation == g && e.profileId == p then w.accepted[p := [e] + Accepted(w, p)] else w.accepted)
    case Notice(g, eventProfile, s) =>
      w.(hook := HandleStatus(h, g, w.channels[g], eventProfile, s))
    case Terminal(g, s, more) =>
      w.(hook := HandleStatus(h, g, w.channels[g], w.channels[g], s),
         terminal := if more then w.terminal else w.terminal - {g})
  }

  function Do(w: World, a: Action): World {
    if Enabled(w, a) then Apply(w, a) else w
  }

  function Run(w: World, actions: seq<Action>): World {
    if actions == [] then w else Do(Run(w, actions[..|actions| - 1]), actions[|actions| - 1])
  }

  // ---- Invariants ----

  /** A stop of this profile has been asked for and has not reached the backend yet. */
  ghost predicate StopComing(w: World, profile: int) {
    exists c :: c in w.stops && w.stops[c] == StopCall(profile, NotYet)
  }

  predicate Held(w: World, profile: int, g: nat) {
    w.hook.generation == g && w.hook.active == Some(profile)
  }

  /** The start that opened the stream has not returned; once it does, it sees it lost and asks for a stop. */
  predicate WillClose(w: World, profile: int, g: nat) {
    g in w.starts && w.starts[g] == Invoked(profile, Granted) && w.hook.generation != g
  }

  predicate Streaming(w: World, profile: int, g: nat) {
    profile in w.streams && w.streams[profile] == g
  }

  ghost predicate Covered(w: World, p: int)
    requires p in w.streams
  {
    var g := w.streams[p];
    Held(w, p, g) || StopComing(w, p) || WillClose(w, p, g) || g in w.refused
  }

  ghost predicate StreamsCovered(w: World) {
    forall p :: p in w.streams ==> Covered(w, p)
  }

  /** Generations and call names are drawn in order, and handlers exist once the backend was asked to start. */
  ghost predicate NamesOk(w: World) {
    && (forall g :: g in w.starts ==> g <= w.hook.generation)
    && (forall g :: g in w.starts && w.starts[g].Invoked? ==> g in w.channels && w.channels[g] == w.starts[g].profile)
    && (forall g :: g in w.starts && w.starts[g].Waiting? ==> g !in w.channels)
    && (forall g :: g in w.channels ==> g <= w.hook.generation)
    && (forall c :: c in w.stops ==> c < w.calls)
  }

  predicate Ended(w: World, g: nat) {
    g in w.terminal || g in w.dropped || g in w.closed
  }

  /** The backend was asked to start and has not opened a stream for it. */
  predicate NotOpened(w: World, g: nat) {
    g in w.starts && w.starts[g].Invoked? && w.starts[g].answer != Granted
  }

  /** Every stream feeds one channel of its profile; it is opened once and ends once. */
  ghost predicate StreamsOk(w: World) {
    && (forall p :: p in w.streams ==>
          && w.streams[p] in w.channels && w.channels[w.streams[p]] == p
          && w.streams[p] !in w.terminal && w.streams[p] !in w.dropped && w.streams[p] !in w.closed
          && !(w.streams[p] in w.starts && w.starts[w.streams[p]].Invoked? && w.starts[w.streams[p]].answer != Granted))
    && w.terminal + w.dropped + w.closed + w.refused <= w.channels.Keys
    && (forall g :: g in w.refused ==> g < w.hook.generation)
    && (forall g :: g in w.starts && w.starts[g].Invoked? && w.starts[g].answer == Pending ==>
          g !in w.terminal && g !in w.dropped && g !in w.closed)
  }

  /** The current generation belongs to the selected profile, and to the active one while a stream is held. */
  ghost predicate CurrentOk(w: World) {
    var g := w.hook.generation;
    && (g in w.channels ==> w.hook.selected == Some(w.channels[g]))
    && (g in w.starts ==> w.hook.active == Some(w.starts[g].profile) && w.hook.selected == w.hook.active)
    && (forall p :: p in w.streams && w.streams[p] == g ==> w.hook.active == Some(p))
    && (w.hook.active.Some? ==>
          || (g in w.starts && w.starts[g].Waiting?)
          || (g in w.channels && w.channels[g] == w.hook.active.value &&
              (NotOpened(w, g) || Streaming(w, w.hook.active.value, g) || Ended(w, g))))
  }

  ghost predicate EntriesOk(w: World) {
    && BuffersOk(w.hook)
    && forall p :: Saved(w.hook, p) == Capped(Accepted(w, p))
  }

  ghost predicate Inv(w: World) {
    StreamsCovered(w) && NamesOk(w) && StreamsOk(w) && CurrentOk(w) && EntriesOk(w)
  }

  predicate FromUser(a: Action) {
    a.Select? || a.Start? || a.StopPressed? || a.ClearPressed? || a.UnmountView?
  }

  predicate FromStart(a: Action) {
    a.StartProceeds? || a.StartReturns? || a.StartFails? || a.StopReturns?
  }

  predicate FromBackend(a: Action) {
    a.BackendOpens? || a.BackendRejects? || a.BackendCloses? || a.BackendRefuses? || a.StreamEnds?
  }

  predicate IsMessage(a: Action) {
    a.Event? || a.Notice? || a.Terminal?
  }

  // ---- What the user's actions do ----

  ghost predicate SameView(w: World, w': World) {
    && w'.hook.generation == w.hook.generation && w'.hook.active == w.hook.active && w'.hook.selected == w.hook.selected
    && w'.starts == w.starts && w'.stops == w.stops && w'.calls == w.calls
  }

  ghost predicate Begun(w: World, w': World) {
    && w'.stops == w.stops && w'.calls == w.calls
    && w.hook.active == None && w'.hook.generation == w.hook.generation + 1
    && exists p, on :: w'.hook.active == w'.hook.selected == Some(p) &&
                       w'.starts == w.starts[w.hook.generation + 1 := Waiting(p, on)]
  }

  /** Leaving a held stream behind always asks the backend to stop it. */
  ghost predicate Left(w: World, w': World) {
    && w'.starts == w.starts && w'.hook.generation == w.hook.generation + 1 && w'.hook.active == None
    && (if w.hook.active == None then w'.stops == w.stops && w'.calls == w.calls
        else w'.stops == w.stops[w.calls := StopCall(w.hook.active.value, NotYet)] && w'.calls == w.calls + 1)
  }

  ghost predicate UserMoved(w: World, w': World) {
    && w'.channels == w.channels && w'.streams == w.streams
    && w'.terminal == w.terminal && w'.dropped == w.dropped && w'.closed == w.closed && w'.refused == w.refused
    && (SameView(w, w') || Begun(w, w') || Left(w, w'))
  }

  lemma SelectMoves(w: World, choice: Option<int>)
    ensures UserMoved(w, Apply(w, Select(choice)))
  {
  }

  lemma StartMoves(w: World, p: int)
    ensures UserMoved(w, Apply(w, Start(p)))
  {
    if w.hook.active == None {
      var on := if p in w.hook.pendingStops then Some(w.hook.pendingStops[p]) else None;
      assert Apply(w, Start(p)).starts == w.starts[w.hook.generation + 1 := Waiting(p, on)];
    }
  }

  lemma StopMoves(w: World)
    ensures UserMoved(w, Apply(w, StopPressed))
  {
  }

  lemma UnmountMoves(w: World)
    ensures UserMoved(w, Apply(w, UnmountView))
  {
  }

  lemma ClearMoves(w: World)
    ensures UserMoved(w, Apply(w, ClearPressed))
  {
  }

  lemma UserMoves(w: World, a: Action)
    requires FromUser(a)
    ensures UserMoved(w, Apply(w, a))
  {
    hide Apply, UserMoved;
    match a {
      case Select(choice) => SelectMoves(w, choice);
      case Start(p) => StartMoves(w, p);
      case StopPressed => StopMoves(w);
      case UnmountView => UnmountMoves(w);
      case ClearPressed => ClearMoves(w);
    }
  }

  lemma UserKeepsShape(w: World, w': World)
    requires NamesOk(w) && StreamsOk(w) && CurrentOk(w) && UserMoved(w, w')
    ensures NamesOk(w') && StreamsOk(w') && CurrentOk(w')
  {
    if Begun(w, w') {
      BeginningKeepsShape(w, w');
    } else if Left(w, w') {
      LeavingKeepsShape(w, w');
    }
  }

  lemma BeginningKeepsShape(w: World, w': World)
    requires NamesOk(w) && StreamsOk(w) && CurrentOk(w) && UserMoved(w, w') && Begun(w, w')
    ensures NamesOk(w') && StreamsOk(w') && CurrentOk(w')
  {
  }

  lemma LeavingKeepsShape(w: World, w': World)
    requires NamesOk(w) && StreamsOk(w) && CurrentOk(w) && UserMoved(w, w') && Left(w, w')
    ensures NamesOk(w') && StreamsOk(w') && CurrentOk(w')
  {
  }

  lemma UserKeepsCover(w: World, w': World)
    requires NamesOk(w) && CurrentOk(w) && StreamsCovered(w) && UserMoved(w, w')
    ensures StreamsCovered(w')
  {
    forall p | p in w'.streams
      ensures Covered(w', p)
    {
      assert Covered(w, p);
      if StopComing(w, p) {
        var c :| c in w.stops && w.stops[c] == StopCall(p, NotYet);
        assert c in w'.stops && w'.stops[c] == StopCall(p, NotYet);
      } else if Left(w, w') && w.hook.active == Some(p) {
        assert w'.stops[w.calls] == StopCall(p, NotYet);
      }
    }
  }

  // ---- Every other action, one by one ----

  lemma LostProceedKeeps(w: World, g: nat)
    requires NamesOk(w) && StreamsOk(w) && CurrentOk(w) && Enabled(w, StartProceeds(g)) && w.hook.generation != g
    ensures var w' := Apply(w, StartProceeds(g)); NamesOk(w') && StreamsOk(w') && CurrentOk(w')
  {
  }

  lemma HeldProceedKeepsNames(w: World)
    requires NamesOk(w) && Enabled(w, StartProceeds(w.hook.generation))
    ensures NamesOk(Apply(w, StartProceeds(w.hook.generation)))
  {
  }

  lemma HeldProceedKeepsStreams(w: World)
    requires NamesOk(w) && StreamsOk(w) && Enabled(w, StartProceeds(w.hook.generation))
    ensures StreamsOk(Apply(w, StartProceeds(w.hook.generation)))
  {
  }

  lemma HeldProceedKeepsCurrent(w: World)
    requires NamesOk(w) && CurrentOk(w) && Enabled(w, StartProceeds(w.hook.generation))
    ensures CurrentOk(Apply(w, StartProceeds(w.hook.generation)))
  {
  }

  lemma ReturnKeepsNames(w: World, g: nat)
    requires NamesOk(w) && Enabled(w, StartReturns(g))
    ensures NamesOk(Apply(w, StartReturns(g)))
  {
  }

  lemma ReturnKeepsStreams(w: World, g: nat)
    requires NamesOk(w) && StreamsOk(w) && Enabled(w, StartReturns(g))
    ensures StreamsOk(Apply(w, StartReturns(g)))
  {
  }

  lemma ReturnKeepsCurrent(w: World, g: nat)
    requires NamesOk(w) && StreamsOk(w) && CurrentOk(w) && Enabled(w, StartReturns(g))
    ensures CurrentOk(Apply(w, StartReturns(g)))
  {
  }

  lemma FailKeepsNames(w: World, g: nat, message: string)
    requires NamesOk(w) && Enabled(w, StartFails(g, message))
    ensures NamesOk(Apply(w, StartFails(g, message)))
  {
  }

  lemma FailKeepsStreams(w: World, g: nat, message: string)
    requires NamesOk(w) && StreamsOk(w) && Enabled(w, StartFails(g, message))
    ensures StreamsOk(Apply(w, StartFails(g, message)))
  {
  }

  lemma FailKeepsCurrent(w: World, g: nat, message: string)
    requires NamesOk(w) && StreamsOk(w) && CurrentOk(w) && Enabled(w, StartFails(g, message))
    ensures CurrentOk(Apply(w, StartFails(g, message)))
  {
  }

  lemma StopReturnKeepsNames(w: World, c: nat)
    requires NamesOk(w) && Enabled(w, StopReturns(c))
    ensures NamesOk(Apply(w, StopReturns(c)))
  {
  }

  lemma StopReturnKeepsStreams(w: World, c: nat)
    requires NamesOk(w) && StreamsOk(w) && Enabled(w, StopReturns(c))
    ensures StreamsOk(Apply(w, StopReturns(c)))
  {
  }

  lemma StopReturnKeepsCurrent(w: World, c: nat)
    requires NamesOk(w) && StreamsOk(w) && CurrentOk(w) && Enabled(w, StopReturns(c))
    ensures CurrentOk(Apply(w, StopReturns(c)))
  {
  }

  lemma OpenKeepsNames(w: World, g: nat)
    requires NamesOk(w) && Enabled(w, BackendOpens(g))
    ensures NamesOk(Apply(w, BackendOpens(g)))
  {
  }

  lemma OpenKeepsStreams(w: World, g: nat)
    requires NamesOk(w) && StreamsOk(w) && Enabled(w, BackendOpens(g))
    ensures StreamsOk(Apply(w, BackendOpens(g)))
  {
  }

  lemma OpenKeepsCurrent(w: World, g: nat)
    requires NamesOk(w) && StreamsOk(w) && CurrentOk(w) && Enabled(w, BackendOpens(g))
    ensures CurrentOk(Apply(w, BackendOpens(g)))
  {
  }

  lemma RejectKeepsNames(w: World, g: nat, reports: bool)
    requires NamesOk(w) && Enabled(w, BackendRejects(g, reports))
    ensures NamesOk(Apply(w, BackendRejects(g, reports)))
  {
  }

  lemma RejectKeepsStreams(w: World, g: nat, reports: bool)
    requires NamesOk(w) && StreamsOk(w) && Enabled(w, BackendRejects(g, reports))
    ensures StreamsOk(Apply(w, BackendRejects(g, reports)))
  {
  }

  lemma RejectKeepsCurrent(w: World, g: nat, reports: bool)
    requires NamesOk(w) && StreamsOk(w) && CurrentOk(w) && Enabled(w, BackendRejects(g, reports))
    ensures CurrentOk(Apply(w, BackendRejects(g, reports)))
  {
  }

  lemma CloseKeepsNames(w: World, c: nat, reports: bool)
    requires NamesOk(w) && Enabled(w, BackendCloses(c, reports))
    ensures NamesOk(Apply(w, BackendCloses(c, reports)))
  {
  }

  /** Ending a stream keeps one record per channel. */
  lemma EndingKeepsStreams(w: World, p: int, reports: bool, cause: Cause)
    requires StreamsOk(w)
    ensures StreamsOk(EndStream(w, p, reports, cause))
  {
  }

  lemma CloseKeepsStreams(w: World, c: nat, reports: bool)
    requires StreamsOk(w) && Enabled(w, BackendCloses(c, reports))
    ensures StreamsOk(Apply(w, BackendCloses(c, reports)))
  {
    var p := w.stops[c].profile;
    EndingKeepsStreams(w, p, reports, ByStop);
    assert Apply(w, BackendCloses(c, reports)) == EndStream(w, p, reports, ByStop).(stops := w.stops[c := StopCall(p, Closed)]);
    hide Apply, Enabled, EndStream;
  }

  lemma EndingKeepsCurrent(w: World, p: int, reports: bool, cause: Cause)
    requires CurrentOk(w)
    ensures CurrentOk(EndStream(w, p, reports, cause))
  {
  }

  lemma CloseKeepsCurrent(w: World, c: nat, reports: bool)
    requires CurrentOk(w) && Enabled(w, BackendCloses(c, reports))
    ensures CurrentOk(Apply(w, BackendCloses(c, reports)))
  {
    var p := w.stops[c].profile;
    EndingKeepsCurrent(w, p, reports, ByStop);
    assert Apply(w, BackendCloses(c, reports)) == EndStream(w, p, reports, ByStop).(stops := w.stops[c := StopCall(p, Closed)]);
    hide Apply, Enabled, EndStream;
  }

  lemma RefuseKeepsNames(w: World, c: nat)
    requires NamesOk(w) && Enabled(w, BackendRefuses(c))
    ensures NamesOk(Apply(w, BackendRefuses(c)))
  {
  }

  lemma RefuseKeepsStreams(w: World, c: nat)
    requires NamesOk(w) && StreamsOk(w) && Enabled(w, BackendRefuses(c))
    ensures StreamsOk(Apply(w, BackendRefuses(c)))
  {
  }

  lemma RefuseKeepsCurrent(w: World, c: nat)
    requires NamesOk(w) && StreamsOk(w) && CurrentOk(w) && Enabled(w, BackendRefuses(c))
    ensures CurrentOk(Apply(w, BackendRefuses(c)))
  {
  }

  lemma EndKeepsNames(w: World, p: int, reports: bool)
    requires NamesOk(w) && Enabled(w, StreamEnds(p, reports))
    ensures NamesOk(Apply(w, StreamEnds(p, reports)))
  {
  }

  lemma EndKeepsStreams(w: World, p: int, reports: bool)
    requires StreamsOk(w) && Enabled(w, StreamEnds(p, reports))
    ensures StreamsOk(Apply(w, StreamEnds(p, reports)))
  {
    EndingKeepsStreams(w, p, reports, OnItsOwn);
    hide EndStream, StreamsOk;
  }

  lemma EndKeepsCurrent(w: World, p: int, reports: bool)
    requires CurrentOk(w) && Enabled(w, StreamEnds(p, reports))
    ensures CurrentOk(Apply(w, StreamEnds(p, reports)))
  {
    EndingKeepsCurrent(w, p, reports, OnItsOwn);
    hide EndStream, CurrentOk;
  }

  lemma OthersKeepShape(w: World, a: Action)
    requires Inv(w) && Enabled(w, a) && (FromStart(a) || FromBackend(a))
    ensures var w' := Apply(w, a); NamesOk(w') && StreamsOk(w') && CurrentOk(w')
  {
    hide Enabled, Apply, NamesOk, StreamsOk, CurrentOk, StreamsCovered, EntriesOk;
    match a {
      case StartProceeds(g) =>
        if w.hook.generation == g {
          HeldProceedKeepsNames(w);
          HeldProceedKeepsStreams(w);
          HeldProceedKeepsCurrent(w);
        } else {
          LostProceedKeeps(w, g);
        }
      case StartReturns(g) =>
        ReturnKeepsNames(w, g);
        ReturnKeepsStreams(w, g);
        ReturnKeepsCurrent(w, g);
      case StartFails(g, message) =>
        FailKeepsNames(w, g, message);
        FailKeepsStreams(w, g, message);
        FailKeepsCurrent(w, g, message);
      case StopReturns(c) =>
        StopReturnKeepsNames(w, c);
        StopReturnKeepsStreams(w, c);
        StopReturnKeepsCurrent(w, c);
      case BackendOpens(g) =>
        OpenKeepsNames(w, g);
        OpenKeepsStreams(w, g);
        OpenKeepsCurrent(w, g);
      case BackendRejects(g, reports) =>
        RejectKeepsNames(w, g, reports);
        RejectKeepsStreams(w, g, reports);
        RejectKeepsCurrent(w, g, reports);
      case BackendCloses(c, reports) =>
        CloseKeepsNames(w, c, reports);
        CloseKeepsStreams(w, c, reports);
        CloseKeepsCurrent(w, c, reports);
      case BackendRefuses(c) =>
        RefuseKeepsNames(w, c);
        RefuseKeepsStreams(w, c);
        RefuseKeepsCurrent(w, c);
      case StreamEnds(p, reports) =>
        EndKeepsNames(w, p, reports);
        EndKeepsStreams(w, p, reports);
        EndKeepsCurrent(w, p, reports);
    }
  }

  /** Only a terminal status of the current generation moves the references; others pass by. */
  ghost predicate MessageMoved(w: World, a: Action, w': World) {
    && w'.hook.selected == w.hook.selected
    && w'.starts == w.starts && w'.channels == w.channels && w'.streams == w.streams
    && w'.dropped == w.dropped && w'.closed == w.closed
    && w'.stops == w.stops && w'.refused == w.refused && w'.calls == w.calls
    && (if a.Terminal? && a.generation == w.hook.generation then
          w'.hook.generation == w.hook.generation + 1 && w'.hook.active == None
        else
          w'.hook.generation == w.hook.generation && w'.hook.active == w.hook.active)
    && w'.terminal == if a.Terminal? && !a.more then w.terminal - {a.generation} else w.terminal
  }

  lemma EventMoves(w: World, g: nat, e: LogEvent)
    requires Enabled(w, Event(g, e))
    ensures MessageMoved(w, Event(g, e), Apply(w, Event(g, e)))
  {
    hide Saved, Capped;
  }

  lemma StatusMoves(w: World, a: Action)
    requires Enabled(w, a) && (a.Notice? || a.Terminal?)
    ensures MessageMoved(w, a, Apply(w, a))
  {
  }

  lemma MessageMoves(w: World, a: Action)
    requires Enabled(w, a) && IsMessage(a)
    ensures MessageMoved(w, a, Apply(w, a))
  {
    hide Apply, Enabled, MessageMoved;
    if a.Event? {
      EventMoves(w, a.generation, a.event);
    } else {
      StatusMoves(w, a);
    }
  }

  lemma MessageKeepsStreams(w: World, a: Action, w': World)
    requires NamesOk(w) && StreamsOk(w) && MessageMoved(w, a, w')
    ensures NamesOk(w') && StreamsOk(w')
  {
  }

  lemma MessageKeepsCurrent(w: World, a: Action, w': World)
    requires NamesOk(w) && StreamsOk(w) && CurrentOk(w) && MessageMoved(w, a, w')
    requires a.Terminal? ==> a.generation in w.terminal
    ensures CurrentOk(w')
  {
  }

  lemma TerminalIsPending(w: World, a: Action)
    requires Enabled(w, a) && a.Terminal?
    ensures a.generation in w.terminal
  {
  }

  lemma EventKeepsEntries(w: World, g: nat, e: LogEvent)
    requires Inv(w) && Enabled(w, Event(g, e))
    ensures EntriesOk(Apply(w, Event(g, e)))
  {
    hide StreamsCovered, NamesOk, StreamsOk, Capped;
    var profile := w.channels[g];
    EventKeepsBuffers(w.hook, g, profile, e);
    CappingCommutes(e, Accepted(w, profile));
    var w' := Apply(w, Event(g, e));
    forall p ensures Saved(w'.hook, p) == Capped(Accepted(w', p)) {
      assert Saved(w.hook, p) == Capped(Accepted(w, p));
      assert Saved(w.hook, profile) == Capped(Accepted(w, profile));
    }
  }

  lemma ClearKeepsEntries(w: World)
    requires Inv(w)
    ensures EntriesOk(Apply(w, ClearPressed))
  {
    hide StreamsCovered, NamesOk, StreamsOk, CurrentOk;
    var w' := Apply(w, ClearPressed);
    forall p ensures Saved(w'.hook, p) == Capped(Accepted(w', p)) {
      assert Saved(w.hook, p) == Capped(Accepted(w, p));
    }
  }

  lemma SameBuffers(h: Hook, h': Hook)
    requires BuffersOk(h) && h'.entriesByProfile == h.entriesByProfile
    requires (h'.entries == h.entries && h'.selected == h.selected)
             || h'.entries == if h'.selected == None then [] else Saved(h', h'.selected.value)
    ensures BuffersOk(h')
  {
  }

  /** Nothing is accepted, and the buffer shown is either the one before or a saved one. */
  predicate LeavesBuffers(w: World, w': World) {
    && w'.accepted == w.accepted && w'.hook.entriesByProfile == w.hook.entriesByProfile
    && ((w'.hook.entries == w.hook.entries && w'.hook.selected == w.hook.selected)
        || w'.hook.entries == if w'.hook.selected == None then [] else Saved(w.hook, w'.hook.selected.value))
  }

  lemma SelectLeavesBuffers(w: World, choice: Option<int>)
    ensures LeavesBuffers(w, Apply(w, Select(choice)))
  {
    hide Saved, Capped;
  }

  lemma StartLeavesBuffers(w: World, p: int)
    ensures LeavesBuffers(w, Apply(w, Start(p)))
  {
    hide Saved, Capped;
  }

  lemma StopsLeaveBuffers(w: World)
    ensures LeavesBuffers(w, Apply(w, StopPressed)) && LeavesBuffers(w, Apply(w, UnmountView))
  {
    hide Saved, Capped;
  }

  lemma CallsLeaveBuffers(w: World, a: Action)
    requires Enabled(w, a) && FromStart(a)
    ensures LeavesBuffers(w, Apply(w, a))
  {
    hide Saved, Capped;
  }

  lemma BackendLeavesBuffers(w: World, a: Action)
    requires Enabled(w, a) && FromBackend(a)
    ensures LeavesBuffers(w, Apply(w, a))
  {
    hide Saved, Capped;
  }

  lemma StatusLeavesBuffers(w: World, a: Action)
    requires Enabled(w, a) && (a.Notice? || a.Terminal?)
    ensures LeavesBuffers(w, Apply(w, a))
  {
    hide Saved, Capped;
  }

  lemma OthersKeepEntries(w: World, a: Action)
    requires Inv(w) && Enabled(w, a) && !a.Event? && !a.ClearPressed?
    ensures EntriesOk(Apply(w, a))
  {
    hide StreamsCovered, NamesOk, StreamsOk, CurrentOk, Capped, BuffersOk, Apply, Enabled;
    match a {
      case Select(choice) => SelectLeavesBuffers(w, choice);
      case Start(p) => StartLeavesBuffers(w, p);
      case StopPressed => StopsLeaveBuffers(w);
      case UnmountView => StopsLeaveBuffers(w);
      case Notice(_, _, _) => StatusLeavesBuffers(w, a);
      case Terminal(_, _, _) => StatusLeavesBuffers(w, a);
      case _ =>
        if FromStart(a) {
          CallsLeaveBuffers(w, a);
        } else {
          BackendLeavesBuffers(w, a);
        }
    }
    var w' := Apply(w, a);
    forall p ensures Saved(w'.hook, p) == Capped(Accepted(w', p)) {
      assert Saved(w.hook, p) == Capped(Accepted(w, p));
    }
    SameBuffers(w.hook, w'.hook);
  }

  lemma CallsKeepCover(w: World, a: Action)
    requires Inv(w) && Enabled(w, a) && (a.StartProceeds? || a.StartFails? || a.StopReturns?)
    ensures StreamsCovered(Apply(w, a))
  {
    hide EntriesOk;
    var w' := Apply(w, a);
    forall p | p in w'.streams
      ensures Covered(w', p)
    {
      assert Covered(w, p);
      if StopComing(w, p) {
        var c :| c in w.stops && w.stops[c] == StopCall(p, NotYet);
        assert c in w'.stops && w'.stops[c] == StopCall(p, NotYet);
      }
    }
  }

  /** A start that lost its race leaves its stream to the stop it asks for. */
  lemma ReturnKeepsCover(w: World, g: nat)
    requires Inv(w) && Enabled(w, StartReturns(g))
    ensures StreamsCovered(Apply(w, StartReturns(g)))
  {
    hide EntriesOk, StreamsOk, CurrentOk;
    var w' := Apply(w, StartReturns(g));
    forall p | p in w'.streams
      ensures Covered(w', p)
    {
      assert Covered(w, p);
      if StopComing(w, p) {
        var c :| c in w.stops && w.stops[c] == StopCall(p, NotYet);
        assert c in w'.stops && w'.stops[c] == StopCall(p, NotYet);
      } else if w.hook.generation != g && w.starts[g].profile == p {
        assert w'.stops[w.calls] == StopCall(p, NotYet);
      }
    }
  }

  lemma OpeningKeepsCover(w: World, a: Action)
    requires Inv(w) && Enabled(w, a) && (a.BackendOpens? || a.BackendRejects? || a.StreamEnds?)
    ensures StreamsCovered(Apply(w, a))
  {
    hide EntriesOk, StreamsOk, NamesOk;
    var w' := Apply(w, a);
    forall p | p in w'.streams
      ensures Covered(w', p)
    {
      assert StopComing(w', p) <==> StopComing(w, p);
      assert p in w.streams ==> Covered(w, p);
    }
  }

  lemma AnswerKeepsCover(w: World, a: Action)
    requires Inv(w) && Enabled(w, a) && (a.BackendCloses? || a.BackendRefuses?)
    ensures StreamsCovered(Apply(w, a))
  {
    hide EntriesOk, NamesOk, StreamsOk;
    var w' := Apply(w, a);
    forall p | p in w'.streams
      ensures Covered(w', p)
    {
      assert Covered(w, p);
      if StopComing(w, p) {
        var c :| c in w.stops && w.stops[c] == StopCall(p, NotYet);
        assert a.call == c || (c in w'.stops && w'.stops[c] == StopCall(p, NotYet));
      }
    }
  }

  lemma MessageKeepsCover(w: World, a: Action, w': World)
    requires Inv(w) && MessageMoved(w, a, w') && (a.Terminal? ==> a.generation in w.terminal)
    ensures StreamsCovered(w')
  {
    hide EntriesOk, CurrentOk;
    forall p | p in w'.streams
      ensures Covered(w', p)
    {
      assert StopComing(w', p) <==> StopComing(w, p);
      assert Covered(w, p);
      assert a.Terminal? && w.streams[p] == w.hook.generation ==> a.generation != w.hook.generation;
    }
  }

  lemma OthersKeepCover(w: World, a: Action)
    requires Inv(w) && Enabled(w, a) && (FromStart(a) || FromBackend(a))
    ensures StreamsCovered(Apply(w, a))
  {
    hide Inv, Enabled, Apply, StreamsCovered;
    if a.StartReturns? {
      ReturnKeepsCover(w, a.generation);
    } else if FromStart(a) {
      CallsKeepCover(w, a);
    } else if a.BackendCloses? || a.BackendRefuses? {
      AnswerKeepsCover(w, a);
    } else {
      OpeningKeepsCover(w, a);
    }
  }

  lemma ActionKeepsInv(w: World, a: Action)
    requires Inv(w) && Enabled(w, a)
    ensures Inv(Apply(w, a))
  {
    hide EntriesOk, StreamsCovered, NamesOk, StreamsOk, CurrentOk, Apply, Enabled, UserMoved, MessageMoved;
    if FromUser(a) {
      UserMoves(w, a);
      UserKeepsShape(w, Apply(w, a));
      UserKeepsCover(w, Apply(w, a));
    } else if IsMessage(a) {
      MessageMoves(w, a);
      if a.Terminal? {
        TerminalIsPending(w, a);
      }
      MessageKeepsStreams(w, a, Apply(w, a));
      MessageKeepsCurrent(w, a, Apply(w, a));
      MessageKeepsCover(w, a, Apply(w, a));
    } else {
      OthersKeepShape(w, a);
      OthersKeepCover(w, a);
    }
    if a.Event? {
      EventKeepsEntries(w, a.generation, a.event);
    } else if a.ClearPressed? {
      ClearKeepsEntries(w);
    } else {
      OthersKeepEntries(w, a);
    }
  }

  lemma {:induction false} RunKeepsInv(w: World, actions: seq<Action>)
    requires Inv(w)
    ensures Inv(Run(w, actions))
  {
    hide Inv;
    if actions != [] {
      var init, a := actions[..|actions| - 1], actions[|actions| - 1];
      RunKeepsInv(w, init);
      if Enabled(Run(w, init), a) {
        ActionKeepsInv(Run(w, init), a);
      }
    }
  }

  lemma OpenedInv()
    ensures Inv(OPENED)
  {
  }

  // ---- Theorems over every run from the mounted view ----

  /** No call is unresolved. */
  predicate Quiet(w: World) {
    w.starts == map[] && w.stops == map[]
  }

  /** Once no call is pending, a stream still running at the backend is the one the view holds if and only if the
      backend did not refuse a stop of its profile after the view had given it up. */
  lemma OnlyTheActiveStreamSurvives(actions: seq<Action>, p: int)
    requires var w := Run(OPENED, actions); Quiet(w) && p in w.streams
    ensures var w := Run(OPENED, actions);
            (w.hook.active == Some(p) && w.streams[p] == w.hook.generation) <==> w.streams[p] !in w.refused
  {
    OpenedInv();
    RunKeepsInv(OPENED, actions);
    assert Covered(Run(OPENED, actions), p);
  }

  /** With no call pending and no status undelivered, the view's own idea of its stream is wrong only if that
      stream ended on its own, or was closed by a stop, without reporting it. */
  lemma HeldStreamIsRunning(actions: seq<Action>)
    requires var w := Run(OPENED, actions); Quiet(w) && w.terminal == {} && w.hook.active.Some?
    ensures var w := Run(OPENED, actions);
            Streaming(w, w.hook.active.value, w.hook.generation) <==>
            w.hook.generation !in w.dropped && w.hook.generation !in w.closed
  {
    OpenedInv();
    RunKeepsInv(OPENED, actions);
  }

  /** Every visible entry belongs to the selected profile, and the buffer is that profile's newest 500 events
      since it was last cleared. */
  lemma VisibleEntries(actions: seq<Action>)
    ensures var w := Run(OPENED, actions);
            && |w.hook.entries| <= 500
            && (w.hook.selected == None ==> w.hook.entries == [])
            && (w.hook.selected.Some? ==>
                  && w.hook.entries == Saved(w.hook, w.hook.selected.value)
                  && (var all := Accepted(w, w.hook.selected.value);
                      w.hook.entries == if |all| > 500 then all[..500] else all)
                  && forall i :: 0 <= i < |w.hook.entries| ==> w.hook.entries[i].profileId == w.hook.selected.value)
  {
    OpenedInv();
    RunKeepsInv(OPENED, actions);
    hide StreamsCovered, NamesOk, StreamsOk, CurrentOk;
    var w := Run(OPENED, actions);
    if w.hook.selected.Some? {
      assert Saved(w.hook, w.hook.selected.value) == Capped(Accepted(w, w.hook.selected.value));
    }
  }

  lemma ActionMovesForward(w: World, a: Action)
    ensures w.hook.generation <= Do(w, a).hook.generation
  {
  }

  lemma {:induction false} GenerationsGrow(w: World, actions: seq<Action>)
    ensures w.hook.generation <= Run(w, actions).hook.generation
  {
    hide Do;
    if actions != [] {
      GenerationsGrow(w, actions[..|actions| - 1]);
      ActionMovesForward(Run(w, actions[..|actions| - 1]), actions[|actions| - 1]);
    }
  }

  predicate CarriedBy(a: Action, g: nat) {
    (a.Event? || a.Notice? || a.Terminal?) && a.generation == g
  }

  /** Stopping, switching profile, unmounting, or the end of the stream leaves its generation behind for good, and all
      but an unmount show the view as not running. */
  lemma LeavingMovesOn(w: World, a: Action)
    requires Enabled(w, a)
    requires a == StopPressed || a == UnmountView || (a.Select? && a.choice != w.hook.selected)
             || (a.Terminal? && a.generation == w.hook.generation)
    ensures Do(w, a).hook.generation == w.hook.generation + 1 && Do(w, a).hook.active == None
    ensures a != UnmountView ==> !Do(w, a).hook.running
  {
  }

  /** After that, whatever else happens, nothing its channel delivers changes the view. */
  lemma LateMessagesChangeNothing(w: World, leave: Action, later: seq<Action>, message: Action, g: nat)
    requires g <= w.hook.generation
    requires Enabled(w, leave)
    requires leave == StopPressed || leave == UnmountView || (leave.Select? && leave.choice != w.hook.selected)
             || (leave.Terminal? && leave.generation == w.hook.generation)
    requires CarriedBy(message, g)
    ensures var end := Run(Do(w, leave), later);
            Do(end, message).hook == end.hook && Do(end, message).accepted == end.accepted
  {
    LeavingMovesOn(w, leave);
    GenerationsGrow(Do(w, leave), later);
  }

  // ---- Why the exceptions are there ----

  lemma {:induction false} RunConcat(w: World, a: seq<Action>, b: seq<Action>)
    ensures Run(w, a + b) == Run(Run(w, a), b)
  {
    hide Do;
    if b == [] {
      assert a + b == a;
    } else {
      assert (a + b)[..|a + b| - 1] == a + b[..|b| - 1];
      RunConcat(w, a, b[..|b| - 1]);
    }
  }

  lemma RunThree(w: World, a: Action, b: Action, c: Action)
    ensures Run(w, [a, b, c]) == Do(Do(Do(w, a), b), c)
  {
    hide Do;
    var s := [a, b, c];
    assert s[..2][..1][..0] == [] && s[..2][..1] == s[..1] && s[..2] == [a, b];
    assert Run(w, s[..1]) == Do(w, a);
    assert Run(w, s[..2]) == Do(Do(w, a), b);
  }

  /** A held and running stream of profile 1. */
  lemma FirstStream() returns (w: World)
    ensures Run(OPENED, [Start(1), StartProceeds(1), BackendOpens(1)]) == w
    ensures Enabled(w, StartReturns(1)) && w.hook.generation == 1 && w.hook.active == Some(1)
    ensures w.streams == map[1 := 1] && w.starts.Keys == {1} && w.stops == map[] && w.calls == 0
  {
    RunThree(OPENED, Start(1), StartProceeds(1), BackendOpens(1));
    w := Run(OPENED, [Start(1), StartProceeds(1), BackendOpens(1)]);
  }

  lemma RefusedSteps(w: World) returns (end: World)
    requires Enabled(w, StartReturns(1)) && w.hook.generation == 1 && w.hook.active == Some(1)
    requires w.streams == map[1 := 1] && w.starts.Keys == {1} && w.stops == map[] && w.calls == 0
    ensures end == Do(Do(Do(w, StartReturns(1)), StopPressed), BackendRefuses(0))
    ensures end.starts == map[] && end.stops == map[0 := StopCall(1, Refused)]
    ensures end.streams == map[1 := 1] && end.hook.active == None
  {
    var w1 := Do(w, StartReturns(1));
    assert w1.starts == map[];
    var w2 := Do(w1, StopPressed);
    assert w2.stops == map[0 := StopCall(1, NotYet)];
    end := Do(w2, BackendRefuses(0));
  }

  lemma RefusalReturns(w: World)
    requires w.starts == map[] && w.stops == map[0 := StopCall(1, Refused)]
    requires w.streams == map[1 := 1] && w.hook.active == None
    ensures Abandoned(Do(w, StopReturns(0)), 1)
  {
    assert Do(w, StopReturns(0)).stops == map[];
  }

  /** A stop the backend refuses leaves its stream running with nobody holding it. */
  lemma RefusedStopLeavesAStream()
    ensures exists actions :: Abandoned(Run(OPENED, actions), 1)
  {
    hide Do, Run, Abandoned;
    var first := [Start(1), StartProceeds(1), BackendOpens(1)];
    var second := [StartReturns(1), StopPressed, BackendRefuses(0)];
    var w := FirstStream();
    var w3 := RefusedSteps(w);
    RefusalReturns(w3);
    RunThree(w, StartReturns(1), StopPressed, BackendRefuses(0));
    RunConcat(OPENED, first, second);
    RunAppend(OPENED, first + second, StopReturns(0));
    assert Abandoned(Run(OPENED, first + second + [StopReturns(0)]), 1);
  }

  lemma RunAppend(w: World, actions: seq<Action>, a: Action)
    ensures Run(w, actions + [a]) == Do(Run(w, actions), a)
  {
    assert (actions + [a])[..|actions|] == actions;
  }

  /** Nothing is pending, yet a stream runs that the view does not hold. */
  predicate Abandoned(w: World, p: int) {
    Quiet(w) && p in w.streams && w.hook.active == None
  }
}
