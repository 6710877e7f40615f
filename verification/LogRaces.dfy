/** When a start can lose its stream to a stop meant for an earlier one, and when it cannot. */
module LogRaces {
  import opened Options
  import opened LogHook
  import opened LogProtocol

  // ---- What will still close a stream of a profile ----

  /** A stop that has not reached the backend, or a start that lost its race and will ask for one when it returns. */
  datatype Closer = StopOf(call: nat) | LostStart(generation: nat)

  predicate Closes(w: World, p: int, x: Closer) {
    match x
    case StopOf(c) => c in w.stops && w.stops[c] == StopCall(p, NotYet)
    case LostStart(g) => g in w.starts && w.starts[g] == Invoked(p, Granted) && w.hook.generation != g
  }

  ghost predicate NoCloser(w: World, p: int) {
    forall x :: !Closes(w, p, x)
  }

  ghost predicate AtMostOneCloser(w: World, p: int) {
    forall x, y :: Closes(w, p, x) && Closes(w, p, y) ==> x == y
  }

  ghost predicate OnlyCloser(w: World, p: int, x: Closer) {
    Closes(w, p, x) && AtMostOneCloser(w, p)
  }

  /** An earlier start of the profile that the backend may still grant. */
  ghost predicate MayStillOpen(w: World, p: int) {
    exists g :: IsPending(w, g) && w.starts[g].profile == p && w.hook.generation != g
  }

  /** The stop that a start of the profile would wait for has not reached the backend. */
  predicate WaitsForStop(w: World, p: int) {
    p in w.hook.pendingStops && Closes(w, p, StopOf(w.hook.pendingStops[p]))
  }

  /** Closers and streams of the profile do not pair off: some stop is left over for the stream of a new start. */
  ghost predicate Endangered(w: World, p: int) {
    if p in w.streams then !AtMostOneCloser(w, p)
    else if WaitsForStop(w, p) then !AtMostOneCloser(w, p) || MayStillOpen(w, p)
    else !NoCloser(w, p)
  }

  // ---- What a safe start keeps until it is given up ----

  predicate Starting(w: World, g: nat, p: int, on: nat) {
    g in w.starts && w.starts[g] == Waiting(p, Some(on))
  }

  /** Nothing but the running lost stream will be closed, or the only stop is the one that start g waits for. */
  ghost predicate SafeFor(w: World, p: int, g: nat) {
    if p in w.streams && w.streams[p] != g then AtMostOneCloser(w, p)
    else
      || NoCloser(w, p)
      || (p !in w.streams && !MayStillOpen(w, p) && exists c :: Starting(w, g, p, c) && OnlyCloser(w, p, StopOf(c)))
  }

  ghost predicate HeldIsSafe(w: World) {
    w.hook.active.Some? ==> SafeFor(w, w.hook.active.value, w.hook.generation)
  }

  /** No stream ends on its own, and no stop is refused. */
  predicate Undisturbed(a: Action) {
    !a.StreamEnds? && !a.BackendRefuses?
  }

  ghost predicate SafeStart(w: World, a: Action) {
    a.Start? && w.hook.active == None ==> !Endangered(w, a.profile)
  }

  lemma StartBeginsSafe(w: World, p: int)
    requires Inv(w) && w.hook.active == None && !Endangered(w, p)
    ensures HeldIsSafe(Apply(w, Start(p)))
  {
    hide EntriesOk, StreamsCovered;
    var w', g := Apply(w, Start(p)), w.hook.generation + 1;
    forall x
      ensures Closes(w', p, x) <==> Closes(w, p, x)
    {
    }
    assert MayStillOpen(w', p) ==> MayStillOpen(w, p) by {
      if h :| IsPending(w', h) && w'.starts[h].profile == p && w'.hook.generation != h {
        assert IsPending(w, h) && w.hook.generation != h;
      }
    }
    if p !in w.streams && WaitsForStop(w, p) {
      var c := w.hook.pendingStops[p];
      assert Starting(w', g, p, c) && OnlyCloser(w', p, StopOf(c));
    }
  }

  /** A step that adds no closer, stream or chance of one for the profile keeps its start safe. */
  lemma FewerClosersStaySafe(w: World, w': World, p: int, g: nat)
    requires SafeFor(w, p, g)
    requires forall x :: Closes(w', p, x) ==> Closes(w, p, x)
    requires (p in w'.streams <==> p in w.streams) && (p in w.streams ==> w'.streams[p] == w.streams[p])
    requires MayStillOpen(w', p) ==> MayStillOpen(w, p)
    requires forall c :: Starting(w, g, p, c) && Closes(w', p, StopOf(c)) ==> Starting(w', g, p, c)
    ensures SafeFor(w', p, g)
  {
    if !NoCloser(w', p) && !(p in w.streams && w.streams[p] != g) {
      var c :| Starting(w, g, p, c) && OnlyCloser(w, p, StopOf(c));
      assert Starting(w', g, p, c) && OnlyCloser(w', p, StopOf(c));
    }
  }

  lemma LostStartReturnsSafe(w: World, h: nat)
    requires Inv(w) && HeldIsSafe(w) && Enabled(w, StartReturns(h))
    ensures HeldIsSafe(Apply(w, StartReturns(h)))
  {
    hide EntriesOk, StreamsCovered;
    var w' := Apply(w, StartReturns(h));
    if w.hook.active.Some? {
      var p, g := w.hook.active.value, w.hook.generation;
      if h != g && w.starts[h].profile == p {
        assert Closes(w, p, LostStart(h));
        assert p in w.streams && w.streams[p] != g;
        forall x
          ensures Closes(w', p, x) ==> x == StopOf(w.calls)
        {
          assert Closes(w', p, x) && x != StopOf(w.calls) ==> Closes(w, p, x);
        }
      } else {
        assert MayStillOpen(w', p) ==> MayStillOpen(w, p) by { PendingStays(w, w', p); }
        FewerClosersStaySafe(w, w', p, g);
      }
    }
  }

  lemma PendingStays(w: World, w': World, p: int)
    requires w'.hook.generation == w.hook.generation
    requires forall h :: IsPending(w', h) && h != w'.hook.generation ==>
               IsPending(w, h) && w'.starts[h].profile == w.starts[h].profile
    ensures MayStillOpen(w', p) ==> MayStillOpen(w, p)
  {
  }

  lemma OpeningStaysSafe(w: World, h: nat)
    requires Inv(w) && HeldIsSafe(w) && Enabled(w, BackendOpens(h))
    ensures HeldIsSafe(Apply(w, BackendOpens(h)))
  {
    hide EntriesOk, StreamsCovered;
    var w' := Apply(w, BackendOpens(h));
    if w.hook.active.Some? {
      var p, g := w.hook.active.value, w.hook.generation;
      PendingStays(w, w', p);
      if w.starts[h].profile != p {
        FewerClosersStaySafe(w, w', p, g);
      } else {
        assert h != g ==> MayStillOpen(w, p);
        assert NoCloser(w, p);
        forall x
          ensures Closes(w', p, x) ==> x == LostStart(h) && h != g
        {
          assert Closes(w', p, x) && x != LostStart(h) ==> Closes(w, p, x);
        }
      }
    }
  }

  lemma ClosingTakes(w: World, c: nat, reports: bool)
    requires Enabled(w, BackendCloses(c, reports))
    ensures var w', p := Apply(w, BackendCloses(c, reports)), w.stops[c].profile;
            && w'.hook == w.hook && w'.starts == w.starts
            && w'.stops == w.stops[c := StopCall(p, Closed)] && w'.streams == w.streams - {p}
            && Closes(w, p, StopOf(c))
  {
    assert w.stops[c].profile !in w.streams ==> w.streams - {w.stops[c].profile} == w.streams;
  }

  lemma ClosersAfterClosing(w: World, w': World, c: nat, p: int)
    requires c in w.stops && w'.hook == w.hook && w'.starts == w.starts
    requires w'.stops == w.stops[c := StopCall(w.stops[c].profile, Closed)]
    ensures forall x :: Closes(w', p, x) ==> Closes(w, p, x) && x != StopOf(c)
  {
  }

  lemma ClosingStaysSafe(w: World, c: nat, reports: bool)
    requires HeldIsSafe(w) && Enabled(w, BackendCloses(c, reports))
    ensures HeldIsSafe(Apply(w, BackendCloses(c, reports)))
    ensures w.hook.active.Some? && Streaming(w, w.hook.active.value, w.hook.generation) ==>
              w.stops[c].profile != w.hook.active.value
  {
    ClosingTakes(w, c, reports);
    hide Apply, Enabled;
    var w' := Apply(w, BackendCloses(c, reports));
    if w.hook.active.Some? {
      var p, g := w.hook.active.value, w.hook.generation;
      PendingStays(w, w', p);
      ClosersAfterClosing(w, w', c, p);
      hide Closes;
      if w.stops[c].profile != p {
        FewerClosersStaySafe(w, w', p, g);
      }
    }
  }

  /** Calls that return, opens that fail and messages only ever take closers away. */
  lemma CallStaysSafe(w: World, a: Action)
    requires HeldIsSafe(w) && Enabled(w, a) && (a.StartFails? || a.StopReturns? || a.BackendRejects?)
    ensures HeldIsSafe(Apply(w, a))
  {
    hide SafeFor;
    var w' := Apply(w, a);
    if w'.hook.active.Some? {
      PendingStays(w, w', w.hook.active.value);
      FewerClosersStaySafe(w, w', w.hook.active.value, w.hook.generation);
    }
  }

  lemma ProceedingStaysSafe(w: World, h: nat)
    requires Inv(w) && HeldIsSafe(w) && Enabled(w, StartProceeds(h))
    ensures HeldIsSafe(Apply(w, StartProceeds(h)))
  {
    hide EntriesOk, StreamsCovered, StreamsOk, SafeFor;
    var w' := Apply(w, StartProceeds(h));
    if w'.hook.active.Some? {
      PendingStays(w, w', w.hook.active.value);
      FewerClosersStaySafe(w, w', w.hook.active.value, w.hook.generation);
    }
  }

  lemma OthersStaySafe(w: World, a: Action)
    requires Inv(w) && HeldIsSafe(w) && Enabled(w, a)
    requires a.StartProceeds? || a.StartFails? || a.StopReturns? || a.BackendRejects?
    ensures HeldIsSafe(Apply(w, a))
  {
    hide Inv, HeldIsSafe, Apply, Enabled;
    if a.StartProceeds? {
      ProceedingStaysSafe(w, a.generation);
    } else {
      CallStaysSafe(w, a);
    }
  }

  lemma MessagesStaySafe(w: World, a: Action)
    requires HeldIsSafe(w) && Enabled(w, a) && IsMessage(a)
    ensures HeldIsSafe(Apply(w, a))
  {
    MessageMoves(w, a);
    hide Apply, SafeFor;
    var w' := Apply(w, a);
    if w'.hook.active.Some? {
      PendingStays(w, w', w.hook.active.value);
      FewerClosersStaySafe(w, w', w.hook.active.value, w.hook.generation);
    }
  }

  lemma OnlyAStartHolds(w: World, a: Action)
    requires FromUser(a) && !(a.Start? && w.hook.active == None)
    ensures Apply(w, a).hook.active.Some? ==> SameView(w, Apply(w, a)) && Apply(w, a).streams == w.streams
  {
    hide Saved;
  }

  lemma UserStaysSafe(w: World, a: Action)
    requires Inv(w) && HeldIsSafe(w) && FromUser(a) && SafeStart(w, a)
    ensures HeldIsSafe(Apply(w, a))
  {
    hide Inv, Apply, Endangered, SafeFor;
    if a.Start? && w.hook.active == None {
      StartBeginsSafe(w, a.profile);
    } else {
      OnlyAStartHolds(w, a);
      var w' := Apply(w, a);
      if w'.hook.active.Some? {
        PendingStays(w, w', w.hook.active.value);
        FewerClosersStaySafe(w, w', w.hook.active.value, w.hook.generation);
      }
    }
  }

  lemma ActionStaysSafe(w: World, a: Action)
    requires Inv(w) && HeldIsSafe(w) && Enabled(w, a) && Undisturbed(a) && SafeStart(w, a)
    ensures HeldIsSafe(Apply(w, a))
  {
    hide Inv, Enabled, Apply, HeldIsSafe, SafeStart;
    if FromUser(a) {
      UserStaysSafe(w, a);
    } else if a.StartReturns? {
      LostStartReturnsSafe(w, a.generation);
    } else if a.BackendOpens? {
      OpeningStaysSafe(w, a.generation);
    } else if a.BackendCloses? {
      ClosingStaysSafe(w, a.call, a.reports);
    } else if IsMessage(a) {
      MessagesStaySafe(w, a);
    } else {
      OthersStaySafe(w, a);
    }
  }

  // ---- A safe start keeps its stream ----

  /** The start of the held stream is under way, or the stream is running. */
  ghost predicate HeldIsLive(w: World) {
    w.hook.active.Some? ==>
      var p, g := w.hook.active.value, w.hook.generation;
      (g in w.starts && w.starts[g].Waiting?) || NotOpened(w, g) || Streaming(w, p, g)
  }

  lemma UserStaysLive(w: World, a: Action)
    requires Inv(w) && HeldIsLive(w) && FromUser(a)
    ensures HeldIsLive(Apply(w, a))
  {
    hide EntriesOk, StreamsCovered, StreamsOk, Saved;
  }

  lemma CallsStayLive(w: World, a: Action)
    requires Inv(w) && HeldIsLive(w) && Enabled(w, a) && FromStart(a)
    ensures HeldIsLive(Apply(w, a))
  {
    hide EntriesOk, StreamsCovered, StreamsOk, Saved;
  }

  lemma BackendStaysLive(w: World, a: Action)
    requires Inv(w) && HeldIsLive(w) && Enabled(w, a) && FromBackend(a) && !a.StreamEnds?
    requires a.BackendCloses? && w.hook.active.Some? && Streaming(w, w.hook.active.value, w.hook.generation) ==>
               w.stops[a.call].profile != w.hook.active.value
    ensures HeldIsLive(Apply(w, a))
  {
    hide EntriesOk, StreamsCovered, StreamsOk, Saved;
  }

  lemma MessageStaysLive(w: World, a: Action)
    requires HeldIsLive(w) && Enabled(w, a) && IsMessage(a)
    ensures HeldIsLive(Apply(w, a))
  {
    MessageMoves(w, a);
    hide Apply;
  }

  lemma ActionStaysLive(w: World, a: Action)
    requires Inv(w) && HeldIsSafe(w) && HeldIsLive(w) && Enabled(w, a) && Undisturbed(a)
    ensures HeldIsLive(Apply(w, a))
  {
    hide Inv, Enabled, Apply, HeldIsSafe, HeldIsLive;
    if FromUser(a) {
      UserStaysLive(w, a);
    } else if FromStart(a) {
      CallsStayLive(w, a);
    } else if IsMessage(a) {
      MessageStaysLive(w, a);
    } else {
      if a.BackendCloses? {
        ClosingStaysSafe(w, a.call, a.reports);
      }
      BackendStaysLive(w, a);
    }
  }

  /** Nothing disturbs the backend, and no start is made while its profile is endangered. */
  ghost predicate Careful(actions: seq<Action>) {
    actions != [] ==>
      && Careful(actions[..|actions| - 1])
      && Undisturbed(actions[|actions| - 1])
      && SafeStart(Run(OPENED, actions[..|actions| - 1]), actions[|actions| - 1])
  }

  lemma {:induction false} CarefulRunsStaySafe(actions: seq<Action>)
    requires Careful(actions)
    ensures HeldIsSafe(Run(OPENED, actions)) && HeldIsLive(Run(OPENED, actions)) && Run(OPENED, actions).refused == {}
  {
    hide HeldIsSafe, HeldIsLive, Apply, Inv, Enabled, SafeStart;
    if actions == [] {
      NothingHeldAtFirst();
    } else {
      var init, a := actions[..|actions| - 1], actions[|actions| - 1];
      CarefulRunsStaySafe(init);
      OpenedInv();
      RunKeepsInv(OPENED, init);
      if Enabled(Run(OPENED, init), a) {
        ActionStaysSafe(Run(OPENED, init), a);
        ActionStaysLive(Run(OPENED, init), a);
        OnlyRefusalsAreRefused(Run(OPENED, init), a);
      }
    }
  }

  lemma NothingHeldAtFirst()
    ensures HeldIsSafe(OPENED) && HeldIsLive(OPENED) && OPENED.refused == {}
  {
  }

  lemma OnlyRefusalsAreRefused(w: World, a: Action)
    requires Enabled(w, a) && !a.BackendRefuses?
    ensures Apply(w, a).refused == w.refused
  {
  }

  /** In a run without disturbances or endangered starts, once no call is pending the backend runs exactly the
      stream the view holds. */
  lemma QuietAgreement(actions: seq<Action>)
    requires Careful(actions) && Quiet(Run(OPENED, actions))
    ensures var w := Run(OPENED, actions);
            w.streams == match w.hook.active case None => map[] case Some(p) => map[p := w.hook.generation]
  {
    hide HeldIsSafe, Careful;
    var w := Run(OPENED, actions);
    CarefulRunsStaySafe(actions);
    forall p | p in w.streams
      ensures w.hook.active == Some(p) && w.streams[p] == w.hook.generation
    {
      OnlyTheActiveStreamSurvives(actions, p);
    }
  }

  // ---- A rule the view could follow ----

  /** No earlier start of the profile is unresolved, and every unresolved stop of it is the one a start waits for. */
  ghost predicate Guarded(w: World, p: int) {
    && (forall g :: g in w.starts ==> w.starts[g].profile != p)
    && (forall c :: c in w.stops && w.stops[c].profile == p ==> p in w.hook.pendingStops && w.hook.pendingStops[p] == c)
  }

  ghost predicate GuardedRun(actions: seq<Action>) {
    actions != [] ==>
      var w, a := Run(OPENED, actions[..|actions| - 1]), actions[|actions| - 1];
      GuardedRun(actions[..|actions| - 1]) && Undisturbed(a) && (a.Start? && w.hook.active == None ==> Guarded(w, a.profile))
  }

  lemma GuardedIsNotEndangered(w: World, p: int)
    requires Guarded(w, p)
    ensures !Endangered(w, p)
  {
    assert forall x :: Closes(w, p, x) ==> WaitsForStop(w, p) && x == StopOf(w.hook.pendingStops[p]);
  }

  lemma {:induction false} GuardedRunsAreCareful(actions: seq<Action>)
    requires GuardedRun(actions)
    ensures Careful(actions)
  {
    hide Endangered, Guarded;
    if actions != [] {
      var init, a := actions[..|actions| - 1], actions[|actions| - 1];
      GuardedRunsAreCareful(init);
      if a.Start? && Run(OPENED, init).hook.active == None {
        GuardedIsNotEndangered(Run(OPENED, init), a.profile);
      }
    }
  }

  /** A view that starts a profile only while nothing of it is unresolved but the stop it waits for always ends up
      in agreement with the backend. */
  lemma GuardedRunsAgree(actions: seq<Action>)
    requires GuardedRun(actions) && Quiet(Run(OPENED, actions))
    ensures var w := Run(OPENED, actions);
            w.streams == match w.hook.active case None => map[] case Some(p) => map[p := w.hook.generation]
  {
    GuardedRunsAreCareful(actions);
    QuietAgreement(actions);
  }
}
