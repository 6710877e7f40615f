/** Every endangered start can lose its stream: the runs that show it. */
module LostStreams {
  import opened Options
  import opened LogHook
  import opened LogProtocol
  import opened LogRaces

  /** Steps of suspended code and of an undisturbed backend; the user does nothing more. */
  predicate Calm(actions: seq<Action>) {
    forall i :: 0 <= i < |actions| ==> Undisturbed(actions[i]) && !FromUser(actions[i])
  }

  /** Nothing is pending, the view holds a stream of p, none runs, and nothing will ever tell the view. */
  predicate Lost(w: World, p: int) {
    Quiet(w) && w.hook.active == Some(p) && p !in w.streams && w.hook.generation !in w.terminal
  }

  ghost predicate Reaches(w: World, w': World) {
    exists later :: Calm(later) && Run(w, later) == w'
  }

  lemma ReachStep(w: World, a: Action)
    requires Inv(w) && Enabled(w, a) && Undisturbed(a) && !FromUser(a)
    ensures Reaches(w, Apply(w, a)) && Inv(Apply(w, a))
  {
    hide Inv, Apply, Enabled;
    ActionKeepsInv(w, a);
    RunAppend(w, [], a);
    assert [] + [a] == [a];
    assert Calm([a]) && Run(w, [a]) == Apply(w, a) by { assert Run(w, []) == w; }
  }

  lemma ReachTrans(a: World, b: World, c: World)
    requires Reaches(a, b) && Reaches(b, c)
    ensures Reaches(a, c)
  {
    var first :| Calm(first) && Run(a, first) == b;
    var second :| Calm(second) && Run(b, second) == c;
    RunConcat(a, first, second);
    assert Calm(first + second) && Run(a, first + second) == c;
  }

  lemma ReachSelf(w: World)
    ensures Reaches(w, w)
  {
    assert Calm([]) && Run(w, []) == w;
  }

  lemma Then(a: World, b: World, act: Action) returns (c: World)
    requires Reaches(a, b) && Inv(b) && Enabled(b, act) && Undisturbed(act) && !FromUser(act)
    ensures c == Apply(b, act) && Reaches(a, c) && Inv(c)
  {
    hide Inv, Apply, Enabled, Reaches;
    ReachStep(b, act);
    c := Apply(b, act);
    ReachTrans(a, b, c);
  }

  // ---- What single steps do ----

  lemma ClosingMoves(w: World, c: nat)
    requires Enabled(w, BackendCloses(c, false))
    ensures var w', p := Apply(w, BackendCloses(c, false)), w.stops[c].profile;
            && w'.hook == w.hook && w'.starts == w.starts && w'.calls == w.calls && w'.terminal == w.terminal
            && w'.stops == w.stops[c := StopCall(p, Closed)] && w'.streams == w.streams - {p}
            && w'.dropped == w.dropped && w'.refused == w.refused
  {
    assert w.stops[c].profile !in w.streams ==> w.streams - {w.stops[c].profile} == w.streams;
  }

  lemma StopReturnMoves(w: World, c: nat)
    requires Enabled(w, StopReturns(c))
    ensures Apply(w, StopReturns(c)) ==
            w.(stops := w.stops - {c}, hook := StopSettled(w.hook, w.stops[c].profile, c))
  {
  }

  lemma LostProceedMoves(w: World, h: nat)
    requires Enabled(w, StartProceeds(h)) && w.hook.generation != h
    ensures Apply(w, StartProceeds(h)) == w.(starts := w.starts - {h})
  {
  }

  lemma RejectMoves(w: World, h: nat)
    requires Enabled(w, BackendRejects(h, false))
    ensures Apply(w, BackendRejects(h, false)) == w.(starts := w.starts[h := Invoked(w.starts[h].profile, Rejected)])
  {
  }

  lemma LostFailMoves(w: World, h: nat)
    requires Enabled(w, StartFails(h, "")) && w.hook.generation != h
    ensures Apply(w, StartFails(h, "")) == w.(starts := w.starts - {h})
  {
  }

  lemma LostReturnMoves(w: World, h: nat)
    requires Enabled(w, StartReturns(h)) && w.hook.generation != h
    ensures Apply(w, StartReturns(h)) ==
            w.(starts := w.starts - {h}, stops := w.stops[w.calls := StopCall(w.starts[h].profile, NotYet)], calls := w.calls + 1)
  {
  }

  lemma ProceedMoves(w: World)
    requires Enabled(w, StartProceeds(w.hook.generation))
    ensures var g := w.hook.generation;
            var p := w.starts[g].profile;
            Apply(w, StartProceeds(g)) == w.(starts := w.starts[g := Invoked(p, Pending)], channels := w.channels[g := p])
  {
  }

  lemma OpenMoves(w: World, h: nat)
    requires Enabled(w, BackendOpens(h))
    ensures var p := w.starts[h].profile;
            Apply(w, BackendOpens(h)) == w.(streams := w.streams[p := h], starts := w.starts[h := Invoked(p, Granted)])
  {
  }

  lemma HeldReturnMoves(w: World)
    requires Enabled(w, StartReturns(w.hook.generation))
    ensures Apply(w, StartReturns(w.hook.generation)) == w.(starts := w.starts - {w.hook.generation})
  {
  }

  lemma FreshCall(w: World)
    requires Inv(w)
    ensures forall c :: c in w.stops ==> c < w.calls
  {
  }

  // ---- Letting everything pending settle ----

  /** The view holds a stream of p that is gone without a word. */
  predicate Gone(w: World, p: int) {
    && w.hook.active == Some(p) && p !in w.streams
    && w.hook.generation !in w.terminal && w.hook.generation !in w.starts
  }

  lemma SettleStop(w: World, p: int, c: nat) returns (end: World)
    requires Inv(w) && Gone(w, p) && c in w.stops
    ensures Reaches(w, end) && Inv(end) && Gone(end, p) && end.starts == w.starts && end.stops == w.stops - {c}
  {
    hide Reaches, Inv, Apply;
    ReachSelf(w);
    end := w;
    if w.stops[c].answer == NotYet {
      ClosingMoves(w, c);
      end := Then(w, w, BackendCloses(c, false));
      assert end.stops - {c} == w.stops - {c};
    }
    StopReturnMoves(end, c);
    end := Then(w, end, StopReturns(c));
  }

  lemma SettleStart(w: World, p: int, h: nat) returns (end: World)
    requires Inv(w) && Gone(w, p) && h in w.starts && w.stops == map[]
    ensures Reaches(w, end) && Inv(end) && Gone(end, p) && end.starts == w.starts - {h}
  {
    hide Reaches, Inv, Apply;
    ReachSelf(w);
    match w.starts[h] {
      case Waiting(_, _) =>
        LostProceedMoves(w, h);
        end := Then(w, w, StartProceeds(h));
      case Invoked(q, Pending) =>
        RejectMoves(w, h);
        var mid := Then(w, w, BackendRejects(h, false));
        LostFailMoves(mid, h);
        end := Then(w, mid, StartFails(h, ""));
        assert end.starts == w.starts - {h};
      case Invoked(_, Granted) =>
        LostReturnMoves(w, h);
        end := Then(w, w, StartReturns(h));
      case Invoked(_, Rejected) =>
        LostFailMoves(w, h);
        end := Then(w, w, StartFails(h, ""));
    }
  }

  lemma Fewer<T>(m: map<nat, T>, k: nat)
    requires k in m
    ensures |m - {k}| < |m|
  {
    assert (m - {k}).Keys == m.Keys - {k};
    assert |(m - {k}).Keys| == |m.Keys| - 1;
  }

  lemma {:induction false} Settles(w: World, p: int) returns (end: World)
    requires Inv(w) && Gone(w, p)
    ensures Reaches(w, end) && Lost(end, p)
    decreases |w.starts|, |w.stops|
  {
    hide Reaches, Inv, Run;
    if c :| c in w.stops {
      var next := SettleStop(w, p, c);
      Fewer(w.stops, c);
      end := Settles(next, p);
      ReachTrans(w, next, end);
    } else {
      assert w.stops == map[];
      if h :| h in w.starts {
        var next := SettleStart(w, p, h);
        Fewer(w.starts, h);
        end := Settles(next, p);
        ReachTrans(w, next, end);
      } else {
        assert w.starts == map[];
        end := w;
        ReachSelf(w);
      }
    }
  }

  // ---- Leading a closer to the new stream ----

  /** What a closer of p leaves as it was when it acts, apart from itself and the stream. */
  ghost predicate OnlyActed(w: World, end: World, p: int, x: Closer) {
    && p !in end.streams && end.hook == w.hook && end.terminal == w.terminal
    && (forall g :: g in w.starts && LostStart(g) != x ==> g in end.starts && end.starts[g] == w.starts[g])
    && (forall g :: g in end.starts ==> g in w.starts)
    && (forall c :: c in w.stops && StopOf(c) != x ==> c in end.stops && end.stops[c] == w.stops[c])
    && (forall c :: c in end.stops && end.stops[c].answer == NotYet ==> c in w.stops && StopOf(c) != x)
  }

  /** The closer reaches the backend, by way of its start's return if it has to. */
  lemma CloserActs(w: World, p: int, x: Closer) returns (end: World)
    requires Inv(w) && Closes(w, p, x)
    ensures Reaches(w, end) && Inv(end) && OnlyActed(w, end, p, x)
  {
    hide Reaches, Inv, Apply;
    ReachSelf(w);
    FreshCall(w);
    match x {
      case StopOf(c) =>
        ClosingMoves(w, c);
        end := Then(w, w, BackendCloses(c, false));
      case LostStart(h) =>
        LostReturnMoves(w, h);
        var mid := Then(w, w, StartReturns(h));
        ClosingMoves(mid, w.calls);
        end := Then(w, mid, BackendCloses(w.calls, false));
    }
  }

  /** A closer that has not acted is still there. */
  lemma OthersStillClose(w: World, end: World, p: int, x: Closer, y: Closer)
    requires OnlyActed(w, end, p, x) && Closes(w, p, y) && y != x
    ensures Closes(end, p, y)
  {
  }

  /** The start of p waits for nothing that could still close its stream, but something else could. */
  ghost predicate Doomed(w: World, p: int, x: Closer) {
    var g := w.hook.generation;
    && w.hook.active == Some(p) && p !in w.streams && Closes(w, p, x)
    && g in w.starts && w.starts[g].Waiting? && w.starts[g].profile == p
    && (w.starts[g].on.Some? ==> !Closes(w, p, StopOf(w.starts[g].on.value)))
  }

  /** The stop that the start waits for settles. */
  lemma AwaitedStopIsAnswered(w: World, p: int, x: Closer, c: nat) returns (end: World)
    requires Inv(w) && Doomed(w, p, x) && w.starts[w.hook.generation].on == Some(c) && c in w.stops
    ensures Reaches(w, end) && Inv(end) && Doomed(end, p, x) && end.starts == w.starts && end.hook == w.hook
    ensures c in end.stops && end.stops[c].answer != NotYet
  {
    hide Reaches, Inv, Apply;
    ReachSelf(w);
    end := w;
    if w.stops[c].answer == NotYet {
      ClosingMoves(w, c);
      end := Then(w, w, BackendCloses(c, false));
    }
  }

  lemma AwaitedStopSettles(w: World, p: int, x: Closer) returns (end: World)
    requires Inv(w) && Doomed(w, p, x)
    ensures Reaches(w, end) && Inv(end) && Doomed(end, p, x) && Enabled(end, StartProceeds(end.hook.generation))
  {
    hide Reaches, Inv, Apply;
    ReachSelf(w);
    end := w;
    var on := w.starts[w.hook.generation].on;
    if on.Some? && on.value in w.stops {
      var mid := AwaitedStopIsAnswered(w, p, x, on.value);
      StopReturnMoves(mid, on.value);
      end := Then(w, mid, StopReturns(on.value));
    }
  }

  /** The start opens its stream, and the closer takes it away. */
  lemma DoomedStartIsLost(w: World, p: int, x: Closer) returns (end: World)
    requires Inv(w) && Doomed(w, p, x)
    ensures Reaches(w, end) && Lost(end, p)
  {
    hide Reaches, Inv, Apply, Lost, OnlyActed;
    var w1 := AwaitedStopSettles(w, p, x);
    var g := w1.hook.generation;
    ProceedMoves(w1);
    var w2 := Then(w, w1, StartProceeds(g));
    OpenMoves(w2, g);
    var w3 := Then(w, w2, BackendOpens(g));
    HeldReturnMoves(w3);
    var w4 := Then(w, w3, StartReturns(g));
    assert Closes(w4, p, x);
    RunningIsNotTerminal(w4, p);
    var w5 := CloserActs(w4, p, x);
    GoneAfterwards(w4, w5, p, x);
    ReachTrans(w, w4, w5);
    end := Settles(w5, p);
    ReachTrans(w, w5, end);
  }

  lemma RunningIsNotTerminal(w: World, p: int)
    requires Inv(w) && p in w.streams
    ensures w.streams[p] !in w.terminal
  {
  }

  lemma GoneAfterwards(w: World, end: World, p: int, x: Closer)
    requires OnlyActed(w, end, p, x) && w.hook.active == Some(p)
    requires w.hook.generation !in w.terminal && w.hook.generation !in w.starts
    ensures Gone(end, p)
  {
  }

  /** The start of p is waiting, and if it waits for a closer then for this one. */
  ghost predicate WaitsForAtMost(w: World, p: int, y: Closer) {
    var g := w.hook.generation;
    && w.hook.active == Some(p) && g in w.starts && w.starts[g].Waiting? && w.starts[g].profile == p
    && (w.starts[g].on.Some? && Closes(w, p, StopOf(w.starts[g].on.value)) ==> y == StopOf(w.starts[g].on.value))
  }

  lemma DoomedAfterwards(w: World, end: World, p: int, y: Closer, x: Closer)
    requires OnlyActed(w, end, p, y) && Closes(w, p, x) && x != y && Closes(w, p, y) && WaitsForAtMost(w, p, y)
    ensures Doomed(end, p, x)
  {
    OthersStillClose(w, end, p, y, x);
  }

  /** One of two closers goes to what the start waits for or to the stream in its way, the other to its own stream. */
  lemma TwoClosersAreTooMany(w: World, p: int, y: Closer, x: Closer) returns (end: World)
    requires Inv(w) && Closes(w, p, x) && x != y && Closes(w, p, y) && WaitsForAtMost(w, p, y)
    ensures Reaches(w, end) && Lost(end, p)
  {
    hide Reaches, Inv, Lost, OnlyActed, Doomed;
    var mid := CloserActs(w, p, y);
    DoomedAfterwards(w, mid, p, y, x);
    end := DoomedStartIsLost(mid, p, x);
    ReachTrans(w, mid, end);
  }

  // ---- The theorem ----

  lemma AfterStart(w: World, p: int)
    requires Inv(w) && w.hook.active == None
    ensures var w', g := Apply(w, Start(p)), w.hook.generation + 1;
            && w'.hook.active == Some(p) && w'.hook.generation == g && w'.streams == w.streams
            && w'.starts == w.starts[g := Waiting(p, if p in w.hook.pendingStops then Some(w.hook.pendingStops[p]) else None)]
            && g !in w.starts && g - 1 !in w.starts && w'.stops == w.stops
            && (forall x :: Closes(w', p, x) <==> Closes(w, p, x))
  {
  }

  /** w1 is w with a start of p just made. */
  ghost predicate JustStarted(w: World, w1: World, p: int) {
    && Inv(w1) && w1.hook.active == Some(p) && w1.hook.generation == w.hook.generation + 1
    && w1.hook.generation in w1.starts
    && w1.starts[w1.hook.generation] ==
       Waiting(p, if p in w.hook.pendingStops then Some(w.hook.pendingStops[p]) else None)
    && w1.streams == w.streams
    && (forall h :: IsPending(w, h) && w.starts[h].profile == p ==> IsPending(w1, h) && w1.starts[h].profile == p)
    && (forall h :: IsPending(w, h) ==> h != w1.hook.generation)
    && (forall x :: Closes(w1, p, x) <==> Closes(w, p, x))
  }

  lemma StartJustMade(w: World, p: int)
    requires Inv(w) && w.hook.active == None
    ensures JustStarted(w, Do(w, Start(p)), p)
  {
    hide Inv, Apply, Do, Closes;
    AfterStart(w, p);
    ActionKeepsInv(w, Start(p));
    DoesIfEnabled(w, Start(p));
    OthersStillPending(w, Apply(w, Start(p)), p, Apply(w, Start(p)).starts[w.hook.generation + 1]);
  }

  lemma OthersStillPending(w: World, w1: World, p: int, call: StartCall)
    requires w1.starts == w.starts[w.hook.generation + 1 := call]
    requires w.hook.generation + 1 !in w.starts
    ensures forall h :: IsPending(w, h) && w.starts[h].profile == p ==> IsPending(w1, h) && w1.starts[h].profile == p
    ensures forall h :: IsPending(w, h) ==> h != w.hook.generation + 1
  {
  }

  lemma TwoClosersLoseTheStart(w: World, w1: World, p: int) returns (end: World)
    requires JustStarted(w, w1, p) && !AtMostOneCloser(w, p)
    ensures Reaches(w1, end) && Lost(end, p)
  {
    hide Reaches, Inv, Lost, Closes;
    var x, y :| Closes(w, p, x) && Closes(w, p, y) && x != y;
    if WaitsForStop(w, p) && x == StopOf(w.hook.pendingStops[p]) {
      x, y := y, x;
    } else if WaitsForStop(w, p) {
      y := StopOf(w.hook.pendingStops[p]);
    }
    end := TwoClosersAreTooMany(w1, p, y, x);
  }

  lemma LateOpenLosesTheStart(w: World, w1: World, p: int) returns (end: World)
    requires JustStarted(w, w1, p) && p !in w.streams && WaitsForStop(w, p) && MayStillOpen(w, p)
    ensures Reaches(w1, end) && Lost(end, p)
  {
    hide Reaches, Inv, Lost;
    var h :| IsPending(w, h) && w.starts[h].profile == p && w.hook.generation != h;
    var y := StopOf(w.hook.pendingStops[p]);
    assert Closes(w1, p, y);
    OpenMoves(w1, h);
    ReachSelf(w1);
    var w2 := Then(w1, w1, BackendOpens(h));
    hide Apply;
    assert Closes(w2, p, y) && Closes(w2, p, LostStart(h)) && WaitsForAtMost(w2, p, y);
    end := TwoClosersAreTooMany(w2, p, y, LostStart(h));
    ReachTrans(w1, w2, end);
  }

  lemma LeftOverCloserLosesTheStart(w: World, w1: World, p: int) returns (end: World)
    requires JustStarted(w, w1, p) && p !in w.streams && !WaitsForStop(w, p) && !NoCloser(w, p)
    ensures Reaches(w1, end) && Lost(end, p)
  {
    hide Reaches, Inv, Lost, Closes;
    var x :| Closes(w, p, x);
    end := DoomedStartIsLost(w1, p, x);
  }

  /** Whatever endangers a profile can be led to the stream of a start made now. */
  lemma EndangeredStartCanBeLost(w: World, p: int) returns (end: World)
    requires Inv(w) && w.hook.active == None && Endangered(w, p)
    ensures Reaches(Do(w, Start(p)), end) && Lost(end, p)
  {
    StartJustMade(w, p);
    hide Reaches, Inv, Lost, Do, JustStarted, AtMostOneCloser, NoCloser, MayStillOpen, WaitsForStop;
    var w1 := Do(w, Start(p));
    if !AtMostOneCloser(w, p) && (p in w.streams || WaitsForStop(w, p)) {
      end := TwoClosersLoseTheStart(w, w1, p);
    } else if WaitsForStop(w, p) {
      end := LateOpenLosesTheStart(w, w1, p);
    } else {
      end := LeftOverCloserLosesTheStart(w, w1, p);
    }
  }

  lemma {:induction false} SafeStartIsKept(w: World, p: int, later: seq<Action>)
    requires Inv(w) && w.hook.active == None && !Endangered(w, p) && Calm(later)
    ensures var end := Run(Do(w, Start(p)), later); Inv(end) && HeldIsSafe(end) && HeldIsLive(end)
  {
    hide Inv, HeldIsSafe, HeldIsLive, Endangered;
    if later == [] {
      ActionKeepsInv(w, Start(p));
      StartBeginsSafe(w, p);
      AfterStart(w, p);
      WaitingIsLive(Apply(w, Start(p)));
    } else {
      hide Apply, Enabled;
      var init, a := later[..|later| - 1], later[|later| - 1];
      SafeStartIsKept(w, p, init);
      var m := Run(Do(w, Start(p)), init);
      if Enabled(m, a) {
        ActionKeepsInv(m, a);
        ActionStaysSafe(m, a);
        ActionStaysLive(m, a);
      }
    }
  }

  lemma WaitingIsLive(w: World)
    requires w.hook.generation in w.starts && w.starts[w.hook.generation].Waiting?
    ensures HeldIsLive(w)
  {
  }

  /** At any point of any run, a start made now can end with the view holding a stream that a stop closed without a
      word, the backend being otherwise undisturbed, if and only if its profile is endangered. */
  lemma LostExactlyIfEndangered(actions: seq<Action>, p: int)
    requires Run(OPENED, actions).hook.active == None
    ensures (exists later :: Calm(later) && Lost(Run(Do(Run(OPENED, actions), Start(p)), later), p)) <==>
            Endangered(Run(OPENED, actions), p)
  {
    OpenedInv();
    RunKeepsInv(OPENED, actions);
    var w := Run(OPENED, actions);
    hide Inv, Run, Do, Endangered, Lost;
    if Endangered(w, p) {
      var end := EndangeredStartCanBeLost(w, p);
    } else {
      forall later | Calm(later)
        ensures !Lost(Run(Do(w, Start(p)), later), p)
      {
        SafeStartIsNotLost(w, p, later);
      }
    }
  }

  lemma SafeStartIsNotLost(w: World, p: int, later: seq<Action>)
    requires Inv(w) && w.hook.active == None && !Endangered(w, p) && Calm(later)
    ensures !Lost(Run(Do(w, Start(p)), later), p)
  {
    SafeStartIsKept(w, p, later);
    hide Inv, Run, Do, Endangered, HeldIsSafe;
  }

  // ---- The shortest story ----

  /** Start, stop before the start returned, start again. */
  const RESTART := [Start(1), StartProceeds(1), BackendOpens(1), StopPressed, Start(1)]

  /** The stop reaches the first stream, and the second start opens its own. */
  const REOPEN := [BackendCloses(0, false), StopReturns(0), StartProceeds(3), BackendOpens(3)]

  /** The first start returns, sees that it lost, and stops the profile: the second stream is gone. */
  const LATE_STOP := [StartReturns(1), StartReturns(3), BackendCloses(1, false), StopReturns(1)]

  lemma RunFour(w: World, a: Action, b: Action, c: Action, d: Action)
    ensures Run(w, [a, b, c, d]) == Do(Do(Do(Do(w, a), b), c), d)
  {
    RunThree(w, a, b, c);
    assert [a, b, c, d] == [a, b, c] + [d];
    RunAppend(w, [a, b, c], d);
  }

  lemma AfterOpening() returns (w: World)
    ensures w == Run(OPENED, [Start(1), StartProceeds(1), BackendOpens(1)])
    ensures w.hook == Hook(1, Some(1), Some(1), [], map[], map[], true, "")
    ensures w.starts == map[1 := Invoked(1, Granted)] && w.stops == map[] && w.calls == 0
    ensures w.streams == map[1 := 1] && w.terminal == {} && w.dropped == {} && w.refused == {}
  {
    RunThree(OPENED, Start(1), StartProceeds(1), BackendOpens(1));
    hide Run;
    var w1 := Do(OPENED, Start(1));
    hide Apply;
    ProceedMoves(w1);
    var w2 := Do(w1, StartProceeds(1));
    OpenMoves(w2, 1);
    w := Do(w2, BackendOpens(1));
  }

  lemma AfterRestart() returns (w: World)
    ensures w == Run(OPENED, RESTART)
    ensures w.hook == Hook(3, Some(1), Some(1), [], map[], map[1 := 0], true, "")
    ensures w.starts == map[1 := Invoked(1, Granted), 3 := Waiting(1, Some(0))] && w.stops == map[0 := StopCall(1, NotYet)]
    ensures w.calls == 1 && w.streams == map[1 := 1] && w.terminal == {} && w.dropped == {} && w.refused == {}
  {
    hide Run;
    var first := [Start(1), StartProceeds(1), BackendOpens(1)];
    var w3 := AfterOpening();
    RunAppend(OPENED, first, StopPressed);
    RunAppend(OPENED, first + [StopPressed], Start(1));
    assert RESTART == first + [StopPressed] + [Start(1)];
    var w4 := Do(w3, StopPressed);
    assert w4.hook == Hook(2, None, Some(1), [], map[], map[1 := 0], false, "");
    w := Do(w4, Start(1));
  }

  lemma AfterReopen(w: World) returns (end: World)
    requires w.hook == Hook(3, Some(1), Some(1), [], map[], map[1 := 0], true, "")
    requires w.starts == map[1 := Invoked(1, Granted), 3 := Waiting(1, Some(0))] && w.stops == map[0 := StopCall(1, NotYet)]
    requires w.calls == 1 && w.streams == map[1 := 1] && w.terminal == {} && w.dropped == {} && w.refused == {}
    ensures end == Run(w, REOPEN)
    ensures end.hook == Hook(3, Some(1), Some(1), [], map[], map[], true, "")
    ensures end.starts == map[1 := Invoked(1, Granted), 3 := Invoked(1, Granted)] && end.stops == map[]
    ensures end.calls == 1 && end.streams == map[1 := 3] && end.terminal == {} && end.dropped == {} && end.refused == {}
  {
    RunFour(w, BackendCloses(0, false), StopReturns(0), StartProceeds(3), BackendOpens(3));
    hide Apply, Run;
    var w2 := AfterFirstStop(w);
    hide Do;
    DoesIfEnabled(w2, StartProceeds(3));
    ProceedMoves(w2);
    var w3 := Do(w2, StartProceeds(3));
    DoesIfEnabled(w3, BackendOpens(3));
    OpenMoves(w3, 3);
    end := Do(w3, BackendOpens(3));
    assert end.starts == map[1 := Invoked(1, Granted), 3 := Invoked(1, Granted)];
  }

  lemma AfterFirstStop(w: World) returns (end: World)
    requires w.hook == Hook(3, Some(1), Some(1), [], map[], map[1 := 0], true, "")
    requires w.stops == map[0 := StopCall(1, NotYet)] && w.streams == map[1 := 1]
    ensures end == Do(Do(w, BackendCloses(0, false)), StopReturns(0))
    ensures end.hook == Hook(3, Some(1), Some(1), [], map[], map[], true, "") && end.stops == map[] && end.streams == map[]
    ensures end.starts == w.starts && end.calls == w.calls
    ensures end.terminal == w.terminal && end.dropped == w.dropped && end.refused == w.refused
  {
    hide Apply;
    ClosingMoves(w, 0);
    var w1 := Do(w, BackendCloses(0, false));
    StopReturnMoves(w1, 0);
    end := Do(w1, StopReturns(0));
    assert end.stops == map[];
  }

  lemma AfterBothReturn(w: World) returns (end: World)
    requires w.hook == Hook(3, Some(1), Some(1), [], map[], map[], true, "")
    requires w.starts == map[1 := Invoked(1, Granted), 3 := Invoked(1, Granted)] && w.stops == map[] && w.calls == 1
    ensures end == Do(Do(w, StartReturns(1)), StartReturns(3))
    ensures end == w.(starts := map[], stops := map[1 := StopCall(1, NotYet)], calls := 2)
  {
    hide Apply;
    LostReturnMoves(w, 1);
    var w1 := Do(w, StartReturns(1));
    assert w1.starts == map[3 := Invoked(1, Granted)];
    HeldReturnMoves(w1);
    end := Do(w1, StartReturns(3));
    assert end.starts == map[];
  }

  lemma AfterLateStop(w: World) returns (end: World)
    requires w.hook == Hook(3, Some(1), Some(1), [], map[], map[], true, "")
    requires w.starts == map[1 := Invoked(1, Granted), 3 := Invoked(1, Granted)] && w.stops == map[]
    requires w.calls == 1 && w.streams == map[1 := 3] && w.terminal == {} && w.dropped == {} && w.refused == {}
    ensures end == Run(w, LATE_STOP)
    ensures Lost(end, 1) && end.hook.running && end.streams == map[]
    ensures end.terminal == {} && end.dropped == {} && end.refused == {}
  {
    RunFour(w, StartReturns(1), StartReturns(3), BackendCloses(1, false), StopReturns(1));
    hide Apply, Run;
    var w2 := AfterBothReturn(w);
    hide Do;
    assert Do(w2, BackendCloses(1, false)) == Apply(w2, BackendCloses(1, false)) by { DoesIfEnabled(w2, BackendCloses(1, false)); }
    ClosingMoves(w2, 1);
    var w3 := Do(w2, BackendCloses(1, false));
    assert Do(w3, StopReturns(1)) == Apply(w3, StopReturns(1)) by { DoesIfEnabled(w3, StopReturns(1)); }
    StopReturnMoves(w3, 1);
    end := Do(w3, StopReturns(1));
    assert end.stops == map[];
  }

  lemma DoesIfEnabled(w: World, a: Action)
    requires Enabled(w, a)
    ensures Do(w, a) == Apply(w, a)
  {
  }

  /** No stream ends on its own and no stop is refused; still, once everything has returned, the view shows a
      running stream of profile 1 and the backend runs none. */
  lemma LateStopClosesTheNewStream()
    ensures forall i :: 0 <= i < |RESTART + REOPEN + LATE_STOP| ==> Undisturbed((RESTART + REOPEN + LATE_STOP)[i])
    ensures var w := Run(OPENED, RESTART + REOPEN + LATE_STOP);
            && Quiet(w) && w.terminal == {} && w.dropped == {} && w.refused == {}
            && w.hook.active == Some(1) && w.hook.running && w.streams == map[]
  {
    hide Run;
    var w1 := AfterRestart();
    var w2 := AfterReopen(w1);
    var w3 := AfterLateStop(w2);
    RunConcat(OPENED, RESTART, REOPEN);
    RunConcat(OPENED, RESTART + REOPEN, LATE_STOP);
  }
}
