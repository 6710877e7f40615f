/** What a monitored device says over whole runs: its status, the baselines of newly selected sources, its traffic. */
module DeviceView {
  import opened Options
  import opened DeviceMonitor
  import CounterRates
  import Traffic

  // ---- Status ----

  /** A start, or the finding of a live monitor, that makes the device of that serial if it makes one. */
  predicate Makes(s: State, a: Action, id: int, serial: nat) {
    (a.Start? || a.Rehydrate?) && a.id == id && s.next == serial
  }

  function SaysRunning(s: State, a: Action, id: int, serial: nat): Option<bool> {
    if Makes(s, a, id, serial) then Some(true)
    else if !CarriedBy(a, id, serial) then None
    else if a.StartResolved? || (a.StatusEvent? && a.event.Started?) then Some(true)
    else if a.StatusEvent? && (a.event.Stopped? || a.event.Error?) then Some(false)
    else None
  }

  function SaysAttached(s: State, a: Action, id: int, serial: nat): Option<bool> {
    if Makes(s, a, id, serial) then Some(a.Start?)
    else if CarriedBy(a, id, serial) && a.StatusEvent? && (a.event.Stopped? || a.event.Error?) then Some(false)
    else None
  }

  function SaysError(s: State, a: Action, id: int, serial: nat): Option<string> {
    if Makes(s, a, id, serial) then Some("")
    else if !CarriedBy(a, id, serial) then None
    else if a.StartResolved? || (a.StatusEvent? && a.event.Started?) then Some("")
    else if a.StatusEvent? && (a.event.Warning? || a.event.Error?) then Some(a.event.message)
    else None
  }

  function LastRunning(actions: seq<Action>, id: int, serial: nat): bool {
    if actions == [] then false
    else
      var init := actions[..|actions| - 1];
      SaysRunning(Run(init), actions[|actions| - 1], id, serial).GetOr(LastRunning(init, id, serial))
  }

  function LastAttached(actions: seq<Action>, id: int, serial: nat): bool {
    if actions == [] then false
    else
      var init := actions[..|actions| - 1];
      SaysAttached(Run(init), actions[|actions| - 1], id, serial).GetOr(LastAttached(init, id, serial))
  }

  function LastError(actions: seq<Action>, id: int, serial: nat): string {
    if actions == [] then ""
    else
      var init := actions[..|actions| - 1];
      SaysError(Run(init), actions[|actions| - 1], id, serial).GetOr(LastError(init, id, serial))
  }

  /** The status of a profile's device, if it has one. */
  predicate HasStatus(s: State, id: int, serial: nat, running: bool, attached: bool, error: string) {
    Owns(s, id, serial) ==>
      s.devices[id].running == running && s.devices[id].attached == attached && s.devices[id].statusError == error
  }

  predicate SerialsUsed(s: State) {
    forall id :: id in s.devices ==> s.devices[id].serial < s.next
  }

  lemma ToggledKeepsSerial(s: State, a: Action)
    ensures a.ToggleSource? && a.id in s.devices ==>
              && Toggled(s.devices[a.id], a.source).serial == s.devices[a.id].serial
              && SameStatus(Toggled(s.devices[a.id], a.source), s.devices[a.id])
  {
  }

  predicate SameStatus(d: Device, d': Device) {
    d.running == d'.running && d.attached == d'.attached && d.statusError == d'.statusError
  }

  lemma {:induction false} ApplyAllKeepsStatus(d: Device, batch: seq<Snapshot>)
    ensures SameStatus(ApplyAll(d, batch), d)
  {
    if batch != [] {
      ApplyAllKeepsStatus(d, batch[..|batch| - 1]);
    }
  }

  /** Snapshots, frames and selections have no part in the status. */
  predicate Silent(a: Action) {
    a.Frame? || a.Deliver? || a.ToggleSource?
  }

  lemma SilentStep(s: State, a: Action)
    requires Silent(a)
    ensures a.id in Step(s, a).devices <==> a.id in s.devices
    ensures a.id in s.devices ==>
              && Step(s, a).devices[a.id].serial == s.devices[a.id].serial
              && SameStatus(Step(s, a).devices[a.id], s.devices[a.id])
  {
    if a.id in s.devices {
      var d := s.devices[a.id];
      if a.Frame? {
        FlushedSerial(d);
        ApplyAllKeepsStatus(d.(flushing := false, pending := []), d.pending);
        FrameMoves(s, a);
        hide Step, ApplyAll, FramesDue;
      } else {
        ToggledKeepsSerial(s, a);
        hide Flushed, Toggled;
      }
    }
  }

  lemma OwnStepHasStatus(s: State, a: Action, serial: nat, running: bool, attached: bool, error: string)
    requires SerialsUsed(s) && HasStatus(s, a.id, serial, running, attached, error) && !Silent(a)
    ensures HasStatus(Step(s, a), a.id, serial, SaysRunning(s, a, a.id, serial).GetOr(running),
                      SaysAttached(s, a, a.id, serial).GetOr(attached), SaysError(s, a, a.id, serial).GetOr(error))
  {
    hide Flushed, Received, Toggled;
  }

  lemma StepHasStatus(s: State, a: Action, id: int, serial: nat, running: bool, attached: bool, error: string)
    requires SerialsUsed(s) && HasStatus(s, id, serial, running, attached, error)
    ensures HasStatus(Step(s, a), id, serial, SaysRunning(s, a, id, serial).GetOr(running),
                      SaysAttached(s, a, id, serial).GetOr(attached), SaysError(s, a, id, serial).GetOr(error))
  {
    hide Step, SerialsUsed;
    if id != a.id {
      ActionsAreLocal(s, a, id);
    } else if Silent(a) {
      SilentStep(s, a);
    } else {
      hide HasStatus, SaysRunning, SaysAttached, SaysError;
      OwnStepHasStatus(s, a, serial, running, attached, error);
    }
  }

  lemma StepKeepsSerialsUsed(s: State, a: Action)
    requires SerialsUsed(s)
    ensures SerialsUsed(Step(s, a))
  {
    forall id | id in Step(s, a).devices
      ensures Step(s, a).devices[id].serial < Step(s, a).next
    {
      NextOnlyGrows(s, a);
      if id != a.id {
        ActionsAreLocal(s, a, id);
      } else if Silent(a) {
        SilentStep(s, a);
        hide Step;
      } else {
        hide Flushed, Toggled, Received;
      }
    }
  }

  lemma {:induction false} RunUsesSerials(actions: seq<Action>)
    ensures SerialsUsed(Run(actions))
  {
    if actions != [] {
      RunUsesSerials(actions[..|actions| - 1]);
      StepKeepsSerialsUsed(Run(actions[..|actions| - 1]), actions[|actions| - 1]);
    }
  }

  lemma {:induction false} RunHasStatus(actions: seq<Action>, id: int, serial: nat)
    ensures HasStatus(Run(actions), id, serial, LastRunning(actions, id, serial), LastAttached(actions, id, serial),
                      LastError(actions, id, serial))
  {
    hide Step, SaysRunning, SaysAttached, SaysError, HasStatus, SerialsUsed;
    if actions == [] {
      NoStatusYet(id, serial);
    } else {
      var init, a := actions[..|actions| - 1], actions[|actions| - 1];
      RunHasStatus(init, id, serial);
      RunUsesSerials(init);
      StepHasStatus(Run(init), a, id, serial, LastRunning(init, id, serial), LastAttached(init, id, serial),
                    LastError(init, id, serial));
    }
  }

  lemma NoStatusYet(id: int, serial: nat)
    ensures HasStatus(Run([]), id, serial, false, false, "")
  {
  }

  /** In every run a device's status is the last word of its start, of that start's call and of its own channel:
      running until a stop or an error, attached if started here and not stopped since, and the error is the message
      of the last warning or error that no start came after. What is attached is running. */
  lemma StatusIsTheLastWord(actions: seq<Action>, id: int)
    requires id in Run(actions).devices
    ensures var d := Run(actions).devices[id];
            && d.running == LastRunning(actions, id, d.serial)
            && d.attached == LastAttached(actions, id, d.serial)
            && d.statusError == LastError(actions, id, d.serial)
            && (d.attached ==> d.running)
  {
    RunHasStatus(actions, id, Run(actions).devices[id].serial);
    AttachedIsRunning(actions, id, Run(actions).devices[id].serial);
  }

  lemma {:induction false} AttachedIsRunning(actions: seq<Action>, id: int, serial: nat)
    ensures LastAttached(actions, id, serial) ==> LastRunning(actions, id, serial)
  {
    hide Run, Makes;
    if actions != [] {
      AttachedIsRunning(actions[..|actions| - 1], id, serial);
    }
  }

  /** A start does nothing while an attached device is running; otherwise the device begins anew. */
  lemma StartBeginsAnew(s: State, id: int)
    ensures id in s.devices && s.devices[id].running && s.devices[id].attached ==> Step(s, Start(id)) == s
    ensures !(id in s.devices && s.devices[id].running && s.devices[id].attached) ==>
              && id in Step(s, Start(id)).devices
              && var d := Step(s, Start(id)).devices[id];
                 && d.serial == s.next && d.running && d.attached && d.statusError == "" && d.pending == []
                 && d.traffic.selected == [] && d.traffic.times == []
                 && d.views.rules == View(None, false, None, None)
                 && d.views.system == View(None, false, None, None) && d.views.vpn == View(None, false, None, None)
  {
  }

  /** A device goes when its call to start fails, when its stop settles and when its profile is deleted; finding a
      live monitor adds one only where there is none, running and detached. */
  lemma DevicesComeAndGo(s: State, id: int)
    ensures id in s.devices ==>
              && var serial := s.devices[id].serial;
                 && id !in Step(s, StartFailed(id, serial)).devices && id !in Step(s, StopSettled(id, serial)).devices
                 && id !in Step(s, ProfileDeleted(id)).devices && Step(s, Rehydrate(id)) == s
    ensures id !in s.devices ==>
              && id in Step(s, Rehydrate(id)).devices
              && var d := Step(s, Rehydrate(id)).devices[id];
                 d.running && !d.attached && d.statusError == "" && d.views.system.data == None && d.traffic.selected == []
  {
  }

  // ---- Baselines ----

  /** The refresh is good and its section, the one that the source belongs to, lists the source first as that entry. */
  ghost predicate Reports(s: Snapshot, source: Traffic.Source, entry: Traffic.Named) {
    match source
    case Interface(name) =>
      && s.system.ok && s.system.data.Some?
      && exists k :: Traffic.FirstNamed(s.system.data.value.interfaces, name, k) && s.system.data.value.interfaces[k] == entry
    case Wireguard(interfaceName, name) =>
      && s.vpn.ok && s.vpn.data.Some? && s.vpn.data.value.wireguard.Some?
      && exists i, k ::
           && Traffic.FirstInterface(s.vpn.data.value.wireguard.value, interfaceName, i)
           && Traffic.FirstNamed(s.vpn.data.value.wireguard.value[i].peers, name, k)
           && s.vpn.data.value.wireguard.value[i].peers[k] == entry
    case Openvpn(name) =>
      && s.vpn.ok && s.vpn.data.Some? && s.vpn.data.value.openvpn.Some?
      && exists k :: Traffic.FirstNamed(s.vpn.data.value.openvpn.value, name, k) && s.vpn.data.value.openvpn.value[k] == entry
  }

  lemma TrafficSeesReports(s: Snapshot, source: Traffic.Source, entry: Traffic.Named)
    ensures Traffic.Lists(TrafficOf(s), source, entry) <==> Reports(s, source, entry)
    ensures TrafficOf(s).at == s.at.ms
  {
    hide Traffic.FirstNamed, Traffic.FirstInterface;
  }

  /** What the shown sections offer a newly selected source. */
  function Offered(v: Views): Traffic.Snapshot {
    var system := if !v.system.stale && v.system.updatedAt.Some? then v.system.data else None;
    var vpn := if !v.vpn.stale && v.vpn.updatedAt.Some? then v.vpn.data else None;
    Traffic.Snapshot(None, if system.Some? then Some(system.value.interfaces) else None,
                     if vpn.Some? then vpn.value.wireguard else None, if vpn.Some? then vpn.value.openvpn else None)
  }

  lemma OfferedIsReported(v: Views, s: Snapshot, source: Traffic.Source, entry: Traffic.Named)
    requires Reports(s, source, entry)
    ensures Traffic.Lists(Offered(Refreshed(v, s)), source, entry)
    ensures var shown := Refreshed(v, s);
            (if source.Interface? then shown.system.updatedAt else shown.vpn.updatedAt) == Some(s.at)
  {
    hide Traffic.FirstNamed, Traffic.FirstInterface;
  }

  lemma BaselineIsOfTheEntry(v: Views, at: Stamp, source: Traffic.Source, entry: Traffic.Named)
    requires Traffic.Lists(Offered(v), source, entry)
    requires (if source.Interface? then v.system.updatedAt else v.vpn.updatedAt) == Some(at)
    ensures BaselineFor(v, source) ==
            Some(Traffic.Reading(at.ms, Bytes(Traffic.ValidCounter(entry.rxBytes)), Bytes(Traffic.ValidCounter(entry.txBytes))))
  {
    Traffic.CountersReadTheirEntry(Offered(v), source);
    hide Traffic.CountersOf, Traffic.Lists, Traffic.ValidCounter, Bytes;
  }

  lemma StillValid(value: Option<real>)
    ensures Traffic.ValidCounter(Bytes(Traffic.ValidCounter(value))) == Traffic.ValidCounter(value)
  {
  }

  /** Right after a good refresh was shown, a new source starts from exactly what that refresh said of it. */
  lemma SelectionStartsFromShownCounters(
    d: Device, applied: seq<Snapshot>, s: Snapshot, source: Traffic.Source, entry: Traffic.Named, tx: bool)
    requires d.views == ViewsOf(applied + [s]) && Reports(s, source, entry) && s.at.ms.Some?
    requires Traffic.Inv(d.traffic, Traffic.CAPACITY) && source !in d.traffic.selected
    ensures Traffic.LastReading(Toggled(d, source).traffic, source, tx) ==
            CounterRates.Sample(s.at.ms, Traffic.ValidCounter(if tx then entry.txBytes else entry.rxBytes))
  {
    hide Traffic.Toggle, Traffic.Inv, Traffic.LastReading, Traffic.ValidCounter, Reports, Traffic.Lists, BaselineFor, Bytes;
    assert (applied + [s])[..|applied|] == applied;
    OfferedIsReported(ViewsOf(applied), s, source, entry);
    BaselineIsOfTheEntry(d.views, s.at, source, entry);
    Traffic.SelectingStartsFromBaseline(d.traffic, source, BaselineFor(d.views, source), source, Traffic.CAPACITY);
    StillValid(entry.rxBytes);
    StillValid(entry.txBytes);
  }

  /** While the section of a new source is stale or was never good, the source starts from nothing. */
  lemma StaleSectionsGiveNoBaseline(d: Device, source: Traffic.Source, tx: bool)
    requires Traffic.Inv(d.traffic, Traffic.CAPACITY) && source !in d.traffic.selected
    requires if source.Interface? then d.views.system.stale || d.views.system.updatedAt == None
             else d.views.vpn.stale || d.views.vpn.updatedAt == None
    ensures Traffic.LastReading(Toggled(d, source).traffic, source, tx) == CounterRates.Sample(None, None)
  {
    hide Traffic.Toggle, Traffic.Inv, Traffic.LastReading;
    Traffic.SelectingStartsFromBaseline(d.traffic, source, BaselineFor(d.views, source), source, Traffic.CAPACITY);
  }

  /** Toggling a source of a monitored device turns it on or off and touches neither views nor snapshots. */
  lemma ToggleTurnsTheSource(s: State, id: int, source: Traffic.Source)
    requires id in s.devices && Traffic.Inv(s.devices[id].traffic, Traffic.CAPACITY)
    ensures id in Step(s, ToggleSource(id, source)).devices
    ensures var d, d' := s.devices[id], Step(s, ToggleSource(id, source)).devices[id];
            && (source in d'.traffic.selected <==> source !in d.traffic.selected)
            && d'.views == d.views && d'.pending == d.pending && d'.flushing == d.flushing && d'.serial == d.serial
  {
    hide Traffic.Known, Traffic.Ascending, Traffic.Distinct, BaselineFor, Traffic.ValidCounter;
    var h := s.devices[id].traffic;
    if source in h.selected {
      Traffic.DropProperties(h.selected, source);
    }
  }

  // ---- Traffic ----

  function Appends(snapshots: seq<Snapshot>): seq<Traffic.Op> {
    seq(|snapshots|, i requires 0 <= i < |snapshots| => Traffic.AppendOp(TrafficOf(snapshots[i])))
  }

  /** The operations that append. */
  function Appended(ops: seq<Traffic.Op>): seq<Traffic.Op> {
    if ops == [] then []
    else
      var init, op := Appended(ops[..|ops| - 1]), ops[|ops| - 1];
      if op.AppendOp? then init + [op] else init
  }

  /** The history is made by toggles and by appending those snapshots, each once and in order. */
  ghost predicate Fed(h: Traffic.History, snapshots: seq<Snapshot>) {
    exists ops :: h == Traffic.Run(ops, Traffic.CAPACITY) && Appended(ops) == Appends(snapshots)
  }

  lemma StepFeeds(ops: seq<Traffic.Op>, op: Traffic.Op)
    ensures Traffic.Run(ops + [op], Traffic.CAPACITY) == Traffic.Step(Traffic.Run(ops, Traffic.CAPACITY), op, Traffic.CAPACITY)
    ensures Appended(ops + [op]) == Appended(ops) + if op.AppendOp? then [op] else []
  {
    hide Traffic.Step;
    assert (ops + [op])[..|ops|] == ops;
  }

  lemma {:induction false} ApplyingFeeds(d: Device, applied: seq<Snapshot>, batch: seq<Snapshot>)
    requires Fed(d.traffic, applied)
    ensures Fed(ApplyAll(d, batch).traffic, applied + batch)
  {
    hide Traffic.Run, Traffic.AppendCapped, TrafficOf, Refreshed;
    if batch == [] {
      assert applied + batch == applied;
    } else {
      var init, last := batch[..|batch| - 1], batch[|batch| - 1];
      ApplyingFeeds(d, applied, init);
      var ops :| ApplyAll(d, init).traffic == Traffic.Run(ops, Traffic.CAPACITY) && Appended(ops) == Appends(applied + init);
      StepFeeds(ops, Traffic.AppendOp(TrafficOf(last)));
      assert applied + batch == applied + init + [last];
      assert Appends(applied + batch) == Appends(applied + init) + [Traffic.AppendOp(TrafficOf(last))];
    }
  }

  lemma ToggleFeeds(d: Device, applied: seq<Snapshot>, source: Traffic.Source)
    requires Fed(d.traffic, applied)
    ensures Fed(Toggled(d, source).traffic, applied)
  {
    hide Traffic.Run, Traffic.AppendCapped, Traffic.Toggle, BaselineFor;
    var ops :| d.traffic == Traffic.Run(ops, Traffic.CAPACITY) && Appended(ops) == Appends(applied);
    StepFeeds(ops, Traffic.ToggleOp(source, BaselineFor(d.views, source)));
  }

  /** A device's history is fed by what its channel delivered, less what is pending. */
  ghost predicate DeviceFed(d: Device, delivered: seq<Snapshot>) {
    |d.pending| <= |delivered| && Fed(d.traffic, delivered[..|delivered| - |d.pending|])
  }

  ghost predicate EntryFed(s: State, actions: seq<Action>, id: int) {
    id in s.devices ==> DeviceFed(s.devices[id], Delivered(actions, id, s.devices[id].serial))
  }

  lemma FlushFeeds(d: Device, delivered: seq<Snapshot>)
    requires DeviceFed(d, delivered) && delivered[|delivered| - |d.pending|..] == d.pending
    ensures DeviceFed(Flushed(d), delivered)
  {
    hide ApplyAll, Fed;
    var applied, d' := delivered[..|delivered| - |d.pending|], d.(flushing := false, pending := []);
    ApplyingFeeds(d', applied, d.pending);
    FlushLeavesNothingPending(d', d.pending);
    assert applied + d.pending == delivered;
    assert delivered[..|delivered|] == delivered;
  }

  lemma {:induction false} FlushLeavesNothingPending(d: Device, batch: seq<Snapshot>)
    ensures ApplyAll(d, batch).pending == d.pending
  {
    if batch != [] {
      FlushLeavesNothingPending(d, batch[..|batch| - 1]);
    }
  }

  lemma ReceivedFeeds(d: Device, delivered: seq<Snapshot>, snapshot: Snapshot)
    requires DeviceFed(d, delivered)
    ensures DeviceFed(Received(d, snapshot), delivered + [snapshot])
  {
    hide Fed;
    var all := delivered + [snapshot];
    assert all[..|all| - |d.pending| - 1] == delivered[..|delivered| - |d.pending|];
  }

  lemma NewIsFed(serial: nat, attached: bool)
    ensures DeviceFed(NewDevice(serial, attached), [])
  {
    assert Traffic.Run([], Traffic.CAPACITY) == Traffic.EMPTY && Appended([]) == Appends([]);
    assert Fed(Traffic.EMPTY, []);
  }

  lemma OwnStepFeeds(actions: seq<Action>, a: Action)
    requires Possible(actions) && EntryFed(Run(actions), actions, a.id)
    requires a.id in Run(actions).devices ==> EntryOk(Run(actions), actions, a.id)
    ensures EntryFed(Step(Run(actions), a), actions + [a], a.id)
  {
    hide DeviceFed, Delivered, Run, Step, FramesDue, NewDevice, Flushed, Received, Toggled, Possible;
    var s := Run(actions);
    if a.Start? || a.Rehydrate? {
      StartMoves(s, a);
      if Keeps(s, a) {
        DeliveredAppend(actions, a, s.devices[a.id].serial);
      } else {
        DeliveredAppend(actions, a, s.next);
        NothingYetDelivered(actions, a.id, s.next);
        NewIsFed(s.next, a.Start?);
        NewSerial(s.next, a.Start?);
      }
    } else if a.id in Step(s, a).devices {
      OnlyStartsAdd(s, a);
      var d := s.devices[a.id];
      DeliveredAppend(actions, a, d.serial);
      if a.Frame? {
        FrameMoves(s, a);
        FlushFeeds(d, Delivered(actions, a.id, d.serial));
        FlushedSerial(d);
      } else if a.Deliver? {
        DeliverMoves(s, a);
        ReceivedFeeds(d, Delivered(actions, a.id, d.serial), a.snapshot);
        ReceivedSerial(d, a.snapshot);
      } else {
        OtherMoves(s, a);
        OtherFeeds(d, Step(s, a).devices[a.id], a, Delivered(actions, a.id, d.serial));
      }
    }
  }

  lemma OtherFeeds(d: Device, d': Device, a: Action, delivered: seq<Snapshot>)
    requires DeviceFed(d, delivered) && if a.ToggleSource? then d' == Toggled(d, a.source) else SameButStatus(d, d')
    ensures DeviceFed(d', delivered) && d'.serial == d.serial
  {
    hide Fed, BaselineFor, Traffic.Toggle;
    if a.ToggleSource? {
      ToggleFeeds(d, delivered[..|delivered| - |d.pending|], a.source);
    }
  }

  lemma OtherIdStays(actions: seq<Action>, a: Action, id: int)
    requires EntryFed(Run(actions), actions, id) && id != a.id
    ensures EntryFed(Step(Run(actions), a), actions + [a], id)
  {
    hide DeviceFed, Run, Step;
    ActionsAreLocal(Run(actions), a, id);
    assert (actions + [a])[..|actions|] == actions;
  }

  /** In every run the traffic history of a device is made by toggles and by appending every snapshot that its own
      channel delivered and that is no longer pending, each once and in order. */
  lemma DeliveredTrafficIsAppended(actions: seq<Action>, id: int)
    requires Possible(actions) && id in Run(actions).devices
    ensures var d := Run(actions).devices[id];
            var delivered := Delivered(actions, id, d.serial);
            |d.pending| <= |delivered| && Fed(d.traffic, delivered[..|delivered| - |d.pending|])
  {
    hide Run, Delivered, Fed;
    RunFeeds(actions, id);
  }

  lemma {:induction false} RunFeeds(actions: seq<Action>, id: int)
    requires Possible(actions)
    ensures EntryFed(Run(actions), actions, id)
  {
    hide Step, DeviceFed, DeviceOk, EntryFed;
    if actions == [] {
      NothingFedYet(id);
    } else {
      var init, a := actions[..|actions| - 1], actions[|actions| - 1];
      RunFeeds(init, id);
      RunKeepsInv(init);
      EntriesOk(init, id);
      assert init + [a] == actions;
      if a.id == id {
        OwnStepFeeds(init, a);
      } else {
        OtherIdStays(init, a, id);
      }
    }
  }

  lemma NothingFedYet(id: int)
    ensures EntryFed(Run([]), [], id)
  {
  }
}
