/** Live state of the monitored firewalls: event channels with identity guards, batched snapshots, last-good views. */
module DeviceMonitor {
  import opened Options
  import Traffic

  /** A timestamp text with its parsed milliseconds. */
  datatype Stamp = Stamp(text: string, ms: Option<int>)

  datatype Section<T> = Section(ok: bool, data: Option<T>, error: Option<string>)
  datatype View<T> = View(data: Option<T>, stale: bool, error: Option<string>, updatedAt: Option<Stamp>)

  datatype SystemData = SystemData(interfaces: seq<Traffic.Named>)
  datatype VpnData = VpnData(wireguard: Option<seq<Traffic.WireguardInterface>>, openvpn: Option<seq<Traffic.Named>>)
  datatype Snapshot = Snapshot(
    at: Stamp, rules: Option<Section<string>>, system: Section<SystemData>, vpn: Section<VpnData>)

  datatype Views = Views(rules: View<string>, system: View<SystemData>, vpn: View<VpnData>)

  /** serial is the identity of the object behind the entry. */
  datatype Device = Device(
    serial: nat, running: bool, attached: bool, views: Views, traffic: Traffic.History,
    statusError: string, pending: seq<Snapshot>, flushing: bool)

  // ---- Last-good views ----

  function EmptyView<T>(): View<T> {
    View(None, false, None, None)
  }

  predicate Good<T>(section: Section<T>) {
    section.ok && section.data.Some?
  }

  function MergeSection<T>(current: View<T>, section: Section<T>, at: Stamp): View<T> {
    if Good(section) then View(section.data, false, None, Some(at))
    else View(current.data, current.data.Some?, section.error, current.updatedAt)
  }

  function Merged<T>(refreshes: seq<(Stamp, Section<T>)>): View<T> {
    if refreshes == [] then EmptyView()
    else
      var last := refreshes[|refreshes| - 1];
      MergeSection(Merged(refreshes[..|refreshes| - 1]), last.1, last.0)
  }

  /** Refresh i is the newest good one. */
  predicate IsLastGood<T>(refreshes: seq<(Stamp, Section<T>)>, i: int) {
    0 <= i < |refreshes| && Good(refreshes[i].1) && forall k :: i < k < |refreshes| ==> !Good(refreshes[k].1)
  }

  lemma NewestGoodMoves<T>(refreshes: seq<(Stamp, Section<T>)>, i: int)
    requires IsLastGood(refreshes, i)
    ensures Good(refreshes[|refreshes| - 1].1) ==> i == |refreshes| - 1
    ensures !Good(refreshes[|refreshes| - 1].1) ==> IsLastGood(refreshes[..|refreshes| - 1], i)
  {
  }

  /** A view shows the newest good refresh and its time; it is stale exactly when a failed refresh came after. */
  lemma {:induction false} ViewShowsTheLastGood<T>(refreshes: seq<(Stamp, Section<T>)>, i: int)
    requires IsLastGood(refreshes, i)
    ensures var v := Merged(refreshes);
            && v.data == refreshes[i].1.data && v.data.Some?
            && v.updatedAt == Some(refreshes[i].0) && v.stale == (i < |refreshes| - 1)
  {
    NewestGoodMoves(refreshes, i);
    if i < |refreshes| - 1 {
      hide IsLastGood;
      ViewShowsTheLastGood(refreshes[..|refreshes| - 1], i);
    }
  }

  /** Until a refresh is good nothing is shown, and an error is carried exactly while the newest refresh failed. */
  lemma {:induction false} FailuresAreReported<T>(refreshes: seq<(Stamp, Section<T>)>)
    ensures Merged(refreshes).error ==
            if refreshes == [] || Good(refreshes[|refreshes| - 1].1) then None else refreshes[|refreshes| - 1].1.error
    ensures (forall k :: 0 <= k < |refreshes| ==> !Good(refreshes[k].1)) ==>
              Merged(refreshes).data == None && Merged(refreshes).updatedAt == None && !Merged(refreshes).stale
  {
    if refreshes != [] {
      FailuresAreReported(refreshes[..|refreshes| - 1]);
    }
  }

  // ---- One device ----

  const NO_VIEWS := Views(EmptyView(), EmptyView(), EmptyView())

  function NewDevice(serial: nat, attached: bool): Device {
    Device(serial, true, attached, NO_VIEWS, Traffic.EMPTY, "", [], false)
  }

  function TrafficOf(s: Snapshot): Traffic.Snapshot {
    var vpn := if Good(s.vpn) then s.vpn.data else None;
    Traffic.Snapshot(
      s.at.ms,
      if Good(s.system) then Some(s.system.data.value.interfaces) else None,
      if vpn.Some? then vpn.value.wireguard else None,
      if vpn.Some? then vpn.value.openvpn else None)
  }

  function Refreshed(v: Views, s: Snapshot): Views {
    Views(if s.rules.Some? then MergeSection(v.rules, s.rules.value, s.at) else v.rules,
          MergeSection(v.system, s.system, s.at), MergeSection(v.vpn, s.vpn, s.at))
  }

  function Appended(h: Traffic.History, s: Snapshot): Traffic.History {
    if Traffic.Keyed(h) then Traffic.Append(h, TrafficOf(s)) else h
  }

  function ApplySnapshot(d: Device, s: Snapshot): Device {
    d.(traffic := Appended(d.traffic, s), views := Refreshed(d.views, s))
  }

  function ApplyAll(d: Device, batch: seq<Snapshot>): Device {
    if batch == [] then d else ApplySnapshot(ApplyAll(d, batch[..|batch| - 1]), batch[|batch| - 1])
  }

  datatype Status = Started | Stopped | Warning(message: string) | Error(message: string)

  function WithStatus(d: Device, event: Status): Device {
    match event
    case Started => d.(running := true, statusError := "")
    case Stopped => d.(running := false, attached := false)
    case Warning(m) => d.(statusError := m)
    case Error(m) => d.(statusError := m, running := false, attached := false)
  }

  /** The baseline of a new source comes from the shown sections, unless they are stale. */
  function BaselineFor(v: Views, source: Traffic.Source): Option<Traffic.Reading> {
    var system := if !v.system.stale && v.system.updatedAt.Some? then v.system.data else None;
    var vpn := if !v.vpn.stale && v.vpn.updatedAt.Some? then v.vpn.data else None;
    var counters := Traffic.CountersOf(source, Traffic.Snapshot(
      None,
      if system.Some? then Some(system.value.interfaces) else None,
      if vpn.Some? then vpn.value.wireguard else None,
      if vpn.Some? then vpn.value.openvpn else None));
    var at := if source.Interface? then v.system.updatedAt else v.vpn.updatedAt;
    if counters == None || at == None then None
    else Some(Traffic.Reading(at.value.ms, Bytes(counters.value.rxBytes), Bytes(counters.value.txBytes)))
  }

  function Bytes(count: Option<int>): Option<real> {
    if count == None then None else Some(count.value as real)
  }

  function Toggled(d: Device, source: Traffic.Source): Device {
    d.(traffic := Traffic.Toggle(d.traffic, source, BaselineFor(d.views, source)))
  }

  // ---- All devices ----

  /** frames counts the animation frames still due for a profile; next is the serial of the next device. */
  datatype State = State(devices: map<int, Device>, frames: map<int, nat>, next: nat)

  datatype Action =
    | Start(id: int)
    | Deliver(id: int, serial: nat, snapshot: Snapshot)
    | StatusEvent(id: int, serial: nat, event: Status)
    | StartResolved(id: int, serial: nat)
    | StartFailed(id: int, serial: nat)
    | StopSettled(id: int, serial: nat)
    | Frame(id: int)
    | ToggleSource(id: int, source: Traffic.Source)
    | Rehydrate(id: int)
    | ProfileDeleted(id: int)

  function FramesDue(s: State, id: int): nat {
    if id in s.frames then s.frames[id] else 0
  }

  predicate Owns(s: State, id: int, serial: nat) {
    id in s.devices && s.devices[id].serial == serial
  }

  function Flushed(d: Device): Device {
    ApplyAll(d.(flushing := false, pending := []), d.pending)
  }

  function Received(d: Device, snapshot: Snapshot): Device {
    d.(pending := d.pending + [snapshot], flushing := true)
  }

  function Step(s: State, a: Action): State {
    match a
    case Start(id) =>
      if id in s.devices && s.devices[id].running && s.devices[id].attached then s
      else s.(devices := s.devices[id := NewDevice(s.next, true)], next := s.next + 1)
    case Deliver(id, serial, snapshot) =>
      if !Owns(s, id, serial) then s
      else s.(devices := s.devices[id := Received(s.devices[id], snapshot)],
              frames := if s.devices[id].flushing then s.frames else s.frames[id := FramesDue(s, id) + 1])
    case StatusEvent(id, serial, event) =>
      if Owns(s, id, serial) then s.(devices := s.devices[id := WithStatus(s.devices[id], event)]) else s
    case StartResolved(id, serial) =>
      if Owns(s, id, serial) then s.(devices := s.devices[id := s.devices[id].(running := true, statusError := "")]) else s
    case StartFailed(id, serial) =>
      if Owns(s, id, serial) then s.(devices := s.devices - {id}) else s
    case StopSettled(id, serial) =>
      if Owns(s, id, serial) then s.(devices := s.devices - {id}) else s
    case Frame(id) =>
      if FramesDue(s, id) == 0 then s
      else
        var s' := s.(frames := s.frames[id := FramesDue(s, id) - 1]);
        if id in s.devices then s'.(devices := s.devices[id := Flushed(s.devices[id])]) else s'
    case ToggleSource(id, source) =>
      if id in s.devices then s.(devices := s.devices[id := Toggled(s.devices[id], source)]) else s
    case Rehydrate(id) =>
      if id in s.devices then s
      else s.(devices := s.devices[id := NewDevice(s.next, false)], next := s.next + 1)
    case ProfileDeleted(id) => s.(devices := s.devices - {id})
  }

  function Run(actions: seq<Action>): State {
    if actions == [] then State(map[], map[], 0) else Step(Run(actions[..|actions| - 1]), actions[|actions| - 1])
  }

  /** Everything that arrived on one channel, guarded or not. */
  function Delivered(actions: seq<Action>, id: int, serial: nat): seq<Snapshot> {
    if actions == [] then []
    else
      var init, a := Delivered(actions[..|actions| - 1], id, serial), actions[|actions| - 1];
      if a.Deliver? && a.id == id && a.serial == serial then init + [a.snapshot] else init
  }

  /** A channel delivers only after the start that opened it. */
  predicate Possible(actions: seq<Action>) {
    actions != [] ==>
      && Possible(actions[..|actions| - 1])
      && var a := actions[|actions| - 1];
         a.Deliver? ==> a.serial < Run(actions[..|actions| - 1]).next
  }

  function ViewsOf(snapshots: seq<Snapshot>): Views {
    if snapshots == [] then NO_VIEWS else Refreshed(ViewsOf(snapshots[..|snapshots| - 1]), snapshots[|snapshots| - 1])
  }

  /** What arrived on the device's channel is what its views show followed by what is pending; something pending
      means a frame is due; the traffic history is well formed. */
  ghost predicate DeviceOk(d: Device, delivered: seq<Snapshot>, framesDue: nat, next: nat) {
    && d.serial < next
    && |d.pending| <= |delivered|
    && delivered[|delivered| - |d.pending|..] == d.pending
    && d.views == ViewsOf(delivered[..|delivered| - |d.pending|])
    && (d.pending != [] ==> d.flushing)
    && (d.flushing ==> framesDue > 0)
    && Traffic.Inv(d.traffic, Traffic.CAPACITY)
  }

  lemma {:induction false} ApplyAllKeeps(d: Device, before: seq<Snapshot>, batch: seq<Snapshot>)
    requires d.views == ViewsOf(before) && Traffic.Inv(d.traffic, Traffic.CAPACITY)
    ensures var r := ApplyAll(d, batch);
            && r.views == ViewsOf(before + batch) && Traffic.Inv(r.traffic, Traffic.CAPACITY)
            && r == d.(views := r.views, traffic := r.traffic)
  {
    hide Refreshed, Traffic.Inv, Traffic.AppendCapped;
    if batch == [] {
      assert before + batch == before;
    } else {
      var init, last := batch[..|batch| - 1], batch[|batch| - 1];
      ApplyAllKeeps(d, before, init);
      var h := ApplyAll(d, init).traffic;
      InvIsKeyed(h);
      Traffic.AppendKeepsInv(h, TrafficOf(last), Traffic.CAPACITY);
      assert (before + batch)[..|before + batch| - 1] == before + init;
    }
  }

  lemma InvIsKeyed(h: Traffic.History)
    requires Traffic.Inv(h, Traffic.CAPACITY)
    ensures Traffic.Keyed(h)
  {
  }

  lemma FlushKeeps(d: Device, delivered: seq<Snapshot>, framesDue: nat, next: nat)
    requires DeviceOk(d, delivered, framesDue, next)
    ensures DeviceOk(Flushed(d), delivered, framesDue - (if framesDue > 0 then 1 else 0), next)
  {
    hide ViewsOf, ApplyAll, Traffic.Inv;
    var applied := delivered[..|delivered| - |d.pending|];
    ApplyAllKeeps(d.(flushing := false, pending := []), applied, d.pending);
    assert applied + d.pending == delivered;
    assert delivered[..|delivered|] == delivered;
  }

  lemma ReceiveKeeps(d: Device, delivered: seq<Snapshot>, framesDue: nat, next: nat, snapshot: Snapshot)
    requires DeviceOk(d, delivered, framesDue, next)
    ensures DeviceOk(Received(d, snapshot), delivered + [snapshot], if d.flushing then framesDue else framesDue + 1, next)
  {
    hide ViewsOf, Traffic.Inv;
    var all := delivered + [snapshot];
    assert all[|all| - |d.pending| - 1..] == d.pending + [snapshot];
    assert all[..|all| - |d.pending| - 1] == delivered[..|delivered| - |d.pending|];
  }

  lemma NewDeviceIsOk(serial: nat, attached: bool, framesDue: nat)
    ensures DeviceOk(NewDevice(serial, attached), [], framesDue, serial + 1)
  {
  }

  lemma ToggleKeeps(d: Device, delivered: seq<Snapshot>, framesDue: nat, next: nat, source: Traffic.Source)
    requires DeviceOk(d, delivered, framesDue, next)
    ensures DeviceOk(Toggled(d, source), delivered, framesDue, next)
  {
    hide ViewsOf, BaselineFor, Traffic.Inv, Traffic.Toggle;
    Traffic.ToggleKeepsInv(d.traffic, source, BaselineFor(d.views, source), Traffic.CAPACITY);
  }

  lemma {:induction false} NothingYetDelivered(actions: seq<Action>, id: int, serial: nat)
    requires Possible(actions) && serial >= Run(actions).next
    ensures Delivered(actions, id, serial) == []
  {
    hide Step;
    if actions != [] {
      var init := actions[..|actions| - 1];
      NextOnlyGrows(Run(init), actions[|actions| - 1]);
      NothingYetDelivered(init, id, serial);
    }
  }

  lemma NextOnlyGrows(s: State, a: Action)
    ensures s.next <= Step(s, a).next
  {
    hide Flushed, Received, WithStatus, Toggled, NewDevice;
  }

  ghost predicate Inv(s: State, actions: seq<Action>) {
    forall id :: id in s.devices ==> EntryOk(s, actions, id)
  }

  /** An action about one profile leaves the devices and frames of the others alone. */
  lemma ActionsAreLocal(s: State, a: Action, id: int)
    requires id != a.id
    ensures id in Step(s, a).devices <==> id in s.devices
    ensures id in s.devices ==> Step(s, a).devices[id] == s.devices[id]
    ensures FramesDue(Step(s, a), id) == FramesDue(s, id)
  {
    hide Flushed, Received, WithStatus, Toggled, NewDevice;
  }

  ghost predicate EntryOk(s: State, actions: seq<Action>, id: int)
    requires id in s.devices
  {
    DeviceOk(s.devices[id], Delivered(actions, id, s.devices[id].serial), FramesDue(s, id), s.next)
  }

  predicate Keeps(s: State, a: Action) {
    a.id in s.devices && (a.Start? ==> s.devices[a.id].running && s.devices[a.id].attached)
  }

  lemma StartMoves(s: State, a: Action)
    requires a.Start? || a.Rehydrate?
    ensures Keeps(s, a) ==> Step(s, a) == s
    ensures !Keeps(s, a) ==>
              && a.id in Step(s, a).devices && Step(s, a).devices[a.id] == NewDevice(s.next, a.Start?)
              && FramesDue(Step(s, a), a.id) == FramesDue(s, a.id) && Step(s, a).next == s.next + 1
  {
    hide NewDevice;
  }

  lemma NewEntryIsOk(actions: seq<Action>, a: Action)
    requires Possible(actions) && (a.Start? || a.Rehydrate?)
    requires a.id in Run(actions).devices ==> EntryOk(Run(actions), actions, a.id)
    ensures a.id in Step(Run(actions), a).devices && EntryOk(Step(Run(actions), a), actions + [a], a.id)
  {
    hide DeviceOk, NewDevice, Run, Step, FramesDue, Delivered, Possible;
    var s := Run(actions);
    StartMoves(s, a);
    if Keeps(s, a) {
      DeliveredAppend(actions, a, s.devices[a.id].serial);
    } else {
      DeliveredAppend(actions, a, s.next);
      NothingYetDelivered(actions, a.id, s.next);
      NewDeviceIsOk(s.next, a.Start?, FramesDue(s, a.id));
      NewSerial(s.next, a.Start?);
    }
  }

  lemma DeliveredAppend(actions: seq<Action>, a: Action, serial: nat)
    ensures Delivered(actions + [a], a.id, serial) ==
            if a.Deliver? && a.serial == serial then Delivered(actions, a.id, serial) + [a.snapshot]
            else Delivered(actions, a.id, serial)
  {
    assert (actions + [a])[..|actions|] == actions;
  }

  lemma FrameMoves(s: State, a: Action)
    requires a.Frame? && a.id in s.devices
    ensures FramesDue(s, a.id) == 0 ==> Step(s, a) == s
    ensures FramesDue(s, a.id) > 0 ==>
              && a.id in Step(s, a).devices && Step(s, a).devices[a.id] == Flushed(s.devices[a.id])
              && FramesDue(Step(s, a), a.id) == FramesDue(s, a.id) - 1 && Step(s, a).next == s.next
  {
    hide Flushed;
  }

  lemma FrameKeepsEntry(actions: seq<Action>, a: Action)
    requires a.Frame? && a.id in Run(actions).devices && EntryOk(Run(actions), actions, a.id)
    ensures a.id in Step(Run(actions), a).devices && EntryOk(Step(Run(actions), a), actions + [a], a.id)
  {
    hide DeviceOk, Flushed, Run, Step, FramesDue, Delivered;
    var s := Run(actions);
    var d := s.devices[a.id];
    DeliveredAppend(actions, a, d.serial);
    FrameMoves(s, a);
    FlushKeeps(d, Delivered(actions, a.id, d.serial), FramesDue(s, a.id), s.next);
    FlushedSerial(d);
  }

  lemma DeliverMoves(s: State, a: Action)
    requires a.Deliver? && a.id in s.devices
    ensures s.devices[a.id].serial != a.serial ==> Step(s, a) == s
    ensures s.devices[a.id].serial == a.serial ==>
              && a.id in Step(s, a).devices && Step(s, a).devices[a.id] == Received(s.devices[a.id], a.snapshot)
              && FramesDue(Step(s, a), a.id) == FramesDue(s, a.id) + (if s.devices[a.id].flushing then 0 else 1)
              && Step(s, a).next == s.next
  {
    hide Received;
  }

  lemma DeliverKeepsEntry(actions: seq<Action>, a: Action)
    requires a.Deliver? && a.id in Run(actions).devices && EntryOk(Run(actions), actions, a.id)
    ensures a.id in Step(Run(actions), a).devices && EntryOk(Step(Run(actions), a), actions + [a], a.id)
  {
    hide DeviceOk, Received, Run, Step, FramesDue, Delivered;
    var s := Run(actions);
    var d := s.devices[a.id];
    DeliveredAppend(actions, a, d.serial);
    DeliverMoves(s, a);
    ReceiveKeeps(d, Delivered(actions, a.id, d.serial), FramesDue(s, a.id), s.next, a.snapshot);
    ReceivedSerial(d, a.snapshot);
  }

  lemma ReceivedSerial(d: Device, snapshot: Snapshot)
    ensures Received(d, snapshot).serial == d.serial
  {
  }

  /** Only what the status channel and the calls may change differs. */
  predicate SameButStatus(d: Device, d': Device) {
    d' == d.(running := d'.running, attached := d'.attached, statusError := d'.statusError)
  }

  lemma OtherMoves(s: State, a: Action)
    requires !a.Start? && !a.Rehydrate? && !a.Frame? && !a.Deliver? && a.id in s.devices
    ensures Step(s, a).next == s.next && FramesDue(Step(s, a), a.id) == FramesDue(s, a.id)
    ensures a.id in Step(s, a).devices ==>
              if a.ToggleSource? then Step(s, a).devices[a.id] == Toggled(s.devices[a.id], a.source)
              else SameButStatus(s.devices[a.id], Step(s, a).devices[a.id])
  {
    hide Toggled;
  }

  lemma StatusKeeps(d: Device, d': Device, delivered: seq<Snapshot>, framesDue: nat, next: nat)
    requires DeviceOk(d, delivered, framesDue, next) && SameButStatus(d, d')
    ensures DeviceOk(d', delivered, framesDue, next) && d'.serial == d.serial
  {
    hide ViewsOf, Traffic.Inv;
  }

  lemma OtherActionKeepsEntry(actions: seq<Action>, a: Action)
    requires !a.Start? && !a.Rehydrate? && !a.Frame? && !a.Deliver?
    requires a.id in Run(actions).devices && EntryOk(Run(actions), actions, a.id)
    ensures a.id in Step(Run(actions), a).devices ==> EntryOk(Step(Run(actions), a), actions + [a], a.id)
  {
    hide DeviceOk, Toggled, Run, Step, FramesDue, SameButStatus, Delivered;
    var s := Run(actions);
    var d := s.devices[a.id];
    DeliveredAppend(actions, a, d.serial);
    OtherMoves(s, a);
    if a.ToggleSource? {
      ToggleKeeps(d, Delivered(actions, a.id, d.serial), FramesDue(s, a.id), s.next, a.source);
      ToggledSerial(d, a.source);
    } else if a.id in Step(s, a).devices {
      StatusKeeps(d, Step(s, a).devices[a.id], Delivered(actions, a.id, d.serial), FramesDue(s, a.id), s.next);
    }
  }

  lemma ToggledSerial(d: Device, source: Traffic.Source)
    ensures Toggled(d, source).serial == d.serial
  {
  }

  /** The profile's own entry after one of its actions. */
  lemma OwnEntryKeeps(actions: seq<Action>, a: Action)
    requires Possible(actions) && Inv(Run(actions), actions)
    requires a.id in Step(Run(actions), a).devices
    ensures EntryOk(Step(Run(actions), a), actions + [a], a.id)
  {
    if a.Start? || a.Rehydrate? {
      hide Step, EntryOk, Run, Possible;
      assert a.id in Run(actions).devices ==> EntryOk(Run(actions), actions, a.id) by { EntriesOk(actions, a.id); }
      NewEntryIsOk(actions, a);
    } else {
      OnlyStartsAdd(Run(actions), a);
      hide Step, EntryOk, Run, Possible;
      EntriesOk(actions, a.id);
      if a.Frame? {
        FrameKeepsEntry(actions, a);
      } else if a.Deliver? {
        DeliverKeepsEntry(actions, a);
      } else {
        OtherActionKeepsEntry(actions, a);
      }
    }
  }

  lemma EntriesOk(actions: seq<Action>, id: int)
    requires Inv(Run(actions), actions)
    ensures id in Run(actions).devices ==> EntryOk(Run(actions), actions, id)
  {
  }

  lemma OnlyStartsAdd(s: State, a: Action)
    requires !a.Start? && !a.Rehydrate? && a.id in Step(s, a).devices
    ensures a.id in s.devices
  {
    hide Flushed, Received, WithStatus, Toggled, NewDevice;
  }

  lemma NewSerial(serial: nat, attached: bool)
    ensures NewDevice(serial, attached).serial == serial
  {
  }

  lemma FlushedSerial(d: Device)
    ensures Flushed(d).serial == d.serial
  {
    ApplyAllSerial(d.(flushing := false, pending := []), d.pending);
  }

  lemma {:induction false} ApplyAllSerial(d: Device, batch: seq<Snapshot>)
    ensures ApplyAll(d, batch).serial == d.serial
  {
    if batch != [] {
      ApplyAllSerial(d, batch[..|batch| - 1]);
    }
  }

  /** Every possible run keeps every shown device in step with its own channel. */
  lemma {:induction false} RunKeepsInv(actions: seq<Action>)
    requires Possible(actions)
    ensures Inv(Run(actions), actions)
  {
    hide DeviceOk, Step, FramesDue;
    if actions != [] {
      var init, a := actions[..|actions| - 1], actions[|actions| - 1];
      RunKeepsInv(init);
      assert init + [a] == actions;
      var s := Run(actions);
      forall id | id in s.devices
        ensures EntryOk(s, actions, id)
      {
        if id == a.id {
          OwnEntryKeeps(init, a);
        } else {
          ActionsAreLocal(Run(init), a, id);
          NextOnlyGrows(Run(init), a);
          LaterSerialsAllowed(Run(init).devices[id], Delivered(init, id, Run(init).devices[id].serial),
                              FramesDue(Run(init), id), Run(init).next, s.next);
        }
      }
    }
  }

  lemma LaterSerialsAllowed(d: Device, delivered: seq<Snapshot>, framesDue: nat, next: nat, next': nat)
    requires DeviceOk(d, delivered, framesDue, next) && next <= next'
    ensures DeviceOk(d, delivered, framesDue, next')
  {
  }

  /** A channel's events and the results of the calls around it. */
  predicate CarriedBy(a: Action, id: int, serial: nat) {
    (a.Deliver? || a.StatusEvent? || a.StartResolved? || a.StartFailed? || a.StopSettled?) && a.id == id && a.serial == serial
  }

  lemma OwnershipIsNotRegained(s: State, a: Action, id: int, serial: nat)
    requires serial < s.next && !Owns(s, id, serial)
    ensures serial < Step(s, a).next && !Owns(Step(s, a), id, serial)
  {
    NextOnlyGrows(s, a);
    if a.id != id {
      ActionsAreLocal(s, a, id);
    } else if id in s.devices {
      var d := s.devices[id];
      FlushedSerial(d);
      hide Flushed;
    }
  }

  lemma {:induction false} StaysReplaced(actions: seq<Action>, later: seq<Action>, id: int, serial: nat)
    requires serial < Run(actions).next && !Owns(Run(actions), id, serial)
    ensures serial < Run(actions + later).next && !Owns(Run(actions + later), id, serial)
  {
    hide Step, Owns;
    if later == [] {
      assert actions + later == actions;
    } else {
      var init, a := later[..|later| - 1], later[|later| - 1];
      StaysReplaced(actions, init, id, serial);
      assert (actions + later)[..|actions + later| - 1] == actions + init;
      OwnershipIsNotRegained(Run(actions + init), a, id, serial);
    }
  }

  /** Once a device was replaced or removed, no later run lets an event of its channel, or the end of one of its
      calls, change anything. */
  lemma LateEventsChangeNothing(actions: seq<Action>, later: seq<Action>, id: int, serial: nat, late: Action)
    requires serial < Run(actions).next && !Owns(Run(actions), id, serial)
    requires CarriedBy(late, id, serial)
    ensures Step(Run(actions + later), late) == Run(actions + later)
  {
    StaysReplaced(actions, later, id, serial);
  }

  function SystemRefreshes(snapshots: seq<Snapshot>): seq<(Stamp, Section<SystemData>)> {
    seq(|snapshots|, i requires 0 <= i < |snapshots| => (snapshots[i].at, snapshots[i].system))
  }

  function VpnRefreshes(snapshots: seq<Snapshot>): seq<(Stamp, Section<VpnData>)> {
    seq(|snapshots|, i requires 0 <= i < |snapshots| => (snapshots[i].at, snapshots[i].vpn))
  }

  /** Only snapshots that carry the section refresh the rules. */
  function RulesRefreshes(snapshots: seq<Snapshot>): seq<(Stamp, Section<string>)> {
    if snapshots == [] then []
    else
      var init, last := RulesRefreshes(snapshots[..|snapshots| - 1]), snapshots[|snapshots| - 1];
      if last.rules.Some? then init + [(last.at, last.rules.value)] else init
  }

  lemma {:induction false} ViewsMerge(snapshots: seq<Snapshot>)
    ensures ViewsOf(snapshots) ==
            Views(Merged(RulesRefreshes(snapshots)), Merged(SystemRefreshes(snapshots)), Merged(VpnRefreshes(snapshots)))
  {
    if snapshots != [] {
      var init, last := snapshots[..|snapshots| - 1], snapshots[|snapshots| - 1];
      ViewsMerge(init);
      var system, vpn, rules := SystemRefreshes(snapshots), VpnRefreshes(snapshots), RulesRefreshes(snapshots);
      assert system[..|system| - 1] == SystemRefreshes(init);
      assert vpn[..|vpn| - 1] == VpnRefreshes(init);
      if last.rules.Some? {
        assert rules[..|rules| - 1] == RulesRefreshes(init);
      }
    }
  }

  /** The newest good refresh with its time, stale exactly if a failed one came after; nothing before the first good
      one; an error exactly while the newest refresh failed. */
  ghost predicate ShowsLastGood<T>(v: View<T>, refreshes: seq<(Stamp, Section<T>)>) {
    && (forall i :: IsLastGood(refreshes, i) ==>
          v.data == refreshes[i].1.data && v.updatedAt == Some(refreshes[i].0) && v.stale == (i < |refreshes| - 1))
    && ((forall k :: 0 <= k < |refreshes| ==> !Good(refreshes[k].1)) ==> v.data == None && v.updatedAt == None && !v.stale)
    && v.error == if refreshes == [] || Good(refreshes[|refreshes| - 1].1) then None
                  else refreshes[|refreshes| - 1].1.error
  }

  lemma MergedShowsLastGood<T>(refreshes: seq<(Stamp, Section<T>)>)
    ensures ShowsLastGood(Merged(refreshes), refreshes)
  {
    hide Merged;
    FailuresAreReported(refreshes);
    forall i | IsLastGood(refreshes, i)
      ensures 0 <= i < |refreshes|
      ensures Merged(refreshes).data == refreshes[i].1.data && Merged(refreshes).updatedAt == Some(refreshes[i].0)
      ensures Merged(refreshes).stale == (i < |refreshes| - 1)
    {
      ViewShowsTheLastGood(refreshes, i);
    }
  }

  /** In every run a shown device with nothing pending shows, section by section, the newest good data that its
      channel ever delivered, marked stale exactly when a newer refresh of it failed. */
  lemma ShownDataIsTheLastGood(actions: seq<Action>, id: int)
    requires Possible(actions) && id in Run(actions).devices && Run(actions).devices[id].pending == []
    ensures var snapshots := Delivered(actions, id, Run(actions).devices[id].serial);
            var v := Run(actions).devices[id].views;
            && ShowsLastGood(v.system, SystemRefreshes(snapshots))
            && ShowsLastGood(v.vpn, VpnRefreshes(snapshots))
            && ShowsLastGood(v.rules, RulesRefreshes(snapshots))
  {
    hide ViewsOf, Run, Delivered, Merged, Traffic.Inv, ShowsLastGood;
    RunKeepsInv(actions);
    var snapshots := Delivered(actions, id, Run(actions).devices[id].serial);
    assert snapshots[..|snapshots|] == snapshots;
    ViewsMerge(snapshots);
    MergedShowsLastGood(SystemRefreshes(snapshots));
    MergedShowsLastGood(VpnRefreshes(snapshots));
    MergedShowsLastGood(RulesRefreshes(snapshots));
  }

  /** Whatever is pending has a frame due, and that frame brings the views up to everything delivered. */
  lemma NothingIsStranded(actions: seq<Action>, id: int)
    requires Possible(actions) && id in Run(actions).devices && Run(actions).devices[id].pending != []
    ensures FramesDue(Run(actions), id) > 0
    ensures var next := Step(Run(actions), Frame(id));
            && id in next.devices && next.devices[id].pending == []
            && next.devices[id].views == ViewsOf(Delivered(actions, id, Run(actions).devices[id].serial))
  {
    hide ViewsOf, Run, Delivered, ApplyAll, Traffic.Inv, Possible;
    RunKeepsInv(actions);
    var d := Run(actions).devices[id];
    var delivered := Delivered(actions, id, d.serial);
    var applied := delivered[..|delivered| - |d.pending|];
    assert EntryOk(Run(actions), actions, id);
    ApplyAllKeeps(d.(flushing := false, pending := []), applied, d.pending);
    assert applied + d.pending == delivered;
  }

  // ---- The hook's refs ----

  class DeviceRefs {
    var devices: map<int, Device>
    var frames: map<int, nat>
    var next: nat

    function Value(): State
      reads this
    {
      State(devices, frames, next)
    }

    constructor ()
      ensures Value() == Run([])
    {
      devices, frames, next := map[], map[], 0;
    }

    /** The part of start before its call is made. */
    method Start(id: int)
      modifies this
      ensures Value() == Step(old(Value()), Action.Start(id))
    {
      if id in devices && devices[id].running && devices[id].attached {
        return;
      }
      devices := devices[id := NewDevice(next, true)];
      next := next + 1;
    }

    method HandleSnapshot(id: int, serial: nat, snapshot: Snapshot)
      modifies this
      ensures Value() == Step(old(Value()), Deliver(id, serial, snapshot))
    {
      if id !in devices || devices[id].serial != serial {
        return;
      }
      var device := devices[id].(pending := devices[id].pending + [snapshot]);
      if !device.flushing {
        device := device.(flushing := true);
        frames := frames[id := FramesDue(Value(), id) + 1];
      }
      devices := devices[id := device];
    }

    /** A due animation frame runs flush. */
    method Flush(id: int)
      requires FramesDue(Value(), id) > 0
      modifies this
      ensures Value() == Step(old(Value()), Frame(id))
    {
      hide ApplySnapshot;
      frames := frames[id := FramesDue(Value(), id) - 1];
      if id !in devices {
        return;
      }
      var batch := devices[id].pending;
      ghost var cleared := devices[id].(flushing := false, pending := []);
      var device := devices[id].(flushing := false, pending := []);
      if |batch| == 0 {
        devices := devices[id := device];
        return;
      }
      for i := 0 to |batch|
        invariant device == ApplyAll(cleared, batch[..i])
      {
        device := ApplySnapshot(device, batch[i]);
        assert batch[..i + 1][..i] == batch[..i];
      }
      assert batch[..|batch|] == batch;
      devices := devices[id := device];
    }

    method HandleStatus(id: int, serial: nat, event: Status)
      modifies this
      ensures Value() == Step(old(Value()), StatusEvent(id, serial, event))
    {
      if id !in devices || devices[id].serial != serial {
        return;
      }
      var device := devices[id];
      match event {
        case Started =>
          device := device.(running := true, statusError := "");
        case Stopped =>
          device := device.(running := false, attached := false);
        case Warning(message) =>
          device := device.(statusError := message);
        case Error(message) =>
          device := device.(statusError := message);
          device := device.(running := false, attached := false);
      }
      devices := devices[id := device];
    }

    /** The hook publishes the new device state afterwards. */
    method ToggleTrafficSource(id: int, source: Traffic.Source)
      modifies this
      ensures Value() == Step(old(Value()), ToggleSource(id, source))
    {
      hide Traffic.Toggle, Traffic.CountersOf, Flushed, Received, WithStatus, NewDevice, FramesDue;
      if id !in devices {
        return;
      }
      var device := devices[id];
      var freshSystem := if !device.views.system.stale && device.views.system.updatedAt.Some? then device.views.system.data else None;
      var freshVpn := if !device.views.vpn.stale && device.views.vpn.updatedAt.Some? then device.views.vpn.data else None;
      var counters := Traffic.CountersOf(source, Traffic.Snapshot(
        None,
        if freshSystem.Some? then Some(freshSystem.value.interfaces) else None,
        if freshVpn.Some? then freshVpn.value.wireguard else None,
        if freshVpn.Some? then freshVpn.value.openvpn else None));
      var updatedAt := if source.Interface? then device.views.system.updatedAt else device.views.vpn.updatedAt;
      var baseline := if counters == None || updatedAt == None then None
        else Some(Traffic.Reading(updatedAt.value.ms, Bytes(counters.value.rxBytes), Bytes(counters.value.txBytes)));
      assert baseline == BaselineFor(device.views, source);
      hide BaselineFor, Bytes;
      device := device.(traffic := Traffic.Toggle(device.traffic, source, baseline));
      devices := devices[id := device];
    }

    /** The end of start, whether its call succeeded or not. */
    method StartSettled(id: int, serial: nat, ok: bool)
      modifies this
      ensures Value() == Step(old(Value()), if ok then StartResolved(id, serial) else StartFailed(id, serial))
      ensures !old(Owns(Value(), id, serial)) ==> Value() == old(Value())
      ensures old(Owns(Value(), id, serial)) && ok ==>
                && Owns(Value(), id, serial) && devices[id].running
                && devices[id].views == old(devices)[id].views && devices[id].pending == old(devices)[id].pending
      ensures old(Owns(Value(), id, serial)) && !ok ==> devices.Keys == old(devices).Keys - {id}
      ensures forall other :: other in devices && other != id ==> other in old(devices) && devices[other] == old(devices)[other]
    {
      if id !in devices || devices[id].serial != serial {
        return;
      }
      if ok {
        devices := devices[id := devices[id].(running := true, statusError := "")];
      } else {
        devices := devices - {id};
      }
    }

    /** The end of stop; a refused call is ignored. */
    method OnStopSettled(id: int, serial: nat)
      modifies this
      ensures Value() == Step(old(Value()), StopSettled(id, serial))
      ensures devices.Keys == old(devices).Keys - (if old(Owns(Value(), id, serial)) then {id} else {})
      ensures forall other :: other in devices ==> devices[other] == old(devices)[other]
    {
      if id in devices && devices[id].serial == serial {
        devices := devices - {id};
      }
    }
  }
}
