/** The mutable references of the firewall-log view and the code that updates them between suspensions. */
module LogHook {
  import opened Options

  const BUFFER_CAP: nat := 500

  datatype LogEvent = LogEvent(profileId: int, text: string)

  datatype LogStatus = StatusStarted | StatusStopped | StatusWarning(message: string) | StatusError(message: string)

  /** The references as one value; pendingStops names the backend call a later start waits for. */
  datatype Hook = Hook(
    generation: nat,
    active: Option<int>,
    selected: Option<int>,
    entries: seq<LogEvent>,
    entriesByProfile: map<int, seq<LogEvent>>,
    pendingStops: map<int, nat>,
    running: bool,
    error: string)

  const MOUNTED := Hook(0, None, None, [], map[], map[], false, "")

  function Saved(h: Hook, profile: int): seq<LogEvent> {
    if profile in h.entriesByProfile then h.entriesByProfile[profile] else []
  }

  function Capped(entries: seq<LogEvent>): seq<LogEvent> {
    if |entries| > BUFFER_CAP then entries[..BUFFER_CAP] else entries
  }

  // ---- Transitions; call is the name of the backend call they may issue ----

  predicate SelectStops(h: Hook, profile: Option<int>) {
    h.selected != profile && h.active.Some?
  }

  function SelectProfile(h: Hook, profile: Option<int>, call: nat): Hook {
    if h.selected == profile then h
    else
      h.(generation := h.generation + 1, active := None, selected := profile,
         entries := if profile == None then [] else Saved(h, profile.value),
         running := false, error := "",
         pendingStops := if h.active.Some? then h.pendingStops[h.active.value := call] else h.pendingStops)
  }

  function BeginStart(h: Hook, profile: int): Hook
    requires h.active == None
  {
    h.(selected := Some(profile), generation := h.generation + 1, active := Some(profile),
       entries := Saved(h, profile), running := true, error := "")
  }

  function StartRejected(h: Hook, generation: nat, message: string): Hook {
    if h.generation == generation then h.(active := None, running := false, error := message) else h
  }

  function Stop(h: Hook, call: nat): Hook {
    h.(generation := h.generation + 1, active := None, running := false,
       pendingStops := if h.active.Some? then h.pendingStops[h.active.value := call] else h.pendingStops)
  }

  function Unmount(h: Hook): Hook {
    h.(generation := h.generation + 1, active := None)
  }

  function StopSettled(h: Hook, profile: int, call: nat): Hook {
    if profile in h.pendingStops && h.pendingStops[profile] == call
    then h.(pendingStops := h.pendingStops - {profile}) else h
  }

  function Clear(h: Hook): Hook {
    h.(entries := [],
       entriesByProfile := if h.selected.Some? then h.entriesByProfile[h.selected.value := []] else h.entriesByProfile)
  }

  /** The handlers close over the generation and profile of the start that created them. */
  function HandleEvent(h: Hook, generation: nat, profile: int, e: LogEvent): Hook {
    if h.generation != generation || e.profileId != profile then h
    else
      var next := Capped([e] + h.entries);
      h.(entries := next, entriesByProfile := h.entriesByProfile[profile := next])
  }

  function HandleStatus(h: Hook, generation: nat, profile: int, eventProfile: int, s: LogStatus): Hook {
    if h.generation != generation || eventProfile != profile then h
    else
      match s
      case StatusStarted => h.(running := true, error := "")
      case StatusStopped => h.(generation := h.generation + 1, active := None, running := false)
      case StatusWarning(message) => h.(error := message)
      case StatusError(message) => h.(generation := h.generation + 1, active := None, running := false, error := message)
  }

  // ---- What the view shows ----

  /** The visible buffer is the selected profile's saved one; no buffer mixes profiles or outgrows the cap. */
  ghost predicate BuffersOk(h: Hook) {
    && h.entries == (if h.selected == None then [] else Saved(h, h.selected.value))
    && forall p :: p in h.entriesByProfile ==>
         && |h.entriesByProfile[p]| <= BUFFER_CAP
         && forall i :: 0 <= i < |h.entriesByProfile[p]| ==> h.entriesByProfile[p][i].profileId == p
  }

  lemma EventKeepsBuffers(h: Hook, generation: nat, profile: int, e: LogEvent)
    requires BuffersOk(h)
    requires h.generation == generation ==> h.selected == Some(profile)
    ensures BuffersOk(HandleEvent(h, generation, profile, e))
  {
  }

  /** Capping at every step keeps exactly the newest 500 of everything accepted. */
  lemma CappingCommutes(e: LogEvent, history: seq<LogEvent>)
    ensures Capped([e] + Capped(history)) == Capped([e] + history)
  {
  }

  // ---- The object ----

  class OpnsenseLogs {
    var generation: nat
    var active: Option<int>
    var selected: Option<int>
    var entries: seq<LogEvent>
    var entriesByProfile: map<int, seq<LogEvent>>
    var pendingStops: map<int, nat>
    var running: bool
    var error: string

    ghost function View(): Hook
      reads this
    {
      Hook(generation, active, selected, entries, entriesByProfile, pendingStops, running, error)
    }

    constructor ()
      ensures View() == MOUNTED
    {
      generation, active, selected, entries := 0, None, None, [];
      entriesByProfile, pendingStops, running, error := map[], map[], false, "";
    }

    /** Returns the profile whose backend stream is asked to stop. */
    method Select(profile: Option<int>, call: nat) returns (stopping: Option<int>)
      modifies this
      ensures View() == SelectProfile(old(View()), profile, call)
      ensures stopping == if SelectStops(old(View()), profile) then old(active) else None
    {
      if selected == profile {
        return None;
      }
      generation := generation + 1;
      var previous := active;
      active := None;
      selected := profile;
      entries := if profile == None then [] else if profile.value in entriesByProfile then entriesByProfile[profile.value] else [];
      running, error := false, "";
      if previous.Some? {
        pendingStops := pendingStops[previous.value := call];
      }
      return previous;
    }

    /** The part of start before its first await; ignored is true when a stream is already held. */
    method Start(profile: int) returns (ignored: bool, mine: nat, waitFor: Option<nat>)
      modifies this
      ensures ignored <==> old(active).Some?
      ensures ignored ==> View() == old(View())
      ensures !ignored ==>
                && View() == BeginStart(old(View()), profile)
                && mine == generation
                && waitFor == if profile in pendingStops then Some(pendingStops[profile]) else None
    {
      if active.Some? {
        return true, 0, None;
      }
      selected := Some(profile);
      generation := generation + 1;
      mine := generation;
      active := Some(profile);
      entries := if profile in entriesByProfile then entriesByProfile[profile] else [];
      running, error := true, "";
      waitFor := if profile in pendingStops then Some(pendingStops[profile]) else None;
      ignored := false;
    }

    method OnRejected(mine: nat, message: string)
      modifies this
      ensures View() == StartRejected(old(View()), mine, message)
      ensures old(generation) != mine ==> View() == old(View())
      ensures old(generation) == mine ==> active == None && !running && error == message
      ensures entries == old(entries) && selected == old(selected) && pendingStops == old(pendingStops)
    {
      if generation == mine {
        active := None;
        running := false;
        error := message;
      }
    }

    /** The view keeps what it shows, and no handler made so far can change it any more. */
    method StopStream(call: nat) returns (stopping: Option<int>)
      modifies this
      ensures View() == Stop(old(View()), call) && stopping == old(active)
      ensures active == None && !running && entries == old(entries) && selected == old(selected)
      ensures generation > old(generation)
      ensures stopping.Some? ==> stopping.value in pendingStops && pendingStops[stopping.value] == call
    {
      generation := generation + 1;
      stopping := active;
      active := None;
      running := false;
      if stopping.Some? {
        pendingStops := pendingStops[stopping.value := call];
      }
    }

    /** Unlike a stop, an unmount is not recorded as pending. */
    method OnUnmount() returns (stopping: Option<int>)
      modifies this
      ensures View() == Unmount(old(View())) && stopping == old(active)
      ensures active == None && entries == old(entries) && pendingStops == old(pendingStops)
      ensures generation > old(generation)
    {
      generation := generation + 1;
      stopping := active;
      active := None;
    }

    /** A stop that was superseded by a later one of its profile leaves that one recorded. */
    method OnStopSettled(profile: int, call: nat)
      modifies this
      ensures View() == StopSettled(old(View()), profile, call)
      ensures pendingStops.Keys == old(pendingStops).Keys
              - (if profile in old(pendingStops) && old(pendingStops)[profile] == call then {profile} else {})
      ensures forall p :: p in pendingStops ==> pendingStops[p] == old(pendingStops)[p]
    {
      if profile in pendingStops && pendingStops[profile] == call {
        pendingStops := pendingStops - {profile};
      }
    }

    /** Empties the selected profile's buffer and no other. */
    method ClearEntries()
      modifies this
      ensures View() == Clear(old(View()))
      ensures entries == [] && (selected.Some? ==> Saved(View(), selected.value) == [])
      ensures forall p :: selected != Some(p) ==> Saved(View(), p) == Saved(old(View()), p)
    {
      entries := [];
      if selected.Some? {
        entriesByProfile := entriesByProfile[selected.value := []];
      }
    }

    method OnEvent(mine: nat, profile: int, e: LogEvent)
      modifies this
      ensures View() == HandleEvent(old(View()), mine, profile, e)
      ensures old(generation) != mine ==> View() == old(View())
    {
      if generation != mine || e.profileId != profile {
        return;
      }
      var next := [e] + entries;
      entries := if |next| > BUFFER_CAP then next[..BUFFER_CAP] else next;
      entriesByProfile := entriesByProfile[profile := entries];
    }

    method OnStatus(mine: nat, profile: int, eventProfile: int, s: LogStatus)
      modifies this
      ensures View() == HandleStatus(old(View()), mine, profile, eventProfile, s)
    {
      if generation != mine || eventProfile != profile {
        return;
      }
      match s {
        case StatusStarted =>
          running, error := true, "";
        case StatusStopped =>
          generation := generation + 1;
          active := None;
          running := false;
        case StatusWarning(message) =>
          error := message;
        case StatusError(message) =>
          generation := generation + 1;
          active := None;
          running := false;
          error := message;
      }
    }
  }
}
