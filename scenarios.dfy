/** The two tables the sample form builds (CDPLAYER and ACTOR), driven through
    the runtime. The business class lookup is left open: whatever hooks bind,
    the sample business objects' guards all return true. */
module Scenarios {
  import opened FiniteStateMachine

  /** The guards of the sample business objects: every one returns true. */
  const AllowAll: GuardOracle := (hook, e) => Returned(true)

  /** With guards that all allow, the transition for a consumed event always
      fires, and the machine goes to its target. */
  lemma AllowedMoves(s: State, e: Event)
    requires e.name in s.transitions
    ensures NextState(s, e, AllowAll) == s.transitions[e.name].to
  {
  }

  /** Sends the UI event name to m where the current state has a transition
      for it: with guards that all allow, m moves to that transition's target. */
  method SendAllowed(m: Machine, name: string) returns (trace: seq<HookRun>)
    requires name in m.table.events
    requires m.currentState != null && name in m.currentState.transitions
    modifies m`currentState
    ensures m.currentState == old(m.currentState.transitions[name].to)
  {
    trace := CreateAndSendEvent(Named("UI"), name, m, AllowAll);
    AllowedMoves(old(m.currentState), NewEvent(Named("UI"), name, m));
  }

  /** Sends the UI event name to m where the current state has no transition
      for it: m stays where it is and no hook runs. */
  method SendIgnored(m: Machine, name: string) returns (trace: seq<HookRun>)
    requires m.currentState != null && name !in m.currentState.transitions
    modifies m`currentState
    ensures m.currentState == old(m.currentState) && trace == []
  {
    trace := CreateAndSendEvent(Named("UI"), name, m, AllowAll);
    if name in m.table.events {
      IgnoredEvent(old(m.currentState), NewEvent(Named("UI"), name, m), AllowAll);
    }
  }

  /** The transitions of a state after addTransition: unchanged when the
      event already has one, otherwise extended with the new one. */
  function Added(transitions: map<string, Transition>, ev: string, t: Transition): (r: map<string, Transition>)
    ensures r.Keys == transitions.Keys + {ev}
    ensures ev in transitions ==> r[ev] == transitions[ev]
    ensures ev !in transitions ==> r[ev] == t
    ensures forall e :: e in transitions ==> r[e] == transitions[e]
  {
    if ev in transitions then transitions else transitions[ev := t]
  }

  /** addTransition as the fixtures use it, stated through Added. */
  method Connect(from: State, ev: string, to: State)
    requires from.Valid()
    modifies from`transitions, from`eventOrder, from.table`events
    ensures from.Valid()
    ensures from.table.events == old(from.table.events) + {ev}
    ensures from.transitions == Added(old(from.transitions), ev, NewTransition(from, ev, to))
  {
    from.AddTransition(ev, to);
  }

  /** Two addTransition calls on a state that has none yet, for two
      different events. */
  method ConnectPair(from: State, ev1: string, to1: State, ev2: string, to2: State)
    requires from.Valid() && from.transitions == map[] && ev1 != ev2
    modifies from`transitions, from`eventOrder, from.table`events
    ensures from.Valid()
    ensures from.table.events == old(from.table.events) + {ev1, ev2}
    ensures from.transitions.Keys == {ev1, ev2}
    ensures from.transitions[ev1].to == to1 && from.transitions[ev2].to == to2
  {
    Connect(from, ev1, to1);
    Connect(from, ev2, to2);
  }

  /** The same addTransition called twice on a state that has none yet: the
      state ends with exactly one transition, for that event, listed once. */
  method ConnectTwice(from: State, ev: string, to: State)
    requires from.Valid() && from.transitions == map[] && from.eventOrder == []
    modifies from`transitions, from`eventOrder, from.table`events
    ensures from.Valid()
    ensures from.table.events == old(from.table.events) + {ev}
    ensures from.eventOrder == [ev]
    ensures from.transitions.Keys == {ev} && from.transitions[ev].to == to
  {
    from.AddTransition(ev, to);
    from.AddTransition(ev, to);
  }

  /** addState for each name in turn: distinct fresh states of t, named in
      order, with no transitions yet. */
  method AddStates(t: Table, names: seq<string>) returns (states: seq<State>)
    modifies t`states
    ensures |states| == |names| && t.states == old(t.states) + states
    ensures forall i :: 0 <= i < |states| ==> fresh(states[i])
    ensures forall i, j :: 0 <= i < j < |states| ==> states[i] != states[j]
    ensures forall i :: 0 <= i < |states| ==>
      states[i].name == names[i] && states[i].table == t && states[i].Valid() && states[i].transitions == map[] && states[i].eventOrder == []
  {
    states := [];
    for k := 0 to |names|
      invariant |states| == k && t.states == old(t.states) + states
      invariant forall i :: 0 <= i < k ==> fresh(states[i])
      invariant forall i, j :: 0 <= i < j < k ==> states[i] != states[j]
      invariant forall i :: 0 <= i < k ==>
        states[i].name == names[i] && states[i].table == t && states[i].Valid() && states[i].transitions == map[] && states[i].eventOrder == []
    {
      var s := t.AddState(names[k]);
      states := states + [s];
    }
  }

  /** The seven transitions of the CDPLAYER table between its four states. */
  method WireCdPlayer(begin: State, playing: State, paused: State, stopped: State)
    requires begin != playing && begin != paused && begin != stopped
    requires playing != paused && playing != stopped && paused != stopped
    requires begin.table == playing.table == paused.table == stopped.table
    requires begin.Valid() && playing.Valid() && paused.Valid() && stopped.Valid()
    requires begin.transitions == playing.transitions == paused.transitions == stopped.transitions == map[]
    modifies begin`transitions, begin`eventOrder, playing`transitions, playing`eventOrder
    modifies paused`transitions, paused`eventOrder, stopped`transitions, stopped`eventOrder, begin.table`events
    ensures {"startPlaying", "pause", "stop"} <= begin.table.events
    ensures "startPlaying" in begin.transitions && begin.transitions["startPlaying"].to == playing
    ensures "pause" in playing.transitions && playing.transitions["pause"].to == paused
    ensures "stop" in paused.transitions && paused.transitions["stop"].to == stopped
    ensures "pause" !in stopped.transitions
  {
    ConnectPair(begin, "startPlaying", playing, "stop", stopped);
    ConnectPair(playing, "pause", paused, "stop", stopped);
    ConnectPair(paused, "startPlaying", playing, "stop", stopped);
    Connect(stopped, "startPlaying", playing);
  }

  /** The CDPLAYER table: Begin, Playing, Paused and Stopped, the seven
      transitions between them, Begin initial. */
  method BuildCdPlayer(lookup: ClassLookup) returns (t: Table, begin: State, playing: State, paused: State, stopped: State)
    ensures fresh(t) && t.refClassName == "CDPLAYER" && t.initialState == begin
    ensures begin.name == "Begin" && playing.name == "Playing"
    ensures paused.name == "Paused" && stopped.name == "Stopped"
    ensures {"startPlaying", "pause", "stop"} <= t.events
    ensures "startPlaying" in begin.transitions && begin.transitions["startPlaying"].to == playing
    ensures "pause" in playing.transitions && playing.transitions["pause"].to == paused
    ensures "stop" in paused.transitions && paused.transitions["stop"].to == stopped
    ensures "pause" !in stopped.transitions
  {
    t := new Table("CDPLAYER", "TestFSM.ObjectModel", "", lookup);
    var states := AddStates(t, ["Begin", "Playing", "Paused", "Stopped"]);
    begin, playing, paused, stopped := states[0], states[1], states[2], states[3];
    WireCdPlayer(begin, playing, paused, stopped);
    t.SetInitialState(begin);
  }

  /** A CDPLAYER machine goes Begin -startPlaying-> Playing -pause-> Paused
      -stop-> Stopped, and a pause in Stopped (an event of the table that
      Stopped has no transition for) leaves it in Stopped with no hook run. */
  method CdPlayerRun(lookup: ClassLookup) returns (visited: seq<string>, lastTrace: seq<HookRun>)
    ensures visited == ["Begin", "Playing", "Paused", "Stopped", "Stopped"]
    ensures lastTrace == []
  {
    var t, begin, playing, paused, stopped := BuildCdPlayer(lookup);
    var registry := new MachineRegistry();
    var player := new BusinessObject("CDPLAYER");
    var created := registry.CreateMachine("cdplayer1", t, player);
    var m := created.value;
    var entry := m.Initialise();
    visited := [m.currentState.name];
    var trace := SendAllowed(m, "startPlaying");
    visited := visited + [m.currentState.name];
    trace := SendAllowed(m, "pause");
    visited := visited + [m.currentState.name];
    trace := SendAllowed(m, "stop");
    visited := visited + [m.currentState.name];
    lastTrace := SendIgnored(m, "pause");
    visited := visited + [m.currentState.name];
  }

  /** The ACTOR table's transitions, Bowing -applauseStopped-> Ended added
      twice. Bowing keeps one transition for the event, the first one. */
  method WireActor(inWings: State, onStage: State, dried: State, bowing: State, ended: State)
    requires inWings != onStage && inWings != dried && inWings != bowing && inWings != ended
    requires onStage != dried && onStage != bowing && onStage != ended
    requires dried != bowing && dried != ended && bowing != ended
    requires inWings.table == onStage.table == dried.table == bowing.table == ended.table
    requires inWings.Valid() && onStage.Valid() && dried.Valid() && bowing.Valid()
    requires inWings.transitions == onStage.transitions == dried.transitions == map[]
    requires bowing.transitions == ended.transitions == map[] && bowing.eventOrder == []
    modifies inWings`transitions, inWings`eventOrder, onStage`transitions, onStage`eventOrder
    modifies dried`transitions, dried`eventOrder, bowing`transitions, bowing`eventOrder, inWings.table`events
    ensures {"endOfPLay", "applauseStopped"} <= inWings.table.events
    ensures "endOfPLay" in inWings.transitions && inWings.transitions["endOfPLay"].to == bowing
    ensures bowing.eventOrder == ["applauseStopped"]
    ensures bowing.transitions.Keys == {"applauseStopped"} && bowing.transitions["applauseStopped"].to == ended
    ensures ended.transitions == map[]
  {
    Connect(inWings, "receiveCue", onStage);
    ConnectPair(onStage, "endOfScene", inWings, "forgetLine", dried);
    ConnectPair(dried, "getPrompt", onStage, "endOfScene", inWings);
    Connect(inWings, "endOfPLay", bowing);
    ConnectTwice(bowing, "applauseStopped", ended);
  }

  /** The ACTOR table: InWings, OnStage, Dried, Bowing and Ended, InWings
      initial, deleting its machines' references at the end state. */
  method BuildActor(lookup: ClassLookup) returns (t: Table, inWings: State, bowing: State, ended: State)
    ensures fresh(t) && t.refClassName == "ACTOR" && t.initialState == inWings
    ensures t.deleteWhenEndStateReached
    ensures inWings.name == "InWings" && bowing.name == "Bowing" && ended.name == "Ended"
    ensures {"endOfPLay", "applauseStopped"} <= t.events
    ensures "endOfPLay" in inWings.transitions && inWings.transitions["endOfPLay"].to == bowing
    ensures bowing.eventOrder == ["applauseStopped"]
    ensures bowing.transitions.Keys == {"applauseStopped"} && bowing.transitions["applauseStopped"].to == ended
    ensures ended.transitions == map[]
  {
    t := new Table("ACTOR", "TestFSM.ObjectModel", "", lookup);
    var states := AddStates(t, ["InWings", "OnStage", "Dried", "Bowing", "Ended"]);
    inWings, bowing, ended := states[0], states[3], states[4];
    t.SetInitialState(inWings);
    t.SetDeleteWhenEndStateReached();
    WireActor(inWings, states[1], states[2], bowing, ended);
  }

  /** An ACTOR machine goes InWings -endOfPLay-> Bowing -applauseStopped->
      Ended, then stays in the final state Ended whatever event follows, and
      stays registered: reaching the end state does not unregister it. */
  method ActorRun(lookup: ClassLookup) returns (visited: seq<string>, stillRegistered: bool)
    ensures visited == ["InWings", "Bowing", "Ended", "Ended"]
    ensures stillRegistered
  {
    var t, inWings, bowing, ended := BuildActor(lookup);
    var registry := new MachineRegistry();
    var actor := new BusinessObject("ACTOR");
    var created := registry.CreateMachine("actor1", t, actor);
    var m := created.value;
    var entry := m.Initialise();
    visited := [m.currentState.name];
    var trace := SendAllowed(m, "endOfPLay");
    visited := visited + [m.currentState.name];
    trace := SendAllowed(m, "applauseStopped");
    visited := visited + [m.currentState.name];
    trace := SendIgnored(m, "receiveCue");
    visited := visited + [m.currentState.name];
    assert m.name == "ACTOR:actor1";
    stillRegistered := registry.FindByFSMName("ACTOR:actor1") == m;
  }
}
