/** The finite-state-machine runtime: the state transition table (FSM_STT) with
    its states (STT_State) and transitions (STT_Transition), events (FSM_Event),
    running machines (FSM), and the two process-wide registries.

    Reflection is replaced by values: a business class is the set of names of
    its instance methods taking one FSM_Event, a hook is bound when that set
    holds the conventional name, and running a hook appends a HookRun to a
    trace. A guard's body is an oracle that returns a bool or throws. */
module FiniteStateMachine {

  datatype Option<T> = None | Some(value: T)

  /** How queued events are allocated to worker tasks. */
  datatype TaskAllocation = TaskPerInstance | TaskPerClass

  /** What reflection finds for a loaded business class. */
  datatype BusinessClass = BusinessClass(name: string, methods: set<string>)

  /** Type.GetType: the loaded class of a (possibly namespace-qualified) name. */
  type ClassLookup = string -> Option<BusinessClass>

  /** The table's OMClass: the bare name tried by the constructor, then the
      namespace-qualified name tried by getOMClass while the first is missing. */
  function ResolveClass(lookup: ClassLookup, refClassName: string, nameSpace: string): Option<BusinessClass>
  {
    if lookup(refClassName).Some? then lookup(refClassName) else lookup(nameSpace + "." + refClassName)
  }

  // The naming convention binding business methods to states and transitions.

  function EntryHookName(state: string): string { state + "__onEntry" }
  function ExitHookName(state: string): string { state + "__onExit" }
  function ActionHookName(from: string, event: string): string { from + "__" + event }
  function GuardHookName(from: string, event: string): string { from + "__" + event + "Guard" }

  /** GetMethod on the table's class: found only when the class resolved and
      declares a method of exactly that name. */
  function Bind(omClass: Option<BusinessClass>, hook: string): (r: Option<string>)
    ensures r.Some? <==> omClass.Some? && hook in omClass.value.methods
    ensures r.Some? ==> r.value == hook
  {
    if omClass.Some? && hook in omClass.value.methods then Some(hook) else None
  }

  /** Who sent an event: the UI (a label) or some object. Opaque to the engine. */
  datatype EventSource = Named(caption: string) | Ref(obj: object)

  /** The event data bundle; its values are opaque to the engine. */
  type Bundle = map<string, object?>

  /** FSM_Event: name, source and destination fixed at construction. */
  datatype Event = Event(source: EventSource, name: string, dest: Machine?, bundle: Bundle)

  /** new FSM_Event(source, eventName, destFSM): the bundle starts empty. */
  function NewEvent(source: EventSource, name: string, dest: Machine?): (e: Event)
    ensures e.source == source && e.name == name && e.dest == dest
    ensures e.bundle == map[]
  {
    Event(source, name, dest, map[])
  }

  /** The four-argument constructor: the bundle is the one given. */
  function NewEventWithBundle(source: EventSource, name: string, dest: Machine?, bundle: Bundle): (e: Event)
    ensures e.source == source && e.name == name && e.dest == dest
    ensures e.bundle == bundle
  {
    Event(source, name, dest, bundle)
  }

  /** addBundle replaces the bundle wholesale and nothing else. */
  function AddBundle(e: Event, bundle: Bundle): (r: Event)
    ensures r.bundle == bundle
    ensures r.source == e.source && r.name == e.name && r.dest == e.dest
  {
    e.(bundle := bundle)
  }

  /** checkEvent as written: line 76 dereferences the destination even when the
      null test of line 70 has already failed. */
  datatype CheckOutcome = Checked(ok: bool) | NullDestination

  function CheckEventAsWritten(e: Event, fsm: Machine): (r: CheckOutcome)
    reads if e.dest != null then {e.dest.table} else {}
    ensures r.NullDestination? <==> e.dest == null
    ensures r.Checked? ==> (r.ok <==> e.dest == fsm && e.name in e.dest.table.events)
  {
    if e.dest == null then NullDestination
    else Checked(e.dest == fsm && e.name in e.dest.table.events)
  }

  /** checkEvent(fsm) as intended: the event is addressed to fsm and its name
      is one the table of fsm consumes; a null destination is simply rejected. */
  function CheckEvent(e: Event, fsm: Machine): (ok: bool)
    reads fsm.table
    ensures ok ==> e.dest != null && e.dest == fsm
    ensures ok ==> e.name in fsm.table.events
    ensures e.dest == fsm && e.name in fsm.table.events ==> ok
  {
    e.dest == fsm && e.name in fsm.table.events
  }

  /** Wherever the source does not crash, the corrected check answers as it does. */
  lemma CheckEventAgrees(e: Event, fsm: Machine)
    ensures e.dest != null ==> CheckEventAsWritten(e, fsm) == Checked(CheckEvent(e, fsm))
    ensures e.dest == null ==> CheckEventAsWritten(e, fsm) == NullDestination && !CheckEvent(e, fsm)
  {
  }

  /** The result of running a guard's business method. */
  datatype GuardResult = Returned(value: bool) | Threw

  /** The guard bodies of the business object: method name and event to result. */
  type GuardOracle = (string, Event) -> GuardResult

  /** execBoolMethodWithEvent: the guard's answer, false when it throws. */
  function ExecBoolMethodWithEvent(guard: GuardOracle, hook: string, e: Event): (allowed: bool)
    ensures allowed <==> guard(hook, e) == Returned(true)
    ensures guard(hook, e) == Threw ==> !allowed
  {
    match guard(hook, e)
    case Returned(b) => b
    case Threw => false
  }

  datatype HookKind = GuardHook | ExitHook | ActionHook | EntryHook

  /** One hook invocation: its kind, the state or transition it belongs to,
      the business method run (None: the default that only logs) and the event. */
  datatype HookRun = HookRun(kind: HookKind, owner: string, hook: Option<string>, event: Event)

  /** STT_Transition: immutable once built. */
  datatype Transition = Transition(
    from: State, eventName: string, to: State, instanceName: string,
    guardMethod: Option<string>, actionMethod: Option<string>)

  /** new STT_Transition(from, eventName, to): the compound name and the two
      hooks bound by naming convention on the source state's table class. */
  function NewTransition(from: State, eventName: string, to: State): (t: Transition)
    ensures t.from == from && t.eventName == eventName && t.to == to
    ensures t.instanceName == from.name + "__" + eventName + "__" + to.name
    ensures t.guardMethod.Some? <==>
      from.table.omClass.Some? && from.name + "__" + eventName + "Guard" in from.table.omClass.value.methods
    ensures t.guardMethod.Some? ==> t.guardMethod.value == from.name + "__" + eventName + "Guard"
    ensures t.actionMethod.Some? <==>
      from.table.omClass.Some? && from.name + "__" + eventName in from.table.omClass.value.methods
    ensures t.actionMethod.Some? ==> t.actionMethod.value == from.name + "__" + eventName
  {
    Transition(from, eventName, to, from.name + "__" + eventName + "__" + to.name,
               Bind(from.table.omClass, GuardHookName(from.name, eventName)),
               Bind(from.table.omClass, ActionHookName(from.name, eventName)))
  }

  /** With no business class, a transition is unguarded and uses the default action. */
  lemma UnresolvedClassBindsNothing(from: State, eventName: string, to: State)
    requires from.table.omClass.None?
    ensures NewTransition(from, eventName, to).guardMethod.None?
    ensures NewTransition(from, eventName, to).actionMethod.None?
  {
  }

  /** FSM_STT: the state transition table of one business class. */
  class Table {
    const refClassName: string
    const nameSpace: string
    /** The version string of an imported description ("" for tables built in code). */
    const vctString: string
    const omClass: Option<BusinessClass>
    /** statesList, in the order the states were added. */
    var states: seq<State>
    /** eventsList: every event name any state of this table has a transition for. */
    var events: set<string>
    var initialState: State?
    var deleteWhenEndStateReached: bool
    var taskModel: TaskAllocation

    constructor (refClassName: string, nameSpace: string, vctString: string, lookup: ClassLookup)
      ensures this.refClassName == refClassName && this.nameSpace == nameSpace
      ensures this.vctString == vctString
      ensures omClass == ResolveClass(lookup, refClassName, nameSpace)
      ensures states == [] && events == {} && initialState == null
      ensures !deleteWhenEndStateReached && taskModel == TaskPerInstance
    {
      this.refClassName := refClassName;
      this.nameSpace := nameSpace;
      this.vctString := vctString;
      omClass := ResolveClass(lookup, refClassName, nameSpace);
      states := [];
      events := {};
      initialState := null;
      deleteWhenEndStateReached := false;
      taskModel := TaskPerInstance;
    }

    /** addToEventsList: set insertion. */
    method AddToEventsList(eventName: string)
      modifies this`events
      ensures events == old(events) + {eventName}
    {
      events := events + {eventName};
    }

    /** Only ever sets the flag; nothing resets it. */
    method SetDeleteWhenEndStateReached()
      modifies this`deleteWhenEndStateReached
      ensures deleteWhenEndStateReached
    {
      deleteWhenEndStateReached := true;
    }

    method SetTaskModel(alloc: TaskAllocation)
      modifies this`taskModel
      ensures taskModel == alloc
    {
      taskModel := alloc;
    }

    /** Stored unchecked: the state may be of another table. */
    method SetInitialState(initState: State?)
      modifies this`initialState
      ensures initialState == initState
    {
      initialState := initState;
    }

    /** addState: always one new state, named as given, owned by this table,
        even when a state of that name exists already. */
    method AddState(stateName: string) returns (s: State)
      modifies this`states
      ensures fresh(s) && s.name == stateName && s.table == this
      ensures s.transitions == map[] && s.eventOrder == [] && s.Valid()
      ensures s.onEntryAnnotation == None && s.onExitAnnotation == None
      ensures states == old(states) + [s]
    {
      s := new State(this, stateName);
      states := states + [s];
    }
  }

  /** FSM_STT.instanceList: tables by refClassName. */
  class TableRegistry {
    var tables: map<string, Table>

    ghost predicate Valid()
      reads this
    {
      forall name :: name in tables ==> tables[name].refClassName == name
    }

    constructor ()
      ensures tables == map[] && Valid()
    {
      tables := map[];
    }

    /** new FSM_STT(...): the table is always built, and registered under its
        refClassName unless that name is taken, in which case the first table
        stays registered. */
    method NewTable(refClassName: string, nameSpace: string, vctString: string, lookup: ClassLookup)
      returns (t: Table)
      requires Valid()
      modifies this
      ensures Valid()
      ensures fresh(t) && t.refClassName == refClassName && t.nameSpace == nameSpace
      ensures t.vctString == vctString && t.omClass == ResolveClass(lookup, refClassName, nameSpace)
      ensures t.states == [] && t.events == {} && t.initialState == null
      ensures !t.deleteWhenEndStateReached && t.taskModel == TaskPerInstance
      ensures refClassName in old(tables) ==> tables == old(tables)
      ensures refClassName !in old(tables) ==> tables == old(tables)[refClassName := t]
    {
      t := new Table(refClassName, nameSpace, vctString, lookup);
      if refClassName !in tables {
        tables := tables[refClassName := t];
      }
    }

    /** findByRefClassName: the registered table, or null. */
    function FindByRefClassName(className: string): (r: Table?)
      reads this
      requires Valid()
      ensures r != null <==> className in tables
      ensures r != null ==> r == tables[className] && r.refClassName == className
    {
      if className in tables then tables[className] else null
    }
  }

  /** STT_State: a named state of one table with its outgoing transitions. */
  class State {
    const name: string
    const table: Table
    /** methodForOnEntry / methodForOnExit, bound once at construction. */
    const entryMethod: Option<string>
    const exitMethod: Option<string>
    /** allowedTransitions, keyed by event name. */
    var transitions: map<string, Transition>
    /** The keys of allowedTransitions in the order they were added. */
    var eventOrder: seq<string>
    /** Author hints attached by the importer. */
    var onEntryAnnotation: Option<string>
    var onExitAnnotation: Option<string>

    ghost predicate Valid()
      reads this
    {
      && (forall i, j :: 0 <= i < j < |eventOrder| ==> eventOrder[i] != eventOrder[j])
      && (forall e :: e in transitions <==> e in eventOrder)
      && (forall e :: e in transitions ==> transitions[e].from == this && transitions[e].eventName == e)
    }

    /** Entry and exit hooks bind to StateName__onEntry / StateName__onExit, and
        only when the table's business class resolved. */
    constructor (table: Table, name: string)
      ensures this.table == table && this.name == name
      ensures entryMethod.Some? <==>
        table.omClass.Some? && name + "__onEntry" in table.omClass.value.methods
      ensures entryMethod.Some? ==> entryMethod.value == name + "__onEntry"
      ensures exitMethod.Some? <==>
        table.omClass.Some? && name + "__onExit" in table.omClass.value.methods
      ensures exitMethod.Some? ==> exitMethod.value == name + "__onExit"
      ensures transitions == map[] && eventOrder == []
      ensures onEntryAnnotation == None && onExitAnnotation == None
      ensures Valid()
    {
      this.name := name;
      this.table := table;
      entryMethod := Bind(table.omClass, EntryHookName(name));
      exitMethod := Bind(table.omClass, ExitHookName(name));
      transitions := map[];
      eventOrder := [];
      onEntryAnnotation := None;
      onExitAnnotation := None;
    }

    /** getIsFinalState: a state with no outgoing transition is final. */
    function IsFinal(): (r: bool)
      reads this
      ensures r <==> forall e :: e !in transitions
    {
      |transitions| == 0
    }

    /** addTransition: the event always joins the table's event set; a second
        transition for an event already present is ignored. */
    method AddTransition(eventName: string, to: State)
      requires Valid()
      modifies this`transitions, this`eventOrder, table`events
      ensures Valid()
      ensures table.events == old(table.events) + {eventName}
      ensures eventName in old(transitions) ==>
        transitions == old(transitions) && eventOrder == old(eventOrder)
      ensures eventName !in old(transitions) ==>
        transitions == old(transitions)[eventName := NewTransition(this, eventName, to)]
        && eventOrder == old(eventOrder) + [eventName]
    {
      var t := NewTransition(this, eventName, to);
      table.AddToEventsList(eventName);
      if eventName !in transitions {
        transitions := transitions[eventName := t];
        eventOrder := eventOrder + [eventName];
      }
    }

    method SetOnEntryAnnotation(text: string)
      modifies this`onEntryAnnotation
      ensures onEntryAnnotation == Some(text)
    {
      onEntryAnnotation := Some(text);
    }

    method SetOnExitAnnotation(text: string)
      modifies this`onExitAnnotation
      ensures onExitAnnotation == Some(text)
    {
      onExitAnnotation := Some(text);
    }

    /** testEvent: the state takeEvent would reach; the guard is consulted but
        no exit, action or entry hook runs. */
    method TestEvent(e: Event, guard: GuardOracle) returns (next: State, trace: seq<HookRun>)
      ensures next == NextState(this, e, guard)
      ensures trace == GuardTrace(this, e)
    {
      if e.name in transitions {
        var t := transitions[e.name];
        if t.guardMethod.None? {
          next := t.to;
          trace := [];
        } else {
          trace := [HookRun(GuardHook, t.instanceName, t.guardMethod, e)];
          if ExecBoolMethodWithEvent(guard, t.guardMethod.value, e) {
            next := t.to;
          } else {
            next := this;
          }
        }
      } else {
        next := this;
        trace := [];
      }
    }

    /** takeEvent: consults the guard, and when the transition is allowed runs
        exit, action and entry in that order and returns the target. */
    method TakeEvent(e: Event, guard: GuardOracle) returns (next: State, trace: seq<HookRun>)
      ensures next == NextState(this, e, guard)
      ensures trace == TakeTrace(this, e, guard)
    {
      if e.name in transitions {
        var t := transitions[e.name];
        if t.guardMethod.None? {
          trace := ExecuteTransition(e, t);
          next := t.to;
        } else {
          var allowed := ExecBoolMethodWithEvent(guard, t.guardMethod.value, e);
          var guardRun := [HookRun(GuardHook, t.instanceName, t.guardMethod, e)];
          if allowed {
            var fired := ExecuteTransition(e, t);
            trace := guardRun + fired;
            next := t.to;
          } else {
            trace := guardRun;
            next := this;
          }
        }
      } else {
        next := this;
        trace := [];
      }
    }

    /** executeTransition: the source's exit, the transition's action, the
        target's entry, each bound or the default. */
    method ExecuteTransition(e: Event, t: Transition) returns (trace: seq<HookRun>)
      ensures trace == FiringTrace(this, t, e)
    {
      trace := [HookRun(ExitHook, name, exitMethod, e)];
      trace := trace + [HookRun(ActionHook, t.instanceName, t.actionMethod, e)];
      trace := trace + [HookRun(EntryHook, t.to.name, t.to.entryMethod, e)];
    }
  }

  // The transition engine as functions of the state, the event and the guards.

  /** Whether the transition for e leaves s: there is one, and it is unguarded
      or its guard returns true. */
  predicate Fires(s: State, e: Event, guard: GuardOracle)
    reads s
  {
    e.name in s.transitions &&
    (s.transitions[e.name].guardMethod.None? ||
     ExecBoolMethodWithEvent(guard, s.transitions[e.name].guardMethod.value, e))
  }

  function NextState(s: State, e: Event, guard: GuardOracle): State
    reads s
  {
    if Fires(s, e, guard) then s.transitions[e.name].to else s
  }

  /** The guard run, if the transition for e has a bound guard. */
  function GuardTrace(s: State, e: Event): seq<HookRun>
    reads s
  {
    if e.name in s.transitions && s.transitions[e.name].guardMethod.Some?
    then [HookRun(GuardHook, s.transitions[e.name].instanceName, s.transitions[e.name].guardMethod, e)]
    else []
  }

  function FiringTrace(s: State, t: Transition, e: Event): seq<HookRun>
  {
    [HookRun(ExitHook, s.name, s.exitMethod, e),
     HookRun(ActionHook, t.instanceName, t.actionMethod, e),
     HookRun(EntryHook, t.to.name, t.to.entryMethod, e)]
  }

  function TakeTrace(s: State, e: Event, guard: GuardOracle): seq<HookRun>
    reads s
  {
    GuardTrace(s, e) + (if Fires(s, e, guard) then FiringTrace(s, s.transitions[e.name], e) else [])
  }

  /** A hook that changes business state: exit, action or entry. */
  predicate IsTransitionHook(r: HookRun) {
    r.kind == ExitHook || r.kind == ActionHook || r.kind == EntryHook
  }

  /** An event with no transition from s leaves s where it is and runs nothing. */
  lemma IgnoredEvent(s: State, e: Event, guard: GuardOracle)
    requires e.name !in s.transitions
    ensures NextState(s, e, guard) == s
    ensures TakeTrace(s, e, guard) == []
  {
  }

  /** A final state never moves and never runs a hook. */
  lemma FinalStateStays(s: State, e: Event, guard: GuardOracle)
    requires s.IsFinal()
    ensures NextState(s, e, guard) == s
    ensures TakeTrace(s, e, guard) == []
  {
  }

  /** A guard that answers false or throws keeps the state and runs no exit,
      action or entry hook: only the guard itself ran. */
  lemma GuardRefusal(s: State, e: Event, guard: GuardOracle)
    requires e.name in s.transitions
    requires s.transitions[e.name].guardMethod.Some?
    requires guard(s.transitions[e.name].guardMethod.value, e) != Returned(true)
    ensures NextState(s, e, guard) == s
    ensures |TakeTrace(s, e, guard)| == 1 && TakeTrace(s, e, guard)[0].kind == GuardHook
    ensures forall k :: 0 <= k < |TakeTrace(s, e, guard)| ==> !IsTransitionHook(TakeTrace(s, e, guard)[k])
  {
  }

  /** An allowed transition ends with exactly exit (of the source), action (of
      the transition), entry (of the target), after at most the guard. */
  lemma FiringOrder(s: State, e: Event, guard: GuardOracle)
    requires e.name in s.transitions
    requires var t := s.transitions[e.name];
      t.guardMethod.None? || guard(t.guardMethod.value, e) == Returned(true)
    ensures var t := s.transitions[e.name];
      var tr := TakeTrace(s, e, guard);
      && NextState(s, e, guard) == t.to
      && |tr| == (if t.guardMethod.Some? then 4 else 3)
      && tr[|tr| - 3] == HookRun(ExitHook, s.name, s.exitMethod, e)
      && tr[|tr| - 2] == HookRun(ActionHook, t.instanceName, t.actionMethod, e)
      && tr[|tr| - 1] == HookRun(EntryHook, t.to.name, t.to.entryMethod, e)
  {
  }

  /** testEvent and takeEvent agree on the next state; what testEvent runs is a
      prefix of what takeEvent runs, and holds no exit, action or entry hook. */
  lemma TestAgreesWithTake(s: State, e: Event, guard: GuardOracle)
    ensures GuardTrace(s, e) <= TakeTrace(s, e, guard)
    ensures forall k :: 0 <= k < |GuardTrace(s, e)| ==> !IsTransitionHook(GuardTrace(s, e)[k])
  {
  }

  /** An instance of a business class (ACTOR, CDPLAYER, ...). */
  class BusinessObject {
    const className: string
    constructor (className: string)
      ensures this.className == className
    {
      this.className := className;
    }
  }

  /** FSM: a running machine bound to one business object and one table. */
  class Machine {
    /** "Class:id" */
    const name: string
    const table: Table
    const registeredInstance: BusinessObject
    var currentState: State?

    constructor (name: string, table: Table, instance: BusinessObject)
      ensures this.name == name && this.table == table && registeredInstance == instance
      ensures currentState == null
    {
      this.name := name;
      this.table := table;
      registeredInstance := instance;
      currentState := null;
    }

    /** initialise: enters the table's initial state, running its entry hook
        once with a "start" event the machine sends itself. */
    method Initialise() returns (trace: seq<HookRun>)
      requires table.initialState != null
      modifies this`currentState
      ensures currentState == table.initialState
      ensures trace == [HookRun(EntryHook, currentState.name, currentState.entryMethod,
                                NewEvent(Ref(this), "start", this))]
    {
      currentState := table.initialState;
      var e := NewEvent(Ref(this), "start", this);
      trace := [HookRun(EntryHook, currentState.name, currentState.entryMethod, e)];
    }

    /** initialiseWithEvent: the same, with the caller's event. */
    method InitialiseWithEvent(e: Event) returns (trace: seq<HookRun>)
      requires table.initialState != null
      modifies this`currentState
      ensures currentState == table.initialState
      ensures trace == [HookRun(EntryHook, currentState.name, currentState.entryMethod, e)]
    {
      currentState := table.initialState;
      trace := [HookRun(EntryHook, currentState.name, currentState.entryMethod, e)];
    }

    /** takeEvent: a rejected event leaves the state and runs nothing; an
        accepted one moves the machine to where its current state takes it. */
    method TakeEvent(e: Event, guard: GuardOracle) returns (r: State?, trace: seq<HookRun>)
      requires CheckEvent(e, this) ==> currentState != null
      modifies this`currentState
      ensures currentState == r
      ensures !CheckEvent(e, this) ==> r == old(currentState) && trace == []
      ensures CheckEvent(e, this) ==>
        old(currentState) != null && r == NextState(old(currentState), e, guard)
        && trace == TakeTrace(old(currentState), e, guard)
    {
      if CheckEvent(e, this) {
        r, trace := currentState.TakeEvent(e, guard);
      } else {
        r := currentState;
        trace := [];
      }
      currentState := r;
    }
  }

  /** createAndSendEvent: builds an event addressed to toFsm and delivers it. */
  method CreateAndSendEvent(source: EventSource, eventName: string, toFsm: Machine, guard: GuardOracle)
    returns (trace: seq<HookRun>)
    requires eventName in toFsm.table.events ==> toFsm.currentState != null
    modifies toFsm`currentState
    ensures eventName !in toFsm.table.events ==>
      toFsm.currentState == old(toFsm.currentState) && trace == []
    ensures eventName in toFsm.table.events ==>
      old(toFsm.currentState) != null
      && toFsm.currentState == NextState(old(toFsm.currentState), NewEvent(source, eventName, toFsm), guard)
      && trace == TakeTrace(old(toFsm.currentState), NewEvent(source, eventName, toFsm), guard)
  {
    var e := NewEvent(source, eventName, toFsm);
    var reached;
    reached, trace := toFsm.TakeEvent(e, guard);
  }

  /** FSM.instanceList: running machines by name. */
  class MachineRegistry {
    var machines: map<string, Machine>

    ghost predicate Valid()
      reads this
    {
      forall n :: n in machines ==> machines[n].name == n
    }

    constructor ()
      ensures machines == map[] && Valid()
    {
      machines := map[];
    }

    /** new FSM(id, stt, instance): fails, registering nothing, unless the
        instance's class is the table's class and "Class:id" is not taken. */
    method CreateMachine(id: string, table: Table, instance: BusinessObject) returns (m: Option<Machine>)
      requires Valid()
      modifies this
      ensures Valid()
      ensures instance.className != table.refClassName ==> m == None && machines == old(machines)
      ensures instance.className == table.refClassName && instance.className + ":" + id in old(machines) ==>
        m == None && machines == old(machines)
      ensures instance.className == table.refClassName && instance.className + ":" + id !in old(machines) ==>
        && m.Some? && fresh(m.value)
        && m.value.name == instance.className + ":" + id
        && m.value.table == table && m.value.registeredInstance == instance
        && m.value.currentState == null
        && machines == old(machines)[m.value.name := m.value]
    {
      if instance.className == table.refClassName {
        var fsm := new Machine(instance.className + ":" + id, table, instance);
        if fsm.name !in machines {
          machines := machines[fsm.name := fsm];
          m := Some(fsm);
        } else {
          m := None;
        }
      } else {
        m := None;
      }
    }

    /** removeFromInstanceList: drops that machine's name, nothing else. */
    method RemoveFromInstanceList(fsm: Machine)
      requires Valid()
      modifies this
      ensures Valid()
      ensures machines == old(machines) - {fsm.name}
    {
      machines := machines - {fsm.name};
    }

    /** findByFSMName: the registered machine, or null. */
    function FindByFSMName(fsmName: string): (r: Machine?)
      reads this
      requires Valid()
      ensures r != null <==> fsmName in machines
      ensures r != null ==> r == machines[fsmName] && r.name == fsmName
    {
      if fsmName in machines then machines[fsmName] else null
    }

    /** findByRegisteredInstance: a registered machine bound to the instance,
        or null when there is none. */
    method FindByRegisteredInstance(instance: BusinessObject) returns (r: Machine?)
      ensures r != null ==> r in machines.Values && r.registeredInstance == instance
      ensures r == null ==> forall n :: n in machines ==> machines[n].registeredInstance != instance
    {
      r := null;
      var unseen := machines.Keys;
      while unseen != {} && r == null
        invariant unseen <= machines.Keys
        invariant r != null ==> r in machines.Values && r.registeredInstance == instance
        invariant r == null ==>
          forall n :: n in machines && n !in unseen ==> machines[n].registeredInstance != instance
        decreases unseen
      {
        var n :| n in unseen;
        if machines[n].registeredInstance == instance {
          r := machines[n];
        }
        unseen := unseen - {n};
      }
    }
  }
}
