/** FSM_CodeBuilder: writes C# source for the hooks a state transition table
    expects its business class to implement (StateName__onEntry,
    StateName__onExit, StateName__eventName and StateName__eventNameGuard),
    plus the class itself when it is missing. The generated text is modelled
    as a sequence of parts: fixed text, and stubs each of the default writers
    renders. */
module CodeBuilder {
  import opened Text
  import opened FiniteStateMachine

  // ---------------------------------------------------------------- stubs

  /** ASCII part of String.ToLower. */
  function LowerChar(c: char): char {
    if 'A' <= c <= 'Z' then (c as int + 32) as char else c
  }

  function Lower(s: string): (r: string)
    ensures |r| == |s|
    ensures forall i :: 0 <= i < |r| ==> !('A' <= r[i] <= 'Z')
    ensures forall i :: 0 <= i < |s| && !('A' <= s[i] <= 'Z') ==> r[i] == s[i]
    ensures forall i :: 0 <= i < |s| && 'A' <= s[i] <= 'Z' ==> r[i] == (s[i] as int + 32) as char
  {
    if s == [] then [] else [LowerChar(s[0])] + Lower(s[1..])
  }

  /** Lower-casing twice is lower-casing once. */
  lemma {:induction false} LowerIdempotent(s: string)
    ensures Lower(Lower(s)) == Lower(s)
  {
    if s != [] {
      LowerIdempotent(s[1..]);
      assert Lower(s)[1..] == Lower(s[1..]);
    }
  }

  /** One method (or the class) the default writers produce. */
  datatype Stub =
    | ClassStub(className: string)
    | EntryStub(className: string, state: string, dereference: bool)
    | ExitStub(className: string, state: string)
    | ActionStub(className: string, state: string, event: string, instance: string)
    | GuardStub(className: string, state: string, event: string, instance: string)

  /** The instance-name field of the generated class: the lower-cased class name + "Name". */
  function InstanceField(className: string): string {
    Lower(className) + "Name"
  }

  /** WriteClassCode: the class, its constructor that creates the bound
      machine, its accessors, dereferenceFSM and takeEvent. It leaves the
      class open for the hooks that follow. */
  function ClassCode(className: string): string {
    var n := InstanceField(className);
    "\n\n   // ADD CLASS\n"
    + "   public class " + className + "\n"
    + "   {\n\n"
    + "      protected string " + n + ";\n"
    + "      protected FSM fsm;\n\n"
    + "      public " + className + "( string " + n + ", FSM_STT stt, FSMType fsmType )\n"
    + "      {\n"
    + "         this." + n + " = " + n + ";\n"
    + "         this.fsm = FSM.createFSM(this." + n + ", stt, this, fsmType);\n"
    + "         this.fsm.setInitialState();\n"
    + "      }\n\n"
    + "      public FSM getFSM()\n"
    + "      {\n"
    + "         return this.fsm;\n"
    + "      }\n\n"
    + "      public STT_State getCurrentState()\n"
    + "      {\n"
    + "         return this.fsm.getCurrentState();\n"
    + "      }\n\n"
    + "      // Use this in the body of your StateName__onEntry() methods for the end states\n"
    + "      // of the FSM ( the ones with no exit transitions ) and want to 'delete the FSM'\n"
    + "      // and references to tidy stuff up.\n"
    + "      protected void dereferenceFSM()\n"
    + "      {\n"
    + "         FSM.removeFromInstanceList(this.fsm);\n"
    + "         this.fsm = null;\n"
    + "      }\n\n"
    + "      // Processes an event.  Passes it on to the FSM\n"
    + "      public void takeEvent( FSM_Event evt)\n"
    + "      {\n"
    + "         this.fsm.takeEvent( evt);\n"
    + "      }\n\n"
  }

  const DereferenceLines :=
    "         // delete references as this is an end state and the STT demands it\n"
    + "         this.dereferenceFSM();\n"

  /** The name of the method a stub declares. */
  function StubHook(stub: Stub): string {
    match stub
    case ClassStub(c) => c
    case EntryStub(_, s, _) => EntryHookName(s)
    case ExitStub(_, s) => ExitHookName(s)
    case ActionStub(_, s, e, _) => ActionHookName(s, e)
    case GuardStub(_, s, e, _) => GuardHookName(s, e)
  }

  /** The line declaring a hook method, as the writers spell it. */
  function Signature(stub: Stub): string
    requires !stub.ClassStub?
  {
    (if stub.GuardStub? then "      public bool " else "      public void ")
    + StubHook(stub) + "(FSM_Event evt)\n"
  }

  /** The comment line that precedes a hook's signature. */
  function Banner(stub: Stub): string
    requires !stub.ClassStub?
  {
    match stub
    case EntryStub(_, _, _) => "      // Method for Entry \n\n"
    case ExitStub(_, _) => "      // Method for Exit \n\n"
    case ActionStub(_, _, _, i) => "      // Method for Transition " + i + "\n\n"
    case GuardStub(_, _, _, i) => "      // GuardMethod for transition " + i + "\n\n"
  }

  /** The Debug.WriteLine statement of a hook. */
  function LogLine(stub: Stub): string
    requires !stub.ClassStub?
  {
    "         Debug.WriteLine( \"" + stub.className + "." + StubHook(stub)
    + (if stub.GuardStub? then "() allowing event \" + evt.getEventName());\n"
       else "() Executing in response to event \" + evt.getEventName());\n")
  }

  /** What follows the log line up to the end of the method. */
  function Tail(stub: Stub): string
    requires !stub.ClassStub?
  {
    match stub
    case EntryStub(_, _, d) => (if d then DereferenceLines else "") + "      }\n\n"
    case GuardStub(_, _, _, _) => "         return true;\n" + "      }\n"
    case _ => "      }\n\n"
  }

  /** The text a default writer appends for a stub. */
  function StubCode(stub: Stub): string {
    if stub.ClassStub? then ClassCode(stub.className)
    else Banner(stub) + Signature(stub) + "      {\n" + LogLine(stub) + Tail(stub)
  }

  /** Every hook stub declares, on a line of its own, the method the engine
      binds by name. */
  lemma DeclaresHook(stub: Stub)
    requires !stub.ClassStub?
    ensures var at := |Banner(stub)|;
      StubCode(stub)[at..at + |Signature(stub)|] == Signature(stub)
      && StubCode(stub)[at - 1] == '\n'
  {
    var b, sig := Banner(stub), Signature(stub);
    assert StubCode(stub) == b + sig + ("      {\n" + LogLine(stub) + Tail(stub));
  }

  /** Only an entry stub for an end state of a deleting table asks to
      dereference the machine, and then right after its log line. */
  lemma DereferenceOnlyWhenAsked(stub: Stub)
    requires stub.EntryStub?
    ensures var code := StubCode(stub);
      var before := Banner(stub) + Signature(stub) + "      {\n" + LogLine(stub);
      && before <= code
      && (stub.dereference <==> DereferenceLines <= code[|before|..])
  {
    var code := StubCode(stub);
    var before := Banner(stub) + Signature(stub) + "      {\n" + LogLine(stub);
    var tail := Tail(stub);
    assert code == before + tail;
    assert code[|before|..] == tail;
    if !stub.dereference {
      assert |tail| < |DereferenceLines|;
    }
  }

  // ---------------------------------------------------------------- the generated text

  datatype Part = Fixed(text: string) | Code(stub: Stub)

  function PartText(p: Part): string {
    match p
    case Fixed(t) => t
    case Code(s) => StubCode(s)
  }

  function Render(parts: seq<Part>): string
  {
    if parts == [] then "" else Render(parts[..|parts| - 1]) + PartText(parts[|parts| - 1])
  }

  lemma {:induction false} RenderAppend(a: seq<Part>, b: seq<Part>)
    ensures Render(a + b) == Render(a) + Render(b)
    decreases |b|
  {
    if b == [] {
      assert a + b == a;
    } else {
      var b' := b[..|b| - 1];
      assert (a + b)[..|a + b| - 1] == a + b';
      RenderAppend(a, b');
    }
  }

  /** The stubs among the parts, in order. */
  function Stubs(parts: seq<Part>): seq<Stub>
  {
    if parts == [] then []
    else
      var last := parts[|parts| - 1];
      Stubs(parts[..|parts| - 1]) + (if last.Code? then [last.stub] else [])
  }

  lemma {:induction false} StubsAppend(a: seq<Part>, b: seq<Part>)
    ensures Stubs(a + b) == Stubs(a) + Stubs(b)
    decreases |b|
  {
    if b == [] {
      assert a + b == a;
    } else {
      var b' := b[..|b| - 1];
      assert (a + b)[..|a + b| - 1] == a + b';
      StubsAppend(a, b');
    }
  }

  lemma RenderSnoc(parts: seq<Part>, p: Part)
    ensures Render(parts + [p]) == Render(parts) + PartText(p)
  {
    assert (parts + [p])[..|parts|] == parts;
  }

  function Header(className: string, timestamp: string): string {
    "   //FSM Methods Required for class  " + className + "  generated by FSM_CodeBuilder " + timestamp + "\n\n"
  }

  /** A stub is written when the business class lacks the method, or always
      when onlyGenerateMissingCode is set. */
  predicate Wanted(bound: Option<string>, onlyGenerateMissingCode: bool) {
    bound.None? || onlyGenerateMissingCode
  }

  /** What the builder reads of an STT_State: its name, its bound hooks and
      its transitions in the order they were added. */
  datatype StateView = StateView(
    name: string, entryMethod: Option<string>, exitMethod: Option<string>,
    transitions: map<string, Transition>, eventOrder: seq<string>)
  {
    /** getIsFinalState. */
    predicate IsFinal() {
      |transitions| == 0
    }

    /** Every event in the insertion order has its transition: the
        enumeration of allowedTransitions.Values the builder relies on. */
    predicate Listed() {
      forall i :: 0 <= i < |eventOrder| ==> eventOrder[i] in transitions
    }
  }

  function View(s: State): (v: StateView)
    reads s
    ensures v.name == s.name && v.entryMethod == s.entryMethod && v.exitMethod == s.exitMethod
    ensures v.transitions == s.transitions && v.eventOrder == s.eventOrder
    ensures v.IsFinal() <==> s.IsFinal()
  {
    StateView(s.name, s.entryMethod, s.exitMethod, s.transitions, s.eventOrder)
  }

  function Views(states: seq<State>): (vs: seq<StateView>)
    reads states
    ensures |vs| == |states|
    ensures forall k :: 0 <= k < |states| ==> vs[k] == View(states[k])
  {
    if states == [] then [] else Views(states[..|states| - 1]) + [View(states[|states| - 1])]
  }

  ghost predicate Listed(s: State)
    reads s
  {
    View(s).Listed()
  }

  /** A consistent state lists every transition it has. */
  lemma ValidIsListed(s: State)
    requires s.Valid()
    ensures Listed(s)
  {
  }

  /** A writer's stub when it is wanted, nothing otherwise. */
  function Written(wanted: bool, stub: Stub): seq<Part> {
    if wanted then [Code(stub)] else []
  }

  /** The action and guard stubs of one transition of a state. */
  function TransitionStubs(className: string, stateName: string, t: Transition, onlyGenerateMissingCode: bool): seq<Part>
  {
    Written(Wanted(t.actionMethod, onlyGenerateMissingCode), ActionStub(className, stateName, t.eventName, t.instanceName))
    + Written(Wanted(t.guardMethod, onlyGenerateMissingCode), GuardStub(className, stateName, t.eventName, t.instanceName))
  }

  /** The stubs of the transitions of the given events of a state, in order. */
  function TransitionParts(className: string, v: StateView, events: seq<string>, onlyGenerateMissingCode: bool): seq<Part>
    requires forall i :: 0 <= i < |events| ==> events[i] in v.transitions
  {
    if events == [] then []
    else
      TransitionParts(className, v, events[..|events| - 1], onlyGenerateMissingCode)
      + TransitionStubs(className, v.name, v.transitions[events[|events| - 1]], onlyGenerateMissingCode)
  }

  /** The stubs of one more event follow those of the events before it. */
  lemma TransitionPartsSnoc(className: string, v: StateView, j: nat, onlyGenerateMissingCode: bool)
    requires j < |v.eventOrder| && v.Listed()
    ensures TransitionParts(className, v, v.eventOrder[..j + 1], onlyGenerateMissingCode)
      == TransitionParts(className, v, v.eventOrder[..j], onlyGenerateMissingCode)
         + TransitionStubs(className, v.name, v.transitions[v.eventOrder[j]], onlyGenerateMissingCode)
  {
    assert v.eventOrder[..j + 1][..j] == v.eventOrder[..j];
  }

  /** The part of one state: its heading, its entry stub, and unless it is
      final its exit stub and the stubs of its transitions. */
  function StateParts(className: string, deleteAtEnd: bool, v: StateView, onlyGenerateMissingCode: bool): seq<Part>
    requires v.Listed()
  {
    [Fixed("      // Implementation of State " + v.name + "\n\n")]
    + Written(Wanted(v.entryMethod, onlyGenerateMissingCode), EntryStub(className, v.name, deleteAtEnd && v.IsFinal()))
    + Written(Wanted(v.exitMethod, onlyGenerateMissingCode) && !v.IsFinal(), ExitStub(className, v.name))
    + (if !v.IsFinal()
       then TransitionParts(className, v, v.eventOrder, onlyGenerateMissingCode) + [Fixed("\n")] else [])
    + [Fixed("\n")]
  }

  predicate AllListed(vs: seq<StateView>) {
    forall k :: 0 <= k < |vs| ==> vs[k].Listed()
  }

  function StatesParts(className: string, deleteAtEnd: bool, vs: seq<StateView>, onlyGenerateMissingCode: bool): seq<Part>
    requires AllListed(vs)
  {
    if vs == [] then []
    else
      StatesParts(className, deleteAtEnd, vs[..|vs| - 1], onlyGenerateMissingCode)
      + StateParts(className, deleteAtEnd, vs[|vs| - 1], onlyGenerateMissingCode)
  }

  /** The part of one more state follows those of the states before it. */
  lemma StatesPartsSnoc(className: string, deleteAtEnd: bool, vs: seq<StateView>, i: nat, onlyGenerateMissingCode: bool)
    requires i < |vs| && AllListed(vs)
    ensures StatesParts(className, deleteAtEnd, vs[..i + 1], onlyGenerateMissingCode)
      == StatesParts(className, deleteAtEnd, vs[..i], onlyGenerateMissingCode)
         + StateParts(className, deleteAtEnd, vs[i], onlyGenerateMissingCode)
  {
    assert vs[..i + 1][..i] == vs[..i];
  }

  /** What createOMCodeFromSTT returns, part by part, for a table with the
      given class name, end-state policy, class binding and states. */
  function Generated(className: string, deleteAtEnd: bool, omClass: Option<BusinessClass>, vs: seq<StateView>,
                     timestamp: string, onlyGenerateMissingCode: bool): seq<Part>
    requires AllListed(vs)
  {
    [Fixed(Header(className, timestamp))]
    + Written(omClass.None? || onlyGenerateMissingCode, ClassStub(className))
    + StatesParts(className, deleteAtEnd, vs, onlyGenerateMissingCode)
    + (if omClass.None? then [Fixed("}\n\n")] else [])
  }

  // ---------------------------------------------------------------- the builder

  /** The StringBuilder createOMCodeFromSTT fills: modelled as the pieces
      appended to it, fixed text or a writer's stub; its text is their
      rendering. */
  class CodeBuffer {
    var parts: seq<Part>

    constructor (init: string)
      ensures parts == [Fixed(init)]
    {
      parts := [Fixed(init)];
    }

    function ToString(): string
      reads this
    {
      Render(parts)
    }

    method Append(text: string)
      modifies this
      ensures parts == old(parts) + [Fixed(text)]
    {
      parts := parts + [Fixed(text)];
    }

    method AppendStub(stub: Stub)
      modifies this
      ensures parts == old(parts) + [Code(stub)]
    {
      parts := parts + [Code(stub)];
    }
  }

  // ---------------------------------------------------------------- the writers

  method WriteClassCode(t: Table, retVal: CodeBuffer)
    modifies retVal
    ensures retVal.parts == old(retVal.parts) + [Code(ClassStub(t.refClassName))]
  {
    retVal.AppendStub(ClassStub(t.refClassName));
  }

  /** The entry stub asks to dereference the machine exactly for an end state
      of a table that deletes machines on reaching one. */
  method WriteOnEntryMethodCode(t: Table, retVal: CodeBuffer, state: State)
    modifies retVal
    ensures retVal.parts == old(retVal.parts)
      + [Code(EntryStub(t.refClassName, state.name, t.deleteWhenEndStateReached && state.IsFinal()))]
  {
    retVal.AppendStub(EntryStub(t.refClassName, state.name, t.deleteWhenEndStateReached && state.IsFinal()));
  }

  method WriteOnExitMethodCode(t: Table, retVal: CodeBuffer, state: State)
    modifies retVal
    ensures retVal.parts == old(retVal.parts) + [Code(ExitStub(t.refClassName, state.name))]
  {
    retVal.AppendStub(ExitStub(t.refClassName, state.name));
  }

  method WriteTransMethodCode(t: Table, retVal: CodeBuffer, state: State, trans: Transition)
    modifies retVal
    ensures retVal.parts == old(retVal.parts)
      + [Code(ActionStub(t.refClassName, state.name, trans.eventName, trans.instanceName))]
  {
    retVal.AppendStub(ActionStub(t.refClassName, state.name, trans.eventName, trans.instanceName));
  }

  method WriteTransGuardMethodCode(t: Table, retVal: CodeBuffer, state: State, trans: Transition)
    modifies retVal
    ensures retVal.parts == old(retVal.parts)
      + [Code(GuardStub(t.refClassName, state.name, trans.eventName, trans.instanceName))]
  {
    retVal.AppendStub(GuardStub(t.refClassName, state.name, trans.eventName, trans.instanceName));
  }

  // ---------------------------------------------------------------- createOMCodeFromSTT

  /** createOMCodeFromSTT: the header, the class when it is missing (or
      always when onlyGenerateMissingCode is set), each state's part in table
      order, and the closing brace of the class when the class is missing.
      The timestamp stands for DateTime.Now. */
  method CreateOMCodeFromSTT(t: Table, timestamp: string, onlyGenerateMissingCode: bool) returns (code: string)
    requires AllListed(Views(t.states))
    ensures code == Render(Generated(t.refClassName, t.deleteWhenEndStateReached, t.omClass,
                                     Views(t.states), timestamp, onlyGenerateMissingCode))
  {
    var retVal := FillOMCode(t, timestamp, onlyGenerateMissingCode);
    code := retVal.ToString();
  }

  /** The body of createOMCodeFromSTT up to retVal.ToString(): the
      StringBuilder it fills. */
  method FillOMCode(t: Table, timestamp: string, onlyGenerateMissingCode: bool) returns (retVal: CodeBuffer)
    requires AllListed(Views(t.states))
    ensures retVal.parts
      == Generated(t.refClassName, t.deleteWhenEndStateReached, t.omClass, old(Views(t.states)), timestamp, onlyGenerateMissingCode)
  {
    ghost var vs := Views(t.states);
    retVal := new CodeBuffer(Header(t.refClassName, timestamp));
    ghost var p0 := retVal.parts;
    if t.omClass.None? || onlyGenerateMissingCode {
      WriteClassCode(t, retVal);
    }
    ghost var p1 := retVal.parts;
    WriteStatesCode(t, retVal, vs, onlyGenerateMissingCode);
    ghost var p2 := retVal.parts;
    if t.omClass.None? {
      retVal.Append("}\n\n");
    }
    GeneratedShape(t.refClassName, t.deleteWhenEndStateReached, t.omClass, vs, timestamp,
      onlyGenerateMissingCode, p0, p1, p2, retVal.parts);
  }

  /** A buffer holding the header, then the class stub when wanted, then the
      states' parts, then the closing brace when the class is missing, holds
      Generated. */
  lemma GeneratedShape(className: string, deleteAtEnd: bool, omClass: Option<BusinessClass>, vs: seq<StateView>,
                       timestamp: string, onlyGenerateMissingCode: bool,
                       p0: seq<Part>, p1: seq<Part>, p2: seq<Part>, p3: seq<Part>)
    requires AllListed(vs)
    requires p0 == [Fixed(Header(className, timestamp))]
    requires p1 == if omClass.None? || onlyGenerateMissingCode then p0 + [Code(ClassStub(className))] else p0
    requires p2 == p1 + StatesParts(className, deleteAtEnd, vs, onlyGenerateMissingCode)
    requires p3 == if omClass.None? then p2 + [Fixed("}\n\n")] else p2
    ensures p3 == Generated(className, deleteAtEnd, omClass, vs, timestamp, onlyGenerateMissingCode)
  {
  }

  /** A buffer that grew by xs and then by ys grew by their concatenation. */
  lemma Grew(start: seq<Part>, mid: seq<Part>, end: seq<Part>, xs: seq<Part>, ys: seq<Part>, zs: seq<Part>)
    requires mid == start + xs && end == mid + ys && zs == xs + ys
    ensures end == start + zs
  {
  }

  /** The state loop of createOMCodeFromSTT: every state's part, in table order. */
  method WriteStatesCode(t: Table, retVal: CodeBuffer, ghost vs: seq<StateView>, onlyGenerateMissingCode: bool)
    requires vs == Views(t.states) && AllListed(vs)
    modifies retVal
    ensures retVal.parts == old(retVal.parts)
      + StatesParts(t.refClassName, t.deleteWhenEndStateReached, vs, onlyGenerateMissingCode)
  {
    var i := 0;
    while i < |t.states|
      invariant 0 <= i <= |t.states|
      invariant retVal.parts
        == old(retVal.parts) + StatesParts(t.refClassName, t.deleteWhenEndStateReached, vs[..i], onlyGenerateMissingCode)
    {
      ghost var before := retVal.parts;
      WriteStateCode(t, retVal, t.states[i], onlyGenerateMissingCode);
      assert View(t.states[i]) == vs[i];
      StatesPartsSnoc(t.refClassName, t.deleteWhenEndStateReached, vs, i, onlyGenerateMissingCode);
      Grew(old(retVal.parts), before, retVal.parts,
        StatesParts(t.refClassName, t.deleteWhenEndStateReached, vs[..i], onlyGenerateMissingCode),
        StateParts(t.refClassName, t.deleteWhenEndStateReached, vs[i], onlyGenerateMissingCode),
        StatesParts(t.refClassName, t.deleteWhenEndStateReached, vs[..i + 1], onlyGenerateMissingCode));
      i := i + 1;
    }
    assert vs[..i] == vs;
  }

  /** The body of the state loop of createOMCodeFromSTT. */
  method WriteStateCode(t: Table, retVal: CodeBuffer, state: State, onlyGenerateMissingCode: bool)
    requires Listed(state)
    modifies retVal
    ensures retVal.parts == old(retVal.parts)
      + StateParts(t.refClassName, t.deleteWhenEndStateReached, View(state), onlyGenerateMissingCode)
  {
    var final := state.IsFinal();
    ghost var p0 := retVal.parts;
    retVal.Append("      // Implementation of State " + state.name + "\n\n");
    ghost var p1 := retVal.parts;
    if Wanted(state.entryMethod, onlyGenerateMissingCode) {
      WriteOnEntryMethodCode(t, retVal, state);
    }
    ghost var p2 := retVal.parts;
    if Wanted(state.exitMethod, onlyGenerateMissingCode) && !final {
      WriteOnExitMethodCode(t, retVal, state);
    }
    ghost var p3 := retVal.parts;
    if !final {
      WriteTransitionsCode(t, retVal, state, onlyGenerateMissingCode);
      retVal.Append("\n");
    }
    ghost var p4 := retVal.parts;
    retVal.Append("\n");
    StatePartsShape(t.refClassName, t.deleteWhenEndStateReached, View(state), onlyGenerateMissingCode,
      p0, p1, p2, p3, p4, retVal.parts);
  }

  /** A buffer that grew by a state's heading, entry stub, exit stub,
      transition stubs and blank line, in that order, grew by StateParts. */
  lemma StatePartsShape(className: string, deleteAtEnd: bool, v: StateView, onlyGenerateMissingCode: bool,
                        p0: seq<Part>, p1: seq<Part>, p2: seq<Part>, p3: seq<Part>, p4: seq<Part>, p5: seq<Part>)
    requires v.Listed()
    requires p1 == p0 + [Fixed("      // Implementation of State " + v.name + "\n\n")]
    requires p2 == if Wanted(v.entryMethod, onlyGenerateMissingCode)
      then p1 + [Code(EntryStub(className, v.name, deleteAtEnd && v.IsFinal()))] else p1
    requires p3 == if Wanted(v.exitMethod, onlyGenerateMissingCode) && !v.IsFinal()
      then p2 + [Code(ExitStub(className, v.name))] else p2
    requires p4 == if !v.IsFinal()
      then p3 + TransitionParts(className, v, v.eventOrder, onlyGenerateMissingCode) + [Fixed("\n")] else p3
    requires p5 == p4 + [Fixed("\n")]
    ensures p5 == p0 + StateParts(className, deleteAtEnd, v, onlyGenerateMissingCode)
  {
  }

  /** The transition loop of createOMCodeFromSTT: the stubs of every
      transition of a state, in the order they were added. */
  method WriteTransitionsCode(t: Table, retVal: CodeBuffer, state: State, onlyGenerateMissingCode: bool)
    requires Listed(state)
    modifies retVal
    ensures retVal.parts == old(retVal.parts)
      + TransitionParts(t.refClassName, View(state), state.eventOrder, onlyGenerateMissingCode)
  {
    var v := View(state);
    var j := 0;
    while j < |state.eventOrder|
      invariant 0 <= j <= |state.eventOrder|
      invariant retVal.parts
        == old(retVal.parts) + TransitionParts(t.refClassName, v, v.eventOrder[..j], onlyGenerateMissingCode)
    {
      var trans := state.transitions[state.eventOrder[j]];
      WriteTransitionCode(t, retVal, state, trans, onlyGenerateMissingCode);
      TransitionPartsSnoc(t.refClassName, v, j, onlyGenerateMissingCode);
      j := j + 1;
    }
    assert v.eventOrder[..j] == v.eventOrder;
  }

  /** The body of the transition loop of createOMCodeFromSTT. */
  method WriteTransitionCode(t: Table, retVal: CodeBuffer, state: State, trans: Transition, onlyGenerateMissingCode: bool)
    modifies retVal
    ensures retVal.parts == old(retVal.parts)
      + TransitionStubs(t.refClassName, state.name, trans, onlyGenerateMissingCode)
  {
    if Wanted(trans.actionMethod, onlyGenerateMissingCode) {
      WriteTransMethodCode(t, retVal, state, trans);
    }
    if Wanted(trans.guardMethod, onlyGenerateMissingCode) {
      WriteTransGuardMethodCode(t, retVal, state, trans);
    }
  }

  // ---------------------------------------------------------------- what the generated code holds

  lemma StubsSingle(p: Part)
    ensures Stubs([p]) == if p.Code? then [p.stub] else []
  {
    assert [p][..0] == [];
  }

  lemma StubsWritten(wanted: bool, stub: Stub)
    ensures Stubs(Written(wanted, stub)) == if wanted then [stub] else []
  {
    if wanted {
      StubsSingle(Code(stub));
    }
  }

  /** The stubs of one transition: its action stub, then its guard stub, each
      when wanted. */
  lemma TransitionStubsStubs(className: string, stateName: string, t: Transition, onlyGenerateMissingCode: bool)
    ensures Stubs(TransitionStubs(className, stateName, t, onlyGenerateMissingCode))
      == (if Wanted(t.actionMethod, onlyGenerateMissingCode)
          then [ActionStub(className, stateName, t.eventName, t.instanceName)] else [])
         + (if Wanted(t.guardMethod, onlyGenerateMissingCode)
            then [GuardStub(className, stateName, t.eventName, t.instanceName)] else [])
  {
    var action := Written(Wanted(t.actionMethod, onlyGenerateMissingCode),
      ActionStub(className, stateName, t.eventName, t.instanceName));
    var guard := Written(Wanted(t.guardMethod, onlyGenerateMissingCode),
      GuardStub(className, stateName, t.eventName, t.instanceName));
    StubsAppend(action, guard);
    StubsWritten(Wanted(t.actionMethod, onlyGenerateMissingCode), ActionStub(className, stateName, t.eventName, t.instanceName));
    StubsWritten(Wanted(t.guardMethod, onlyGenerateMissingCode), GuardStub(className, stateName, t.eventName, t.instanceName));
  }

  /** A stub the builder may write for one of a state's transitions: an
      action or guard stub named after a transition of the state whose hook
      is wanted. */
  predicate FromTransition(className: string, v: StateView, onlyGenerateMissingCode: bool, stub: Stub) {
    match stub
    case ActionStub(c, s, e, i) =>
      c == className && s == v.name
      && (exists ev :: ev in v.transitions
            && v.transitions[ev].eventName == e && v.transitions[ev].instanceName == i
            && Wanted(v.transitions[ev].actionMethod, onlyGenerateMissingCode))
    case GuardStub(c, s, e, i) =>
      c == className && s == v.name
      && (exists ev :: ev in v.transitions
            && v.transitions[ev].eventName == e && v.transitions[ev].instanceName == i
            && Wanted(v.transitions[ev].guardMethod, onlyGenerateMissingCode))
    case _ => false
  }

  /** Every transition stub comes from a listed transition whose hook is wanted. */
  lemma {:induction false} TransitionPartsJustified(className: string, v: StateView, events: seq<string>,
                                                    onlyGenerateMissingCode: bool, stub: Stub)
    requires forall i :: 0 <= i < |events| ==> events[i] in v.transitions
    requires stub in Stubs(TransitionParts(className, v, events, onlyGenerateMissingCode))
    ensures FromTransition(className, v, onlyGenerateMissingCode, stub)
  {
    var init := events[..|events| - 1];
    var ev := events[|events| - 1];
    var t := v.transitions[ev];
    var pre := TransitionParts(className, v, init, onlyGenerateMissingCode);
    var last := TransitionStubs(className, v.name, t, onlyGenerateMissingCode);
    assert Stubs(TransitionParts(className, v, events, onlyGenerateMissingCode)) == Stubs(pre) + Stubs(last) by {
      StubsAppend(pre, last);
    }
    if stub in Stubs(pre) {
      TransitionPartsJustified(className, v, init, onlyGenerateMissingCode, stub);
    } else {
      TransitionStubsJustified(className, v, ev, onlyGenerateMissingCode, stub);
    }
  }

  /** A stub of one transition of a state comes from that transition. */
  lemma TransitionStubsJustified(className: string, v: StateView, ev: string, onlyGenerateMissingCode: bool, stub: Stub)
    requires ev in v.transitions
    requires stub in Stubs(TransitionStubs(className, v.name, v.transitions[ev], onlyGenerateMissingCode))
    ensures FromTransition(className, v, onlyGenerateMissingCode, stub)
  {
    var t := v.transitions[ev];
    TransitionStubsStubs(className, v.name, t, onlyGenerateMissingCode);
    if stub.ActionStub? {
      assert stub == ActionStub(className, v.name, t.eventName, t.instanceName);
      assert Wanted(v.transitions[ev].actionMethod, onlyGenerateMissingCode);
    } else {
      assert stub == GuardStub(className, v.name, t.eventName, t.instanceName);
      assert Wanted(v.transitions[ev].guardMethod, onlyGenerateMissingCode);
    }
  }

  /** Every wanted action and guard stub of the listed events is written. */
  lemma {:induction false} TransitionPartsComplete(className: string, v: StateView, events: seq<string>,
                                                   onlyGenerateMissingCode: bool, j: nat)
    requires forall i :: 0 <= i < |events| ==> events[i] in v.transitions
    requires j < |events|
    ensures var t := v.transitions[events[j]];
      var stubs := Stubs(TransitionParts(className, v, events, onlyGenerateMissingCode));
      && (Wanted(t.actionMethod, onlyGenerateMissingCode)
          ==> ActionStub(className, v.name, t.eventName, t.instanceName) in stubs)
      && (Wanted(t.guardMethod, onlyGenerateMissingCode)
          ==> GuardStub(className, v.name, t.eventName, t.instanceName) in stubs)
  {
    var init := events[..|events| - 1];
    var t := v.transitions[events[|events| - 1]];
    var pre := TransitionParts(className, v, init, onlyGenerateMissingCode);
    StubsAppend(pre, TransitionStubs(className, v.name, t, onlyGenerateMissingCode));
    TransitionStubsStubs(className, v.name, t, onlyGenerateMissingCode);
    if j < |events| - 1 {
      TransitionPartsComplete(className, v, init, onlyGenerateMissingCode, j);
      assert init[j] == events[j];
    }
  }

  /** The stubs a state asks for: its entry stub when wanted, its exit stub
      when wanted and the state is not final, and the stubs of its
      transitions when it is not final. */
  function StateStubs(className: string, deleteAtEnd: bool, v: StateView, onlyGenerateMissingCode: bool): seq<Stub>
    requires v.Listed()
  {
    (if Wanted(v.entryMethod, onlyGenerateMissingCode)
     then [EntryStub(className, v.name, deleteAtEnd && v.IsFinal())] else [])
    + (if Wanted(v.exitMethod, onlyGenerateMissingCode) && !v.IsFinal()
       then [ExitStub(className, v.name)] else [])
    + (if !v.IsFinal()
       then Stubs(TransitionParts(className, v, v.eventOrder, onlyGenerateMissingCode)) else [])
  }

  /** The stubs of a state's part are the ones it asks for. */
  lemma StatePartsStubs(className: string, deleteAtEnd: bool, v: StateView, onlyGenerateMissingCode: bool)
    requires v.Listed()
    ensures Stubs(StateParts(className, deleteAtEnd, v, onlyGenerateMissingCode))
      == StateStubs(className, deleteAtEnd, v, onlyGenerateMissingCode)
  {
    var heading := [Fixed("      // Implementation of State " + v.name + "\n\n")];
    var entry := Written(Wanted(v.entryMethod, onlyGenerateMissingCode),
      EntryStub(className, v.name, deleteAtEnd && v.IsFinal()));
    var exit := Written(Wanted(v.exitMethod, onlyGenerateMissingCode) && !v.IsFinal(), ExitStub(className, v.name));
    var nl := [Fixed("\n")];
    var trans := if !v.IsFinal()
      then TransitionParts(className, v, v.eventOrder, onlyGenerateMissingCode) + nl else [];
    var stubs := Stubs(StateParts(className, deleteAtEnd, v, onlyGenerateMissingCode));
    assert stubs == Stubs(heading) + Stubs(entry) + Stubs(exit) + Stubs(trans) + Stubs(nl) by {
      assert StateParts(className, deleteAtEnd, v, onlyGenerateMissingCode) == heading + entry + exit + trans + nl;
      StubsAppend(heading + entry + exit + trans, nl);
      StubsAppend(heading + entry + exit, trans);
      StubsAppend(heading + entry, exit);
      StubsAppend(heading, entry);
    }
    assert Stubs(heading) == [] by {
      StubsSingle(heading[0]);
    }
    assert Stubs(nl) == [] by {
      StubsSingle(nl[0]);
    }
    StubsWritten(Wanted(v.entryMethod, onlyGenerateMissingCode), EntryStub(className, v.name, deleteAtEnd && v.IsFinal()));
    StubsWritten(Wanted(v.exitMethod, onlyGenerateMissingCode) && !v.IsFinal(), ExitStub(className, v.name));
    assert Stubs(trans) == if !v.IsFinal() then Stubs(TransitionParts(className, v, v.eventOrder, onlyGenerateMissingCode)) else [] by {
      if !v.IsFinal() {
        StubsAppend(TransitionParts(className, v, v.eventOrder, onlyGenerateMissingCode), nl);
        StubsSingle(nl[0]);
      }
    }
  }

  /** A final state gets its entry stub (when wanted) and nothing else: no
      exit stub and no transition stubs. */
  lemma FinalStateOnlyEntry(className: string, deleteAtEnd: bool, v: StateView, onlyGenerateMissingCode: bool)
    requires v.Listed() && v.IsFinal()
    ensures Stubs(StateParts(className, deleteAtEnd, v, onlyGenerateMissingCode))
      == if Wanted(v.entryMethod, onlyGenerateMissingCode) then [EntryStub(className, v.name, deleteAtEnd)] else []
  {
    StatePartsStubs(className, deleteAtEnd, v, onlyGenerateMissingCode);
  }

  /** Why a stub may appear in a state's part: its entry stub when the entry
      hook is wanted (dereferencing exactly for an end state of a deleting
      table), its exit stub when the exit hook is wanted and the state is not
      final, and transition stubs only for a state that is not final. */
  predicate Justified(className: string, deleteAtEnd: bool, v: StateView, onlyGenerateMissingCode: bool, stub: Stub) {
    match stub
    case ClassStub(_) => false
    case EntryStub(c, s, d) =>
      c == className && s == v.name && Wanted(v.entryMethod, onlyGenerateMissingCode)
      && d == (deleteAtEnd && v.IsFinal())
    case ExitStub(c, s) =>
      c == className && s == v.name && Wanted(v.exitMethod, onlyGenerateMissingCode) && !v.IsFinal()
    case _ => !v.IsFinal() && FromTransition(className, v, onlyGenerateMissingCode, stub)
  }

  /** Nothing a state asks for is there without a reason. */
  lemma StateStubsJustified(className: string, deleteAtEnd: bool, v: StateView, onlyGenerateMissingCode: bool, stub: Stub)
    requires v.Listed()
    requires stub in StateStubs(className, deleteAtEnd, v, onlyGenerateMissingCode)
    ensures Justified(className, deleteAtEnd, v, onlyGenerateMissingCode, stub)
  {
    if !v.IsFinal() && stub in Stubs(TransitionParts(className, v, v.eventOrder, onlyGenerateMissingCode)) {
      TransitionPartsJustified(className, v, v.eventOrder, onlyGenerateMissingCode, stub);
    }
  }

  /** A state asks for every stub it wants: the entry stub, the exit stub
      of a state that is not final, and the action and guard stubs of each of
      its transitions when it is not final. */
  lemma StateStubsComplete(className: string, deleteAtEnd: bool, v: StateView, onlyGenerateMissingCode: bool)
    requires v.Listed()
    ensures var stubs := StateStubs(className, deleteAtEnd, v, onlyGenerateMissingCode);
      && (Wanted(v.entryMethod, onlyGenerateMissingCode)
          ==> EntryStub(className, v.name, deleteAtEnd && v.IsFinal()) in stubs)
      && (Wanted(v.exitMethod, onlyGenerateMissingCode) && !v.IsFinal()
          ==> ExitStub(className, v.name) in stubs)
      && (!v.IsFinal() ==> forall j :: 0 <= j < |v.eventOrder| ==>
            && (Wanted(v.transitions[v.eventOrder[j]].actionMethod, onlyGenerateMissingCode)
                ==> ActionStub(className, v.name, v.transitions[v.eventOrder[j]].eventName,
                               v.transitions[v.eventOrder[j]].instanceName) in stubs)
            && (Wanted(v.transitions[v.eventOrder[j]].guardMethod, onlyGenerateMissingCode)
                ==> GuardStub(className, v.name, v.transitions[v.eventOrder[j]].eventName,
                              v.transitions[v.eventOrder[j]].instanceName) in stubs))
  {
    forall j | 0 <= j < |v.eventOrder|
      ensures var t := v.transitions[v.eventOrder[j]];
        var stubs := Stubs(TransitionParts(className, v, v.eventOrder, onlyGenerateMissingCode));
        && (Wanted(t.actionMethod, onlyGenerateMissingCode)
            ==> ActionStub(className, v.name, t.eventName, t.instanceName) in stubs)
        && (Wanted(t.guardMethod, onlyGenerateMissingCode)
            ==> GuardStub(className, v.name, t.eventName, t.instanceName) in stubs)
    {
      TransitionPartsComplete(className, v, v.eventOrder, onlyGenerateMissingCode, j);
    }
  }

  /** The stubs the given states ask for, state by state. */
  function StatesStubs(className: string, deleteAtEnd: bool, vs: seq<StateView>, onlyGenerateMissingCode: bool): seq<Stub>
    requires AllListed(vs)
  {
    if vs == [] then []
    else
      StatesStubs(className, deleteAtEnd, vs[..|vs| - 1], onlyGenerateMissingCode)
      + StateStubs(className, deleteAtEnd, vs[|vs| - 1], onlyGenerateMissingCode)
  }

  /** The stubs of the states' parts are the ones the states ask for. */
  lemma {:induction false} StatesPartsStubs(className: string, deleteAtEnd: bool, vs: seq<StateView>,
                                            onlyGenerateMissingCode: bool)
    requires AllListed(vs)
    ensures Stubs(StatesParts(className, deleteAtEnd, vs, onlyGenerateMissingCode))
      == StatesStubs(className, deleteAtEnd, vs, onlyGenerateMissingCode)
  {
    if vs != [] {
      var init := vs[..|vs| - 1];
      var last := vs[|vs| - 1];
      StubsAppend(StatesParts(className, deleteAtEnd, init, onlyGenerateMissingCode),
                  StateParts(className, deleteAtEnd, last, onlyGenerateMissingCode));
      StatePartsStubs(className, deleteAtEnd, last, onlyGenerateMissingCode);
      StatesPartsStubs(className, deleteAtEnd, init, onlyGenerateMissingCode);
    }
  }

  /** A stub the states ask for is asked for by one of them. */
  lemma {:induction false} StatesStubsFrom(className: string, deleteAtEnd: bool, vs: seq<StateView>,
                                           onlyGenerateMissingCode: bool, stub: Stub) returns (k: nat)
    requires AllListed(vs)
    requires stub in StatesStubs(className, deleteAtEnd, vs, onlyGenerateMissingCode)
    ensures k < |vs| && stub in StateStubs(className, deleteAtEnd, vs[k], onlyGenerateMissingCode)
  {
    var init := vs[..|vs| - 1];
    if stub in StatesStubs(className, deleteAtEnd, init, onlyGenerateMissingCode) {
      k := StatesStubsFrom(className, deleteAtEnd, init, onlyGenerateMissingCode, stub);
      assert init[k] == vs[k];
    } else {
      k := |vs| - 1;
    }
  }

  /** What one state asks for, the states ask for. */
  lemma {:induction false} StatesStubsHas(className: string, deleteAtEnd: bool, vs: seq<StateView>,
                                          onlyGenerateMissingCode: bool, k: nat, stub: Stub)
    requires AllListed(vs) && k < |vs|
    requires stub in StateStubs(className, deleteAtEnd, vs[k], onlyGenerateMissingCode)
    ensures stub in StatesStubs(className, deleteAtEnd, vs, onlyGenerateMissingCode)
  {
    var init := vs[..|vs| - 1];
    if k < |vs| - 1 {
      assert init[k] == vs[k];
      StatesStubsHas(className, deleteAtEnd, init, onlyGenerateMissingCode, k, stub);
    }
  }

  /** The stubs of the whole generated code: the class stub when wanted,
      then those of the states' parts. */
  lemma GeneratedStubs(className: string, deleteAtEnd: bool, omClass: Option<BusinessClass>, vs: seq<StateView>,
                       timestamp: string, onlyGenerateMissingCode: bool)
    requires AllListed(vs)
    ensures Stubs(Generated(className, deleteAtEnd, omClass, vs, timestamp, onlyGenerateMissingCode))
      == (if omClass.None? || onlyGenerateMissingCode then [ClassStub(className)] else [])
         + StatesStubs(className, deleteAtEnd, vs, onlyGenerateMissingCode)
  {
    var header := [Fixed(Header(className, timestamp))];
    var cls := Written(omClass.None? || onlyGenerateMissingCode, ClassStub(className));
    var body := StatesParts(className, deleteAtEnd, vs, onlyGenerateMissingCode);
    var close := if omClass.None? then [Fixed("}\n\n")] else [];
    var stubs := Stubs(Generated(className, deleteAtEnd, omClass, vs, timestamp, onlyGenerateMissingCode));
    assert stubs == Stubs(header) + Stubs(cls) + Stubs(body) + Stubs(close) by {
      assert Generated(className, deleteAtEnd, omClass, vs, timestamp, onlyGenerateMissingCode)
        == header + cls + body + close;
      StubsAppend(header + cls + body, close);
      StubsAppend(header + cls, body);
      StubsAppend(header, cls);
    }
    assert Stubs(header) == [] by {
      StubsSingle(header[0]);
    }
    assert Stubs(close) == [] by {
      if omClass.None? {
        StubsSingle(close[0]);
      }
    }
    StubsWritten(omClass.None? || onlyGenerateMissingCode, ClassStub(className));
    StatesPartsStubs(className, deleteAtEnd, vs, onlyGenerateMissingCode);
  }

  /** The class stub is written exactly when the business class is missing
      or onlyGenerateMissingCode is set; no state's part holds one. */
  lemma ClassStubIffWanted(className: string, deleteAtEnd: bool, omClass: Option<BusinessClass>, vs: seq<StateView>,
                           timestamp: string, onlyGenerateMissingCode: bool, name: string)
    requires AllListed(vs)
    ensures ClassStub(name) in Stubs(Generated(className, deleteAtEnd, omClass, vs, timestamp, onlyGenerateMissingCode))
      <==> name == className && (omClass.None? || onlyGenerateMissingCode)
  {
    GeneratedStubs(className, deleteAtEnd, omClass, vs, timestamp, onlyGenerateMissingCode);
    if ClassStub(name) in StatesStubs(className, deleteAtEnd, vs, onlyGenerateMissingCode) {
      var k := StatesStubsFrom(className, deleteAtEnd, vs, onlyGenerateMissingCode, ClassStub(name));
      StateStubsJustified(className, deleteAtEnd, vs[k], onlyGenerateMissingCode, ClassStub(name));
    }
  }

  /** Every hook stub in the generated code belongs to one of the table's
      states and is justified by it. */
  lemma GeneratedJustified(className: string, deleteAtEnd: bool, omClass: Option<BusinessClass>, vs: seq<StateView>,
                           timestamp: string, onlyGenerateMissingCode: bool, stub: Stub)
    requires AllListed(vs)
    requires stub in Stubs(Generated(className, deleteAtEnd, omClass, vs, timestamp, onlyGenerateMissingCode))
    requires !stub.ClassStub?
    ensures exists k :: 0 <= k < |vs| && Justified(className, deleteAtEnd, vs[k], onlyGenerateMissingCode, stub)
  {
    GeneratedStubs(className, deleteAtEnd, omClass, vs, timestamp, onlyGenerateMissingCode);
    var k := StatesStubsFrom(className, deleteAtEnd, vs, onlyGenerateMissingCode, stub);
    StateStubsJustified(className, deleteAtEnd, vs[k], onlyGenerateMissingCode, stub);
  }

  /** Every stub a state asks for is in the generated code. */
  lemma GeneratedComplete(className: string, deleteAtEnd: bool, omClass: Option<BusinessClass>, vs: seq<StateView>,
                          timestamp: string, onlyGenerateMissingCode: bool, k: nat, stub: Stub)
    requires AllListed(vs) && k < |vs|
    requires stub in StateStubs(className, deleteAtEnd, vs[k], onlyGenerateMissingCode)
    ensures stub in Stubs(Generated(className, deleteAtEnd, omClass, vs, timestamp, onlyGenerateMissingCode))
  {
    GeneratedStubs(className, deleteAtEnd, omClass, vs, timestamp, onlyGenerateMissingCode);
    StatesStubsHas(className, deleteAtEnd, vs, onlyGenerateMissingCode, k, stub);
  }

  /** When the business class exists and already has every hook, generating
      only the missing code writes no stub at all. */
  lemma NothingMissingNothingWritten(className: string, deleteAtEnd: bool, omClass: Option<BusinessClass>,
                                     vs: seq<StateView>, timestamp: string)
    requires AllListed(vs) && omClass.Some?
    requires forall k :: 0 <= k < |vs| ==> vs[k].entryMethod.Some? && vs[k].exitMethod.Some?
    requires forall k, ev :: 0 <= k < |vs| && ev in vs[k].transitions ==>
      vs[k].transitions[ev].actionMethod.Some? && vs[k].transitions[ev].guardMethod.Some?
    ensures Stubs(Generated(className, deleteAtEnd, omClass, vs, timestamp, false)) == []
  {
    var stubs := Stubs(Generated(className, deleteAtEnd, omClass, vs, timestamp, false));
    if stubs != [] {
      var stub := stubs[0];
      ClassStubIffWanted(className, deleteAtEnd, omClass, vs, timestamp, false, stub.className);
      assert !stub.ClassStub?;
      GeneratedJustified(className, deleteAtEnd, omClass, vs, timestamp, false, stub);
      assert false;
    }
  }

  /** The generated code ends with the closing brace of the class exactly when
      the business class is missing: otherwise it ends with a state's blank
      line, or with the class stub or the header when there are no states. */
  lemma ClosingBraceIffMissing(className: string, deleteAtEnd: bool, omClass: Option<BusinessClass>,
                               vs: seq<StateView>, timestamp: string, onlyGenerateMissingCode: bool)
    requires AllListed(vs)
    ensures var g := Generated(className, deleteAtEnd, omClass, vs, timestamp, onlyGenerateMissingCode);
      g[|g| - 1] == Fixed("}\n\n") <==> omClass.None?
  {
    var body := StatesParts(className, deleteAtEnd, vs, onlyGenerateMissingCode);
    if vs != [] {
      var here := StateParts(className, deleteAtEnd, vs[|vs| - 1], onlyGenerateMissingCode);
      assert body[|body| - 1] == here[|here| - 1] == Fixed("\n");
    }
  }

  /** The text of some parts starts with the text of any prefix of them: a
      writer only ever appends to the builder. */
  lemma RenderExtends(a: seq<Part>, b: seq<Part>)
    ensures Render(a) <= Render(a + b)
    ensures Render(a + b)[|Render(a)|..] == Render(b)
  {
    RenderAppend(a, b);
  }

  /** The generated code starts with the header line. */
  lemma HeaderFirst(className: string, deleteAtEnd: bool, omClass: Option<BusinessClass>, vs: seq<StateView>,
                    timestamp: string, onlyGenerateMissingCode: bool)
    requires AllListed(vs)
    ensures Header(className, timestamp)
      <= Render(Generated(className, deleteAtEnd, omClass, vs, timestamp, onlyGenerateMissingCode))
  {
    var g := Generated(className, deleteAtEnd, omClass, vs, timestamp, onlyGenerateMissingCode);
    assert g == [g[0]] + g[1..];
    RenderExtends([g[0]], g[1..]);
    RenderSnoc([], g[0]);
    assert [] + [g[0]] == [g[0]];
  }

  /** Some text occurs in another at a position. */
  predicate OccursAt(text: string, piece: string, i: int) {
    0 <= i <= |text| - |piece| && text[i..i + |piece|] == piece
  }

  /** Appending keeps every occurrence, and what is appended occurs at the end
      of what was there. */
  lemma OccursAfterAppend(a: string, b: string, piece: string, i: int)
    ensures OccursAt(a, piece, i) ==> OccursAt(a + b, piece, i)
    ensures OccursAt(a + b, b, |a|)
  {
    if OccursAt(a, piece, i) {
      assert (a + b)[i..i + |piece|] == a[i..i + |piece|];
    }
    assert (a + b)[|a|..|a| + |b|] == b;
  }

  /** A stub among the parts is the stub of one of them. */
  lemma {:induction false} StubAt(parts: seq<Part>, stub: Stub) returns (k: nat)
    requires stub in Stubs(parts)
    ensures k < |parts| && parts[k] == Code(stub)
  {
    var init := parts[..|parts| - 1];
    if stub in Stubs(init) {
      k := StubAt(init, stub);
    } else {
      k := |parts| - 1;
    }
  }

  /** The text of every part occurs, whole, in the text of the parts. */
  lemma {:induction false} PartRendered(parts: seq<Part>, k: nat) returns (i: int)
    requires k < |parts|
    ensures OccursAt(Render(parts), PartText(parts[k]), i)
  {
    var init := parts[..|parts| - 1];
    var text := PartText(parts[|parts| - 1]);
    assert Render(parts) == Render(init) + text;
    if k < |parts| - 1 {
      i := PartRendered(init, k);
      assert init[k] == parts[k];
      OccursAfterAppend(Render(init), text, PartText(parts[k]), i);
    } else {
      i := |Render(init)|;
      OccursAfterAppend(Render(init), text, text, i);
    }
  }

  /** The text of every stub among the parts occurs, whole, in their text. */
  lemma StubRendered(parts: seq<Part>, stub: Stub) returns (i: int)
    requires stub in Stubs(parts)
    ensures OccursAt(Render(parts), StubCode(stub), i)
  {
    var k := StubAt(parts, stub);
    i := PartRendered(parts, k);
  }

  /** The default guard stub lets every event through: its body ends by
      returning true. */
  lemma GuardStubReturnsTrue(stub: Stub)
    requires stub.GuardStub?
    ensures var code := StubCode(stub);
      var ending := "         return true;\n      }\n";
      |ending| <= |code| && code[|code| - |ending|..] == ending
  {
    var ending := "         return true;\n      }\n";
    var before := Banner(stub) + Signature(stub) + "      {\n" + LogLine(stub);
    assert StubCode(stub) == before + ending;
  }
}
