# A verified model of the TestFSM finite-state-machine runtime

TestFSM drives business objects (a CD player, an actor, ...) through state
transition tables. This project models four parts of it in Dafny and proves
their properties:

- **The runtime** (`fsm.dfy`, module `FiniteStateMachine`):
  - the state transition table `FSM_STT` (class `Table`) and its registry keyed by class name (`TableRegistry`);
  - the states `STT_State` (class `State`) with their transitions keyed by event name;
  - the immutable transitions `STT_Transition` (datatype `Transition`) and events `FSM_Event` (datatype `Event`);
  - the running machines `FSM` (class `Machine`) and their registry keyed by `Class:id` (`MachineRegistry`).
- **The importer** (`importer.dfy`, module `Importer`): `FSM_FileImporter`, which builds a table from the lines of a state-machine description file.
- **The stub generator** (`code_builder.dfy`, module `CodeBuilder`): `FSM_CodeBuilder`, which writes the C# hook stubs a business class needs for a table.
- **String helpers** (`text.dfy`, module `Text`): the .NET string calls the importer relies on (`Split`, `Trim`, `Replace`, `Concat`).
- **Fixtures** (`scenarios.dfy`, module `Scenarios`): the CDPLAYER and ACTOR tables of the sample form, driven through the runtime.

How the source's mechanisms are represented:

- **Reflection.** Binding by reflection is replaced by values. A business class is the set of its method names (`BusinessClass`). A hook is bound when that set holds the conventional name (`S__onEntry`, `S__onExit`, `S__e`, `S__eGuard`). `Type.GetType` becomes a `ClassLookup` parameter.
- **Hooks and guards.** Running a hook appends a `HookRun` to a returned trace, so the exit, action, entry order can be stated. A guard's body is an oracle that returns a bool or throws; a throw counts as false.
- **Updates in place.** Objects the source updates in place are classes with `modifies` clauses: tables, states, machines, the registries and the code buffer. The two static dictionaries become registry objects passed explicitly.
- **Enumeration order.** A `HashSet`/`Dictionary` that is only ever added to enumerates in insertion order. The model therefore keeps `statesList` as a sequence, and a state's transitions as a map plus the sequence of their event names.
- **The stub generator's buffer.** The `StringBuilder` becomes a `CodeBuffer` holding a sequence of parts: fixed text, or one hook stub. Its text is the concatenation of their renderings. What is generated is stated by the pure function `Generated` over a snapshot (`StateView`) of each state, and the lemmas about which stubs appear are proved about that function.

Where the repository's design description and its code differ, the model follows the code:

- **`addState`** adds a state even when the name is taken (`FSM_STT.cs:193-197`).
- **Duplicate table name.** A table whose class name is already registered is still built and returned, just not registered (`FSM_STT.cs:161-165`).
- **Hook binding** happens once, when the state or transition is constructed (`STT_State.cs:104-108`, `STT_Transition.cs:49-55`), not on first use.
- **Transitions in a description file** are not applied, so the importer adds states only (`FSM_FileImporter.cs:128-130`).
- **An incomplete header** stops the import (and, as written, crashes it; see Findings). It is not reported line by line.

Two signature mismatches between the shown files are resolved as follows:

- `FSM.cs:222` calls `checkEvent()` with no argument, but `FSM_Event.cs:67` takes the target machine. The model passes the machine itself.
- The importer calls a three-argument table constructor and two annotation setters (`FSM_FileImporter.cs:80,168,173`) that the shown `FSM_STT.cs`/`STT_State.cs` lack. The table carries a version string ("" for tables built in code), and states carry two optional annotations.

## Model

| member | source | states |
|---|---|---|
| FiniteStateMachine.Bind | TestFSM/FiniteStateMachine/STT_State.cs:263-283 | a hook is bound iff the business class resolved and declares a method of exactly the conventional name, and then it is that name |
| FiniteStateMachine.NewEvent | TestFSM/FiniteStateMachine/FSM_Event.cs:40-44 | name, source and destination are the constructor's arguments; the data bundle starts empty |
| FiniteStateMachine.NewEventWithBundle | TestFSM/FiniteStateMachine/FSM_Event.cs:53-59 | the four-argument constructor keeps the given bundle |
| FiniteStateMachine.AddBundle | TestFSM/FiniteStateMachine/FSM_Event.cs:90-92 | the bundle is replaced wholesale; name, source and destination are untouched |
| FiniteStateMachine.CheckEventAsWritten | TestFSM/FiniteStateMachine/FSM_Event.cs:67-82 | as written, a null destination dereferences null (exactly when the destination is null); otherwise the answer is "addressed to fsm and the name is in its table's event set" |
| FiniteStateMachine.CheckEvent | TestFSM/FiniteStateMachine/FSM_Event.cs:67-82 | true iff the event is addressed to fsm (so not null) and its name is an event of fsm's table |
| FiniteStateMachine.CheckEventAgrees | TestFSM/FiniteStateMachine/FSM_Event.cs:70-79 | wherever the code as written does not crash, the corrected check gives its answer; a null destination is rejected |
| FiniteStateMachine.ExecBoolMethodWithEvent | TestFSM/FiniteStateMachine/STT_State.cs:189-202 | a guard allows iff its body returns true; a guard that throws refuses |
| FiniteStateMachine.NewTransition | TestFSM/FiniteStateMachine/STT_Transition.cs:49-86 | source, event and target are the arguments; instanceName is from + "__" + event + "__" + to; the guard binds only to from__eventGuard and the action only to from__event, each only when the class resolved |
| FiniteStateMachine.UnresolvedClassBindsNothing | TestFSM/FiniteStateMachine/STT_Transition.cs:64 | with no business class a transition is unguarded and uses the default action |
| FiniteStateMachine.Table.constructor | TestFSM/FiniteStateMachine/FSM_STT.cs:157-166 | class name and namespace as given, no states, no events, no initial state, delete flag false, task model per instance, business class resolved by bare then qualified name |
| FiniteStateMachine.Table.AddToEventsList | TestFSM/FiniteStateMachine/FSM_STT.cs:107-109 | the event set becomes the old one plus the name: it only grows, and re-adding is a no-op |
| FiniteStateMachine.Table.SetDeleteWhenEndStateReached | TestFSM/FiniteStateMachine/FSM_STT.cs:121-123 | the flag is set, and this method changes nothing else (no method clears it) |
| FiniteStateMachine.Table.SetTaskModel | TestFSM/FiniteStateMachine/FSM_STT.cs:76-78 | the task model is overwritten with the argument |
| FiniteStateMachine.Table.SetInitialState | TestFSM/FiniteStateMachine/FSM_STT.cs:173-177 | the argument is stored unchecked |
| FiniteStateMachine.Table.AddState | TestFSM/FiniteStateMachine/FSM_STT.cs:193-197 | exactly one fresh state, named as given, owned by this table, with no transitions, is appended, even when the name is taken; nothing else changes |
| FiniteStateMachine.TableRegistry.constructor | TestFSM/FiniteStateMachine/FSM_STT.cs:48 | the registry starts empty |
| FiniteStateMachine.TableRegistry.NewTable | TestFSM/FiniteStateMachine/FSM_STT.cs:157-166 | a new table is always built; it is registered under its class name unless the name is taken, in which case the first table stays registered |
| FiniteStateMachine.TableRegistry.FindByRefClassName | TestFSM/FiniteStateMachine/FSM_STT.cs:141-143 | the registered table for a present name, null for an absent one |
| FiniteStateMachine.State.constructor | TestFSM/FiniteStateMachine/STT_State.cs:104-108 | entry and exit hooks bind only to Name__onEntry / Name__onExit and only when the class resolved; no transitions |
| FiniteStateMachine.State.IsFinal | TestFSM/FiniteStateMachine/STT_State.cs:72-78 | final iff the state has no outgoing transition |
| FiniteStateMachine.State.AddTransition | TestFSM/FiniteStateMachine/STT_State.cs:86-93 | the event always joins the table's event set; an existing transition for the event is kept and the new one ignored; otherwise the new transition is added and listed last |
| FiniteStateMachine.State.SetOnEntryAnnotation | ObjectModel/FSM_FileImporter.cs:168 | the entry annotation is the given text |
| FiniteStateMachine.State.SetOnExitAnnotation | ObjectModel/FSM_FileImporter.cs:173 | the exit annotation is the given text |
| FiniteStateMachine.State.TestEvent | TestFSM/FiniteStateMachine/STT_State.cs:117-138 | the next state is the one takeEvent reaches; at most the guard runs |
| FiniteStateMachine.State.TakeEvent | TestFSM/FiniteStateMachine/STT_State.cs:149-180 | the next state and the hooks run are those of the transition engine (NextState, TakeTrace) |
| FiniteStateMachine.State.ExecuteTransition | TestFSM/FiniteStateMachine/STT_State.cs:239-258 | runs exactly the source's exit, the transition's action and the target's entry, in that order, each bound or default |
| FiniteStateMachine.IgnoredEvent | TestFSM/FiniteStateMachine/STT_State.cs:173-178 | an event with no transition leaves the state unchanged and runs no hook |
| FiniteStateMachine.FinalStateStays | TestFSM/FiniteStateMachine/STT_State.cs:149-180 | a final state never moves and never runs a hook |
| FiniteStateMachine.GuardRefusal | TestFSM/FiniteStateMachine/STT_State.cs:163-171 | a guard that refuses or throws keeps the state; only the guard ran, no exit, action or entry |
| FiniteStateMachine.FiringOrder | TestFSM/FiniteStateMachine/STT_State.cs:160-166 | an unguarded or allowed transition reaches its target, and the trace ends with exit of the source, action of the transition, entry of the target, after at most the guard |
| FiniteStateMachine.TestAgreesWithTake | TestFSM/FiniteStateMachine/STT_State.cs:117-138 | what testEvent runs is a prefix of what takeEvent runs and holds no exit, action or entry hook |
| FiniteStateMachine.Machine.constructor | TestFSM/FiniteStateMachine/FSM.cs:80-86 | name, table and registered instance as given; no current state yet |
| FiniteStateMachine.Machine.Initialise | TestFSM/FiniteStateMachine/FSM.cs:187-202 | the current state becomes the table's initial state and its entry hook runs once, with a "start" event the machine sends itself |
| FiniteStateMachine.Machine.InitialiseWithEvent | TestFSM/FiniteStateMachine/FSM.cs:168-181 | the same, with the caller's event |
| FiniteStateMachine.Machine.TakeEvent | TestFSM/FiniteStateMachine/FSM.cs:219-229 | a rejected event leaves the state and runs nothing; an accepted one moves to where the current state's takeEvent goes, with its hooks; the current state equals the returned state. The test is the corrected check, so an event with a null destination is rejected where the source throws (see Findings) |
| FiniteStateMachine.CreateAndSendEvent | TestFSM/FiniteStateMachine/FSM.cs:156-159 | an event addressed to the machine is built and delivered: the machine moves as takeEvent says when the name is an event of its table, and stays otherwise |
| FiniteStateMachine.MachineRegistry.constructor | TestFSM/FiniteStateMachine/FSM.cs:66 | the registry starts empty |
| FiniteStateMachine.MachineRegistry.CreateMachine | TestFSM/FiniteStateMachine/FSM.cs:80-93 | fails and registers nothing if the instance's class is not the table's or "Class:id" is taken; otherwise registers a fresh machine named "Class:id" and nothing else |
| FiniteStateMachine.MachineRegistry.RemoveFromInstanceList | TestFSM/FiniteStateMachine/FSM.cs:107-109 | only that machine's name is removed |
| FiniteStateMachine.MachineRegistry.FindByFSMName | TestFSM/FiniteStateMachine/FSM.cs:118-126 | the registered machine for a present name, null for an absent one |
| FiniteStateMachine.MachineRegistry.FindByRegisteredInstance | TestFSM/FiniteStateMachine/FSM.cs:134-147 | a registered machine bound to the instance, or null exactly when no registered machine is bound to it |
| Text.Split | ObjectModel/FSM_FileImporter.cs:117 | at least one piece, none containing the separator |
| Text.JoinSplit | ObjectModel/FSM_FileImporter.cs:117 | joining the pieces with the separator gives back the input: splitting loses nothing |
| Text.SplitWithoutSeparator | ObjectModel/FSM_FileImporter.cs:124 | a string without the separator is a single piece |
| Text.SplitAtFirst | ObjectModel/FSM_FileImporter.cs:124 | the first separator ends the first piece and the rest is split on its own |
| Text.SplitCount | ObjectModel/FSM_FileImporter.cs:117 | there is one more piece than there are separators |
| Text.Concat | ObjectModel/FSM_FileImporter.cs:115 | no parts concatenate to the empty string |
| Text.ConcatAppend | ObjectModel/FSM_FileImporter.cs:115 | concatenating two runs of parts is concatenating each and joining the results, so every part's text follows that of the parts before it |
| Text.Remove | ObjectModel/FSM_FileImporter.cs:140 | String.Replace of a character by "": no occurrence is left and exactly the occurrences are dropped |
| Text.RemoveAbsent | ObjectModel/FSM_FileImporter.cs:140 | removing a character that does not occur changes nothing |
| Text.RemoveAppend | ObjectModel/FSM_FileImporter.cs:189 | removal works piece by piece over a concatenation |
| Text.TrimStart | ObjectModel/FSM_FileImporter.cs:51 | a suffix of the input that does not start with white space, and every character dropped before it is white space |
| Text.TrimEnd | ObjectModel/FSM_FileImporter.cs:51 | a prefix of the input that does not end with white space, and every character dropped after it is white space |
| Text.Trim | ObjectModel/FSM_FileImporter.cs:51 | TrimEnd after TrimStart, so only white space is dropped, from either end; no white space at either end of the result, no longer than the input, and a string already trimmed is unchanged |
| Text.TrimWhiteAppended | ObjectModel/FSM_FileImporter.cs:51 | appending a white-space character leaves the trimmed text unchanged |
| Text.TrimAddsNothing | ObjectModel/FSM_FileImporter.cs:140 | trimming introduces no character |
| Text.TrimIdempotent | ObjectModel/FSM_FileImporter.cs:51 | trimming twice is trimming once |
| Importer.HeaderBodyPartition | ObjectModel/FSM_FileImporter.cs:200-211 | every line goes to exactly one list: the two lists together are as long as the input, every header entry starts with '#', no body entry does, and every entry ends with "\r\n" |
| Importer.HeaderBodySelect | ObjectModel/FSM_FileImporter.cs:200-211 | the header list is exactly the lines starting with '#', and the body list exactly the others, each in input order and each entry its input line with "\r\n" appended |
| Importer.SplitHeaderAndBody | ObjectModel/FSM_FileImporter.cs:200-211 | the loop fills the header and body lists that HeaderLines and BodyLines describe |
| Importer.DirectiveValue | ObjectModel/FSM_FileImporter.cs:49-51 | a non-empty value comes from a line starting with the key; the value is trimmed and holds no line feed |
| Importer.DirectiveValueOf | ObjectModel/FSM_FileImporter.cs:49-51 | on "KEY" followed by a text without line feed, bare, with a final "\n" or with the "\r\n" the partition appends, the value is that text trimmed |
| Importer.DirectiveValueRest | ObjectModel/FSM_FileImporter.cs:49-51 | "$" matches at the end or before one final line feed: the value of "KEY" + text, with or without that line feed, is the text trimmed |
| Importer.DirectiveValueCrLf | ObjectModel/FSM_FileImporter.cs:49-51 | on a header line ending in "\r\n" the value is the trimmed text before it: the "\r" is dropped as white space |
| Importer.FirstValueEmpty | ObjectModel/FSM_FileImporter.cs:46-73 | with no header line giving a non-empty value, the value stays "" |
| Importer.FirstValueWins | ObjectModel/FSM_FileImporter.cs:46-73 | the first header line giving a non-empty value for a key decides it |
| Importer.CreateSTT | ObjectModel/FSM_FileImporter.cs:37-81 | no table, and no registration, when any of the three values is empty; otherwise a table built from the first values and registered as the table constructor registers |
| Importer.RequoteSplit | ObjectModel/FSM_FileImporter.cs:185-193 | rebuilding the pieces between quotes, even pieces without spaces and odd ones requoted, is the character-wise reading |
| Importer.RequoteSplitOther | ObjectModel/FSM_FileImporter.cs:185-193 | the same, for a string that does not start with a quote |
| Importer.UnquotedLine | ObjectModel/FSM_FileImporter.cs:189 | a line without quotes just loses its spaces |
| Importer.QuotedTextVerbatim | ObjectModel/FSM_FileImporter.cs:192 | inside an open quoted span nothing is dropped |
| Importer.KeepsOtherCharacters | ObjectModel/FSM_FileImporter.cs:182-198 | every character other than a space or a quote is kept as often as it occurs, line breaks included |
| Importer.ReplaceSpacesOutsideStrings | ObjectModel/FSM_FileImporter.cs:182-198 | the loop's result is the input with the spaces outside quoted spans removed |
| Importer.DeclName | ObjectModel/FSM_FileImporter.cs:138-140 | a state name holds no quote |
| Importer.DeclarationParts | ObjectModel/FSM_FileImporter.cs:138-143 | the name is the text before the first ':', trimmed, quotes removed; the annotation is only the text between the first and second ':', trimmed; no ':' means no annotation |
| Importer.KeywordEnd | ObjectModel/FSM_FileImporter.cs:165 | a match has "E" or "e" and the stem at i, and ends right after a separator that follows the stem directly or after "()"; a stem followed directly by a separator always matches |
| Importer.HintStart | ObjectModel/FSM_FileImporter.cs:165 | the leftmost match from i: None exactly when no position from i has a keyword match, otherwise the end of the match at the first position that has one |
| Importer.UpToLineFeed | ObjectModel/FSM_FileImporter.cs:165 | the group "(.*)" is the longest prefix without a line feed: it stops at the first line feed or at the end |
| Importer.WholeLine | ObjectModel/FSM_FileImporter.cs:165 | a text without a line feed is taken whole |
| Importer.HintText | ObjectModel/FSM_FileImporter.cs:165-166 | "" when the pattern does not match; otherwise the trimmed group, the text from the leftmost match's end up to the next line feed; it is trimmed and holds no line feed |
| Importer.Declared | ObjectModel/FSM_FileImporter.cs:144 | reserved names only ever drop declarations |
| Importer.DeclaredAppend | ObjectModel/FSM_FileImporter.cs:136-144 | declarations are read independently of each other |
| Importer.PlainDeclarations | ObjectModel/FSM_FileImporter.cs:144-152 | every declaration with a non-reserved name, empty or repeated, creates one state |
| Importer.ReservedDeclarations | ObjectModel/FSM_FileImporter.cs:144 | "initial" and "final" create no state |
| Importer.EntryKeywordExample | ObjectModel/FSM_FileImporter.cs:165 | in "onEntry/startMotor" the optional "on" is passed over and the group starts after the '/' |
| Importer.HintFound | ObjectModel/FSM_FileImporter.cs:165-169 | a matched keyword followed by one line of trimmed text yields the prefixed hint |
| Importer.EntryHintExample | ObjectModel/FSM_FileImporter.cs:165-169 | "onEntry/startMotor" yields "// implement onEntry() action hint: startMotor" |
| Importer.MissingSeparatorExample | ObjectModel/FSM_FileImporter.cs:170-174 | "Exit" without a separator sets no hint |
| Importer.AddStatesFromArray | ObjectModel/FSM_FileImporter.cs:134-180 | the table's states become the old ones followed by one fresh state per non-reserved declaration, named and annotated as declared |
| Importer.AddStates | ObjectModel/FSM_FileImporter.cs:136-179 | the addState calls and hint setters, one declaration at a time, append exactly those states |
| Importer.ExtractAndAddStatesToSTTStates | ObjectModel/FSM_FileImporter.cs:103-132 | only the state list before the first ';' adds states; the transition segments add nothing |
| Importer.StripBodyLines | ObjectModel/FSM_FileImporter.cs:108-115 | the body as one string, each line with the spaces outside quotes removed |
| Importer.SMCatImport | ObjectModel/FSM_FileImporter.cs:19-35 | corrected: no table and no change when the header is incomplete; otherwise the registered table from the header holding exactly the declared states |
| Importer.SMCatImportAsWritten | ObjectModel/FSM_FileImporter.cs:19-35 | as written: an incomplete header with at least one declared state dereferences the null table |
| Importer.HeaderOnlyBody | ObjectModel/FSM_FileImporter.cs:200-211 | a file of header lines only has an empty body |
| Importer.EmptyBodyDeclaresOneState | ObjectModel/FSM_FileImporter.cs:117-126 | an empty body still declares one state, named "" |
| Importer.HeaderOnlyFileCrashes | ObjectModel/FSM_FileImporter.cs:30-32 | a header-only file with an incomplete header crashes the import as written |
| Importer.EmptyFileCrashes | ObjectModel/FSM_FileImporter.cs:30-32 | the empty file crashes the import as written |
| CodeBuilder.Lower | TestFSM/FiniteStateMachine/FSM_CodeBuilder.cs:238 | same length, no upper-case ASCII letter left: each upper-case ASCII letter becomes its lower-case letter and every other character is kept |
| CodeBuilder.LowerIdempotent | TestFSM/FiniteStateMachine/FSM_CodeBuilder.cs:238 | lowering twice is lowering once |
| CodeBuilder.DeclaresHook | TestFSM/FiniteStateMachine/FSM_CodeBuilder.cs:284-285 | a stub declares the method State__onEntry, State__onExit, State__event or State__eventGuard right after its banner |
| CodeBuilder.DereferenceOnlyWhenAsked | TestFSM/FiniteStateMachine/FSM_CodeBuilder.cs:290-293 | the entry stub calls this.dereferenceFSM() iff asked to, i.e. iff the delete flag is set and the state is final |
| CodeBuilder.RenderAppend | TestFSM/FiniteStateMachine/FSM_CodeBuilder.cs:180-218 | the text of appended parts is the concatenation of their texts |
| CodeBuilder.StubsAppend | TestFSM/FiniteStateMachine/FSM_CodeBuilder.cs:180-218 | the stubs of appended parts are the concatenation of their stubs |
| CodeBuilder.RenderSnoc | TestFSM/FiniteStateMachine/FSM_CodeBuilder.cs:190 | appending one part appends its text |
| CodeBuilder.CodeBuffer.constructor | TestFSM/FiniteStateMachine/FSM_CodeBuilder.cs:181 | the buffer starts with the given text |
| CodeBuilder.CodeBuffer.Append | TestFSM/FiniteStateMachine/FSM_CodeBuilder.cs:190 | appends the text and keeps the earlier contents as a prefix |
| CodeBuilder.CodeBuffer.AppendStub | TestFSM/FiniteStateMachine/FSM_CodeBuilder.cs:186 | appends one stub and keeps the earlier contents as a prefix |
| CodeBuilder.WriteClassCode | TestFSM/FiniteStateMachine/FSM_CodeBuilder.cs:229-271 | appends the class skeleton for the table's class name |
| CodeBuilder.WriteOnEntryMethodCode | TestFSM/FiniteStateMachine/FSM_CodeBuilder.cs:282-295 | appends the entry stub, dereferencing iff the delete flag is set and the state is final |
| CodeBuilder.WriteOnExitMethodCode | TestFSM/FiniteStateMachine/FSM_CodeBuilder.cs:340-349 | appends the exit stub of the state |
| CodeBuilder.WriteTransMethodCode | TestFSM/FiniteStateMachine/FSM_CodeBuilder.cs:304-313 | appends the action stub of the transition |
| CodeBuilder.WriteTransGuardMethodCode | TestFSM/FiniteStateMachine/FSM_CodeBuilder.cs:322-332 | appends the guard stub of the transition |
| CodeBuilder.CreateOMCodeFromSTT | TestFSM/FiniteStateMachine/FSM_CodeBuilder.cs:180-218 | the code is the rendering of Generated for the table's states, class, delete flag and the generation flag |
| CodeBuilder.FillOMCode | TestFSM/FiniteStateMachine/FSM_CodeBuilder.cs:181-216 | the buffer holds Generated: header, class stub when wanted, each state's parts in order, closing brace when the class is missing |
| CodeBuilder.WriteStatesCode | TestFSM/FiniteStateMachine/FSM_CodeBuilder.cs:189-213 | appends every state's parts, in the table's order |
| CodeBuilder.WriteStateCode | TestFSM/FiniteStateMachine/FSM_CodeBuilder.cs:190-212 | appends one state's heading, entry stub, exit stub, transition stubs and line breaks as StateParts says |
| CodeBuilder.WriteTransitionsCode | TestFSM/FiniteStateMachine/FSM_CodeBuilder.cs:201-209 | appends the stubs of every transition of the state, in the order they were added |
| CodeBuilder.WriteTransitionCode | TestFSM/FiniteStateMachine/FSM_CodeBuilder.cs:202-208 | appends the action stub then the guard stub, each when wanted |
| CodeBuilder.TransitionStubsStubs | TestFSM/FiniteStateMachine/FSM_CodeBuilder.cs:202-208 | one transition yields its action stub when wanted, then its guard stub when wanted |
| CodeBuilder.TransitionPartsJustified | TestFSM/FiniteStateMachine/FSM_CodeBuilder.cs:201-209 | every transition stub written belongs to a transition of the state and is wanted |
| CodeBuilder.TransitionPartsComplete | TestFSM/FiniteStateMachine/FSM_CodeBuilder.cs:201-209 | every transition of the state gets its action and guard stubs when wanted |
| CodeBuilder.StatePartsStubs | TestFSM/FiniteStateMachine/FSM_CodeBuilder.cs:190-212 | a state's stubs are: entry when wanted, exit when wanted and not final, the transition stubs when not final |
| CodeBuilder.FinalStateOnlyEntry | TestFSM/FiniteStateMachine/FSM_CodeBuilder.cs:194-211 | a final state gets at most its entry stub: never an exit stub, never a transition stub |
| CodeBuilder.StateStubsJustified | TestFSM/FiniteStateMachine/FSM_CodeBuilder.cs:191-208 | every stub of a state is its wanted entry, its wanted exit of a non-final state, or a wanted stub of one of its transitions |
| CodeBuilder.StateStubsComplete | TestFSM/FiniteStateMachine/FSM_CodeBuilder.cs:191-208 | conversely every wanted entry, exit (non-final) and transition stub of the state is written |
| CodeBuilder.StatesPartsStubs | TestFSM/FiniteStateMachine/FSM_CodeBuilder.cs:189-213 | the stubs of all states are those of each state, in order |
| CodeBuilder.StatesStubsFrom | TestFSM/FiniteStateMachine/FSM_CodeBuilder.cs:189-213 | a stub of the states comes from one particular state |
| CodeBuilder.StatesStubsHas | TestFSM/FiniteStateMachine/FSM_CodeBuilder.cs:189-213 | a stub of any one state is among the stubs of all states |
| CodeBuilder.GeneratedStubs | TestFSM/FiniteStateMachine/FSM_CodeBuilder.cs:180-218 | the generated stubs are the class stub when wanted followed by the states' stubs |
| CodeBuilder.ClassStubIffWanted | TestFSM/FiniteStateMachine/FSM_CodeBuilder.cs:185-187 | the class skeleton is written iff the class is missing or the generation flag is set |
| CodeBuilder.GeneratedJustified | TestFSM/FiniteStateMachine/FSM_CodeBuilder.cs:185-213 | every hook stub written is justified by some state of the table |
| CodeBuilder.GeneratedComplete | TestFSM/FiniteStateMachine/FSM_CodeBuilder.cs:189-213 | every stub a state asks for is written |
| CodeBuilder.NothingMissingNothingWritten | TestFSM/FiniteStateMachine/FSM_CodeBuilder.cs:185-208 | with the flag false, a resolved class and every hook bound, no stub at all is written |
| CodeBuilder.ClosingBraceIffMissing | TestFSM/FiniteStateMachine/FSM_CodeBuilder.cs:214-216 | the last part appended is the closing "}\n\n" iff the business class is missing |
| CodeBuilder.RenderExtends | TestFSM/FiniteStateMachine/FSM_CodeBuilder.cs:180-218 | appending keeps the earlier text as a prefix, followed by the new text |
| CodeBuilder.HeaderFirst | TestFSM/FiniteStateMachine/FSM_CodeBuilder.cs:181-183 | the generated code starts with the header naming the class and the timestamp |
| CodeBuilder.StubRendered | TestFSM/FiniteStateMachine/FSM_CodeBuilder.cs:180-218 | every stub in the buffer occurs verbatim in the final text |
| CodeBuilder.GuardStubReturnsTrue | TestFSM/FiniteStateMachine/FSM_CodeBuilder.cs:324-330 | the default guard stub ends with "return true;" and its closing brace |
| Scenarios.ConnectTwice | TestFSM/Form1.cs:56-57 | the same transition added twice leaves exactly one transition for the event, listed once |
| Scenarios.BuildCdPlayer | TestFSM/Form1.cs:16-33 | the CDPLAYER table has Begin initial and the transitions startPlaying, pause and stop along the sample run, and no pause from Stopped |
| Scenarios.BuildActor | TestFSM/Form1.cs:38-57 | the ACTOR table: InWings initial, delete flag set, Bowing keeps one applauseStopped transition to Ended, Ended final |
| Scenarios.CdPlayerRun | TestFSM/Form1.cs:15-33 | a CDPLAYER machine visits Begin, Playing, Paused, Stopped, and a pause in Stopped leaves it in Stopped with no hook run |
| Scenarios.ActorRun | TestFSM/Form1.cs:37-59 | an ACTOR machine visits InWings, Bowing, Ended, stays in Ended on a further event, and stays registered |

## Left out

- `FSM_EventProcessor` (queued delivery on worker tasks) is not part of this model: its point is concurrency. The task model is kept only as the table's setting.
- File I/O is not modelled: `File.ReadAllLines` in `SMCatImport` becomes a sequence of lines, and `writeCodeToFile` (delete, then write `Class.csx`) is left out.
- `DateTime.Now` in the generated header is a timestamp parameter. `Debug.WriteLine` output is not modelled.
- Reflection and delegate invocation are replaced by method-name sets and a guard oracle. Hook bodies are foreign code: a trace records which ones run, not what they do.
- The delegate setters of `FSM_CodeBuilder` (`setWriteClassCode` and the like) are left out: the model uses the default writers only. `setOnlyGenerateMissingCode` becomes a parameter of the generator.
- `RemoveCRExceptWithinColonComma` in the importer is never called, so it is not modelled. The transition segments of a description file are sliced off and never used (`FSM_FileImporter.cs:128-130`), so nothing parses them.
- Getters (`getRefClassName`, `getInitialState`, `getEventName`, ...) are reads of the model's fields. Because the fields are `const` or only set by the methods above, what a getter returns is what those methods' contracts state.
- FiniteStateMachine.MachineRegistry.FindByRegisteredInstance: returns some registered machine bound to the instance, not necessarily the first in the dictionary's enumeration order, which the model does not fix.
- FiniteStateMachine.Machine.Initialise: requires the table to have an initial state. The source dereferences it unchecked and throws a NullReferenceException otherwise. The `stt != null` branch is always taken, because a machine is only ever built with a table.
- FiniteStateMachine.Machine.InitialiseWithEvent: the same precondition, for the same reason.
- FiniteStateMachine.Machine.TakeEvent: requires a current state when the event passes the check. The source throws a NullReferenceException on an uninitialised machine.
- FiniteStateMachine.MachineRegistry.CreateMachine: its table and instance are non-null. The source throws a NullReferenceException on a null instance or table (`TestFSM/FiniteStateMachine/FSM.cs:81-82`), and `TestFSM/Form1.cs:108-109` can pass a null table.
- FiniteStateMachine.State.AddTransition: its target state is non-null. The source throws in the `STT_Transition` constructor on a null target.
- FiniteStateMachine.MachineRegistry.FindByRegisteredInstance: its argument is non-null. The source throws on a null argument (`TestFSM/FiniteStateMachine/FSM.cs:144`).
- FiniteStateMachine.CreateAndSendEvent: its machine is non-null. The source throws on a null machine (`TestFSM/FiniteStateMachine/FSM.cs:159`), and `TestFSM/Form1.cs:128-129` can pass one.
- CodeBuilder.Lower: lowers ASCII letters only. `String.ToLower` also lowers other scripts by the current culture.
- CodeBuilder.CreateOMCodeFromSTT: each writer's run of `Append` calls is modelled as one stub part whose rendering is the text those calls append. The text of the default stubs is written out in full.
- CodeBuilder.CreateOMCodeFromSTT: requires every state's event list to match its transitions, which the runtime's own state invariant guarantees. The generator reads the states through a snapshot, so the contract describes the states as they were when the call began.
- Importer.AddStatesFromArray: parses every declaration before adding the states. The source interleaves parsing and `addState`, but parsing reads nothing the additions change, so the resulting table is the same.

## Findings

| source | as written | input that shows it | evidently intended | confidence | as-written member | corrected member |
|---|---|---|---|---|---|---|
| TestFSM/FiniteStateMachine/FSM_Event.cs:70-76 | after the null test of line 70 fails, line 76 still reads `destFSM.stt`, so a null destination throws instead of returning false | an event built with a null destination and delivered to any machine | a null destination is rejected like any other mismatch | not executed | FiniteStateMachine.CheckEventAsWritten | FiniteStateMachine.CheckEvent |
| ObjectModel/FSM_FileImporter.cs:30-32 | `CreateSTT` returns null for an incomplete header and `SMCatImport` passes it on, so `addState` is called on null as soon as one state is declared; an empty body still declares the state "" | the empty file (Importer.EmptyFileCrashes) | stop the import when no table was created | not executed | Importer.SMCatImportAsWritten | Importer.SMCatImport |
