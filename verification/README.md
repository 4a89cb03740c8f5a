# fms-yaml, verified

A model in Dafny of a finite state machine that is loaded from a configuration document,
checked, and run, with proofs about all three.

A document declares triggers, states and guarded transitions. It is compiled, names first and
references second, into tables with dense ids, whose guards are slices of one shared pool of
conditions. The machine answers each trigger with the first alternative whose conditions all
hold of the arguments it carried. A linter looks over the same tables and reports what can never
happen. A runtime connects the machine to a port: input on a channel becomes a trigger, a state
entered becomes an announcement, a refusal becomes an error report.

`dafny verify dfyconfig.toml` checks the project.

## How it is laid out

| file | module | what it holds |
|---|---|---|
| Types.dfy | Limits, Types, Finite | capacities, status codes, ids, bounded containers, counting |
| Text.dfy, Args.dfy, Condition.dfy | Text, Arguments, Conditions | numbers, `key=value` arguments, guards, each with its printer |
| Tables.dfy, Model.dfy | MachineTables, Models | the tables, as values and as the object that is updated |
| Build.dfy, History.dfy | BuildPhase, Histories | the build invariant, and the tables as a history of calls |
| Document.dfy | Documents | a document, read directly, and what makes one acceptable |
| Loader.dfy | Loaders | the two passes |
| NamePass.dfy, LinkPass.dfy, Resolve.dfy, Compile.dfy, Acceptance.dfy, Correctness.dfy | NamePass, LinkPass, Resolving, Compiling, Acceptance, CompilerCorrectness, WrittenRuns | what the passes accept, and that what they build means what was written |
| Guards.dfy, Reachability.dfy, Findings.dfy, Lint.dfy | Guards, Reachability, FindingLists, SliceFindings, Linter | the linter, and what it should find |
| Machine.dfy, Safety.dfy | Machines, Safety, DeadAlternatives | the machine, and what the findings promise about every run |
| Reporting.dfy | Reporting | what a full report says, and in which order |
| Shadowing.dfy, Visits.dfy | FoldableConditions, Shadows, Visiting | how far the guard decider goes, what can really be taken and visited, and how much of the rest is reported |
| Runtime.dfy, Sessions.dfy, Written.dfy | Runtimes, Sessions, WrittenSessions | the runtime, whole sessions of it, and the same told from the document |
| Refusals.dfy | Refusals | why documents are refused |
| Program.dfy | Programs | the program around the library |
| Diagram.dfy, ReadBack.dfy | Diagrams, DotReading, NoteReading | Dot output, and reading it back |

Objects that the program updates in place are classes here, and each of their methods is proved
against a function on values: `Models.Model.AddTransition` against
`MachineTables.AddTransition`, `Runtimes.Runtime.Service` against `Runtimes.Serviced`. The
lemmas are about those functions, and about sequences of them.

Every induction is written out: Dafny's automatic induction is switched off wherever it would
apply.

Where a method asks for the build invariant, every model the program can hold has it:
`Histories.BuildIsHistory`.

The capacities are constants without a value, so every result holds for any choice of them
within the widths the ids and slices are stored in: fewer than 65535 states and triggers, at
most 255 alternatives to a list and conditions to a guard, at most 65535 conditions in all.

## What came out of it

Where the program falls short of what could be expected of it, there is a concrete case and,
where there is one, the exact condition.

- The guard decider is exact over argument maps: `Guards.GuardDeciderIsExact`. Not every
  argument map can be written as text, though. A guard like `a b > 5` loads, is not reported, and
  can be met by no input: `Guards.AGuardNothingMeets`. `Guards.SomeTextMeetsGuard` says exactly
  when some input meets a guard.
- The tables accept conditions that no guard text denotes, and of some of those the decider is
  wrong. `FoldableConditions.TrustIsExact` says of which. Loaded machines hold only parsed ones:
  `CompilerCorrectness.LoadedIsSound`.
- The linter's documentation says that an alternative is shadowed when an earlier guard holds
  whenever its own does. The check compares conditions as they are written. What it reports is
  right, and `Shadows.ShadowIsMissed` says exactly what it does not report: `pedal > 6` after
  `pedal > 5`, for one (`Shadows.AShadowIsMissed`). Earlier guards can also make an alternative
  dead only together, as `pedal > 5` and `pedal < 6` do `pedal > 0` (`Shadows.TogetherIsMissed`);
  `Shadows.NeverTakenIsMissed` says exactly which dead alternatives go unreported.
- The check for unreachable states leaves guards out on purpose. `Visiting.UnvisitedIsMissed` says
  which states no run visits although they are not reported.
- Dot escaping can be undone. Mermaid escaping can be for exactly the texts that
  `Diagrams.MermaidIsReadableExactly` describes.
- Names reach the renderer as C strings. `DotReading.NamesReadBackExactly` says when the names in
  a graph are those of the machine, and `DotReading.SomeNamesAreCut` has a machine where they are
  not.
- The renderer's comment that a condition cannot outgrow its message holds for exactly the
  capacities in `Conditions.MessagesHoldConditions`. They are not tied together, so the model
  clips.
- A note in a diagram joins conditions by and, which a word may contain too. `NoteReading.JoinedSplitsExactly`
  says when a guard comes back from its note, and `NoteReading.GuardsLookAlike` has two that are drawn alike.
- Stopping a runtime leaves its machine started, so it cannot be started again:
  `Runtimes.Runtime.Stop`, and the status of `Runtimes.Runtime.Start`.

## Model

| member | source | states |
|---|---|---|
| `Text.ParseInt` | src/args.cpp:30-65 | Succeeds exactly on the ways to write a 32-bit number, and returns that number: digits, alone or after a plus, for what they come to, and after a minus for its negative. However long the text is, the 64-bit accumulator never overflows. |
| `Text.IntOfMeans` | src/args.cpp:30-65 | What a text is read as throughout is the number that some digits in it come to, with the sign in front of them, and nothing else is read as a number. |
| `Text.PrecedesMeans` | src/runtime.cpp:51-56 | The order in which channels are walked: beginnings first, and otherwise by the first character that differs. |
| `Text.DigitsBackwards` | src/inspect/text.hpp:37-40 | The digits of any magnitude up to 2147483648 go into the twelve-character buffer backwards, at most ten of them, so it never fills. |
| `Text.AppendInt` | src/inspect/text.hpp:27-46 | Appends exactly the decimal text of the number, INT32_MIN included, clipped only by the room that is left. |
| `Text.IntTextRoundTrip` | src/inspect/text.hpp:27-46 | For every 32-bit number, parsing the printed text gives the number back. |
| `Text.IntTextShape` | src/inspect/text.hpp:27-46 | A printed number has between one and eleven characters and no white space. |
| `Arguments.Args.Parse` | src/args.cpp:67-111 | Status and map are those of the split specification over white-space-delimited tokens; on failure everything is cleared. |
| `Arguments.ParseTextAccepts` | src/args.cpp:67-111 | Ok exactly when every token has a non-empty key before its first equals sign, the keys fit and are distinct, and there are not too many; then the map is exactly those pairs. |
| `Arguments.LeftmostFault` | src/args.cpp:86-107 | When parsing fails the map is empty, and the status is of the leftmost token that cannot be taken: ArgumentError when it has no equals sign or nothing before it, NameTooLong when that is too long, DuplicateName when an earlier token starts with the same, and CapacityExceeded otherwise. |
| `Arguments.TokensSplit` | src/args.cpp:72-84 | A blank, tab, carriage return or newline anywhere splits a text in two that are read independently. |
| `Arguments.TokensAreWords` | src/args.cpp:72-84 | Every token is non-empty and has none of those four characters. |
| `Arguments.PairsMeans` | src/args.cpp:92-108 | Every token of a legal list is in the map under its own key, with the text after its first equals sign as value, and the map has no other entries. |
| `Arguments.RenderRoundTrip` | src/args.cpp:67-111 | Writing any sendable list of pairs as text and parsing it gives exactly the map of those pairs. |
| `Arguments.ParsedMapsAreDeliverable` | src/args.cpp:67-111 | Every map that can be sent at all is what some text parses to. |
| `Arguments.ParsedIsDeliverable` | src/args.cpp:67-111 | Every map that parsing produces can be sent. |
| `Conditions.Trim` | src/condition.cpp:11-21 | Returns the text without the white space at its ends. |
| `Conditions.TrimSplits` | src/condition.cpp:11-21 | Trimming removes white space at both ends, all of it and nothing else. |
| `Conditions.FindOperator` | src/condition.cpp:24-53 | Finds the leftmost operator, the longest spelling first. |
| `Conditions.ParseCondition` | src/condition.cpp:74-118 | Parses a guard to the condition its text denotes, or refuses it with the status of the first thing wrong. |
| `Conditions.GuardGrammar` | src/condition.cpp:74-118 | A text parses to a condition if and only if the condition is well-formed and the text is a layout of it: an argument, an operator in one of its spellings, and a literal, with any white space around them. |
| `Conditions.GuardRefusals` | src/condition.cpp:74-118 | A text is refused as too long if and only if it is two operands around an operator of which the name, or a word compared for equality, is longer than names may be; any other that is refused gets SchemaError. |
| `Documents.LookupMeans` | src/config/yaml_loader.cpp:170-187 | A key finds the value of the first entry under it, and nothing if and only if there is none. |
| `Documents.NumberGuardsMean` | src/condition.cpp:24-144 | What each of the seven spellings of a comparison with a number says: the guard, as text, holds if and only if its argument is there, reads as a number, and the two numbers compare so. |
| `Documents.WordGuardsMean` | src/condition.cpp:74-144 | A guard with a word holds if and only if its argument is there and is that word, or for an inequality is another. |
| `Documents.WordsHaveNoOrder` | src/condition.cpp:106-110 | A word compared for order is refused. |
| `Conditions.Evaluate` | src/condition.cpp:120-144 | Evaluating against arguments is the comparison on the argument's value; an argument that is absent, or is not a number where one is asked for, never satisfies it. |
| `Conditions.AppendCondition` | src/inspect/text.hpp:48-60 | Prints argument, operator and literal separated by single spaces, clipped only by the room that is left. |
| `Conditions.GuardRoundTrip` | src/inspect/text.hpp:48-60 | Parsing the printed text of any well-formed condition gives the condition back. |
| `Conditions.GuardNormalForm` | src/condition.cpp:74-118 | Whatever parses is well-formed, and printing it and parsing again gives the same condition. |
| `Conditions.MessagesHoldConditions` | src/inspect/diagram.cpp:95-99 | Every condition that can be parsed is printed whole into a message if and only if the message has room for a name, four characters, and a name or eleven characters, whichever is longer. |
| `Models.Model.Clear` | src/model.cpp:9-17 | Every table is empty afterwards. |
| `Models.Model.DeclareState` | src/model.cpp:23-50 | Refuses in the order of the checks and then changes nothing; otherwise adds the state under the next id and indexes its name. |
| `Models.Model.DeclareTrigger` | src/model.cpp:52-87 | The same for triggers, with the channel defaulted to the name and both indexed. |
| `Models.Model.AlternativesFor` | src/model.cpp:89-104 | Finds or makes a state's list for a trigger, and fails exactly when there is no such state or no room for another trigger. |
| `Models.Model.AddTransition` | src/model.cpp:110-142 | Refuses in the order of the checks, leaving every table as it was; otherwise appends the conditions to the pool and one alternative, pointing at them, to the list. |
| `Models.Model.Intern` | src/model.cpp:137-139 | Pushes all conditions onto a pool that has room for them, never onto a full one. |
| `Models.Model.Validate` | src/model.cpp:144-170 | Answers the status of the first thing wrong, ids ascending and alternatives in order. |
| `MachineTables.DeclareStateAnswers` | src/model.cpp:23-50 | When each status is the answer. |
| `MachineTables.DeclareTriggerAnswers` | src/model.cpp:52-87 | When each status is the answer, and what is added: the trigger under its name and under the channel it is given, or under its name when it is given none. |
| `MachineTables.AddTransitionAnswers` | src/model.cpp:110-142 | When each status is the answer, for any ids. |
| `MachineTables.RefusalHasNoTarget` | src/model.cpp:227-261 | There is a target when a trigger is accepted and none otherwise, and a trigger counts as unlisted exactly where it has no list. |
| `MachineTables.ValidationIsFirstFault` | src/model.cpp:144-170 | A machine without states gets SchemaError. Any other that is not linked gets the status of its first fault, states, triggers and alternatives ascending: an undeclared trigger, an empty list, an undeclared target, or a slice outside the pool. |
| `MachineTables.ValidationMeans` | src/model.cpp:144-170 | That answer is Ok if and only if there is a state, no list is empty, and every listed trigger, target and slice exists. |
| `Models.Model.Evaluate` | src/model.cpp:228-259 | Takes the first alternative whose slice of the pool holds; tells a trigger that is not listed from one whose guards all refuse. |
| `BuildPhase.DeclareStateKeeps` | src/model.cpp:23-50 | Declaring a state keeps ids dense, each index the exact inverse of its table, every target and slice valid, and no listed trigger empty. |
| `BuildPhase.DeclareTriggerKeeps` | src/model.cpp:52-87 | Declaring a trigger keeps the same invariant. |
| `BuildPhase.AddTransitionKeeps` | src/model.cpp:110-142 | Adding a transition keeps the same invariant. |
| `BuildPhase.ValidationIsOneQuestion` | src/model.cpp:144-170 | Under the invariant validation succeeds if and only if at least one state exists. |
| `BuildPhase.NameFindsState` | src/model.cpp:186-193 | In any tables that were built, a name finds the state that has it, and nothing if and only if no state does. |
| `Histories.FailureChangesNothing` | src/model.cpp:23-142 | A call that fails leaves every table as it was. |
| `Histories.BuildIsHistory` | src/model.cpp:23-142 | After any sequence of calls, failed ones included, the invariant holds and the tables are exactly the successful calls: names in order, every list decoding to the conditions and targets passed, the pool those conditions end to end. |
| `Histories.ExtendedDecodes` | src/model.cpp:133-140 | A new alternative decodes to what was passed; every other list decodes as before although the pool grew. |
| `Histories.SlicesStay` | src/model.cpp:110-142 | No successful call moves or changes a slice that was there. |
| `Histories.BuildKeepsSlicesDisjoint` | src/model.cpp:133-140 | After any sequence of calls no two alternatives share any part of the pool. |
| `Histories.PoolRefinesOwned` | src/model.cpp:228-259 | Evaluating through the shared pool decides exactly as first-match over lists that own their conditions. |
| `Loaders.ParseTriggers` | src/config/yaml_loader.cpp:170-200 | Status and tables are those of declaring the entries in order up to the first that fails. |
| `Loaders.DeclareAllStates` | src/config/yaml_loader.cpp:204-220 | The first pass declares every state before any transition is read, up to the first failure. |
| `Loaders.ParseWhen` | src/config/yaml_loader.cpp:225-265 | Reads one comparison or a list of them into a guard, or gives the status of the first that fails. |
| `Loaders.ParseAlternative` | src/config/yaml_loader.cpp:268-296 | One alternative becomes one add_transition call, or the status of what is wrong with it. |
| `Loaders.LinkOutcome` | src/config/yaml_loader.cpp:330-377 | The three spellings of an outcome become the add_transition calls they stand for. |
| `Loaders.LinkAllStates` | src/config/yaml_loader.cpp:306-381 | The second pass makes the calls of the whole document in order, up to the first failure. |
| `Loaders.ParseMachine` | src/config/yaml_loader.cpp:383-434 | Head, triggers, states and transitions are read in this order, up to the first failure, and then validated; the status is that of the first thing wrong. |
| `Loaders.LoadMachine` | src/config/yaml_loader.cpp:512-537 | Whatever the model held before, success leaves exactly what the document compiles to, and any failure leaves an empty model. |
| `NamePass.DeclareTriggersExact` | src/config/yaml_loader.cpp:178-199 | The trigger section succeeds if and only if every entry can be read and names and defaulted channels are non-empty, unique and in bounds; then exactly those are declared. |
| `NamePass.DeclareStatesExact` | src/config/yaml_loader.cpp:204-220 | The first pass succeeds if and only if every entry has a readable name and the names are non-empty, unique and in bounds; then exactly those are declared, in order. |
| `Resolving.ReadWhenExact` | src/config/yaml_loader.cpp:225-265 | A guard can be read if and only if it is absent, one readable comparison, or a non-empty list of them that fits; each condition is then what its text denotes. |
| `Resolving.OutcomeExact` | src/config/yaml_loader.cpp:330-377 | An outcome resolves if and only if it is legal, and in all three spellings it resolves to what was written. |
| `LinkPass.RunLinksExact` | src/config/yaml_loader.cpp:306-381 | With every name resolved, wiring succeeds if and only if the pool, each state's triggers and each list stay within their capacities. |
| `LinkPass.RunLinksChoices` | src/config/yaml_loader.cpp:306-381 | After wiring, each state lists for each trigger exactly what was linked, in order, after what it listed before. |
| `Compiling.StatesChoices` | src/config/yaml_loader.cpp:306-381 | For every state and declared trigger the links are what the document lists, alternative by alternative, repeated keys one after the other. |
| `Acceptance.LinkingExact` | src/config/yaml_loader.cpp:306-381 | The second pass succeeds if and only if every transition is legal and everything fits. |
| `Acceptance.LoadAcceptsExactly` | src/config/yaml_loader.cpp:383-434 | Reading a document succeeds if and only if it is acceptable: unique non-empty names, unique channels, every reference resolving (forward ones too), every guard parsing, every capacity respected. |
| `CompilerCorrectness.LoadingSucceedsExactly` | src/config/yaml_loader.cpp:429-433 | The same with validation included: what reading accepts, validation never refuses. |
| `Refusals.LoadedName` | src/config/yaml_loader.cpp:394-407 | A loaded machine has the name its document gives it, and otherwise none. |
| `Refusals.HeadRefusals` | src/config/yaml_loader.cpp:383-407 | When each status is the answer to a document's head, and what name the machine gets otherwise. |
| `Refusals.TriggersRefused` | src/config/yaml_loader.cpp:170-202 | A trigger section is refused for its first entry that cannot follow those before it, with the status of what is wrong with it. |
| `Refusals.NamesRefused` | src/config/yaml_loader.cpp:204-223 | And so are the names of states. |
| `Refusals.WiringRefused` | src/config/yaml_loader.cpp:306-381 | Wiring stops at the first transition that stands for a fault, with that fault, or that does not fit, with CapacityExceeded. |
| `Refusals.LoadRefused` | src/config/yaml_loader.cpp:383-443 | A document that is refused is refused for the first section in which anything is wrong, with a status that says what: of its head, an entry, a name, a trigger, a target, a guard, or room. |
| `CompilerCorrectness.LoadedIsSound` | src/config/yaml_loader.cpp:383-434 | Every loaded machine satisfies the build invariant, is validated, and holds only parsed conditions. |
| `CompilerCorrectness.LoadedDecidesAsWritten` | src/config/yaml_loader.cpp:383-434 | For every state name, trigger name and arguments, asking the loaded tables by id gives the decision, and the target by name, of a first-match reading of the document itself. |
| `WrittenRuns.LoadedRunsAsWritten` | src/state_machine.cpp:49-78 | Over every sequence of triggers raised by name, a loaded machine ends up in the state the document, read directly, says. |
| `WrittenRuns.PrunedStillAnswers` | src/inspect/lint.cpp:337-375 | Deleting all alternatives reported as dead leaves a loaded machine that answers as its document does. |
| `Guards.ArgumentFacts.FoldNumeric` | src/inspect/lint.cpp:196-223 | Narrows the range, or adds an exclusion, as the comparison says; the widened bounds never wrap. |
| `Guards.ArgumentFacts.FoldText` | src/inspect/lint.cpp:225-237 | Records a required or forbidden word, and a contradiction between two required ones. |
| `Guards.ArgumentFacts.ExcludedInside` | src/inspect/lint.cpp:259-274 | Counts the different excluded values that the range still contains. |
| `Guards.ArgumentFacts.Unsatisfiable` | src/inspect/lint.cpp:277-299 | True exactly when the facts are contradictory, empty, exhausted, or ask a word to be a number or a forbidden word. |
| `Guards.FoldSlice` | src/inspect/lint.cpp:240-256 | Folds exactly the conditions of the slice that mention the argument, in order. |
| `Guards.GuardImpossible` | src/inspect/lint.cpp:308-331 | True exactly when the slice is in bounds and for some argument it mentions no value is left. |
| `Guards.FactsMean` | src/inspect/lint.cpp:196-256 | A non-empty value satisfies every condition on an argument if and only if the folded facts admit it. |
| `Guards.ExhaustedMeans` | src/inspect/lint.cpp:296-298 | The count of excluded values reaches the width of the range if and only if every number in the range is excluded. |
| `Guards.GuardDeciderIsExact` | src/inspect/lint.cpp:301-331 | For any guard of foldable conditions, as all parsed ones are, the decider says impossible if and only if no argument map whatever satisfies it. |
| `Guards.ImpossibleIsRight` | src/inspect/lint.cpp:306-331 | A guard reported impossible holds of no arguments. |
| `Guards.SomeTextMeetsGuard` | src/inspect/lint.cpp:306-307 | Some argument text meets a guard if and only if the decider passes it, its argument names can be keys, the words it asks for are free of white space, and its arguments fit in one message. |
| `Guards.AGuardNothingMeets` | src/inspect/lint.cpp:306-307 | A concrete guard that parses and that the decider passes, and that no argument text can meet. |
| `FoldableConditions.TrustIsExact` | src/inspect/lint.cpp:225-237 | The decider is right about every guard around a condition, whatever else folding represents stands beside it, if and only if the condition is foldable: a word compared for equality only, and one that is asked for neither empty nor a number. Where a guard has room for one condition only, it is enough not to ask for the empty word. |
| `Reachability.Visit` | src/inspect/lint.cpp:63-71 | Marks and pushes every unmarked target of a state once, never onto a full stack. |
| `Reachability.Explore` | src/inspect/lint.cpp:49-72 | The search ends, and a state is marked if and only if a path of alternatives leads to it from the initial state. |
| `Reachability.RoomForUnmarked` | src/inspect/lint.cpp:49-68 | While a state is unmarked the stack has room, because each state is pushed at most once. |
| `Linter.Record` | src/inspect/lint.cpp:25-31 | Appends a finding, or says that the report is full and leaves it. |
| `Linter.CheckReachability` | src/inspect/lint.cpp:42-85 | Reports precisely the declared states no path leads to, ascending; nothing without an initial state. |
| `Linter.CheckDeadEnds` | src/inspect/lint.cpp:89-110 | Reports precisely the states no alternative leaves, ascending. |
| `Linter.CheckUnusedTriggers` | src/inspect/lint.cpp:116-138 | Reports precisely the triggers no state lists, ascending. |
| `Linter.Implies` | src/inspect/lint.cpp:158-176 | True exactly when every condition of the earlier slice is in the pool and also appears in the later one, dangling slices included. |
| `Linter.CheckAlternatives` | src/inspect/lint.cpp:337-375 | Reports at most one finding for each alternative, the most fundamental, pointing at the first fallback or the first shadowing one before it. |
| `Linter.Analyse` | src/inspect/lint.cpp:381-394 | The report gains the longest prefix that fits of the full list of findings, in the order of the checks, and the status is CapacityExceeded if and only if something was dropped. |
| `Linter.HasErrors` | src/inspect/lint.cpp:396-439 | True exactly when some finding in the report is an error rather than a warning. |
| `FindingLists.MachineFindingsMean` | src/inspect/lint.cpp:386-391 | What is reported about alternatives is the verdict on each one, under its own state, trigger and position, and nothing else. |
| `SliceFindings.SliceVerdictsMean` | src/inspect/lint.cpp:337-375 | On slices that lie in the pool, the verdicts read off the pool are those on the guards the slices stand for. |
| `Safety.UnreachableIsExact` | src/inspect/lint.cpp:42-85 | A state is reported unreachable if and only if there is a state to start in, it is declared, and no path leads from the one to the other. |
| `Safety.DeadEndIsExact` | src/inspect/lint.cpp:89-110 | A state is reported as a dead end if and only if it is declared and every alternative of it leads back to it. |
| `Safety.UnusedTriggerIsExact` | src/inspect/lint.cpp:116-138 | A trigger is reported unused if and only if it is declared and no state lists it. |
| `Safety.AlternativeIsExact` | src/inspect/lint.cpp:381-394 | A finding about an alternative is in the full report if and only if it is the verdict on the alternative it names. |
| `Safety.RunsStayReachable` | src/state_machine.cpp:33-78 | Over every sequence of triggers and arguments after start, the current state is declared and reachable from the initial one. |
| `Safety.UnreachableStatesAreNeverEntered` | src/inspect/lint.cpp:42-85 | No run after start is ever in a state reported unreachable for its initial state. |
| `Safety.DeadEndsAreTraps` | src/inspect/lint.cpp:87-110 | Once in a state reported as a dead end, every later run leaves the machine there. |
| `Safety.UnusedTriggersAreRefused` | src/inspect/lint.cpp:112-138 | A trigger is reported unused if and only if it is declared and firing it is answered NoTransition wherever a machine is and whatever comes with it. |
| `Visiting.VisitedIsWalked` | src/state_machine.cpp:49-78 | Some sequence of triggers and arguments takes a machine to a state if and only if there is a path to it along steps that evaluation accepts. |
| `Visiting.LiveIsTaken` | src/model.cpp:241-258 | An alternative of the tables is taken for some arguments if and only if its guard is possible and some pick of conditions from the earlier ones escapes it. |
| `Visiting.CanGoIsExact` | src/model.cpp:227-261 | Evaluation accepts a step from one state to another for some trigger and arguments if and only if an alternative between them has a possible guard that some pick of conditions from the earlier ones escapes. |
| `Visiting.UnvisitedIsMissed` | src/inspect/lint.cpp:37-85 | A declared state that no run visits goes unreported if and only if there is a path to it with guards left out, but none along accepted steps. |
| `Safety.FiresAreCounted` | src/state_machine.cpp:49-78 | Over every run, transitions and rejections together grow by one for each fire, modulo 2^32. |
| `Reporting.ReportIsInOrder` | src/inspect/lint.cpp:381-394 | In the full report unreachable states come first, then dead ends, unused triggers, and alternatives; in each, ids and positions ascend, and nothing comes twice. |
| `Reporting.DeclarationsAreReported` | src/inspect/lint.cpp:37-138 | The findings that are not about an alternative are exactly these: a declared state no path leads to from a declared start, a declared state nothing leads out of, a declared trigger no state lists. |
| `Reporting.AlternativesAreReported` | src/inspect/lint.cpp:333-379 | An alternative is reported unreachable if and only if an earlier one has no guard, the first such named; impossible if and only if none has and no arguments satisfy its own; shadowed if and only if neither applies and it repeats all of an earlier guard, the first such named. |
| `Reporting.RepeatingIsContaining` | src/inspect/lint.cpp:144-176 | For parsed guards, one repeats another if and only if it has all the other's conditions among its own. |
| `DeadAlternatives.ReportedIsPreceded` | src/inspect/lint.cpp:151-176 | Whenever the guard of a reported alternative holds, that of an earlier one holds too. |
| `DeadAlternatives.AcceptedIsTaken` | src/model.cpp:241-258 | Evaluation accepts if and only if some alternative is the first whose slice holds, and goes where that one says. |
| `DeadAlternatives.ReportedIsVerdict` | src/inspect/lint.cpp:381-394 | The full report mentions an alternative if and only if there is a verdict against it. |
| `DeadAlternatives.TakenIsNeverReported` | src/inspect/lint.cpp:333-394 | For every state, trigger and arguments, the alternative that is taken is never one the full report mentions. |
| `Shadows.ForcingIsExact` | src/inspect/lint.cpp:178-256 | A guard that can hold never does without one of a list of conditions if and only if its facts leave some argument it mentions no value that fails them all: the word asked for meets one, or each number that is left does, or the one word that would fail a difference is ruled out or meets another. |
| `Shadows.ShadowingIsForcing` | src/inspect/lint.cpp:151-158 | An earlier guard holds whenever a later possible one does if and only if the later one forces each of its conditions. |
| `Shadows.ShadowCheckIsRight` | src/inspect/lint.cpp:151-176 | What the shadowing check reports is right, and it reports all there is about a pair of guards if and only if the later guard, when it forces the earlier one, also repeats it. |
| `Shadows.ShadowIsMissed` | src/inspect/lint.cpp:365-372 | A possible alternative that an earlier one makes dead goes unreported if and only if its guard forces all of some earlier guard and repeats all of none. |
| `Shadows.NeverTakenIsForced` | src/model.cpp:241-258 | An alternative is taken for no arguments if and only if its guard is impossible or, however one condition is picked out of each earlier guard, forces one of those picked. |
| `Shadows.NeverTakenIsMissed` | src/inspect/lint.cpp:333-375 | An alternative that is taken for no arguments goes unreported if and only if its guard can hold, forces one of every pick, and repeats all of no earlier guard, none of which is empty. |
| `Shadows.TogetherIsMissed` | src/inspect/lint.cpp:365-372 | Three guards that parse, of which the last is never taken and not reported, though neither of the others holds whenever it does. |
| `Shadows.AShadowIsMissed` | src/inspect/lint.cpp:365-372 | Two guards that parse, of which the first holds whenever the second does, and no finding about the second. |
| `DeadAlternatives.PruningChangesNothing` | src/inspect/lint.cpp:337-375 | Deleting every reported alternative at once, triggers staying listed, changes the decision and target for no state, trigger or arguments. |
| `DeadAlternatives.PruningChangesNoRun` | src/inspect/lint.cpp:337-375 | And it changes no run. |
| `Machines.StateMachine.Init` | src/state_machine.cpp:6-31 | The status is that of validation, and then of the name the setup gives. When it is Ok the counters are reset and the machine will start in the state of the model that has that name; otherwise nothing changes. |
| `Machines.StateMachine.Start` | src/state_machine.cpp:33-47 | Enters the initial state, once, of a bound machine. |
| `Machines.StateMachine.Fire` | src/state_machine.cpp:49-78 | Moves to the decided target and counts a transition, or stays and counts a rejection; the event says which, and whether a guard refused. |
| `Machines.BoundNames` | src/state_machine.cpp:6-31 | A model that was built and a name bind if and only if the model has states and indexes the name, and then the name finds a declared state that has it. |
| `Runtimes.OfferedMeans` | src/runtime.cpp:51-56 | Offering goes well if and only if the port says yes to every channel; otherwise the answer is that to the least it does not say yes to. |
| `Runtimes.Runtime.ListenAll` | src/runtime.cpp:51-56 | Offers the channels to the port in ascending order and stops at the first answer that is not Ok. |
| `Runtimes.Runtime.Start` | src/runtime.cpp:32-66 | The status is that of the first step that fails; success announces the initial state once, and on failure nothing was announced, counted or started. |
| `Runtimes.Runtime.Service` | src/runtime.cpp:68-106 | One turn of the loop is exactly one step of the session: idle, failed, unrouted, badly written, or dispatched; names come from the runtime's model and decisions from the machine's. |
| `Runtimes.Runtime.FireByName` | src/runtime.cpp:116-129 | A trigger raised by name is refused before it reaches the machine, or dispatched like an input. |
| `Runtimes.Runtime.Dispatch` | src/runtime.cpp:135-150 | Announces the state entered, or counts and publishes one rejection. |
| `Runtimes.Runtime.Stop` | src/runtime.cpp:108-114 | Closes the port and leaves the machine where it is, still started. |
| `Sessions.SessionIsRun` | src/runtime.cpp:68-129 | Over any interleaving of turns and raised triggers, the machine sees exactly those that were routed and carried legal arguments. |
| `Sessions.AnnouncedIsRun` | src/runtime.cpp:152-158 | What is announced after start is exactly the name of each state entered, in order. |
| `Sessions.LastAnnouncedIsCurrent` | src/runtime.cpp:32-158 | As long as the last announcement names the state the machine is in, as it does after start, it goes on to. |
| `Sessions.AnnouncedIsReachable` | src/runtime.cpp:32-158 | Every name announced after start is that of a declared state not reported unreachable. |
| `Sessions.StartOpens` | src/runtime.cpp:58-65 | Start leaves the machine in its initial state with that one name announced, and moves no counter. |
| `Sessions.SessionFromStart` | src/runtime.cpp:32-158 | From start over any steps: the announcements are the initial state and then every state the run enters, the last is current, and inputs and errors are all accounted for. |
| `Sessions.InputsAreConserved` | src/runtime.cpp:68-150 | While the runtime is the only driver, and whatever the counters began with, inputs received and raised triggers dispatched grow as unrouted, rejected and transitions together, modulo 2^32. |
| `Sessions.ErrorsAreCounted` | src/runtime.cpp:81-101 | The number of errors published grows as unrouted and rejected together, modulo 2^32. |
| `WrittenSessions.LoadedRoutesAsWritten` | src/model.cpp:204-211 | A loaded machine routes channels as its document does: each declared channel to the trigger declared on it, and any other to none. |
| `WrittenSessions.LoadedChannelsAsGiven` | src/config/yaml_loader.cpp:185-196 | A trigger entry that gives a channel is found under it, and one that gives none or an empty one under its own name; in both cases it is the trigger with that name. |
| `WrittenSessions.LoadedSessionAsWritten` | src/runtime.cpp:32-149 | A session of a loaded machine, from the state it is bound to and over any inputs and raised triggers, goes, announces, reports, counts and answers each step as the document, read directly and by name, says of the same texts. |
| `Programs.Serve` | examples/car/main.cpp:262-273 | Serving a started runtime ends, on the first receive that fails and with its status, after exactly the turns its inbox makes. |
| `Programs.Play` | examples/car/main.cpp:193-285 | The whole program serves if and only if the document is acceptable, has the state the setup starts in, and the port takes its configuration, opens and listens on every channel; then the state it ends in, what it announced and reported, and its counters are what the document says of the inbox. |
| `Diagrams.EmitEscaped` | src/inspect/diagram.cpp:36-66 | The fragments emitted, none of them empty, together are the text with each character escaped on its own. |
| `Diagrams.DotEscapingInverts` | src/inspect/diagram.cpp:51-57 | One pass of unescaping recovers every text from its Dot form, which therefore has no bare quote. |
| `Diagrams.MermaidIsReadableExactly` | src/inspect/diagram.cpp:43-50 | A text can be told from every other by its Mermaid form if and only if it has no angle bracket or quote and contains none of their three spellings. |
| `Diagrams.EmitLabel` | src/inspect/diagram.cpp:71-102 | Emits, in either format, the trigger and then its guard, joined by and, up to the end of the pool, or marks the fallback among several. |
| `Diagrams.ListEdgeAt` | src/inspect/diagram.cpp:143-156 | Each edge of a list shows the two ends and the trigger of its alternative, and its guard or, when it has none and is not the only one, that it is the fallback. |
| `Diagrams.RenderDot` | src/inspect/diagram.cpp:129-159 | Emits the header and then exactly one edge line for every alternative, states and triggers ascending, alternatives in file order. |
| `Diagrams.EdgeReadsBack` | src/inspect/diagram.cpp:148-154 | An edge line reads back as the names at its two ends, its trigger, and its note. |
| `Diagrams.CaptionIs` | src/inspect/diagram.cpp:71-102 | What a label consists of, in either format: the trigger and, after a break, the guard in brackets or the mark of the fallback, each escaped as a whole. |
| `Diagrams.LabelReadsBack` | src/inspect/diagram.cpp:71-102 | A Dot label reads back as the trigger and the note it was made of, for any texts. |
| `Diagrams.MermaidLabelIs` | src/inspect/diagram.cpp:71-102 | A Mermaid label is the trigger, a blank and the note, escaped as one text. |
| `DotReading.GraphReadsBack` | src/inspect/diagram.cpp:129-159 | Reading a whole graph back gives the title, the start, and the source, target, trigger and note of every alternative in order, with names cut at a NUL. |
| `DotReading.NamesReadBackExactly` | src/inspect/diagram.cpp:140-152 | It gives back the machine's own names if and only if no name that is drawn has a NUL in it. |
| `DotReading.SomeNamesAreCut` | src/inspect/diagram.cpp:148-150 | A machine that can be built and whose names do not come back. |
| `NoteReading.JoinedSplitsExactly` | src/inspect/diagram.cpp:86-100 | Texts joined by and come apart again if and only if none contains one and none but the last ends as if one began. |
| `NoteReading.GuardReadsBack` | src/inspect/diagram.cpp:86-100 | A parsed guard comes back from its note, condition by condition, when its texts come apart and messages hold conditions. |
| `NoteReading.GuardsLookAlike` | src/inspect/diagram.cpp:86-100 | Two guards that parse, are drawn alike and are different. |

## Left out

- The YAML library, opening and reading files, and exceptions: a document is a tree of nulls, scalars, sequences and mappings, and reading a sequence or a mapping as text is the parse error that the exception becomes. What a null reads as differs between releases of the library, so it is a constant without a value.
- A mapping is a sequence of pairs. Repeated keys under `transitions` add up, as they do in the calls they turn into; looking a key up takes the first.
- Wording: diagnostics and line numbers, descriptions of findings, names of status codes and checks, and the text of published errors. A published error is modelled by its kind and what it is about.
- The setup file: its parser, the setters of the setup, and the channel and endpoint settings that are handed to the port unread. What a machine needs of it, a starting state that its model has, is kept.
- The console port and the in-memory port. The port here answers each call as it likes, gives its inputs from a list, and records what is published. What a receive reports besides input and a timeout is any failing status.
- The embedded container library: search, storage layout and its abort on overflow. Bounded containers are sequences and maps here; every push shows that there is room.
- Link-time guards on the build configuration, and the guard against heap use.
- Reading an argument as a truth value, the variants of fire with fewer parameters, and the trace callback: thin over what is modelled.
- The example program's command line, its messages and its other modes. What it does to run a machine is `Programs.Play`, with a setup that is given and a document that is read.
- Lifetimes: parsed argument values are copies here, where the program keeps views into the port's buffer.
- Rendering Mermaid diagrams beyond their escaping and labels, and choosing a format by name.
- The tools directory, which is not part of the library.
