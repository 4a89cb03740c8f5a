/** The loader is a correct compiler: the tables it builds decide exactly as the document read
    directly, and they carry every guarantee the linter's results rest on. */
module CompilerCorrectness {
  import opened Limits
  import opened Types
  import opened Arguments
  import opened Conditions
  import opened MachineTables
  import opened BuildPhase
  import opened Histories
  import opened Guards
  import opened Documents
  import opened Loaders
  import opened NamePass
  import opened LinkPass
  import opened Resolving
  import opened Compiling
  import opened Acceptance

  // ---------------------------------------------------------------------------
  // from a loaded document back to what its two passes did

  function StateEntries(doc: Node): seq<Node> {
    Items(Field(doc, "states"))
  }

  function TriggerEntries(doc: Node): seq<Node> {
    Items(Field(doc, "triggers"))
  }

  /** The tables between the two passes: every name declared, nothing wired. */
  ghost predicate Between(doc: Node, t: Tables) {
    && StatesReady(t, EntryNames(StateEntries(doc))) && TriggersAre(t, TriggerDefs(TriggerEntries(doc)))
    && StatesReadable(StateEntries(doc)) && StateEntries(doc) != []
  }

  function LinksOf(doc: Node, t: Tables): seq<Link> {
    StatesLinks(t.stateIndex, t.triggerIndex, StateEntries(doc))
  }

  lemma StatesPass(doc: Node, t: Tables) returns (between: Tables)
    requires StatesReady(t, []) && TriggersAre(t, TriggerDefs(TriggerEntries(doc))) && ReadStates(doc, t).0 == Ok
    ensures Between(doc, between) && RunLinks(between, LinksOf(doc, between)) == ReadStates(doc, t)
  {
    FirstPassExact(doc, t, TriggerEntries(doc));
    between := DeclareStates(t, StateEntries(doc)).1;
  }

  lemma LoadPasses(doc: Node) returns (between: Tables)
    requires Load(doc).0 == Ok
    ensures Between(doc, between) && RunLinks(between, LinksOf(doc, between)) == Load(doc)
  {
    ReadHeadExact(doc);
    var t := ReadHead(doc, NOTHING).1;
    ReadTriggersExact(doc, t);
    between := StatesPass(doc, ReadTriggers(doc, t).1);
  }

  /** What the second pass is handed, and what it did. */
  ghost predicate Wired(doc: Node, between: Tables) {
    var links := LinksOf(doc, between);
    && Resolves(between.stateIndex, between.triggerIndex, StateEntries(doc))
    && Positioned(between.stateIndex, StateEntries(doc))
    && between.stateIndex.Keys == Names(StateEntries(doc)) && between.triggerIndex.Keys == Names(TriggerEntries(doc))
    && AllResolved(between, links) && GuardsWellFormed(links)
  }

  lemma {:induction false} SecondPass(doc: Node, between: Tables)
    requires Between(doc, between) && RunLinks(between, LinksOf(doc, between)).0 == Ok
    ensures Wired(doc, between)
  {
    var entries := StateEntries(doc);
    DeclaredResolves(between, entries, TriggerEntries(doc));
    LinkingExact(between, entries);
    StatesAreSane(between.stateIndex, between.triggerIndex, entries);
    SaneIsResolved(between, LinksOf(doc, between));
  }

  lemma LoadWires(doc: Node) returns (between: Tables)
    requires Load(doc).0 == Ok
    ensures Between(doc, between) && Wired(doc, between)
    ensures RunLinks(between, LinksOf(doc, between)) == Load(doc)
  {
    between := LoadPasses(doc);
    SecondPass(doc, between);
  }

  /** The tables are what the second pass made of the tables before it. */
  ghost predicate Compiled(doc: Node, between: Tables, t: Tables) {
    && Between(doc, between) && Wired(doc, between) && RunLinks(between, LinksOf(doc, between)) == (Ok, t)
    && t.stateIndex == between.stateIndex && t.triggerIndex == between.triggerIndex
    && Invariant(t)
  }

  lemma LoadCompiles(doc: Node) returns (between: Tables)
    requires Load(doc).0 == Ok
    ensures Compiled(doc, between, Load(doc).1)
  {
    between := LoadWires(doc);
    RunLinksKeepsNames(between, LinksOf(doc, between));
    RunLinksKeeps(between, LinksOf(doc, between));
  }

  lemma CompiledIsParsed(doc: Node, between: Tables, t: Tables)
    requires Compiled(doc, between, t)
    ensures AllWellFormed(t.conditions)
  {
    RunLinksKeepsParsed(between, LinksOf(doc, between));
  }

  lemma CompiledHasStates(doc: Node, between: Tables, t: Tables)
    requires Compiled(doc, between, t)
    ensures |t.states| == |StateEntries(doc)| > 0
  {
    RunLinksKeeps(between, LinksOf(doc, between));
    assert |t.states.Keys| == |t.states| && |between.states.Keys| == |between.states|;
  }

  /** Whatever loads satisfies the build invariant and every check of validation, holds only
      parsed conditions, and has as many states as the document. */
  lemma LoadedIsSound(doc: Node)
    requires Load(doc).0 == Ok
    ensures Invariant(Load(doc).1) && WellLinked(Load(doc).1)
    ensures AllWellFormed(Load(doc).1.conditions)
    ensures |Load(doc).1.states| == |StateEntries(doc)|
  {
    var between := LoadCompiles(doc);
    CompiledIsParsed(doc, between, Load(doc).1);
    CompiledHasStates(doc, between, Load(doc).1);
    ValidationIsOneQuestion(Load(doc).1);
  }

  /** So loading, validation included, succeeds exactly on the acceptable documents. */
  lemma LoadingSucceedsExactly(doc: Node)
    ensures Load(doc).0 == Ok && ValidationOf(Load(doc).1) == Ok <==> Acceptable(doc)
  {
    LoadAcceptsExactly(doc);
    if Load(doc).0 == Ok {
      LoadedIsSound(doc);
      ValidationMeans(Load(doc).1);
    }
  }

  // ---------------------------------------------------------------------------
  // first match, written and compiled

  lemma GuardAgrees(w: Written, guard: seq<Condition>, m: ArgMap)
    requires GuardReads(w.when, guard)
    ensures WrittenHolds(w, m) <==> AllHold(guard, m)
  {
  }

  predicate Agrees(states: map<string, StateId>, answer: Answer, found: Option<StateId>) {
    match answer
    case Goes(name) => name in states && found == Some(states[name])
    case Refuses => found == None
    case Ignores => false
  }

  lemma {:induction false} FirstMatchAgrees(states: map<string, StateId>, list: seq<Written>, choices: seq<Choice>,
                                            m: ArgMap)
    requires ChoicesCompile(states, list, choices)
    ensures Agrees(states, FirstWritten(list, m), FirstMatch(choices, m))
  {
    if list != [] {
      GuardAgrees(list[0], choices[0].guard, m);
      FirstMatchAgrees(states, list[1..], choices[1..], m);
    }
  }

  /** A decision of the tables, said with a name in place of an id. */
  function AnswerOf(t: Tables, decision: (Decision, StateId)): Answer {
    match decision.0
    case Unlisted => Ignores
    case Rejected => Refuses
    case Accepted => Goes(if decision.1 in t.states then t.states[decision.1].name else "")
  }

  /** What a state's written list answers; an empty one is not listed at all. */
  function AnswerFrom(list: seq<Written>, m: ArgMap): Answer {
    if list == [] then Ignores else FirstWritten(list, m)
  }

  lemma DecideAgrees(t: Tables, list: seq<Written>, choices: seq<Choice>, m: ArgMap)
    requires StatesIndexed(t) && ChoicesCompile(t.stateIndex, list, choices)
    ensures AnswerOf(t, Decide(choices, m)) == AnswerFrom(list, m)
  {
    FirstMatchAgrees(t.stateIndex, list, choices, m);
    var names := StateNames(t.states);
    assert forall name :: name in t.stateIndex ==> t.stateIndex[name] in names && names[t.stateIndex[name]] == name;
  }

  // ---------------------------------------------------------------------------
  // which list is consulted

  lemma {:induction false} FindEntryAt(entries: seq<Node>, i: nat)
    requires i < |entries|
    requires forall j, k | 0 <= j < k < |entries| :: NameOfEntry(entries[j]) != NameOfEntry(entries[k])
    ensures FindEntry(entries, NameOfEntry(entries[i])) == Some(entries[i])
    decreases entries
  {
    if i > 0 {
      assert NameOfEntry(entries[0]) != NameOfEntry(entries[i]);
      FindEntryAt(entries[1..], i - 1);
    }
  }

  lemma {:induction false} FindEntryNowhere(entries: seq<Node>, name: string)
    requires name !in Names(entries)
    ensures FindEntry(entries, name) == None
    decreases entries
  {
    if entries != [] {
      assert NameOfEntry(entries[0]) in Names(entries);
      assert forall i | 0 < i < |entries| :: entries[i] == entries[1..][i - 1];
      FindEntryNowhere(entries[1..], name);
    }
  }

  /** The links of a document compile what it lists for a declared state and a declared
      trigger; for any other trigger it lists nothing and nothing is linked. */
  lemma {:induction false} DeclaredLinks(states: map<string, StateId>, triggers: map<string, TriggerId>,
                                         entries: seq<Node>, i: nat, trigger: string)
    requires Resolves(states, triggers, entries) && i < |entries|
    ensures NameOfEntry(entries[i]) in states
    ensures ChoicesCompile(states, WrittenFor(PairsOf(entries[i]), trigger),
                           LinkChoices(StatesLinks(states, triggers, entries), IdOf(states, entries[i]),
                                       FindName(triggers, trigger, MAX_NAME_LENGTH)))
  {
    FindsName(triggers, trigger);
    if trigger in triggers {
      StatesChoices(states, triggers, entries, i, trigger);
    } else {
      UndeclaredTrigger(states, triggers, entries, i, trigger);
    }
  }

  lemma {:induction false} UndeclaredTrigger(states: map<string, StateId>, triggers: map<string, TriggerId>,
                                             entries: seq<Node>, i: nat, trigger: string)
    requires Resolves(states, triggers, entries) && i < |entries| && trigger !in triggers
    ensures WrittenFor(PairsOf(entries[i]), trigger) == []
    ensures NameOfEntry(entries[i]) in states
    ensures LinkChoices(StatesLinks(states, triggers, entries), IdOf(states, entries[i]), NO_TRIGGER) == []
  {
    StatesTriggers(states, triggers, entries, i, entries[i]);
    KeyIsAbsent(PairsOf(entries[i]), trigger);
    WrittenForAbsent(PairsOf(entries[i]), trigger);
    assert NO_TRIGGER !in triggers.Values;
    StatesElsewhere(states, triggers, entries, IdOf(states, entries[i]), NO_TRIGGER);
  }

  /** What the tables list, decoded, is exactly what the second pass was asked to add. */
  lemma {:induction false} CompiledLists(doc: Node, between: Tables, t: Tables, s: StateId, e: TriggerId)
    requires Compiled(doc, between, t)
    ensures ChoicesAt(t, s, e) == LinkChoices(LinksOf(doc, between), s, e)
  {
    RunLinksChoices(between, LinksOf(doc, between), s, e);
    NothingListed(between, s, e);
  }

  /** Asking the tables by name. */
  function Ask(t: Tables, state: string, trigger: string, m: ArgMap): Answer {
    AnswerOf(t, EvaluateTables(t, FindName(t.stateIndex, state, MAX_NAME_LENGTH),
                               FindName(t.triggerIndex, trigger, MAX_NAME_LENGTH), m))
  }

  lemma ListAnswers(t: Tables, list: seq<Written>, s: StateId, e: TriggerId, m: ArgMap)
    requires Invariant(t) && ChoicesCompile(t.stateIndex, list, ChoicesAt(t, s, e))
    ensures AnswerOf(t, EvaluateTables(t, s, e, m)) == AnswerFrom(list, m)
  {
    PoolRefinesOwned(t, s, e, m);
    DecideAgrees(t, list, ChoicesAt(t, s, e), m);
  }

  /** What finding a state by name needs to know. */
  predicate StatesFindable(states: map<string, StateId>, entries: seq<Node>) {
    && Positioned(states, entries) && GoodIndex(states) && states.Keys == Names(entries)
    && forall j, k | 0 <= j < k < |entries| :: NameOfEntry(entries[j]) != NameOfEntry(entries[k])
  }

  lemma {:induction false} UnknownStateAnswers(t: Tables, entries: seq<Node>, state: string, trigger: string, m: ArgMap)
    requires StatesIndexed(t) && TriggersIndexed(t) && GoodIndex(t.stateIndex)
    requires t.stateIndex.Keys == Names(entries) && state !in t.stateIndex
    ensures Ask(t, state, trigger, m) == Ignores && FindEntry(entries, state) == None
  {
    FindsName(t.stateIndex, state);
    NextIdIsNew(t);
    FindEntryNowhere(entries, state);
  }

  lemma KnownStateIsEntry(states: map<string, StateId>, entries: seq<Node>, state: string) returns (i: nat)
    requires StatesFindable(states, entries) && state in states
    ensures i < |entries| && NameOfEntry(entries[i]) == state
    ensures FindName(states, state, MAX_NAME_LENGTH) == IdOf(states, entries[i])
    ensures FindEntry(entries, state) == Some(entries[i])
  {
    assert state in Names(entries);
    i :| 0 <= i < |entries| && NameOfEntry(entries[i]) == state;
    FindEntryAt(entries, i);
    FindsName(states, state);
  }

  lemma {:induction false} EntryAnswers(doc: Node, between: Tables, t: Tables, i: nat, trigger: string, m: ArgMap)
    requires Compiled(doc, between, t) && i < |StateEntries(doc)|
    ensures var entry := StateEntries(doc)[i];
            && NameOfEntry(entry) in t.stateIndex
            && AnswerOf(t, EvaluateTables(t, IdOf(t.stateIndex, entry),
                                          FindName(t.triggerIndex, trigger, MAX_NAME_LENGTH), m)) ==
               AnswerFrom(WrittenFor(PairsOf(entry), trigger), m)
  {
    var entry, e := StateEntries(doc)[i], FindName(t.triggerIndex, trigger, MAX_NAME_LENGTH);
    DeclaredLinks(t.stateIndex, t.triggerIndex, StateEntries(doc), i, trigger);
    CompiledLists(doc, between, t, IdOf(t.stateIndex, entry), e);
    ListAnswers(t, WrittenFor(PairsOf(entry), trigger), IdOf(t.stateIndex, entry), e, m);
  }

  lemma CompiledStates(doc: Node, between: Tables, t: Tables)
    requires Compiled(doc, between, t)
    ensures StatesFindable(t.stateIndex, StateEntries(doc)) && StatesIndexed(t) && TriggersIndexed(t)
  {
  }

  lemma {:induction false} EntryDecides(doc: Node, t: Tables, entry: Node, state: string, trigger: string, m: ArgMap)
    requires FindEntry(StateEntries(doc), state) == Some(entry)
    requires Ask(t, state, trigger, m) == AnswerFrom(WrittenFor(PairsOf(entry), trigger), m)
    ensures Ask(t, state, trigger, m) == Interpret(doc, state, trigger, m)
  {
  }

  lemma KnownStateAnswers(doc: Node, between: Tables, t: Tables, state: string, trigger: string, m: ArgMap)
    requires Compiled(doc, between, t) && state in t.stateIndex
    ensures Ask(t, state, trigger, m) == Interpret(doc, state, trigger, m)
  {
    CompiledStates(doc, between, t);
    var i := KnownStateIsEntry(t.stateIndex, StateEntries(doc), state);
    EntryAnswers(doc, between, t, i, trigger, m);
    EntryDecides(doc, t, StateEntries(doc)[i], state, trigger, m);
  }

  lemma CompiledAnswers(doc: Node, between: Tables, t: Tables, state: string, trigger: string, m: ArgMap)
    requires Compiled(doc, between, t)
    ensures Ask(t, state, trigger, m) == Interpret(doc, state, trigger, m)
  {
    CompiledStates(doc, between, t);
    if state in t.stateIndex {
      KnownStateAnswers(doc, between, t, state, trigger, m);
    } else {
      UnknownStateAnswers(t, StateEntries(doc), state, trigger, m);
    }
  }

  /** The compiler is correct: for every state name, trigger name and arguments, the loaded
      tables, asked by id, decide what the document says, read directly and by name. */
  lemma LoadedDecidesAsWritten(doc: Node, state: string, trigger: string, m: ArgMap)
    requires Load(doc).0 == Ok
    ensures Ask(Load(doc).1, state, trigger, m) == Interpret(doc, state, trigger, m)
  {
    var between := LoadCompiles(doc);
    CompiledAnswers(doc, between, Load(doc).1, state, trigger, m);
  }
}

/** Whole runs of a loaded machine, told by name. */
module WrittenRuns {
  import opened Limits
  import opened Types
  import opened Arguments
  import opened MachineTables
  import opened BuildPhase
  import opened Reachability
  import opened Guards
  import opened Documents
  import opened Loaders
  import opened Machines
  import opened Safety
  import opened DeadAlternatives
  import opened CompilerCorrectness

  /** A trigger raised by name. */
  datatype Event = Event(trigger: string, args: ArgMap)

  /** Where the document, read directly, ends up. */
  function Follow(doc: Node, state: string, events: seq<Event>): string {
    if events == [] then state
    else
      var last := events[|events| - 1];
      NextOf(doc, Follow(doc, state, events[..|events| - 1]), last)
  }

  function InputOf(t: Tables, event: Event): Input {
    Input(FindName(t.triggerIndex, event.trigger, MAX_NAME_LENGTH), event.args)
  }

  function InputsOf(t: Tables, events: seq<Event>): seq<Input> {
    if events == [] then []
    else InputsOf(t, events[..|events| - 1]) + [InputOf(t, events[|events| - 1])]
  }

  lemma NamesAreFound(t: Tables, s: StateId)
    requires StatesIndexed(t) && NamesFit(t) && s in t.states
    ensures FindName(t.stateIndex, t.states[s].name, MAX_NAME_LENGTH) == s
  {
    var names := StateNames(t.states);
    assert s in names && names[s] == t.states[s].name;
  }

  /** Where the document says a state goes. */
  function NextOf(doc: Node, here: string, event: Event): string {
    match Interpret(doc, here, event.trigger, event.args)
    case Goes(target) => target
    case _ => here
  }

  lemma FiresInside(t: Tables, p: Progress, e: TriggerId, m: ArgMap)
    requires NodesSound(t) && p.current in t.states
    ensures Fired(t, p, e, m).1.current in t.states
    ensures EvaluateTables(t, p.current, e, m).0 == Accepted ==> EvaluateTables(t, p.current, e, m).1 in t.states
  {
    if EvaluateTables(t, p.current, e, m).0 == Accepted {
      AcceptedIsEdge(t, p.current, e, m);
      EdgesStayInside(t, p.current, EvaluateTables(t, p.current, e, m).1);
    }
  }

  /** Firing ends where the answer, asked by name, says. */
  lemma FiredAsAsked(t: Tables, p: Progress, event: Event)
    requires StatesIndexed(t) && NamesFit(t) && NodesSound(t) && p.current in t.states
    ensures var now := Fired(t, p, InputOf(t, event).trigger, event.args).1.current;
            && now in t.states
            && t.states[now].name == match Ask(t, t.states[p.current].name, event.trigger, event.args)
                                     case Goes(target) => target
                                     case _ => t.states[p.current].name
  {
    NamesAreFound(t, p.current);
    FiresInside(t, p, InputOf(t, event).trigger, event.args);
  }

  lemma FiredAsWritten(doc: Node, t: Tables, p: Progress, event: Event)
    requires Load(doc) == (Ok, t) && Invariant(t) && p.current in t.states
    ensures var now := Fired(t, p, InputOf(t, event).trigger, event.args).1.current;
            now in t.states && t.states[now].name == NextOf(doc, t.states[p.current].name, event)
  {
    LoadedDecidesAsWritten(doc, t.states[p.current].name, event.trigger, event.args);
    FiredAsAsked(t, p, event);
  }

  /** A machine loaded from a document goes, over every sequence of triggers and arguments,
      where the document says. */
  lemma {:induction false} LoadedRunsAsWritten(doc: Node, p: Progress, events: seq<Event>)
    requires Load(doc).0 == Ok && p.current in Load(doc).1.states
    ensures var t := Load(doc).1;
            var now := Run(t, p, InputsOf(t, events)).current;
            now in t.states && t.states[now].name == Follow(doc, t.states[p.current].name, events)
  {
    if events != [] {
      var t, before, last := Load(doc).1, events[..|events| - 1], events[|events| - 1];
      LoadedRunsAsWritten(doc, p, before);
      LoadedIsSound(doc);
      var inputs := InputsOf(t, events);
      assert inputs[..|inputs| - 1] == InputsOf(t, before);
      FiredAsWritten(doc, t, Run(t, p, InputsOf(t, before)), last);
    }
  }

  predicate NamesStay(t: Tables, t': Tables) {
    && t'.stateIndex == t.stateIndex && t'.triggerIndex == t.triggerIndex && t'.states.Keys == t.states.Keys
    && forall s | s in t.states :: t'.states[s].name == t.states[s].name
  }

  lemma PruningKeepsNames(t: Tables)
    ensures NamesStay(t, Pruned(t))
  {
  }

  lemma StayingNamesAnswerAlike(t: Tables, t': Tables, decision: (Decision, StateId))
    requires NamesStay(t, t')
    ensures AnswerOf(t', decision) == AnswerOf(t, decision)
  {
  }

  lemma PruningAnswersAlike(t: Tables, t': Tables, state: string, trigger: string, m: ArgMap)
    requires Invariant(t) && PoolFoldable(t) && t' == Pruned(t)
    ensures Ask(t', state, trigger, m) == Ask(t, state, trigger, m)
  {
    var s, e := FindName(t.stateIndex, state, MAX_NAME_LENGTH), FindName(t.triggerIndex, trigger, MAX_NAME_LENGTH);
    PruningKeepsNames(t);
    PruningChangesNothing(t, s, e, m);
    StayingNamesAnswerAlike(t, t', EvaluateTables(t, s, e, m));
  }

  /** Deleting everything the linter reports as dead leaves a loaded machine that still
      answers as the document does. */
  lemma PrunedStillAnswers(doc: Node, state: string, trigger: string, m: ArgMap)
    requires Load(doc).0 == Ok
    ensures Invariant(Load(doc).1)
    ensures Ask(Pruned(Load(doc).1), state, trigger, m) == Interpret(doc, state, trigger, m)
  {
    var t := Load(doc).1;
    LoadedIsSound(doc);
    ParsedIsFoldable(t.conditions);
    LoadedDecidesAsWritten(doc, state, trigger, m);
    PruningAnswersAlike(t, Pruned(t), state, trigger, m);
  }
}
