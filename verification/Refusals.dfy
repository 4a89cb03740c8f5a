/** Why a document is refused: what each status means, and that it is the first thing wrong. And
    what an accepted document names its machine. */
module Refusals {
  import opened Limits
  import opened Types
  import opened Conditions
  import opened MachineTables
  import opened BuildPhase
  import opened Documents
  import opened Loaders
  import opened NamePass
  import opened LinkPass
  import opened Resolving
  import opened Compiling
  import opened Acceptance
  import opened CompilerCorrectness

  // ---------------------------------------------------------------------------
  // the head

  /** A section that belongs in the other file, or no mapping at all. */
  predicate Misplaced(doc: Node) {
    || !doc.Mapping? || Field(doc, "io").Some?
    || (Field(doc, "fsm").Some? && Field(Field(doc, "fsm").value, "initial").Some?)
  }

  /** The node that names the machine. */
  function NameNode(doc: Node): Option<Node> {
    if Field(doc, "fsm").Some? then Field(Field(doc, "fsm").value, "name") else None
  }

  lemma HeadRefusals(doc: Node, t: Tables)
    ensures var (status, t') := ReadHead(doc, t);
            var name := NameNode(doc);
            && (status == SchemaError <==> Misplaced(doc))
            && (status == ParseError <==> !Misplaced(doc) && name.Some? && TextOfNode(name.value) == None)
            && (status == NameTooLong <==> !Misplaced(doc) && name.Some? && |TextOr(name.value)| > MAX_NAME_LENGTH)
            && status in {Ok, SchemaError, ParseError, NameTooLong}
            && (status == Ok ==> t' == t.(name := if name.Some? then TextOr(name.value) else t.name))
  {
  }

  lemma {:induction false} TriggersKeepName(t: Tables, entries: seq<Node>)
    ensures DeclareTriggers(t, entries).1.name == t.name
    decreases entries
  {
    if entries != [] && DeclareOneTrigger(t, entries[0]).0 == Ok {
      TriggersKeepName(DeclareOneTrigger(t, entries[0]).1, entries[1..]);
    }
  }

  lemma {:induction false} StatesKeepName(t: Tables, entries: seq<Node>)
    ensures DeclareStates(t, entries).1.name == t.name
    decreases entries
  {
    if entries != [] && ReadName(entries[0]).Done? && DeclareState(t, ReadName(entries[0]).value).0 == Ok {
      StatesKeepName(DeclareState(t, ReadName(entries[0]).value).1, entries[1..]);
    }
  }

  lemma {:induction false} LinksKeepName(t: Tables, links: seq<Link>)
    ensures RunLinks(t, links).1.name == t.name
    decreases links
  {
    if links != [] && RunLink(t, links[0]).0 == Ok {
      LinksKeepName(RunLink(t, links[0]).1, links[1..]);
    }
  }

  /** A loaded machine has the name its document gives it, and otherwise none. */
  lemma LoadedName(doc: Node)
    requires Load(doc).0 == Ok
    ensures Load(doc).1.name == if NameNode(doc).Some? then TextOr(NameNode(doc).value) else ""
  {
    HeadRefusals(doc, NOTHING);
    var t1 := ReadHead(doc, NOTHING).1;
    TriggersKeepName(t1, TriggerEntries(doc));
    var t2 := DeclareTriggers(t1, TriggerEntries(doc)).1;
    StatesKeepName(t2, StateEntries(doc));
    var t3 := DeclareStates(t2, StateEntries(doc)).1;
    LinksKeepName(t3, StatesLinks(t3.stateIndex, t3.triggerIndex, StateEntries(doc)));
  }

  // ---------------------------------------------------------------------------
  // triggers

  /** Why a trigger entry is refused after others that were not. */
  predicate EntryRefused(defs: seq<TriggerDef>, entry: Node, status: Status) {
    if Field(entry, "name") == None then status == SchemaError
    else if !EntryReadable(entry) then status == ParseError
    else DefRefused(defs, TriggerDefOf(entry), status)
  }

  lemma OneEntryRefused(t: Tables, defs: seq<TriggerDef>, entry: Node)
    requires TriggersIndexed(t) && TriggersAre(t, defs) && DeclareOneTrigger(t, entry).0 != Ok
    ensures EntryRefused(defs, entry, DeclareOneTrigger(t, entry).0)
  {
    if EntryReadable(entry) {
      var (name, channel) := ReadTrigger(entry).value;
      EntryReads(entry);
      DeclaredRefused(t, defs, name, channel, TriggerDefOf(entry));
    }
  }

  /** Why a trigger is refused that could be read. */
  predicate DefRefused(defs: seq<TriggerDef>, d: TriggerDef, status: Status) {
    match status
    case InvalidArgument => d.name == ""
    case CapacityExceeded => d.name != "" && |defs| >= MAX_TRIGGERS
    case NameTooLong => |defs| < MAX_TRIGGERS && |d.name| > MAX_NAME_LENGTH
    case ChannelTooLong =>
      |defs| < MAX_TRIGGERS && 0 < |d.name| <= MAX_NAME_LENGTH && |d.channel| > MAX_CHANNEL_LENGTH
    case DuplicateName =>
      && |defs| < MAX_TRIGGERS && 0 < |d.name| <= MAX_NAME_LENGTH && |d.channel| <= MAX_CHANNEL_LENGTH
      && exists i | 0 <= i < |defs| :: defs[i].name == d.name || defs[i].channel == d.channel
    case _ => false
  }

  lemma DeclaredRefused(t: Tables, defs: seq<TriggerDef>, name: string, channel: string, d: TriggerDef)
    requires TriggersIndexed(t) && TriggersAre(t, defs) && d == TriggerDef(name, ChannelOr(channel, name))
    requires DeclareTrigger(t, name, channel).0 != Ok
    ensures DefRefused(defs, d, DeclareTrigger(t, name, channel).0)
  {
    NewDefMeans(t, defs, d);
    DeclareTriggerAnswers(t, name, channel, d.channel);
  }

  /** The first entry that cannot follow those before it. */
  predicate FirstEntryRefused(defs: seq<TriggerDef>, entries: seq<Node>, i: nat, status: Status) {
    && i < |entries| && EntriesReadable(entries[..i]) && TriggersLegal(defs + TriggerDefs(entries[..i]))
    && EntryRefused(defs + TriggerDefs(entries[..i]), entries[i], status)
  }

  lemma OneEntryOn(defs: seq<TriggerDef>, entries: seq<Node>, i: nat, status: Status)
    requires entries != [] && EntryReadable(entries[0])
    requires FirstEntryRefused(defs + [TriggerDefOf(entries[0])], entries[1..], i, status)
    ensures FirstEntryRefused(defs, entries, i + 1, status)
  {
    assert entries[..i + 1][1..] == entries[1..][..i];
    EntriesReadableFirst(entries[..i + 1]);
    assert defs + TriggerDefs(entries[..i + 1]) == defs + [TriggerDefOf(entries[0])] + TriggerDefs(entries[1..][..i]);
  }

  lemma NoEntryBefore(defs: seq<TriggerDef>, entries: seq<Node>, status: Status)
    requires entries != [] && TriggersLegal(defs) && EntryRefused(defs, entries[0], status)
    ensures FirstEntryRefused(defs, entries, 0, status)
  {
    assert entries[..0] == [] && defs + TriggerDefs([]) == defs;
  }

  /** The trigger section is refused for that entry. */
  lemma {:induction false} TriggersRefused(t: Tables, defs: seq<TriggerDef>, entries: seq<Node>, status: Status)
    returns (i: nat)
    requires TriggersReady(t, defs) && status == DeclareTriggers(t, entries).0 != Ok
    ensures FirstEntryRefused(defs, entries, i, status)
    decreases entries
  {
    i := 0;
    if DeclareOneTrigger(t, entries[0]).0 != Ok {
      OneEntryRefused(t, defs, entries[0]);
      NoEntryBefore(defs, entries, status);
    } else {
      var t' := NextEntry(t, defs, entries);
      i := TriggersRefused(t', defs + [TriggerDefOf(entries[0])], entries[1..], status);
      OneEntryOn(defs, entries, i, status);
      i := i + 1;
    }
  }

  lemma NextEntry(t: Tables, defs: seq<TriggerDef>, entries: seq<Node>) returns (t': Tables)
    requires TriggersReady(t, defs) && entries != [] && DeclareOneTrigger(t, entries[0]).0 == Ok
    ensures EntryReadable(entries[0]) && TriggersReady(t', defs + [TriggerDefOf(entries[0])])
    ensures DeclareTriggers(t, entries) == DeclareTriggers(t', entries[1..])
  {
    t' := DeclareOneTrigger(t, entries[0]).1;
    OneTriggerExact(t, defs, entries[0], defs + [TriggerDefOf(entries[0])]);
  }

  // ---------------------------------------------------------------------------
  // states

  /** Why a state entry is refused after others that were not. */
  predicate NameRefused(names: seq<string>, entry: Node, status: Status) {
    var name := NameOfEntry(entry);
    if Field(entry, "name") == None then status == SchemaError
    else if !NameReadable(entry) then status == ParseError
    else
      match status
      case InvalidArgument => name == ""
      case CapacityExceeded => name != "" && |names| >= MAX_STATES
      case NameTooLong => |names| < MAX_STATES && |name| > MAX_NAME_LENGTH
      case DuplicateName => |names| < MAX_STATES && 0 < |name| <= MAX_NAME_LENGTH && name in names
      case _ => false
  }

  function DeclareOneState(t: Tables, entry: Node): (Status, Tables) {
    match ReadName(entry)
    case Unread(status) => (status, t)
    case Done(name) => DeclareState(t, name)
  }

  lemma OneNameRefused(t: Tables, names: seq<string>, entry: Node)
    requires StatesIndexed(t) && StatesAre(t, names) && DeclareOneState(t, entry).0 != Ok
    ensures NameRefused(names, entry, DeclareOneState(t, entry).0)
  {
    StateIndexMeans(t, names);
    DeclareStateAnswers(t, NameOfEntry(entry));
  }

  predicate FirstNameRefused(names: seq<string>, entries: seq<Node>, i: nat, status: Status) {
    && i < |entries| && StatesReadable(entries[..i]) && StateNamesLegal(names + EntryNames(entries[..i]))
    && NameRefused(names + EntryNames(entries[..i]), entries[i], status)
  }

  lemma OneNameOn(names: seq<string>, entries: seq<Node>, i: nat, status: Status)
    requires entries != [] && NameReadable(entries[0])
    requires FirstNameRefused(names + [NameOfEntry(entries[0])], entries[1..], i, status)
    ensures FirstNameRefused(names, entries, i + 1, status)
  {
    assert entries[..i + 1][1..] == entries[1..][..i];
    ReadableFirst(entries[..i + 1]);
    assert names + EntryNames(entries[..i + 1]) == names + [NameOfEntry(entries[0])] + EntryNames(entries[1..][..i]);
  }

  lemma NoNameBefore(names: seq<string>, entries: seq<Node>, status: Status)
    requires entries != [] && StateNamesLegal(names) && NameRefused(names, entries[0], status)
    ensures FirstNameRefused(names, entries, 0, status)
  {
    assert entries[..0] == [] && names + EntryNames([]) == names;
  }

  /** The state names are refused for the first that cannot follow those before it. */
  lemma {:induction false} NamesRefused(t: Tables, names: seq<string>, entries: seq<Node>, status: Status)
    returns (i: nat)
    requires StatesReady(t, names) && status == DeclareStates(t, entries).0 != Ok
    ensures FirstNameRefused(names, entries, i, status)
    decreases entries
  {
    i := 0;
    if DeclareOneState(t, entries[0]).0 != Ok {
      OneNameRefused(t, names, entries[0]);
      NoNameBefore(names, entries, status);
    } else {
      var t' := NextName(t, names, entries);
      i := NamesRefused(t', names + [NameOfEntry(entries[0])], entries[1..], status);
      OneNameOn(names, entries, i, status);
      i := i + 1;
    }
  }

  lemma NextName(t: Tables, names: seq<string>, entries: seq<Node>) returns (t': Tables)
    requires StatesReady(t, names) && entries != [] && DeclareOneState(t, entries[0]).0 == Ok
    ensures NameReadable(entries[0]) && StatesReady(t', names + [NameOfEntry(entries[0])])
    ensures DeclareStates(t, entries) == DeclareStates(t', entries[1..])
  {
    t' := DeclareOneState(t, entries[0]).1;
    DeclareStateReady(t, names, NameOfEntry(entries[0]));
  }

  // ---------------------------------------------------------------------------
  // transitions

  /** The first link at which wiring stops, and with what. */
  predicate StopsAt(t: Tables, links: seq<Link>, i: nat, status: Status) {
    i < |links| && RunLinks(t, links[..i]).0 == Ok && status == FaultOf(links[i])
  }

  lemma StopsLater(t: Tables, links: seq<Link>, i: nat, status: Status)
    requires links != [] && RunLink(t, links[0]).0 == Ok && StopsAt(RunLink(t, links[0]).1, links[1..], i, status)
    ensures StopsAt(t, links, i + 1, status)
  {
    assert links[..i + 1][1..] == links[1..][..i];
  }

  lemma ResolvedLater(t: Tables, links: seq<Link>)
    requires links != [] && RunLink(t, links[0]).0 == Ok && OnlyResolved(t, links)
    ensures OnlyResolved(RunLink(t, links[0]).1, links[1..])
  {
  }

  predicate OnlyResolved(t: Tables, links: seq<Link>) {
    forall i | 0 <= i < |links| && links[i].Add? :: Resolved(t, links[i])
  }

  /** Wiring is refused for the first link that stands for a fault, with that fault, or for the
      first that does not fit, and then only because something is full. */
  lemma {:induction false} WiringRefused(t: Tables, links: seq<Link>) returns (i: nat)
    requires OnlyResolved(t, links) && RunLinks(t, links).0 != Ok
    ensures StopsAt(t, links, i, RunLinks(t, links).0)
    decreases links
  {
    i := 0;
    if RunLink(t, links[0]).0 != Ok {
      assert links[..0] == [];
      OneLinkRefused(t, links[0]);
    } else {
      ResolvedLater(t, links);
      i := WiringRefused(RunLink(t, links[0]).1, links[1..]);
      StopsLater(t, links, i, RunLinks(t, links).0);
      i := i + 1;
    }
  }

  /** What a link is refused with, if it is. */
  function FaultOf(link: Link): Status {
    match link
    case Broken(status) => status
    case Add(_, _, _, _) => CapacityExceeded
  }

  lemma OneLinkRefused(t: Tables, link: Link)
    requires RunLink(t, link).0 != Ok && (link.Add? ==> Resolved(t, link))
    ensures RunLink(t, link).0 == FaultOf(link)
  {
  }

  /** The first text among conditions that cannot be read, or the first there is no room for. */
  lemma {:induction false} ConditionsRefused(items: seq<Node>, read: ConditionList)
    requires ReadConditions(items, read).Unread?
    ensures exists i :: 0 <= i < |items| && AllReadable(items[..i]) && |read| + i <= MAX_CONDITIONS_PER_GUARD &&
                        ConditionRefused(items[i], |read| + i, ReadConditions(items, read).status)
    decreases items
  {
    if ConditionReadable(items[0]) && |read| < MAX_CONDITIONS_PER_GUARD {
      ReadConditionsStep(items, read);
      ConditionsRefused(items[1..], read + [ConditionAt(items[0])]);
      var i :| 0 <= i < |items[1..]| && AllReadable(items[1..][..i]) && |read| + 1 + i <= MAX_CONDITIONS_PER_GUARD &&
               ConditionRefused(items[1..][i], |read| + 1 + i, ReadConditions(items, read).status);
      OneConditionOn(items, i);
    } else {
      assert items[..0] == [];
    }
  }

  lemma OneConditionOn(items: seq<Node>, i: nat)
    requires items != [] && i < |items[1..]| && ConditionReadable(items[0]) && AllReadable(items[1..][..i])
    ensures AllReadable(items[..i + 1]) && items[1..][i] == items[i + 1]
  {
    assert items[..i + 1][1..] == items[1..][..i];
    AllReadableFirst(items[..i + 1]);
  }

  /** Why a condition is refused as the one at a position. */
  predicate ConditionRefused(item: Node, position: nat, status: Status) {
    if TextOfNode(item) == None then status == ParseError
    else if position >= MAX_CONDITIONS_PER_GUARD then status == CapacityExceeded
    else status != Ok && ReadGuard(TextOr(item)) == Refused(status)
  }

  /** Why a `when` is refused. */
  ghost predicate WhenRefused(when: Option<Node>, status: Status) {
    match when
    case None => false
    case Some(Sequence(items)) =>
      if items == [] then status == SchemaError
      else exists i :: 0 <= i < |items| && AllReadable(items[..i]) && i <= MAX_CONDITIONS_PER_GUARD &&
                       ConditionRefused(items[i], i, status)
    case Some(n) => ConditionRefused(n, 0, status)
  }

  lemma WhenIsRefused(when: Option<Node>)
    requires ReadWhen(when).Unread?
    ensures WhenRefused(when, ReadWhen(when).status)
  {
    match when
    case Some(Sequence(items)) =>
      if items != [] {
        ConditionsRefused(items, []);
      }
    case Some(n) => ConditionsRefused([n], []);
  }

  /** Why an alternative is refused: its target comes first, and then its guard. */
  ghost predicate AlternativeRefused(states: set<string>, n: Node, status: Status) {
    match Field(n, "target")
    case None => status == SchemaError
    case Some(target) =>
      if TextOfNode(target) == None then status == ParseError
      else if TextOr(target) !in states then status == UnknownState
      else WhenRefused(Field(n, "when"), status)
  }

  lemma AlternativeIsRefused(states: map<string, StateId>, n: Node, from: StateId, on: TriggerId)
    requires GoodIndex(states) && AlternativeLink(states, n, from, on).Broken?
    ensures AlternativeRefused(states.Keys, n, AlternativeLink(states, n, from, on).status)
  {
    FindsName(states, TargetText(n));
    if ReadWhen(Field(n, "when")).Unread? {
      WhenIsRefused(Field(n, "when"));
    }
  }

  /** Why one of the alternatives of a trigger is. */
  ghost predicate OutcomeRefused(states: set<string>, outcome: Node, status: Status) {
    match outcome
    case Scalar(text) => text !in states && status == UnknownState
    case Mapping(_) => AlternativeRefused(states, outcome, status)
    case Sequence(items) =>
      if items == [] then status == SchemaError
      else exists i :: 0 <= i < |items| && AlternativeRefused(states, items[i], status)
    case Null => status == SchemaError
  }

  lemma {:induction false} AlternativesAreRefused(states: map<string, StateId>, items: seq<Node>, from: StateId,
                                                  on: TriggerId, k: nat)
    requires GoodIndex(states) && k < |AlternativeLinks(states, items, from, on)|
    requires AlternativeLinks(states, items, from, on)[k].Broken?
    ensures k < |items| &&
            AlternativeRefused(states.Keys, items[k], AlternativeLinks(states, items, from, on)[k].status)
    decreases items
  {
    if k == 0 {
      AlternativeIsRefused(states, items[0], from, on);
    } else {
      AlternativesAreRefused(states, items[1..], from, on, k - 1);
    }
  }

  lemma OutcomeIsRefused(states: map<string, StateId>, outcome: Node, from: StateId, on: TriggerId, k: nat)
    requires GoodIndex(states) && k < |OutcomeLinks(states, outcome, from, on)|
    requires OutcomeLinks(states, outcome, from, on)[k].Broken?
    ensures OutcomeRefused(states.Keys, outcome, OutcomeLinks(states, outcome, from, on)[k].status)
  {
    match outcome
    case Scalar(text) => FindsName(states, text);
    case Mapping(_) => AlternativeIsRefused(states, outcome, from, on);
    case Sequence(items) =>
      if items != [] {
        AlternativesAreRefused(states, items, from, on, k);
      }
    case Null =>
  }

  /** Why what a state does with a trigger is: the trigger's name comes first. */
  ghost predicate PairRefused(states: set<string>, triggers: set<string>, pair: (Node, Node), status: Status) {
    if TextOfNode(pair.0) == None then status == ParseError
    else if TextOr(pair.0) !in triggers then status == UnknownTrigger
    else OutcomeRefused(states, pair.1, status)
  }

  lemma PairIsRefused(states: map<string, StateId>, triggers: map<string, TriggerId>, pair: (Node, Node),
                      from: StateId, k: nat)
    requires GoodIndex(states) && GoodIndex(triggers) && k < |PairLinks(states, triggers, pair, from)|
    requires PairLinks(states, triggers, pair, from)[k].Broken?
    ensures PairRefused(states.Keys, triggers.Keys, pair, PairLinks(states, triggers, pair, from)[k].status)
  {
    FindsName(triggers, TextOr(pair.0));
    if TextOfNode(pair.0).Some? && TextOr(pair.0) in triggers {
      OutcomeIsRefused(states, pair.1, from, triggers[TextOr(pair.0)], k);
    }
  }

  lemma {:induction false} PairsAreRefused(states: map<string, StateId>, triggers: map<string, TriggerId>,
                                           pairs: seq<(Node, Node)>, from: StateId, links: seq<Link>, k: nat)
    returns (j: nat)
    requires GoodIndex(states) && GoodIndex(triggers) && links == PairsLinks(states, triggers, pairs, from)
    requires k < |links| && links[k].Broken?
    ensures j < |pairs| && PairRefused(states.Keys, triggers.Keys, pairs[j], links[k].status)
    decreases pairs
  {
    var first, rest := PairLinks(states, triggers, pairs[0], from), PairsLinks(states, triggers, pairs[1..], from);
    assert links == first + rest;
    j := 0;
    if k < |first| {
      assert links[k] == first[k];
      PairIsRefused(states, triggers, pairs[0], from, k);
    } else {
      assert links[k] == rest[k - |first|];
      j := PairsAreRefused(states, triggers, pairs[1..], from, rest, k - |first|);
      assert pairs[1..][j] == pairs[j + 1];
      j := j + 1;
    }
  }

  /** Why a state's transitions are: they are no mapping, or one of its pairs is refused. */
  ghost predicate TransitionsRefused(states: set<string>, triggers: set<string>, entry: Node, status: Status) {
    match Field(entry, "transitions")
    case None => false
    case Some(Mapping(pairs)) => exists j :: 0 <= j < |pairs| && PairRefused(states, triggers, pairs[j], status)
    case Some(_) => status == SchemaError
  }

  lemma TransitionsAreRefused(states: map<string, StateId>, triggers: map<string, TriggerId>, entry: Node, k: nat)
    requires GoodIndex(states) && GoodIndex(triggers) && NameReadable(entry)
    requires k < |StateLinks(states, triggers, entry)| && StateLinks(states, triggers, entry)[k].Broken?
    ensures TransitionsRefused(states.Keys, triggers.Keys, entry, StateLinks(states, triggers, entry)[k].status)
  {
    match Field(entry, "transitions")
    case Some(Mapping(pairs)) =>
      var from := FindName(states, NameOfEntry(entry), MAX_NAME_LENGTH);
      var j := PairsAreRefused(states, triggers, pairs, from, PairsLinks(states, triggers, pairs, from), k);
    case _ =>
  }

  predicate ComesFrom(states: map<string, StateId>, triggers: map<string, TriggerId>, entries: seq<Node>, link: Link,
                      j: nat) {
    j < |entries| && link in StateLinks(states, triggers, entries[j])
  }

  lemma ComesFromLater(states: map<string, StateId>, triggers: map<string, TriggerId>, entries: seq<Node>, link: Link,
                       j: nat)
    requires entries != [] && ComesFrom(states, triggers, entries[1..], link, j)
    ensures ComesFrom(states, triggers, entries, link, j + 1)
  {
  }

  /** Which state a link comes from. */
  lemma {:induction false} StateOfLink(states: map<string, StateId>, triggers: map<string, TriggerId>,
                                       entries: seq<Node>, link: Link) returns (j: nat)
    requires link in StatesLinks(states, triggers, entries)
    ensures ComesFrom(states, triggers, entries, link, j)
    decreases entries
  {
    if link in StateLinks(states, triggers, entries[0]) {
      j := 0;
    } else {
      j := StateOfLink(states, triggers, entries[1..], link);
      ComesFromLater(states, triggers, entries, link, j);
      j := j + 1;
    }
  }

  lemma {:induction false} StatesAreRefused(states: map<string, StateId>, triggers: map<string, TriggerId>,
                                            entries: seq<Node>, status: Problem) returns (j: nat)
    requires GoodIndex(states) && GoodIndex(triggers) && StatesReadable(entries)
    requires Broken(status) in StatesLinks(states, triggers, entries)
    ensures j < |entries| && TransitionsRefused(states.Keys, triggers.Keys, entries[j], status)
  {
    j := StateOfLink(states, triggers, entries, Broken(status));
    var links := StateLinks(states, triggers, entries[j]);
    var k :| 0 <= k < |links| && links[k] == Broken(status);
    TransitionsAreRefused(states, triggers, entries[j], k);
  }

  // ---------------------------------------------------------------------------
  // the ids in links

  /** A link that is not a fault goes from one state that is there to another. */
  predicate Points(states: set<StateId>, triggers: set<TriggerId>, link: Link) {
    link.Add? ==> link.from in states && link.on in triggers && link.target in states
  }

  predicate AllPoint(states: set<StateId>, triggers: set<TriggerId>, links: seq<Link>) {
    forall i | 0 <= i < |links| :: Points(states, triggers, links[i])
  }

  lemma BothPoint(states: set<StateId>, triggers: set<TriggerId>, a: seq<Link>, b: seq<Link>)
    requires AllPoint(states, triggers, a) && AllPoint(states, triggers, b)
    ensures AllPoint(states, triggers, a + b)
  {
  }

  lemma {:induction false} AlternativesPoint(states: map<string, StateId>, triggers: set<TriggerId>, items: seq<Node>,
                                             from: StateId, on: TriggerId)
    requires from in states.Values && on in triggers
    ensures AllPoint(states.Values, triggers, AlternativeLinks(states, items, from, on))
    decreases items
  {
    if items != [] {
      AlternativesPoint(states, triggers, items[1..], from, on);
      BothPoint(states.Values, triggers, [AlternativeLink(states, items[0], from, on)],
                AlternativeLinks(states, items[1..], from, on));
    }
  }

  lemma {:induction false} PairsPoint(states: map<string, StateId>, triggers: map<string, TriggerId>,
                                      pairs: seq<(Node, Node)>, from: StateId)
    requires from in states.Values
    ensures AllPoint(states.Values, triggers.Values, PairsLinks(states, triggers, pairs, from))
    decreases pairs
  {
    if pairs != [] {
      PairPoints(states, triggers, pairs[0], from);
      PairsPoint(states, triggers, pairs[1..], from);
      BothPoint(states.Values, triggers.Values, PairLinks(states, triggers, pairs[0], from),
                PairsLinks(states, triggers, pairs[1..], from));
    }
  }

  lemma PairPoints(states: map<string, StateId>, triggers: map<string, TriggerId>, pair: (Node, Node), from: StateId)
    requires from in states.Values
    ensures AllPoint(states.Values, triggers.Values, PairLinks(states, triggers, pair, from))
  {
    var on := FindName(triggers, TextOr(pair.0), MAX_NAME_LENGTH);
    if TextOfNode(pair.0).Some? && on != NO_TRIGGER && pair.1.Sequence? {
      AlternativesPoint(states, triggers.Values, pair.1.items, from, on);
    }
  }

  lemma {:induction false} LinksAreResolved(t: Tables, entries: seq<Node>)
    requires StatesReadable(entries) && Named(t.stateIndex, entries) && GoodIndex(t.stateIndex)
    requires t.stateIndex.Values <= t.states.Keys && t.triggerIndex.Values <= t.triggers.Keys
    ensures OnlyResolved(t, StatesLinks(t.stateIndex, t.triggerIndex, entries))
  {
    var links := StatesLinks(t.stateIndex, t.triggerIndex, entries);
    forall k | 0 <= k < |links| && links[k].Add?
      ensures Resolved(t, links[k])
    {
      var j := StateOfLink(t.stateIndex, t.triggerIndex, entries, links[k]);
      EntryPoints(t.stateIndex, t.triggerIndex, entries[j]);
      assert Points(t.stateIndex.Values, t.triggerIndex.Values, links[k]);
    }
  }

  lemma EntryPoints(states: map<string, StateId>, triggers: map<string, TriggerId>, entry: Node)
    requires NameReadable(entry) && NameOfEntry(entry) in states && GoodIndex(states)
    ensures AllPoint(states.Values, triggers.Values, StateLinks(states, triggers, entry))
  {
    FindsName(states, NameOfEntry(entry));
    PairsPoint(states, triggers, PairsOf(entry), states[NameOfEntry(entry)]);
  }

  // ---------------------------------------------------------------------------
  // the whole document

  /** Why a document is refused, section by section: its head, its triggers, the names of its
      states, and what those do. */
  ghost predicate DocumentRefused(doc: Node, status: Status) {
    var triggers, states := Field(doc, "triggers"), Field(doc, "states");
    if !HeadLegal(doc) then HeadRefused(doc, status)
    else if !IsList(triggers) then status == SchemaError
    else if !TriggersAcceptable(doc) then exists i :: FirstEntryRefused([], Items(triggers), i, status)
    else if !IsList(states) then status == SchemaError
    else if !NamesAcceptable(doc) then exists i :: FirstNameRefused([], Items(states), i, status)
    else
      || status == CapacityExceeded
      || exists j :: 0 <= j < |Items(states)| &&
                     TransitionsRefused(Names(Items(states)), Names(Items(triggers)), Items(states)[j], status)
  }

  predicate HeadRefused(doc: Node, status: Status) {
    if Misplaced(doc) then status == SchemaError
    else
      && NameNode(doc).Some?
      && status == if TextOfNode(NameNode(doc).value) == None then ParseError else NameTooLong
  }

  lemma HeadIsRefused(doc: Node)
    requires !HeadLegal(doc)
    ensures HeadRefused(doc, Load(doc).0)
  {
  }

  lemma TriggersAreRefused(doc: Node, t: Tables)
    requires IsList(Field(doc, "triggers")) && ReadTriggers(doc, t).0 != Ok
    requires exists name :: t == NOTHING.(name := name)
    ensures exists i :: FirstEntryRefused([], Items(Field(doc, "triggers")), i, ReadTriggers(doc, t).0)
  {
    var name :| t == NOTHING.(name := name);
    NothingIsSound(name);
    var i := TriggersRefused(t, [], Items(Field(doc, "triggers")), ReadTriggers(doc, t).0);
  }

  lemma {:induction false} StatesRefused(doc: Node, t: Tables, triggerEntries: seq<Node>)
    requires StatesReady(t, []) && TriggersAre(t, TriggerDefs(triggerEntries)) && IsList(Field(doc, "states"))
    requires ReadStates(doc, t).0 != Ok
    ensures var entries, status := Items(Field(doc, "states")), ReadStates(doc, t).0;
            if !NamesAcceptable(doc) then exists i :: FirstNameRefused([], entries, i, status)
            else
              || status == CapacityExceeded
              || exists j :: 0 <= j < |entries| &&
                             TransitionsRefused(Names(entries), Names(triggerEntries), entries[j], status)
  {
    var entries := Items(Field(doc, "states"));
    FirstPassExact(doc, t, triggerEntries);
    if !NamesAcceptable(doc) {
      var i := NamesRefused(t, [], entries, ReadStates(doc, t).0);
    } else {
      WiringIsRefused(DeclareStates(t, entries).1, entries, triggerEntries);
    }
  }

  lemma {:induction false} WiringIsRefused(t: Tables, entries: seq<Node>, triggerEntries: seq<Node>)
    requires Invariant(t) && StatesAre(t, EntryNames(entries)) && TriggersAre(t, TriggerDefs(triggerEntries))
    requires StatesReadable(entries) && RunLinks(t, StatesLinks(t.stateIndex, t.triggerIndex, entries)).0 != Ok
    ensures var status := RunLinks(t, StatesLinks(t.stateIndex, t.triggerIndex, entries)).0;
            || status == CapacityExceeded
            || exists j :: 0 <= j < |entries| &&
                           TransitionsRefused(Names(entries), Names(triggerEntries), entries[j], status)
  {
    var links := StatesLinks(t.stateIndex, t.triggerIndex, entries);
    DeclaredResolves(t, entries, triggerEntries);
    LinksAreResolved(t, entries);
    var k := WiringRefused(t, links);
    if links[k].Broken? {
      assert links[k] in links;
      var j := StatesAreRefused(t.stateIndex, t.triggerIndex, entries, links[k].status);
    }
  }

  /** A document is refused for what is wrong with the first section in which anything is. */
  lemma {:induction false} LoadRefused(doc: Node)
    requires Load(doc).0 != Ok
    ensures DocumentRefused(doc, Load(doc).0)
  {
    ReadHeadExact(doc);
    if !HeadLegal(doc) {
      HeadIsRefused(doc);
    } else {
      var t := ReadHead(doc, NOTHING).1;
      ReadTriggersExact(doc, t);
      if IsList(Field(doc, "triggers")) {
        if !TriggersAcceptable(doc) {
          TriggersAreRefused(doc, t);
        } else if IsList(Field(doc, "states")) {
          StatesRefused(doc, ReadTriggers(doc, t).1, Items(Field(doc, "triggers")));
        }
      }
    }
  }
}
