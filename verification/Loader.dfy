/** The loader: a document is compiled into the tables in two passes, names first. */
module Loaders {
  import opened Limits
  import opened Types
  import opened Conditions
  import opened MachineTables
  import opened Documents
  import opened Models

  datatype Reading<+T> = Done(value: T) | Unread(status: Problem)

  // ---------------------------------------------------------------------------
  // what each part of a document turns into

  function ReadTrigger(entry: Node): Reading<(string, string)> {
    match Field(entry, "name")
    case None => Unread(SchemaError)
    case Some(name) =>
      if TextOfNode(name) == None then Unread(ParseError)
      else
        match Field(entry, "channel")
        case None => Done((TextOr(name), ""))
        case Some(channel) =>
          if TextOfNode(channel) == None then Unread(ParseError) else Done((TextOr(name), TextOr(channel)))
  }

  function DeclareOneTrigger(t: Tables, entry: Node): (Status, Tables) {
    match ReadTrigger(entry)
    case Unread(status) => (status, t)
    case Done((name, channel)) => DeclareTrigger(t, name, channel)
  }

  function DeclareTriggers(t: Tables, entries: seq<Node>): (Status, Tables)
    decreases entries
  {
    if entries == [] then (Ok, t)
    else
      var (status, t') := DeclareOneTrigger(t, entries[0]);
      if status != Ok then (status, t') else DeclareTriggers(t', entries[1..])
  }

  function ReadName(entry: Node): Reading<string> {
    match Field(entry, "name")
    case None => Unread(SchemaError)
    case Some(name) => if TextOfNode(name) == None then Unread(ParseError) else Done(TextOr(name))
  }

  function DeclareStates(t: Tables, entries: seq<Node>): (Status, Tables)
    decreases entries
  {
    if entries == [] then (Ok, t)
    else
      match ReadName(entries[0])
      case Unread(status) => (status, t)
      case Done(name) =>
        var (status, t') := DeclareState(t, name);
        if status != Ok then (status, t') else DeclareStates(t', entries[1..])
  }

  /** Reads conditions after those already `read`. */
  function ReadConditions(items: seq<Node>, read: ConditionList): Reading<ConditionList> {
    if items == [] then Done(read)
    else if TextOfNode(items[0]) == None then Unread(ParseError)
    else if |read| >= MAX_CONDITIONS_PER_GUARD then Unread(CapacityExceeded)
    else
      match ReadGuard(TextOr(items[0]))
      case Refused(status) => Unread(status)
      case Guard(c) => ReadConditions(items[1..], read + [c])
  }

  function ReadWhen(when: Option<Node>): Reading<ConditionList> {
    match when
    case None => Done([])
    case Some(Sequence(items)) => if items == [] then Unread(SchemaError) else ReadConditions(items, [])
    case Some(n) => ReadConditions([n], [])
  }

  /** One call of add_transition, or the status that stands in its place. */
  datatype Link = Add(from: StateId, on: TriggerId, target: StateId, guard: ConditionList) | Broken(status: Problem)

  function AlternativeLink(states: map<string, StateId>, n: Node, from: StateId, on: TriggerId): Link {
    match Field(n, "target")
    case None => Broken(SchemaError)
    case Some(name) =>
      if TextOfNode(name) == None then Broken(ParseError)
      else
        var target := FindName(states, TextOr(name), MAX_NAME_LENGTH);
        if target == NO_STATE then Broken(UnknownState)
        else
          match ReadWhen(Field(n, "when"))
          case Unread(status) => Broken(status)
          case Done(guard) => Add(from, on, target, guard)
  }

  function AlternativeLinks(states: map<string, StateId>, items: seq<Node>, from: StateId, on: TriggerId): seq<Link> {
    if items == [] then []
    else [AlternativeLink(states, items[0], from, on)] + AlternativeLinks(states, items[1..], from, on)
  }

  function OutcomeLinks(states: map<string, StateId>, outcome: Node, from: StateId, on: TriggerId): seq<Link> {
    match outcome
    case Scalar(name) =>
      var target := FindName(states, name, MAX_NAME_LENGTH);
      [if target == NO_STATE then Broken(UnknownState) else Add(from, on, target, [])]
    case Mapping(_) => [AlternativeLink(states, outcome, from, on)]
    case Sequence(items) => if items == [] then [Broken(SchemaError)] else AlternativeLinks(states, items, from, on)
    case Null => [Broken(SchemaError)]
  }

  function PairLinks(states: map<string, StateId>, triggers: map<string, TriggerId>, pair: (Node, Node),
                     from: StateId): seq<Link> {
    if TextOfNode(pair.0) == None then [Broken(ParseError)]
    else
      var on := FindName(triggers, TextOr(pair.0), MAX_NAME_LENGTH);
      if on == NO_TRIGGER then [Broken(UnknownTrigger)] else OutcomeLinks(states, pair.1, from, on)
  }

  function PairsLinks(states: map<string, StateId>, triggers: map<string, TriggerId>, pairs: seq<(Node, Node)>,
                      from: StateId): seq<Link> {
    if pairs == [] then []
    else PairLinks(states, triggers, pairs[0], from) + PairsLinks(states, triggers, pairs[1..], from)
  }

  function TransitionLinks(states: map<string, StateId>, triggers: map<string, TriggerId>, transitions: Option<Node>,
                           from: StateId): seq<Link> {
    match transitions
    case None => []
    case Some(Mapping(pairs)) => PairsLinks(states, triggers, pairs, from)
    case Some(_) => [Broken(SchemaError)]
  }

  function StateLinks(states: map<string, StateId>, triggers: map<string, TriggerId>, entry: Node): seq<Link> {
    match ReadName(entry)
    case Unread(status) => [Broken(status)]
    case Done(name) =>
      TransitionLinks(states, triggers, Field(entry, "transitions"), FindName(states, name, MAX_NAME_LENGTH))
  }

  function StatesLinks(states: map<string, StateId>, triggers: map<string, TriggerId>, entries: seq<Node>): seq<Link> {
    if entries == [] then [] else StateLinks(states, triggers, entries[0]) + StatesLinks(states, triggers, entries[1..])
  }

  function RunLink(t: Tables, link: Link): (Status, Tables) {
    match link
    case Broken(status) => (status, t)
    case Add(from, on, target, guard) => AddTransition(t, from, on, target, guard)
  }

  /** Makes the calls in order, up to the first that fails. */
  function RunLinks(t: Tables, links: seq<Link>): (Status, Tables)
    decreases links
  {
    if links == [] then (Ok, t)
    else
      var (status, t') := RunLink(t, links[0]);
      if status != Ok then (status, t') else RunLinks(t', links[1..])
  }

  function ReadHead(doc: Node, t: Tables): (Status, Tables) {
    if !doc.Mapping? then (SchemaError, t)
    else if Field(doc, "io") != None then (SchemaError, t)
    else
      match Field(doc, "fsm")
      case None => (Ok, t)
      case Some(fsm) =>
        if Field(fsm, "initial") != None then (SchemaError, t)
        else
          match Field(fsm, "name")
          case None => (Ok, t)
          case Some(name) => if TextOfNode(name) == None then (ParseError, t) else SetName(t, TextOr(name))
  }

  function ReadTriggers(doc: Node, t: Tables): (Status, Tables) {
    var triggers := Field(doc, "triggers");
    if !IsList(triggers) then (SchemaError, t) else DeclareTriggers(t, Items(triggers))
  }

  function ReadStates(doc: Node, t: Tables): (Status, Tables) {
    var states := Field(doc, "states");
    if !IsList(states) then (SchemaError, t)
    else
      var (status, t') := DeclareStates(t, Items(states));
      if status != Ok then (status, t')
      else RunLinks(t', StatesLinks(t'.stateIndex, t'.triggerIndex, Items(states)))
  }

  /** The whole document, up to the first thing wrong with it; validation comes after. */
  function ReadMachine(doc: Node, t: Tables): (Status, Tables) {
    var (head, t1) := ReadHead(doc, t);
    if head != Ok then (head, t1)
    else
      var (triggers, t2) := ReadTriggers(doc, t1);
      if triggers != Ok then (triggers, t2) else ReadStates(doc, t2)
  }

  /** Loading starts from an empty machine. */
  function Load(doc: Node): (Status, Tables) {
    ReadMachine(doc, NOTHING)
  }

  // ---------------------------------------------------------------------------
  // running links

  lemma {:induction false} RunLinksAppends(t: Tables, a: seq<Link>, b: seq<Link>)
    ensures RunLinks(t, a + b) == if RunLinks(t, a).0 == Ok then RunLinks(RunLinks(t, a).1, b) else RunLinks(t, a)
    decreases a
  {
    if a == [] {
      assert a + b == b;
    } else {
      assert (a + b)[1..] == a[1..] + b;
      if RunLink(t, a[0]).0 == Ok {
        RunLinksAppends(RunLink(t, a[0]).1, a[1..], b);
      }
    }
  }

  lemma {:induction false} RunLinksOne(t: Tables, link: Link)
    ensures RunLinks(t, [link]) == RunLink(t, link)
  {
  }

  lemma {:induction false} RunLinksKeepsNames(t: Tables, links: seq<Link>)
    ensures var t' := RunLinks(t, links).1; t'.stateIndex == t.stateIndex && t'.triggerIndex == t.triggerIndex
    decreases links
  {
    if links != [] && RunLink(t, links[0]).0 == Ok {
      RunLinksKeepsNames(RunLink(t, links[0]).1, links[1..]);
    }
  }

  /** Reads the `when` of an alternative: one comparison, or a list of them. */
  method ParseWhen(when: Option<Node>) returns (status: Status, guard: ConditionList)
    ensures match ReadWhen(when)
            case Done(g) => status == Ok && guard == g
            case Unread(s) => status == s
    ensures status == Ok ==> ReadWhen(when).Done?
  {
    guard := [];
    match when {
      case None =>
        return Ok, guard;
      case Some(n) =>
        if n.Sequence? {
          if n.items == [] {
            return SchemaError, guard;
          }
          for i := 0 to |n.items|
            invariant ReadConditions(n.items, []) == ReadConditions(n.items[i..], guard)
          {
            assert n.items[i..][1..] == n.items[i + 1..];
            status, guard := ParseOneCondition(n.items[i], guard, n.items[i + 1..]);
            if status != Ok {
              return;
            }
          }
          return Ok, guard;
        }
        assert [n][1..] == [];
        status, guard := ParseOneCondition(n, guard, []);
    }
  }

  /** Reads one condition and pushes it onto the guard. */
  method ParseOneCondition(item: Node, sofar: ConditionList, ghost rest: seq<Node>)
    returns (status: Status, guard: ConditionList)
    ensures status == Ok ==> ReadConditions([item] + rest, sofar) == ReadConditions(rest, guard)
    ensures status != Ok ==> ReadConditions([item] + rest, sofar) == Unread(status)
  {
    guard := sofar;
    assert ([item] + rest)[1..] == rest;
    if TextOfNode(item) == None {
      return ParseError, guard;
    }
    if |sofar| >= MAX_CONDITIONS_PER_GUARD {
      return CapacityExceeded, guard;
    }
    var condition;
    status, condition := ParseCondition(TextOr(item));
    if status != Ok {
      return;
    }
    guard := sofar + [condition];
  }

  // ---------------------------------------------------------------------------
  // the two passes

  method ParseTriggers(root: Node, model: Model) returns (status: Status)
    modifies model
    ensures (status, model.View()) == ReadTriggers(root, old(model.View()))
  {
    var node := Field(root, "triggers");
    if node == None || !node.value.Sequence? || node.value.items == [] {
      return SchemaError;
    }
    var entries := node.value.items;
    assert entries[0..] == entries;
    for i := 0 to |entries|
      invariant DeclareTriggers(old(model.View()), entries) == DeclareTriggers(model.View(), entries[i..])
    {
      assert entries[i..][1..] == entries[i + 1..];
      status := ParseTrigger(entries[i], model);
      if status != Ok {
        return;
      }
    }
    return Ok;
  }

  method ParseTrigger(entry: Node, model: Model) returns (status: Status)
    modifies model
    ensures (status, model.View()) == DeclareOneTrigger(old(model.View()), entry)
  {
    var nameNode := Field(entry, "name");
    if !entry.Mapping? || nameNode == None {
      return SchemaError;
    }
    var name := TextOfNode(nameNode.value);
    if name == None {
      return ParseError;
    }
    var channel := "";
    var channelNode := Field(entry, "channel");
    if channelNode.Some? {
      var text := TextOfNode(channelNode.value);
      if text == None {
        return ParseError;
      }
      channel := text.value;
    }
    var id;
    status, id := model.DeclareTrigger(name.value, channel);
  }

  /** First pass: every state is declared before any transition is read. */
  method DeclareAllStates(entries: seq<Node>, model: Model) returns (status: Status)
    modifies model
    ensures (status, model.View()) == DeclareStates(old(model.View()), entries)
  {
    assert entries[0..] == entries;
    for i := 0 to |entries|
      invariant DeclareStates(old(model.View()), entries) == DeclareStates(model.View(), entries[i..])
    {
      assert entries[i..][1..] == entries[i + 1..];
      var nameNode := Field(entries[i], "name");
      if !entries[i].Mapping? || nameNode == None {
        return SchemaError;
      }
      var name := TextOfNode(nameNode.value);
      if name == None {
        return ParseError;
      }
      var id;
      status, id := model.DeclareState(name.value);
      if status != Ok {
        return;
      }
    }
    return Ok;
  }

  method ParseAlternative(n: Node, from: StateId, on: TriggerId, model: Model) returns (status: Status)
    modifies model
    ensures (status, model.View()) == RunLink(old(model.View()), AlternativeLink(old(model.stateIndex), n, from, on))
  {
    var targetNode := Field(n, "target");
    if !n.Mapping? || targetNode == None {
      return SchemaError;
    }
    var name := TextOfNode(targetNode.value);
    if name == None {
      return ParseError;
    }
    var target := model.FindState(name.value);
    if target == NO_STATE {
      return UnknownState;
    }
    var guard;
    status, guard := ParseWhen(Field(n, "when"));
    if status != Ok {
      return;
    }
    status := model.AddTransition(from, on, target, guard);
  }

  method LinkAlternatives(items: seq<Node>, from: StateId, on: TriggerId, model: Model) returns (status: Status)
    modifies model
    ensures (status, model.View()) ==
            RunLinks(old(model.View()), AlternativeLinks(old(model.stateIndex), items, from, on))
  {
    ghost var index := model.stateIndex;
    assert items[0..] == items;
    for i := 0 to |items|
      invariant model.stateIndex == index
      invariant RunLinks(old(model.View()), AlternativeLinks(index, items, from, on)) ==
                RunLinks(model.View(), AlternativeLinks(index, items[i..], from, on))
    {
      assert items[i..][1..] == items[i + 1..];
      ghost var link := AlternativeLink(index, items[i], from, on);
      FirstLink(model.View(), link, AlternativeLinks(index, items[i + 1..], from, on));
      status := ParseAlternative(items[i], from, on, model);
      if status != Ok {
        return;
      }
    }
    return Ok;
  }

  /** Running a list starts with its first link, which leaves the names as they are. */
  lemma {:induction false} FirstLink(t: Tables, link: Link, rest: seq<Link>)
    ensures RunLinks(t, [link] + rest) ==
            if RunLink(t, link).0 != Ok then RunLink(t, link) else RunLinks(RunLink(t, link).1, rest)
    ensures RunLink(t, link).1.stateIndex == t.stateIndex && RunLink(t, link).1.triggerIndex == t.triggerIndex
  {
  }

  /** The three spellings of an outcome. */
  method LinkOutcome(outcome: Node, from: StateId, on: TriggerId, model: Model) returns (status: Status)
    modifies model
    ensures (status, model.View()) ==
            RunLinks(old(model.View()), OutcomeLinks(old(model.stateIndex), outcome, from, on))
  {
    ghost var t, index := model.View(), model.stateIndex;
    if outcome.Scalar? {
      RunLinksOne(t, if FindName(index, outcome.text, MAX_NAME_LENGTH) == NO_STATE then Broken(UnknownState)
                     else Add(from, on, FindName(index, outcome.text, MAX_NAME_LENGTH), []));
      var target := model.FindState(outcome.text);
      if target == NO_STATE {
        return UnknownState;
      }
      status := model.AddTransition(from, on, target, []);
      return;
    }
    if outcome.Mapping? {
      RunLinksOne(t, AlternativeLink(index, outcome, from, on));
      status := ParseAlternative(outcome, from, on, model);
      return;
    }
    if outcome.Sequence? {
      if outcome.items == [] {
        RunLinksOne(t, Broken(SchemaError));
        return SchemaError;
      }
      status := LinkAlternatives(outcome.items, from, on, model);
      return;
    }
    RunLinksOne(t, Broken(SchemaError));
    return SchemaError;
  }

  method LinkPair(pair: (Node, Node), from: StateId, model: Model) returns (status: Status)
    modifies model
    ensures (status, model.View()) ==
            RunLinks(old(model.View()), PairLinks(old(model.stateIndex), old(model.triggerIndex), pair, from))
  {
    ghost var t := model.View();
    var name := TextOfNode(pair.0);
    if name == None {
      RunLinksOne(t, Broken(ParseError));
      return ParseError;
    }
    var on := model.FindTrigger(name.value);
    if on == NO_TRIGGER {
      RunLinksOne(t, Broken(UnknownTrigger));
      return UnknownTrigger;
    }
    status := LinkOutcome(pair.1, from, on, model);
  }

  method LinkPairs(pairs: seq<(Node, Node)>, from: StateId, model: Model) returns (status: Status)
    modifies model
    ensures (status, model.View()) ==
            RunLinks(old(model.View()), PairsLinks(old(model.stateIndex), old(model.triggerIndex), pairs, from))
  {
    ghost var t, states, triggers := model.View(), model.stateIndex, model.triggerIndex;
    assert pairs[0..] == pairs;
    for i := 0 to |pairs|
      invariant model.stateIndex == states && model.triggerIndex == triggers
      invariant RunLinks(t, PairsLinks(states, triggers, pairs, from)) ==
                RunLinks(model.View(), PairsLinks(states, triggers, pairs[i..], from))
    {
      assert pairs[i..][1..] == pairs[i + 1..];
      ghost var links := PairLinks(states, triggers, pairs[i], from);
      RunLinksAppends(model.View(), links, PairsLinks(states, triggers, pairs[i + 1..], from));
      RunLinksKeepsNames(model.View(), links);
      status := LinkPair(pairs[i], from, model);
      if status != Ok {
        return;
      }
    }
    return Ok;
  }

  method LinkState(entry: Node, model: Model) returns (status: Status)
    modifies model
    ensures (status, model.View()) ==
            RunLinks(old(model.View()), StateLinks(old(model.stateIndex), old(model.triggerIndex), entry))
  {
    ghost var t := model.View();
    var nameNode := Field(entry, "name");
    if nameNode == None {
      RunLinksOne(t, Broken(SchemaError));
      return SchemaError;
    }
    var name := TextOfNode(nameNode.value);
    if name == None {
      RunLinksOne(t, Broken(ParseError));
      return ParseError;
    }
    var from := model.FindState(name.value);
    var transitions := Field(entry, "transitions");
    if transitions == None {
      return Ok;
    }
    if !transitions.value.Mapping? {
      RunLinksOne(t, Broken(SchemaError));
      return SchemaError;
    }
    status := LinkPairs(transitions.value.entries, from, model);
  }

  /** Second pass: wires the transitions. */
  method LinkAllStates(entries: seq<Node>, model: Model) returns (status: Status)
    modifies model
    ensures (status, model.View()) ==
            RunLinks(old(model.View()), StatesLinks(old(model.stateIndex), old(model.triggerIndex), entries))
  {
    ghost var t, states, triggers := model.View(), model.stateIndex, model.triggerIndex;
    assert entries[0..] == entries;
    for i := 0 to |entries|
      invariant model.stateIndex == states && model.triggerIndex == triggers
      invariant RunLinks(t, StatesLinks(states, triggers, entries)) ==
                RunLinks(model.View(), StatesLinks(states, triggers, entries[i..]))
    {
      assert entries[i..][1..] == entries[i + 1..];
      ghost var links := StateLinks(states, triggers, entries[i]);
      RunLinksAppends(model.View(), links, StatesLinks(states, triggers, entries[i + 1..]));
      RunLinksKeepsNames(model.View(), links);
      status := LinkState(entries[i], model);
      if status != Ok {
        return;
      }
    }
    return Ok;
  }

  method ParseHead(root: Node, model: Model) returns (status: Status)
    modifies model
    ensures (status, model.View()) == ReadHead(root, old(model.View()))
  {
    if !root.Mapping? {
      return SchemaError;
    }
    if Field(root, "io") != None {
      return SchemaError;
    }
    var fsm := Field(root, "fsm");
    if fsm.Some? && fsm.value.Mapping? && Field(fsm.value, "initial") != None {
      return SchemaError;
    }
    if fsm.Some? && fsm.value.Mapping? {
      var nameNode := Field(fsm.value, "name");
      if nameNode.Some? {
        var name := TextOfNode(nameNode.value);
        if name == None {
          return ParseError;
        }
        status := model.SetName(name.value);
        return;
      }
    }
    return Ok;
  }

  method ParseMachine(root: Node, model: Model) returns (status: Status)
    modifies model
    ensures model.View() == ReadMachine(root, old(model.View())).1
    ensures ReadMachine(root, old(model.View())).0 != Ok ==> status == ReadMachine(root, old(model.View())).0
    ensures ReadMachine(root, old(model.View())).0 == Ok ==> status == ValidationOf(model.View())
  {
    status := ParseHead(root, model);
    if status != Ok {
      return;
    }
    status := ParseTriggers(root, model);
    if status != Ok {
      return;
    }
    var states := Field(root, "states");
    if states == None || !states.value.Sequence? || states.value.items == [] {
      return SchemaError;
    }
    status := DeclareAllStates(states.value.items, model);
    if status != Ok {
      return;
    }
    status := LinkAllStates(states.value.items, model);
    if status != Ok {
      return;
    }
    status := model.Validate();
  }

  /** Loads a document into a model that is cleared first, and again if anything fails. */
  method LoadMachine(root: Node, model: Model) returns (status: Status)
    modifies model
    ensures status == if Load(root).0 != Ok then Load(root).0 else ValidationOf(Load(root).1)
    ensures model.View() == if status == Ok then Load(root).1 else NOTHING
  {
    model.Clear();
    status := ParseMachine(root, model);
    if status != Ok {
      model.Clear();
    }
  }
}
