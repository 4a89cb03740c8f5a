/** The loader as a whole: it accepts exactly the acceptable documents, and what it builds
    decides exactly as the document read directly. */
module Acceptance {
  import opened Limits
  import opened Types
  import opened MachineTables
  import opened BuildPhase
  import opened Histories
  import opened Guards
  import opened Documents
  import opened Loaders
  import opened NamePass
  import opened LinkPass
  import opened Resolving
  import opened Compiling

  // ---------------------------------------------------------------------------
  // links use declared ids and parsed guards

  predicate Sane(states: map<string, StateId>, triggers: map<string, TriggerId>, link: Link) {
    && link.Add? && AllWellFormed(link.guard)
    && link.from in states.Values && link.on in triggers.Values && link.target in states.Values
  }

  predicate AllSane(states: map<string, StateId>, triggers: map<string, TriggerId>, links: seq<Link>) {
    forall i | 0 <= i < |links| :: Sane(states, triggers, links[i])
  }

  lemma SaneBoth(states: map<string, StateId>, triggers: map<string, TriggerId>, a: seq<Link>, b: seq<Link>)
    requires AllSane(states, triggers, a) && AllSane(states, triggers, b)
    ensures AllSane(states, triggers, a + b)
  {
  }

  lemma PairIsSane(states: map<string, StateId>, triggers: map<string, TriggerId>, pair: (Node, Node), from: StateId)
    requires Indexed(states, triggers) && PairLegal(states.Keys, triggers.Keys, pair) && from in states.Values
    ensures AllSane(states, triggers, PairLinks(states, triggers, pair, from))
  {
    PairExact(states, triggers, pair, from);
    var list, links, on := WrittenOutcome(pair.1), PairLinks(states, triggers, pair, from), triggers[TextOr(pair.0)];
    forall i | 0 <= i < |links|
      ensures Sane(states, triggers, links[i])
    {
      assert LinkCompiles(states, list[i], links[i], from, on);
      ReadsAreWellFormed(list[i].when, links[i].guard);
    }
  }

  lemma {:induction false} PairsAreSane(states: map<string, StateId>, triggers: map<string, TriggerId>,
                                        pairs: seq<(Node, Node)>, from: StateId)
    requires Indexed(states, triggers) && AllPairsLegal(states.Keys, triggers.Keys, pairs) && from in states.Values
    ensures AllSane(states, triggers, PairsLinks(states, triggers, pairs, from))
    decreases pairs
  {
    if pairs != [] {
      AllPairsFirst(states.Keys, triggers.Keys, pairs);
      PairIsSane(states, triggers, pairs[0], from);
      PairsAreSane(states, triggers, pairs[1..], from);
      SaneBoth(states, triggers, PairLinks(states, triggers, pairs[0], from),
               PairsLinks(states, triggers, pairs[1..], from));
    }
  }

  lemma {:induction false} StatesAreSane(states: map<string, StateId>, triggers: map<string, TriggerId>,
                                         entries: seq<Node>)
    requires Resolves(states, triggers, entries)
    ensures AllSane(states, triggers, StatesLinks(states, triggers, entries))
    decreases entries
  {
    if entries != [] {
      ResolvesFirst(states, triggers, entries);
      var pairs, from := PairsOf(entries[0]), IdOf(states, entries[0]);
      PairsAreSane(states, triggers, pairs, from);
      StatesAreSane(states, triggers, entries[1..]);
      SaneBoth(states, triggers, PairsLinks(states, triggers, pairs, from),
               StatesLinks(states, triggers, entries[1..]));
    }
  }

  // ---------------------------------------------------------------------------
  // the tables between the two passes

  lemma IndexesAreGood(t: Tables)
    requires StatesIndexed(t) && TriggersIndexed(t) && NamesFit(t)
    ensures Indexed(t.stateIndex, t.triggerIndex)
    ensures t.stateIndex.Values <= t.states.Keys && t.triggerIndex.Values <= t.triggers.Keys
  {
  }

  lemma {:induction false} EntryNamesAt(entries: seq<Node>, i: nat)
    requires i < |entries|
    ensures EntryNames(entries)[i] == NameOfEntry(entries[i])
  {
    if i > 0 {
      EntryNamesAt(entries[1..], i - 1);
    }
  }

  lemma {:induction false} TriggerDefsAt(entries: seq<Node>, i: nat)
    requires i < |entries|
    ensures TriggerDefs(entries)[i] == TriggerDefOf(entries[i]) &&
            TriggerDefs(entries)[i].name == NameOfEntry(entries[i])
  {
    if i > 0 {
      TriggerDefsAt(entries[1..], i - 1);
    }
  }

  lemma {:induction false} EntryNamesMean(entries: seq<Node>)
    ensures forall i | 0 <= i < |entries| :: EntryNames(entries)[i] == NameOfEntry(entries[i])
    ensures forall n :: n in EntryNames(entries) <==> n in Names(entries)
  {
    var names := EntryNames(entries);
    forall i | 0 <= i < |entries|
      ensures names[i] == NameOfEntry(entries[i])
    {
      EntryNamesAt(entries, i);
    }
    forall n | n in Names(entries)
      ensures n in names
    {
      var i :| 0 <= i < |entries| && NameOfEntry(entries[i]) == n;
      assert names[i] == n;
    }
  }

  lemma {:induction false} KeysAreNames(index: map<string, Id>, entries: seq<Node>, names: seq<string>)
    requires names == EntryNames(entries) && forall n :: n in index <==> n in names
    ensures index.Keys == Names(entries)
  {
    EntryNamesMean(entries);
  }

  predicate Placed(index: map<string, StateId>, entries: seq<Node>) {
    forall i | 0 <= i < |entries| :: NameOfEntry(entries[i]) in index && index[NameOfEntry(entries[i])] == i
  }

  lemma {:induction false} PlacedByNames(index: map<string, StateId>, entries: seq<Node>, names: seq<string>)
    requires names == EntryNames(entries)
    requires forall i | 0 <= i < |names| :: names[i] in index && index[names[i]] == i
    ensures Placed(index, entries)
  {
    EntryNamesMean(entries);
    forall i | 0 <= i < |entries|
      ensures NameOfEntry(entries[i]) in index && index[NameOfEntry(entries[i])] == i
    {
      assert names[i] == NameOfEntry(entries[i]);
    }
  }

  /** The state index holds the names of the entries, each under its position. */
  lemma {:induction false} StateIndexOf(t: Tables, entries: seq<Node>, names: seq<string>)
    requires StatesIndexed(t) && StatesAre(t, names) && names == EntryNames(entries)
    ensures t.stateIndex.Keys == Names(entries) && Placed(t.stateIndex, entries) && |entries| <= 0xFFFF
  {
    StateIndexMeans(t, names);
    IndexedByPosition(t.stateIndex, entries, names);
  }

  lemma {:induction false} IndexedByPosition(index: map<string, Id>, entries: seq<Node>, names: seq<string>)
    requires names == EntryNames(entries) && |names| <= 0xFFFF
    requires forall n :: n in index <==> n in names
    requires forall i | 0 <= i < |names| :: names[i] in index && index[names[i]] == i
    ensures index.Keys == Names(entries) && Placed(index, entries)
  {
    KeysAreNames(index, entries, names);
    PlacedByNames(index, entries, names);
  }

  lemma {:induction false} DefNamesMean(entries: seq<Node>)
    ensures NamesIn(TriggerDefs(entries)) == EntryNames(entries)
  {
    forall i | 0 <= i < |entries|
      ensures NamesIn(TriggerDefs(entries))[i] == EntryNames(entries)[i]
    {
      TriggerDefsAt(entries, i);
      EntryNamesAt(entries, i);
    }
  }

  lemma {:induction false} TriggerIndexOf(t: Tables, entries: seq<Node>)
    requires TriggersIndexed(t) && TriggersAre(t, TriggerDefs(entries))
    ensures t.triggerIndex.Keys == Names(entries)
  {
    TriggerIndexMeans(t, TriggerDefs(entries));
    DefNamesMean(entries);
    KeysAreNames(t.triggerIndex, entries, EntryNames(entries));
  }

  lemma PlacedIsNamed(index: map<string, StateId>, entries: seq<Node>)
    requires Placed(index, entries) && forall i | 0 <= i < |entries| :: NameReadable(entries[i])
    ensures Named(index, entries)
  {
  }

  // ---------------------------------------------------------------------------
  // the bounds, by name

  lemma NothingListed(t: Tables, s: StateId, e: TriggerId)
    requires NoTransitions(t)
    ensures ChoicesAt(t, s, e) == [] && TriggersListed(t, s) == {}
  {
  }

  predicate AllStatesFit(entries: seq<Node>) {
    forall i | 0 <= i < |entries| :: StateFits(entries[i])
  }

  /** Every id is the position of an entry, or of none. */
  predicate Positioned(states: map<string, StateId>, entries: seq<Node>) {
    |entries| <= 0xFFFF && Placed(states, entries)
  }

  lemma {:induction false} StateFitsFromLinks(t: Tables, states: map<string, StateId>,
                                              triggers: map<string, TriggerId>, entries: seq<Node>, i: nat)
    requires Resolves(states, triggers, entries) && i < |entries| && NoTransitions(t)
    requires LinksFit(t, StatesLinks(states, triggers, entries))
    ensures StateFits(entries[i])
  {
    var links, pairs := StatesLinks(states, triggers, entries), PairsOf(entries[i]);
    StatesTriggers(states, triggers, entries, i, entries[i]);
    var s := IdOf(states, entries[i]);
    NothingListed(t, s, 0);
    IdsCount(triggers, KeysOf(pairs));
    assert TriggersListed(t, s) + LinkTriggers(links, s) == LinkTriggers(links, s);
    assert |TriggersListed(t, s) + LinkTriggers(links, s)| <= MAX_TRANSITIONS_PER_STATE;
    forall name | name in KeysOf(pairs)
      ensures |WrittenFor(pairs, name)| <= MAX_ALTERNATIVES
    {
      StatesChoices(states, triggers, entries, i, name);
      NothingListed(t, s, triggers[name]);
      assert |ChoicesAt(t, s, triggers[name])| + |LinkChoices(links, s, triggers[name])| <= MAX_ALTERNATIVES;
    }
  }

  lemma {:induction false} ListFitsFromState(states: map<string, StateId>, triggers: map<string, TriggerId>,
                                             entries: seq<Node>, s: StateId, e: TriggerId)
    requires Resolves(states, triggers, entries) && Positioned(states, entries) && AllStatesFit(entries)
    ensures |LinkChoices(StatesLinks(states, triggers, entries), s, e)| <= MAX_ALTERNATIVES
  {
    if s < |entries| && e in triggers.Values {
      var name :| name in triggers && triggers[name] == e;
      StatesChoices(states, triggers, entries, s, name);
      assert StateFits(entries[s]);
      if name !in KeysOf(PairsOf(entries[s])) {
        KeyIsAbsent(PairsOf(entries[s]), name);
        WrittenForAbsent(PairsOf(entries[s]), name);
      }
    } else {
      StatesElsewhere(states, triggers, entries, s, e);
    }
  }

  lemma KeyIsAbsent(pairs: seq<(Node, Node)>, name: string)
    requires name !in KeysOf(pairs)
    ensures forall i | 0 <= i < |pairs| :: TextOfNode(pairs[i].0) != Some(name)
  {
  }

  lemma {:induction false} NodeFitsFromState(states: map<string, StateId>, triggers: map<string, TriggerId>,
                                             entries: seq<Node>, s: StateId)
    requires Resolves(states, triggers, entries) && Positioned(states, entries) && AllStatesFit(entries)
    ensures |LinkTriggers(StatesLinks(states, triggers, entries), s)| <= MAX_TRANSITIONS_PER_STATE
  {
    if s < |entries| {
      StatesTriggers(states, triggers, entries, s, entries[s]);
      IdsCount(triggers, KeysOf(PairsOf(entries[s])));
      assert StateFits(entries[s]);
    } else {
      StatesTriggersElsewhere(states, triggers, entries, s);
    }
  }

  /** The bounds on the links are the bounds on the document. */
  lemma {:induction false} FitsExact(t: Tables, states: map<string, StateId>, triggers: map<string, TriggerId>,
                                     entries: seq<Node>)
    requires Resolves(states, triggers, entries) && Positioned(states, entries) && NoTransitions(t)
    ensures LinksFit(t, StatesLinks(states, triggers, entries)) <==>
            ConditionsInStates(entries) <= MAX_CONDITIONS && AllStatesFit(entries)
  {
    var links := StatesLinks(states, triggers, entries);
    StatesConditions(states, triggers, entries);
    if LinksFit(t, links) {
      forall i | 0 <= i < |entries|
        ensures StateFits(entries[i])
      {
        StateFitsFromLinks(t, states, triggers, entries, i);
      }
    }
    if ConditionsInStates(entries) <= MAX_CONDITIONS && AllStatesFit(entries) {
      FitsFromStates(t, states, triggers, entries);
    }
  }

  lemma {:induction false} FitsFromStates(t: Tables, states: map<string, StateId>, triggers: map<string, TriggerId>,
                                          entries: seq<Node>)
    requires Resolves(states, triggers, entries) && Positioned(states, entries) && NoTransitions(t)
    requires ConditionsInStates(entries) <= MAX_CONDITIONS && AllStatesFit(entries)
    ensures LinksFit(t, StatesLinks(states, triggers, entries))
  {
    var links := StatesLinks(states, triggers, entries);
    StatesConditions(states, triggers, entries);
    forall s, e
      ensures |ChoicesAt(t, s, e)| + |LinkChoices(links, s, e)| <= MAX_ALTERNATIVES
    {
      NothingListed(t, s, e);
      ListFitsFromState(states, triggers, entries, s, e);
    }
    forall s
      ensures |TriggersListed(t, s) + LinkTriggers(links, s)| <= MAX_TRANSITIONS_PER_STATE
    {
      NothingListed(t, s, 0);
      NodeFitsFromState(states, triggers, entries, s);
      assert {} + LinkTriggers(links, s) == LinkTriggers(links, s);
    }
  }

  // ---------------------------------------------------------------------------
  // acceptance

  /** Between the passes, everything the second one needs. */
  lemma {:induction false} DeclaredResolves(t: Tables, entries: seq<Node>, triggerEntries: seq<Node>)
    requires Invariant(t) && StatesAre(t, EntryNames(entries)) && TriggersAre(t, TriggerDefs(triggerEntries))
    requires StatesReadable(entries)
    ensures Indexed(t.stateIndex, t.triggerIndex) && Named(t.stateIndex, entries) && Positioned(t.stateIndex, entries)
    ensures t.stateIndex.Values <= t.states.Keys && t.triggerIndex.Values <= t.triggers.Keys
    ensures t.stateIndex.Keys == Names(entries) && t.triggerIndex.Keys == Names(triggerEntries)
  {
    IndexesAreGood(t);
    StateIndexOf(t, entries, EntryNames(entries));
    TriggerIndexOf(t, triggerEntries);
    PlacedIsNamed(t.stateIndex, entries);
  }

  lemma SaneIsResolved(t: Tables, links: seq<Link>)
    requires AllSane(t.stateIndex, t.triggerIndex, links)
    requires t.stateIndex.Values <= t.states.Keys && t.triggerIndex.Values <= t.triggers.Keys
    ensures AllResolved(t, links) && GuardsWellFormed(links)
  {
  }

  /** The second pass succeeds exactly when every transition is legal and everything fits. */
  lemma {:induction false} LinkingExact(t: Tables, entries: seq<Node>)
    requires Invariant(t) && NoTransitions(t) && Indexed(t.stateIndex, t.triggerIndex)
    requires Named(t.stateIndex, entries) && Positioned(t.stateIndex, entries)
    requires t.stateIndex.Values <= t.states.Keys && t.triggerIndex.Values <= t.triggers.Keys
    ensures RunLinks(t, StatesLinks(t.stateIndex, t.triggerIndex, entries)).0 == Ok <==>
            && AllTransitionsLegal(t.stateIndex.Keys, t.triggerIndex.Keys, entries)
            && ConditionsInStates(entries) <= MAX_CONDITIONS && AllStatesFit(entries)
  {
    var states, triggers := t.stateIndex, t.triggerIndex;
    var links := StatesLinks(states, triggers, entries);
    StatesExact(states, triggers, entries);
    if AllTransitionsLegal(states.Keys, triggers.Keys, entries) {
      StatesAreSane(states, triggers, entries);
      SaneIsResolved(t, links);
      RunLinksExact(t, links);
      FitsExact(t, states, triggers, entries);
    } else if RunLinks(t, links).0 == Ok {
      RunLinksNeedsAll(t, links);
    }
  }

  lemma NothingIsSound(name: string)
    ensures Invariant(NOTHING.(name := name)) && NoTransitions(NOTHING.(name := name))
    ensures StatesReady(NOTHING.(name := name), []) && TriggersReady(NOTHING.(name := name), [])
  {
  }

  lemma ReadHeadExact(doc: Node)
    ensures ReadHead(doc, NOTHING).0 == Ok <==> HeadLegal(doc)
    ensures exists name :: ReadHead(doc, NOTHING).1 == NOTHING.(name := name)
  {
  }

  predicate TriggersAcceptable(doc: Node) {
    var triggers := Field(doc, "triggers");
    && IsList(triggers)
    && EntriesReadable(Items(triggers))
    && TriggersLegal(TriggerDefs(Items(triggers)))
  }

  /** After the trigger section: exactly the triggers of the document, and no states yet. */
  lemma ReadTriggersExact(doc: Node, t: Tables)
    requires exists name :: t == NOTHING.(name := name)
    ensures ReadTriggers(doc, t).0 == Ok <==> TriggersAcceptable(doc)
    ensures ReadTriggers(doc, t).0 == Ok ==>
              var t' := ReadTriggers(doc, t).1;
              StatesReady(t', []) && TriggersAre(t', TriggerDefs(Items(Field(doc, "triggers"))))
  {
    var name :| t == NOTHING.(name := name);
    NothingIsSound(name);
    var entries := Items(Field(doc, "triggers"));
    assert [] + TriggerDefs(entries) == TriggerDefs(entries);
    DeclareTriggersExact(t, [], entries, TriggerDefs(entries));
  }

  predicate NamesAcceptable(doc: Node) {
    var states := Field(doc, "states");
    IsList(states) && StatesReadable(Items(states)) && StateNamesLegal(EntryNames(Items(states)))
  }

  predicate WiringAcceptable(doc: Node) {
    var entries := Items(Field(doc, "states"));
    && AllTransitionsLegal(Names(entries), Names(Items(Field(doc, "triggers"))), entries)
    && ConditionsInStates(entries) <= MAX_CONDITIONS && AllStatesFit(entries)
  }

  /** The tables between the passes. */
  lemma {:induction false} FirstPassExact(doc: Node, t: Tables, triggerEntries: seq<Node>)
    requires StatesReady(t, []) && TriggersAre(t, TriggerDefs(triggerEntries))
    ensures var entries := Items(Field(doc, "states"));
            && (DeclareStates(t, entries).0 == Ok <==> StatesReadable(entries) && StateNamesLegal(EntryNames(entries)))
            && (DeclareStates(t, entries).0 == Ok ==>
                  var t' := DeclareStates(t, entries).1;
                  StatesReady(t', EntryNames(entries)) && TriggersAre(t', TriggerDefs(triggerEntries)))
  {
    var entries := Items(Field(doc, "states"));
    assert [] + EntryNames(entries) == EntryNames(entries);
    DeclareStatesExact(t, [], entries, EntryNames(entries));
  }

  lemma ReadStatesExact(doc: Node, t: Tables)
    requires StatesReady(t, []) && TriggersAre(t, TriggerDefs(Items(Field(doc, "triggers"))))
    ensures ReadStates(doc, t).0 == Ok <==> NamesAcceptable(doc) && WiringAcceptable(doc)
  {
    var entries, triggerEntries := Items(Field(doc, "states")), Items(Field(doc, "triggers"));
    FirstPassExact(doc, t, triggerEntries);
    if IsList(Field(doc, "states")) && DeclareStates(t, entries).0 == Ok {
      var t' := DeclareStates(t, entries).1;
      DeclaredResolves(t', entries, triggerEntries);
      LinkingExact(t', entries);
    }
  }

  lemma AcceptableParts(doc: Node)
    ensures Acceptable(doc) <==>
            HeadLegal(doc) && TriggersAcceptable(doc) && NamesAcceptable(doc) && WiringAcceptable(doc)
  {
  }

  /** Loading succeeds exactly on the acceptable documents. */
  lemma LoadAcceptsExactly(doc: Node)
    ensures Load(doc).0 == Ok <==> Acceptable(doc)
  {
    AcceptableParts(doc);
    ReadHeadExact(doc);
    if ReadHead(doc, NOTHING).0 == Ok {
      var t1 := ReadHead(doc, NOTHING).1;
      ReadTriggersExact(doc, t1);
      if ReadTriggers(doc, t1).0 == Ok {
        ReadStatesExact(doc, ReadTriggers(doc, t1).1);
      }
    }
  }
}
