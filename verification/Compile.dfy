/** Whole documents to links: what each state lists, counted and compared with what was written. */
module Compiling {
  import opened Types
  import opened Histories
  import opened Documents
  import opened Loaders
  import opened LinkPass
  import opened Resolving

  // ---------------------------------------------------------------------------
  // lists of links, one after the other

  lemma NoneBrokenBoth(a: seq<Link>, b: seq<Link>)
    ensures NoneBroken(a + b) <==> NoneBroken(a) && NoneBroken(b)
  {
    var links := a + b;
    assert forall i | 0 <= i < |a| :: links[i] == a[i];
    assert forall i | 0 <= i < |b| :: links[|a| + i] == b[i];
  }

  lemma {:induction false} LinkChoicesBoth(a: seq<Link>, b: seq<Link>, s: StateId, e: TriggerId)
    ensures LinkChoices(a + b, s, e) == LinkChoices(a, s, e) + LinkChoices(b, s, e)
  {
    if a == [] {
      assert a + b == b;
    } else {
      assert (a + b)[1..] == a[1..] + b;
      LinkChoicesBoth(a[1..], b, s, e);
    }
  }

  lemma {:induction false} LinkConditionsBoth(a: seq<Link>, b: seq<Link>)
    ensures LinkConditions(a + b) == LinkConditions(a) + LinkConditions(b)
  {
    if a == [] {
      assert a + b == b;
    } else {
      assert (a + b)[1..] == a[1..] + b;
      LinkConditionsBoth(a[1..], b);
    }
  }

  lemma {:induction false} LinkTriggersBoth(a: seq<Link>, b: seq<Link>, s: StateId)
    ensures LinkTriggers(a + b, s) == LinkTriggers(a, s) + LinkTriggers(b, s)
  {
    if a == [] {
      assert a + b == b;
    } else {
      assert (a + b)[1..] == a[1..] + b;
      LinkTriggersBoth(a[1..], b, s);
    }
  }

  // ---------------------------------------------------------------------------
  // links that compile one list

  /** Each choice is what was written at its place. */
  predicate ChoicesCompile(states: map<string, StateId>, list: seq<Written>, choices: seq<Choice>) {
    |list| == |choices| && forall i | 0 <= i < |list| :: Compiles(states, list[i], choices[i].guard, choices[i].target)
  }

  lemma ChoicesCompileBoth(states: map<string, StateId>, a: seq<Written>, b: seq<Choice>, c: seq<Written>,
                           d: seq<Choice>)
    requires ChoicesCompile(states, a, b) && ChoicesCompile(states, c, d)
    ensures ChoicesCompile(states, a + c, b + d)
  {
  }

  lemma LinksCompileRest(states: map<string, StateId>, list: seq<Written>, links: seq<Link>, from: StateId,
                         on: TriggerId)
    requires list != [] && LinksCompile(states, list, links, from, on)
    ensures LinkCompiles(states, list[0], links[0], from, on) && LinksCompile(states, list[1..], links[1..], from, on)
  {
  }

  lemma {:induction false} CompiledChoices(states: map<string, StateId>, list: seq<Written>, links: seq<Link>,
                                           from: StateId, on: TriggerId)
    requires LinksCompile(states, list, links, from, on)
    ensures ChoicesCompile(states, list, LinkChoices(links, from, on))
    ensures LinkConditions(links) == ConditionsIn(list)
  {
    if list != [] {
      LinksCompileRest(states, list, links, from, on);
      CompiledChoices(states, list[1..], links[1..], from, on);
      var first := [Choice(links[0].guard, links[0].target)];
      assert ChoicesCompile(states, [list[0]], first);
      ChoicesCompileBoth(states, [list[0]], first, list[1..], LinkChoices(links[1..], from, on));
      assert [list[0]] + list[1..] == list;
    }
  }

  lemma {:induction false} CompiledElsewhere(states: map<string, StateId>, list: seq<Written>, links: seq<Link>,
                                             from: StateId, on: TriggerId, s: StateId, e: TriggerId)
    requires LinksCompile(states, list, links, from, on) && (s != from || e != on)
    ensures LinkChoices(links, s, e) == []
  {
    if list != [] {
      LinksCompileRest(states, list, links, from, on);
      CompiledElsewhere(states, list[1..], links[1..], from, on, s, e);
    }
  }

  lemma {:induction false} CompiledTriggers(states: map<string, StateId>, list: seq<Written>, links: seq<Link>,
                                            from: StateId, on: TriggerId, s: StateId)
    requires LinksCompile(states, list, links, from, on)
    ensures LinkTriggers(links, s) == if s == from && links != [] then {on} else {}
  {
    if list != [] {
      LinksCompileRest(states, list, links, from, on);
      CompiledTriggers(states, list[1..], links[1..], from, on, s);
    }
  }

  // ---------------------------------------------------------------------------
  // pairs

  /** Usable indexes for states and triggers. */
  predicate Indexed(states: map<string, StateId>, triggers: map<string, TriggerId>) {
    GoodIndex(states) && GoodIndex(triggers)
  }

  lemma PairExact(states: map<string, StateId>, triggers: map<string, TriggerId>, pair: (Node, Node), from: StateId)
    requires Indexed(states, triggers)
    ensures NoneBroken(PairLinks(states, triggers, pair, from)) <==> PairLegal(states.Keys, triggers.Keys, pair)
    ensures PairLegal(states.Keys, triggers.Keys, pair) ==>
              && PairLinks(states, triggers, pair, from) != []
              && LinksCompile(states, WrittenOutcome(pair.1), PairLinks(states, triggers, pair, from), from,
                              triggers[TextOr(pair.0)])
  {
    var links := PairLinks(states, triggers, pair, from);
    FindsName(triggers, TextOr(pair.0));
    if TextOfNode(pair.0).Some? && TextOr(pair.0) in triggers {
      var on := triggers[TextOr(pair.0)];
      OutcomeExact(states, pair.1, from, on);
      if OutcomeLegal(states.Keys, pair.1) {
        OutcomeIsNotEmpty(states, pair.1, from, on);
      }
    } else {
      assert !links[0].Add?;
    }
  }

  predicate AllPairsLegal(states: set<string>, triggers: set<string>, pairs: seq<(Node, Node)>) {
    forall i | 0 <= i < |pairs| :: PairLegal(states, triggers, pairs[i])
  }

  lemma AllPairsFirst(states: set<string>, triggers: set<string>, pairs: seq<(Node, Node)>)
    requires pairs != []
    ensures AllPairsLegal(states, triggers, pairs) <==>
            PairLegal(states, triggers, pairs[0]) && AllPairsLegal(states, triggers, pairs[1..])
  {
  }

  lemma {:induction false} PairsExact(states: map<string, StateId>, triggers: map<string, TriggerId>,
                                      pairs: seq<(Node, Node)>, from: StateId)
    requires Indexed(states, triggers)
    ensures NoneBroken(PairsLinks(states, triggers, pairs, from)) <==> AllPairsLegal(states.Keys, triggers.Keys, pairs)
    decreases pairs
  {
    if pairs != [] {
      PairExact(states, triggers, pairs[0], from);
      PairsExact(states, triggers, pairs[1..], from);
      AllPairsFirst(states.Keys, triggers.Keys, pairs);
      NoneBrokenBoth(PairLinks(states, triggers, pairs[0], from), PairsLinks(states, triggers, pairs[1..], from));
    }
  }

  lemma {:induction false} PairChoices(states: map<string, StateId>, triggers: map<string, TriggerId>,
                                       pair: (Node, Node), from: StateId, name: string)
    requires Indexed(states, triggers) && PairLegal(states.Keys, triggers.Keys, pair) && name in triggers
    ensures ChoicesCompile(states, if TextOfNode(pair.0) == Some(name) then WrittenOutcome(pair.1) else [],
                           LinkChoices(PairLinks(states, triggers, pair, from), from, triggers[name]))
  {
    PairExact(states, triggers, pair, from);
    var links, list, on := PairLinks(states, triggers, pair, from), WrittenOutcome(pair.1), triggers[TextOr(pair.0)];
    if TextOr(pair.0) == name {
      CompiledChoices(states, list, links, from, on);
    } else {
      CompiledElsewhere(states, list, links, from, on, from, triggers[name]);
    }
  }

  /** A state's links say for each trigger what was written for it, repeated keys one after
      the other. */
  lemma {:induction false} PairsChoices(states: map<string, StateId>, triggers: map<string, TriggerId>,
                                        pairs: seq<(Node, Node)>, from: StateId, name: string)
    requires Indexed(states, triggers) && AllPairsLegal(states.Keys, triggers.Keys, pairs) && name in triggers
    ensures ChoicesCompile(states, WrittenFor(pairs, name),
                           LinkChoices(PairsLinks(states, triggers, pairs, from), from, triggers[name]))
    decreases pairs
  {
    if pairs != [] {
      var first, rest := PairLinks(states, triggers, pairs[0], from), PairsLinks(states, triggers, pairs[1..], from);
      var e := triggers[name];
      AllPairsFirst(states.Keys, triggers.Keys, pairs);
      PairChoices(states, triggers, pairs[0], from, name);
      PairsChoices(states, triggers, pairs[1..], from, name);
      LinkChoicesBoth(first, rest, from, e);
      ChoicesCompileBoth(states, if TextOfNode(pairs[0].0) == Some(name) then WrittenOutcome(pairs[0].1) else [],
                         LinkChoices(first, from, e), WrittenFor(pairs[1..], name), LinkChoices(rest, from, e));
    }
  }

  lemma {:induction false} PairsElsewhere(states: map<string, StateId>, triggers: map<string, TriggerId>,
                                          pairs: seq<(Node, Node)>, from: StateId, s: StateId, e: TriggerId)
    requires Indexed(states, triggers) && AllPairsLegal(states.Keys, triggers.Keys, pairs)
    requires s != from || e !in triggers.Values
    ensures LinkChoices(PairsLinks(states, triggers, pairs, from), s, e) == []
    decreases pairs
  {
    if pairs != [] {
      var first, rest := PairLinks(states, triggers, pairs[0], from), PairsLinks(states, triggers, pairs[1..], from);
      AllPairsFirst(states.Keys, triggers.Keys, pairs);
      PairExact(states, triggers, pairs[0], from);
      var on := triggers[TextOr(pairs[0].0)];
      assert on in triggers.Values;
      CompiledElsewhere(states, WrittenOutcome(pairs[0].1), first, from, on, s, e);
      PairsElsewhere(states, triggers, pairs[1..], from, s, e);
      LinkChoicesBoth(first, rest, s, e);
    }
  }

  lemma {:induction false} PairsConditions(states: map<string, StateId>, triggers: map<string, TriggerId>,
                                           pairs: seq<(Node, Node)>, from: StateId)
    requires Indexed(states, triggers) && AllPairsLegal(states.Keys, triggers.Keys, pairs)
    ensures LinkConditions(PairsLinks(states, triggers, pairs, from)) == ConditionsInPairs(pairs)
    decreases pairs
  {
    if pairs != [] {
      var first, rest := PairLinks(states, triggers, pairs[0], from), PairsLinks(states, triggers, pairs[1..], from);
      AllPairsFirst(states.Keys, triggers.Keys, pairs);
      PairExact(states, triggers, pairs[0], from);
      CompiledChoices(states, WrittenOutcome(pairs[0].1), first, from, triggers[TextOr(pairs[0].0)]);
      PairsConditions(states, triggers, pairs[1..], from);
      LinkConditionsBoth(first, rest);
    }
  }

  function IdsOf(triggers: map<string, TriggerId>, keys: set<string>): set<TriggerId>
    requires keys <= triggers.Keys
  {
    set k | k in keys :: triggers[k]
  }

  lemma KeysFirst(pairs: seq<(Node, Node)>)
    requires pairs != []
    ensures KeysOf(pairs) == {TextOr(pairs[0].0)} + KeysOf(pairs[1..])
  {
  }

  lemma KeysAreDeclared(states: set<string>, triggers: set<string>, pairs: seq<(Node, Node)>)
    requires AllPairsLegal(states, triggers, pairs)
    ensures KeysOf(pairs) <= triggers
  {
  }

  lemma {:induction false} PairsTriggers(states: map<string, StateId>, triggers: map<string, TriggerId>,
                                         pairs: seq<(Node, Node)>, from: StateId, s: StateId)
    requires Indexed(states, triggers) && AllPairsLegal(states.Keys, triggers.Keys, pairs)
    ensures KeysOf(pairs) <= triggers.Keys
    ensures LinkTriggers(PairsLinks(states, triggers, pairs, from), s) ==
            if s == from then IdsOf(triggers, KeysOf(pairs)) else {}
    decreases pairs
  {
    KeysAreDeclared(states.Keys, triggers.Keys, pairs);
    if pairs != [] {
      var first, rest := PairLinks(states, triggers, pairs[0], from), PairsLinks(states, triggers, pairs[1..], from);
      AllPairsFirst(states.Keys, triggers.Keys, pairs);
      PairExact(states, triggers, pairs[0], from);
      CompiledTriggers(states, WrittenOutcome(pairs[0].1), first, from, triggers[TextOr(pairs[0].0)], s);
      PairsTriggers(states, triggers, pairs[1..], from, s);
      LinkTriggersBoth(first, rest, s);
      KeysFirst(pairs);
      assert IdsOf(triggers, KeysOf(pairs)) == {triggers[TextOr(pairs[0].0)]} + IdsOf(triggers, KeysOf(pairs[1..]));
    }
  }

  lemma {:induction false} IdsCount(triggers: map<string, TriggerId>, keys: set<string>)
    requires GoodIndex(triggers) && keys <= triggers.Keys
    ensures |IdsOf(triggers, keys)| == |keys|
  {
    if keys != {} {
      var k :| k in keys;
      IdsCount(triggers, keys - {k});
      assert IdsOf(triggers, keys) == IdsOf(triggers, keys - {k}) + {triggers[k]};
      assert triggers[k] !in IdsOf(triggers, keys - {k});
    }
  }

  // ---------------------------------------------------------------------------
  // states

  /** Every entry can be named, and no name comes twice. */
  predicate Named(states: map<string, StateId>, entries: seq<Node>) {
    && (forall i | 0 <= i < |entries| :: NameReadable(entries[i]) && NameOfEntry(entries[i]) in states)
    && (forall i, j | 0 <= i < j < |entries| :: NameOfEntry(entries[i]) != NameOfEntry(entries[j]))
  }

  predicate AllTransitionsLegal(states: set<string>, triggers: set<string>, entries: seq<Node>) {
    forall i | 0 <= i < |entries| :: TransitionsLegal(states, triggers, entries[i])
  }

  lemma NamedFirst(states: map<string, StateId>, entries: seq<Node>)
    requires Named(states, entries) && entries != []
    ensures NameReadable(entries[0]) && NameOfEntry(entries[0]) in states && Named(states, entries[1..])
    ensures forall i | 0 <= i < |entries[1..]| :: NameOfEntry(entries[1..][i]) != NameOfEntry(entries[0])
  {
  }

  lemma AllTransitionsFirst(states: set<string>, triggers: set<string>, entries: seq<Node>)
    requires entries != []
    ensures AllTransitionsLegal(states, triggers, entries) <==>
            TransitionsLegal(states, triggers, entries[0]) && AllTransitionsLegal(states, triggers, entries[1..])
  {
  }

  function IdOf(states: map<string, StateId>, entry: Node): StateId
    requires NameOfEntry(entry) in states
  {
    states[NameOfEntry(entry)]
  }

  /** A state resolves exactly when its transitions are legal, and then its links are those of
      its pairs. */
  lemma {:induction false} StateExact(states: map<string, StateId>, triggers: map<string, TriggerId>, entry: Node)
    requires Indexed(states, triggers) && NameReadable(entry) && NameOfEntry(entry) in states
    ensures NoneBroken(StateLinks(states, triggers, entry)) <==> TransitionsLegal(states.Keys, triggers.Keys, entry)
    ensures TransitionsLegal(states.Keys, triggers.Keys, entry) ==>
              && AllPairsLegal(states.Keys, triggers.Keys, PairsOf(entry))
              && StateLinks(states, triggers, entry) ==
                 PairsLinks(states, triggers, PairsOf(entry), IdOf(states, entry))
  {
    FindsName(states, NameOfEntry(entry));
    var links := StateLinks(states, triggers, entry);
    match Field(entry, "transitions")
    case None =>
    case Some(Mapping(pairs)) => PairsExact(states, triggers, pairs, IdOf(states, entry));
    case Some(_) => assert !links[0].Add?;
  }

  lemma {:induction false} StatesExact(states: map<string, StateId>, triggers: map<string, TriggerId>,
                                       entries: seq<Node>)
    requires Indexed(states, triggers) && Named(states, entries)
    ensures NoneBroken(StatesLinks(states, triggers, entries)) <==>
            AllTransitionsLegal(states.Keys, triggers.Keys, entries)
    decreases entries
  {
    if entries != [] {
      NamedFirst(states, entries);
      StateExact(states, triggers, entries[0]);
      StatesExact(states, triggers, entries[1..]);
      AllTransitionsFirst(states.Keys, triggers.Keys, entries);
      NoneBrokenBoth(StateLinks(states, triggers, entries[0]), StatesLinks(states, triggers, entries[1..]));
    }
  }

  /** Indexes under which all of a list of states resolves. */
  predicate Resolves(states: map<string, StateId>, triggers: map<string, TriggerId>, entries: seq<Node>) {
    Indexed(states, triggers) && Named(states, entries) && AllTransitionsLegal(states.Keys, triggers.Keys, entries)
  }

  lemma {:induction false} ResolvesFirst(states: map<string, StateId>, triggers: map<string, TriggerId>,
                                         entries: seq<Node>)
    requires Resolves(states, triggers, entries) && entries != []
    ensures NameOfEntry(entries[0]) in states && Resolves(states, triggers, entries[1..])
    ensures AllPairsLegal(states.Keys, triggers.Keys, PairsOf(entries[0]))
    ensures StatesLinks(states, triggers, entries) ==
            PairsLinks(states, triggers, PairsOf(entries[0]), IdOf(states, entries[0])) +
            StatesLinks(states, triggers, entries[1..])
    ensures forall i | 0 <= i < |entries[1..]| ::
              NameOfEntry(entries[1..][i]) in states && IdOf(states, entries[1..][i]) != IdOf(states, entries[0])
  {
    NamedFirst(states, entries);
    AllTransitionsFirst(states.Keys, triggers.Keys, entries);
    StateExact(states, triggers, entries[0]);
  }

  predicate NoneIs(states: map<string, StateId>, entries: seq<Node>, s: StateId) {
    forall i | 0 <= i < |entries| :: NameOfEntry(entries[i]) in states && IdOf(states, entries[i]) != s
  }

  lemma NoneIsFirst(states: map<string, StateId>, entries: seq<Node>, s: StateId)
    requires entries != [] && NoneIs(states, entries, s)
    ensures NameOfEntry(entries[0]) in states && IdOf(states, entries[0]) != s && NoneIs(states, entries[1..], s)
  {
  }

  lemma {:induction false} StatesElsewhere(states: map<string, StateId>, triggers: map<string, TriggerId>,
                                           entries: seq<Node>, s: StateId, e: TriggerId)
    requires Resolves(states, triggers, entries) && (NoneIs(states, entries, s) || e !in triggers.Values)
    ensures LinkChoices(StatesLinks(states, triggers, entries), s, e) == []
    decreases entries
  {
    if entries != [] {
      ResolvesFirst(states, triggers, entries);
      if NoneIs(states, entries, s) {
        NoneIsFirst(states, entries, s);
      }
      var pairs, from := PairsOf(entries[0]), IdOf(states, entries[0]);
      PairsElsewhere(states, triggers, pairs, from, s, e);
      StatesElsewhere(states, triggers, entries[1..], s, e);
      LinkChoicesBoth(PairsLinks(states, triggers, pairs, from), StatesLinks(states, triggers, entries[1..]), s, e);
    }
  }

  lemma {:induction false} FirstStateChoices(states: map<string, StateId>, triggers: map<string, TriggerId>,
                                             entries: seq<Node>, name: string)
    requires Resolves(states, triggers, entries) && entries != [] && name in triggers
    ensures NameOfEntry(entries[0]) in states
    ensures ChoicesCompile(states, WrittenFor(PairsOf(entries[0]), name),
                           LinkChoices(StatesLinks(states, triggers, entries), IdOf(states, entries[0]),
                                       triggers[name]))
  {
    ResolvesFirst(states, triggers, entries);
    var pairs, from, e := PairsOf(entries[0]), IdOf(states, entries[0]), triggers[name];
    var first, rest := PairsLinks(states, triggers, pairs, from), StatesLinks(states, triggers, entries[1..]);
    PairsChoices(states, triggers, pairs, from, name);
    StatesElsewhere(states, triggers, entries[1..], from, e);
    LinkChoicesBoth(first, rest, from, e);
    assert LinkChoices(first, from, e) + [] == LinkChoices(first, from, e);
  }

  lemma {:induction false} LaterStateChoices(states: map<string, StateId>, triggers: map<string, TriggerId>,
                                             entries: seq<Node>, s: StateId, e: TriggerId)
    requires Resolves(states, triggers, entries) && entries != []
    requires NameOfEntry(entries[0]) in states && s != IdOf(states, entries[0])
    ensures LinkChoices(StatesLinks(states, triggers, entries), s, e) ==
            LinkChoices(StatesLinks(states, triggers, entries[1..]), s, e)
  {
    ResolvesFirst(states, triggers, entries);
    var pairs, from := PairsOf(entries[0]), IdOf(states, entries[0]);
    var first, rest := PairsLinks(states, triggers, pairs, from), StatesLinks(states, triggers, entries[1..]);
    PairsElsewhere(states, triggers, pairs, from, s, e);
    LinkChoicesBoth(first, rest, s, e);
    assert [] + LinkChoices(rest, s, e) == LinkChoices(rest, s, e);
  }

  /** The links of a whole document say, for each state and trigger, what the document says. */
  lemma {:induction false} StatesChoices(states: map<string, StateId>, triggers: map<string, TriggerId>,
                                         entries: seq<Node>, i: nat, name: string)
    requires Resolves(states, triggers, entries) && i < |entries| && name in triggers
    ensures NameOfEntry(entries[i]) in states
    ensures ChoicesCompile(states, WrittenFor(PairsOf(entries[i]), name),
                           LinkChoices(StatesLinks(states, triggers, entries), IdOf(states, entries[i]),
                                       triggers[name]))
    decreases entries
  {
    if i == 0 {
      FirstStateChoices(states, triggers, entries, name);
    } else {
      ResolvesFirst(states, triggers, entries);
      assert entries[1..][i - 1] == entries[i];
      StatesChoices(states, triggers, entries[1..], i - 1, name);
      LaterStateChoices(states, triggers, entries, IdOf(states, entries[i]), triggers[name]);
    }
  }

  lemma {:induction false} StatesConditions(states: map<string, StateId>, triggers: map<string, TriggerId>,
                                            entries: seq<Node>)
    requires Resolves(states, triggers, entries)
    ensures LinkConditions(StatesLinks(states, triggers, entries)) == ConditionsInStates(entries)
    decreases entries
  {
    if entries != [] {
      ResolvesFirst(states, triggers, entries);
      var pairs, from := PairsOf(entries[0]), IdOf(states, entries[0]);
      PairsConditions(states, triggers, pairs, from);
      StatesConditions(states, triggers, entries[1..]);
      LinkConditionsBoth(PairsLinks(states, triggers, pairs, from), StatesLinks(states, triggers, entries[1..]));
    }
  }

  lemma {:induction false} StatesTriggersElsewhere(states: map<string, StateId>, triggers: map<string, TriggerId>,
                                                   entries: seq<Node>, s: StateId)
    requires Resolves(states, triggers, entries) && NoneIs(states, entries, s)
    ensures LinkTriggers(StatesLinks(states, triggers, entries), s) == {}
    decreases entries
  {
    if entries != [] {
      ResolvesFirst(states, triggers, entries);
      NoneIsFirst(states, entries, s);
      var pairs, from := PairsOf(entries[0]), IdOf(states, entries[0]);
      PairsTriggers(states, triggers, pairs, from, s);
      StatesTriggersElsewhere(states, triggers, entries[1..], s);
      LinkTriggersBoth(PairsLinks(states, triggers, pairs, from), StatesLinks(states, triggers, entries[1..]), s);
    }
  }

  lemma {:induction false} FirstStateTriggers(states: map<string, StateId>, triggers: map<string, TriggerId>,
                                              entries: seq<Node>)
    requires Resolves(states, triggers, entries) && entries != []
    ensures NameOfEntry(entries[0]) in states && KeysOf(PairsOf(entries[0])) <= triggers.Keys
    ensures LinkTriggers(StatesLinks(states, triggers, entries), IdOf(states, entries[0])) ==
            IdsOf(triggers, KeysOf(PairsOf(entries[0])))
  {
    ResolvesFirst(states, triggers, entries);
    var pairs, from := PairsOf(entries[0]), IdOf(states, entries[0]);
    PairsTriggers(states, triggers, pairs, from, from);
    StatesTriggersElsewhere(states, triggers, entries[1..], from);
    LinkTriggersBoth(PairsLinks(states, triggers, pairs, from), StatesLinks(states, triggers, entries[1..]), from);
  }

  lemma {:induction false} LaterStateTriggers(states: map<string, StateId>, triggers: map<string, TriggerId>,
                                              entries: seq<Node>, s: StateId)
    requires Resolves(states, triggers, entries) && entries != []
    requires NameOfEntry(entries[0]) in states && s != IdOf(states, entries[0])
    ensures LinkTriggers(StatesLinks(states, triggers, entries), s) ==
            LinkTriggers(StatesLinks(states, triggers, entries[1..]), s)
  {
    ResolvesFirst(states, triggers, entries);
    var pairs, from := PairsOf(entries[0]), IdOf(states, entries[0]);
    PairsTriggers(states, triggers, pairs, from, s);
    LinkTriggersBoth(PairsLinks(states, triggers, pairs, from), StatesLinks(states, triggers, entries[1..]), s);
  }

  lemma {:induction false} StatesTriggers(states: map<string, StateId>, triggers: map<string, TriggerId>,
                                          entries: seq<Node>, i: nat, entry: Node)
    requires Resolves(states, triggers, entries) && i < |entries| && entry == entries[i]
    ensures NameOfEntry(entry) in states && KeysOf(PairsOf(entry)) <= triggers.Keys
    ensures LinkTriggers(StatesLinks(states, triggers, entries), IdOf(states, entry)) ==
            IdsOf(triggers, KeysOf(PairsOf(entry)))
    decreases entries
  {
    if i == 0 {
      FirstStateTriggers(states, triggers, entries);
    } else {
      ResolvesFirst(states, triggers, entries);
      assert entries[1..][i - 1] == entry;
      StatesTriggers(states, triggers, entries[1..], i - 1, entry);
      LaterStateTriggers(states, triggers, entries, IdOf(states, entry));
    }
  }

  lemma {:induction false} WrittenForAbsent(pairs: seq<(Node, Node)>, name: string)
    requires forall i | 0 <= i < |pairs| :: TextOfNode(pairs[i].0) != Some(name)
    ensures WrittenFor(pairs, name) == []
  {
    if pairs != [] {
      assert forall i | 0 < i < |pairs| :: pairs[i] == pairs[1..][i - 1];
      WrittenForAbsent(pairs[1..], name);
    }
  }
}
