/** The build phase: what every sequence of declarations keeps true of the tables, and why the
    shared condition pool means the same as giving each alternative its own list. */
module BuildPhase {
  import opened Limits
  import opened Types
  import opened MachineTables

  // ---------------------------------------------------------------------------
  // the invariant

  /** A table of names whose ids are dense from zero, and the index that is its exact inverse. */
  ghost predicate Inverse(index: map<string, Id>, names: map<Id, string>, n: nat) {
    && |index| == n
    && (forall id: Id :: id in names <==> id < n)
    && (forall name :: name in index ==> index[name] in names && names[index[name]] == name)
    && (forall id :: id in names ==> names[id] in index && index[names[id]] == id)
  }

  function StateNames(states: map<StateId, StateNode>): map<Id, string> {
    map id | id in states :: states[id].name
  }

  function TriggerNames(triggers: map<TriggerId, TriggerDef>): map<Id, string> {
    map id | id in triggers :: triggers[id].name
  }

  function Channels(triggers: map<TriggerId, TriggerDef>): map<Id, string> {
    map id | id in triggers :: triggers[id].channel
  }

  predicate ListBounded(list: seq<Alternative>) {
    |list| <= MAX_ALTERNATIVES && forall k | 0 <= k < |list| :: list[k].count <= MAX_CONDITIONS_PER_GUARD
  }

  ghost predicate NodeBounded(node: StateNode) {
    |node.transitions| <= MAX_TRANSITIONS_PER_STATE &&
    forall trigger :: trigger in node.transitions ==> ListBounded(node.transitions[trigger])
  }

  ghost predicate StatesIndexed(t: Tables) {
    |t.states| <= MAX_STATES && Inverse(t.stateIndex, StateNames(t.states), |t.states|)
  }

  ghost predicate TriggersIndexed(t: Tables) {
    && |t.triggers| <= MAX_TRIGGERS
    && Inverse(t.triggerIndex, TriggerNames(t.triggers), |t.triggers|)
    && Inverse(t.channelIndex, Channels(t.triggers), |t.triggers|)
  }

  ghost predicate NamesFit(t: Tables) {
    && (forall name :: name in t.stateIndex ==> 0 < |name| <= MAX_NAME_LENGTH)
    && (forall name :: name in t.triggerIndex ==> 0 < |name| <= MAX_NAME_LENGTH)
    && (forall channel :: channel in t.channelIndex ==> 0 < |channel| <= MAX_CHANNEL_LENGTH)
  }

  /** A name finds the state that has it, and nothing when no state does. */
  lemma NameFindsState(t: Tables, name: string)
    requires StatesIndexed(t) && NamesFit(t)
    ensures var id := FindName(t.stateIndex, name, MAX_NAME_LENGTH);
            if id == NO_STATE then forall s | s in t.states :: t.states[s].name != name
            else id in t.states && t.states[id].name == name
    ensures name in t.stateIndex <==> FindName(t.stateIndex, name, MAX_NAME_LENGTH) != NO_STATE
  {
    var names := StateNames(t.states);
    assert names.Keys == t.states.Keys;
    forall s | s in t.states && t.states[s].name == name
      ensures name in t.stateIndex
    {
      assert s in names && names[s] == name;
    }
    if name in t.stateIndex {
      var id := t.stateIndex[name];
      assert id in names && names[id] == name;
    }
  }

  ghost predicate NodeSound(t: Tables, node: StateNode) {
    NodeBounded(node) && NodeLinked(t, node)
  }

  ghost predicate NodesSound(t: Tables) {
    |t.conditions| <= MAX_CONDITIONS && forall id {:trigger t.states[id]} :: id in t.states ==>
      NodeSound(t, t.states[id])
  }

  ghost predicate Invariant(t: Tables) {
    StatesIndexed(t) && TriggersIndexed(t) && NamesFit(t) && NodesSound(t)
  }

  /** Once the invariant holds, the only thing validation can still object to is a machine
      without states. */
  lemma ValidationIsOneQuestion(t: Tables)
    requires Invariant(t)
    ensures WellLinked(t) <==> |t.states| > 0
  {
  }

  // ---------------------------------------------------------------------------
  // each declaration keeps it

  lemma InverseGrows(index: map<string, Id>, names: map<Id, string>, n: Id, name: string)
    requires Inverse(index, names, n) && name !in index
    ensures Inverse(index[name := n], names[n := name], n + 1)
  {
  }

  lemma LinkedGrows(t: Tables, t': Tables, node: StateNode)
    requires NodeLinked(t, node)
    requires t.states.Keys <= t'.states.Keys && t.triggers.Keys <= t'.triggers.Keys
    requires |t.conditions| <= |t'.conditions|
    ensures NodeLinked(t', node)
  {
  }

  lemma NextIdIsNew(t: Tables)
    requires StatesIndexed(t) && TriggersIndexed(t)
    ensures |t.states| < 0xFFFF && |t.triggers| < 0xFFFF
    ensures forall id: Id :: id in t.states <==> id < |t.states|
    ensures forall id: Id :: id in t.triggers <==> id < |t.triggers|
  {
    var states, triggers := StateNames(t.states), TriggerNames(t.triggers);
    assert forall id: Id :: id in t.states <==> id in states;
    assert forall id: Id :: id in t.triggers <==> id in triggers;
  }

  lemma DeclareStateKeeps(t: Tables, name: string)
    requires Invariant(t) && DeclareState(t, name).0 == Ok
    ensures Invariant(DeclareState(t, name).1)
  {
    NextIdIsNew(t);
    var t' := DeclareState(t, name).1;
    var id: StateId := |t.states|;
    NewStateIndexes(t, t', id, name);
    NewStateIsSound(t, t', id, StateNode(name, map[]));
  }

  lemma NewStateIndexes(t: Tables, t': Tables, id: StateId, name: string)
    requires StatesIndexed(t) && id == |t.states| < MAX_STATES && id !in t.states && name !in t.stateIndex
    requires t'.states == t.states[id := StateNode(name, map[])] && t'.stateIndex == t.stateIndex[name := id]
    ensures StatesIndexed(t')
  {
    InverseGrows(t.stateIndex, StateNames(t.states), id, name);
    assert StateNames(t'.states) == StateNames(t.states)[id := name];
  }

  lemma NewStateIsSound(t: Tables, t': Tables, id: StateId, node: StateNode)
    requires NodesSound(t) && id !in t.states
    requires t'.states == t.states[id := node] && node.transitions == map[]
    requires t'.triggers == t.triggers && t'.conditions == t.conditions
    ensures NodesSound(t')
  {
  }

  lemma DeclareTriggerKeeps(t: Tables, name: string, channel: string)
    requires Invariant(t) && DeclareTrigger(t, name, channel).0 == Ok
    ensures Invariant(DeclareTrigger(t, name, channel).1)
  {
    NextIdIsNew(t);
    var t' := DeclareTrigger(t, name, channel).1;
    var id: TriggerId := |t.triggers|;
    var source := ChannelOr(channel, name);
    NewTriggerIndexes(t, t', id, name, source);
    OldStatesAreSound(t, t');
  }

  lemma NamesGrow(triggers: map<TriggerId, TriggerDef>, id: TriggerId, d: TriggerDef)
    ensures TriggerNames(triggers[id := d]) == TriggerNames(triggers)[id := d.name]
  {
  }

  lemma ChannelsGrow(triggers: map<TriggerId, TriggerDef>, id: TriggerId, d: TriggerDef)
    ensures Channels(triggers[id := d]) == Channels(triggers)[id := d.channel]
  {
  }

  lemma NewTriggerIndexes(t: Tables, t': Tables, id: TriggerId, name: string, source: string)
    requires TriggersIndexed(t) && id == |t.triggers| < MAX_TRIGGERS && id !in t.triggers
    requires name !in t.triggerIndex && source !in t.channelIndex
    requires t'.triggers == t.triggers[id := TriggerDef(name, source)]
    requires t'.triggerIndex == t.triggerIndex[name := id] && t'.channelIndex == t.channelIndex[source := id]
    ensures TriggersIndexed(t')
  {
    InverseGrows(t.triggerIndex, TriggerNames(t.triggers), id, name);
    InverseGrows(t.channelIndex, Channels(t.triggers), id, source);
    NamesGrow(t.triggers, id, TriggerDef(name, source));
    ChannelsGrow(t.triggers, id, TriggerDef(name, source));
  }

  lemma OldStatesAreSound(t: Tables, t': Tables)
    requires NodesSound(t) && t'.states == t.states && t'.conditions == t.conditions
    requires t.triggers.Keys <= t'.triggers.Keys
    ensures NodesSound(t')
  {
  }

  lemma AddTransitionKeeps(t: Tables, from: StateId, trigger: TriggerId, target: StateId, guard: ConditionList)
    requires Invariant(t) && AddTransition(t, from, trigger, target, guard).0 == Ok
    ensures Invariant(AddTransition(t, from, trigger, target, guard).1)
  {
    AddTransitionNames(t, from, trigger, target, guard);
    AddTransitionLinks(t, from, trigger, target, guard);
  }

  lemma AddTransitionNames(t: Tables, from: StateId, trigger: TriggerId, target: StateId, guard: ConditionList)
    requires StatesIndexed(t) && TriggersIndexed(t) && NamesFit(t)
    requires AddTransition(t, from, trigger, target, guard).0 == Ok
    ensures var t' := AddTransition(t, from, trigger, target, guard).1;
            StatesIndexed(t') && TriggersIndexed(t') && NamesFit(t')
  {
    var t' := AddTransition(t, from, trigger, target, guard).1;
    SameNames(t, t', from, t'.states[from]);
  }

  lemma AddTransitionLinks(t: Tables, from: StateId, trigger: TriggerId, target: StateId, guard: ConditionList)
    requires NodesSound(t) && AddTransition(t, from, trigger, target, guard).0 == Ok
    ensures NodesSound(AddTransition(t, from, trigger, target, guard).1)
  {
    var t' := AddTransition(t, from, trigger, target, guard).1;
    LongerListIsSound(t, t', from, t'.states[from], trigger, Alternative(|t.conditions|, |guard|, target));
  }

  lemma SameNames(t: Tables, t': Tables, from: StateId, longer: StateNode)
    requires StatesIndexed(t) && from in t.states && longer.name == t.states[from].name
    requires t'.states == t.states[from := longer] && t'.stateIndex == t.stateIndex
    ensures StatesIndexed(t') && t'.states.Keys == t.states.Keys
  {
    assert t'.states.Keys == t.states.Keys;
    assert |t'.states| == |t'.states.Keys| == |t.states|;
    assert StateNames(t'.states) == StateNames(t.states);
  }

  lemma LongerListIsSound(t: Tables, t': Tables, from: StateId, longer: StateNode, trigger: TriggerId, a: Alternative)
    requires NodesSound(t) && from in t.states && t'.states == t.states[from := longer]
    requires var node := t.states[from];
             && longer.transitions == node.transitions[trigger := Listed(node, trigger) + [a]]
             && |Listed(node, trigger)| < MAX_ALTERNATIVES
             && |longer.transitions| <= MAX_TRANSITIONS_PER_STATE
    requires t'.triggers == t.triggers && trigger in t.triggers
    requires |t.conditions| <= |t'.conditions| <= MAX_CONDITIONS
    requires AlternativeLinked(t', a) && a.count <= MAX_CONDITIONS_PER_GUARD
    ensures NodesSound(t')
  {
    forall s | s in t'.states
      ensures NodeSound(t', t'.states[s])
    {
      assert NodeSound(t, t.states[s]);
      LinkedGrows(t, t', t.states[s]);
      if s == from {
        LongerNode(t', t.states[s], longer, trigger, a);
      }
    }
  }

  lemma LongerNode(t: Tables, node: StateNode, longer: StateNode, trigger: TriggerId, a: Alternative)
    requires NodeSound(t, node) && trigger in t.triggers
    requires longer.transitions == node.transitions[trigger := Listed(node, trigger) + [a]]
    requires |longer.transitions| <= MAX_TRANSITIONS_PER_STATE && |Listed(node, trigger)| < MAX_ALTERNATIVES
    requires AlternativeLinked(t, a) && a.count <= MAX_CONDITIONS_PER_GUARD
    ensures NodeSound(t, longer)
  {
  }
}
