/** The tables of a machine: states, triggers, and guarded transitions whose conditions live
    in one shared pool. */
module MachineTables {
  import opened Limits
  import opened Types
  import opened Arguments
  import opened Conditions

  datatype TriggerDef = TriggerDef(name: string, channel: string)

  type uint16 = x: nat | x <= 0xFFFF

  type uint8 = x: nat | x <= 0xFF

  /** One outcome of a trigger in a state; its guard is a slice of the condition pool. */
  datatype Alternative = Alternative(first: uint16, count: uint8, target: StateId)

  datatype StateNode = StateNode(name: string, transitions: map<TriggerId, seq<Alternative>>)

  datatype Decision = Accepted | Unlisted | Rejected

  /** The conditions of one guard. */
  type ConditionList = c: seq<Condition> | |c| <= MAX_CONDITIONS_PER_GUARD witness []

  datatype Tables = Tables(
    name: string,
    states: map<StateId, StateNode>,
    stateIndex: map<string, StateId>,
    triggers: map<TriggerId, TriggerDef>,
    triggerIndex: map<string, TriggerId>,
    channelIndex: map<string, TriggerId>,
    conditions: seq<Condition>)

  const NOTHING := Tables("", map[], map[], map[], map[], map[], [])

  /** Looks a name up; 0xFFFF, which is never a valid id, means there is none. */
  function FindName(index: map<string, Id>, name: string, limit: nat): Id {
    if |name| <= limit && name in index then index[name] else 0xFFFF
  }

  // ---------------------------------------------------------------------------
  // the build operations

  function SetName(t: Tables, name: string): (Status, Tables) {
    if |name| <= MAX_NAME_LENGTH then (Ok, t.(name := name)) else (NameTooLong, t)
  }

  function DeclareState(t: Tables, name: string): (Status, Tables) {
    if name == "" then (InvalidArgument, t)
    else if |t.states| >= MAX_STATES || |t.stateIndex| >= MAX_STATES then (CapacityExceeded, t)
    else if |name| > MAX_NAME_LENGTH then (NameTooLong, t)
    else if name in t.stateIndex then (DuplicateName, t)
    else
      var id: StateId := |t.states|;
      (Ok, t.(states := t.states[id := StateNode(name, map[])], stateIndex := t.stateIndex[name := id]))
  }

  /** A trigger listens on its own name unless it is given a channel. */
  function ChannelOr(channel: string, name: string): string {
    if channel == "" then name else channel
  }

  function DeclareTrigger(t: Tables, name: string, channel: string): (Status, Tables) {
    if name == "" then (InvalidArgument, t)
    else if |t.triggers| >= MAX_TRIGGERS || |t.triggerIndex| >= MAX_TRIGGERS || |t.channelIndex| >= MAX_TRIGGERS then
      (CapacityExceeded, t)
    else if |name| > MAX_NAME_LENGTH then (NameTooLong, t)
    else if |ChannelOr(channel, name)| > MAX_CHANNEL_LENGTH then (ChannelTooLong, t)
    else if name in t.triggerIndex || ChannelOr(channel, name) in t.channelIndex then (DuplicateName, t)
    else
      var id: TriggerId := |t.triggers|;
      var source := ChannelOr(channel, name);
      (Ok, t.(triggers := t.triggers[id := TriggerDef(name, source)],
              triggerIndex := t.triggerIndex[name := id],
              channelIndex := t.channelIndex[source := id]))
  }

  function Listed(node: StateNode, trigger: TriggerId): seq<Alternative> {
    if trigger in node.transitions then node.transitions[trigger] else []
  }

  function AddTransition(t: Tables, from: StateId, trigger: TriggerId, target: StateId,
                         conditions: ConditionList): (Status, Tables)
  {
    if from !in t.states then (UnknownState, t)
    else if trigger !in t.triggers then (UnknownTrigger, t)
    else if target !in t.states then (UnknownState, t)
    else if |t.conditions| + |conditions| > MAX_CONDITIONS then (CapacityExceeded, t)
    else
      var node := t.states[from];
      if trigger !in node.transitions && |node.transitions| >= MAX_TRANSITIONS_PER_STATE then (CapacityExceeded, t)
      else if |Listed(node, trigger)| >= MAX_ALTERNATIVES then (CapacityExceeded, t)
      else
        var alternative := Alternative(|t.conditions|, |conditions|, target);
        var longer := node.(transitions := node.transitions[trigger := Listed(node, trigger) + [alternative]]);
        (Ok, t.(states := t.states[from := longer], conditions := t.conditions + conditions))
  }

  // ---------------------------------------------------------------------------
  // what the build operations answer

  lemma DeclareStateAnswers(t: Tables, name: string)
    ensures var status, full := DeclareState(t, name).0, |t.states| >= MAX_STATES || |t.stateIndex| >= MAX_STATES;
            && (status == Ok <==> 0 < |name| <= MAX_NAME_LENGTH && !full && name !in t.stateIndex)
            && (status == InvalidArgument <==> name == "")
            && (status == CapacityExceeded <==> name != "" && full)
            && (status == NameTooLong <==> |name| > MAX_NAME_LENGTH && !full)
            && (status == DuplicateName <==> 0 < |name| <= MAX_NAME_LENGTH && !full && name in t.stateIndex)
  {
  }

  /** A trigger is declared on the channel it is given, and otherwise on its own name. */
  lemma DeclareTriggerAnswers(t: Tables, name: string, channel: string, source: string)
    requires if channel == "" then source == name else source == channel
    ensures var (status, t') := DeclareTrigger(t, name, channel);
            var full := |t.triggers| >= MAX_TRIGGERS || |t.triggerIndex| >= MAX_TRIGGERS ||
                        |t.channelIndex| >= MAX_TRIGGERS;
            var taken := name in t.triggerIndex || source in t.channelIndex;
            && (status == Ok <==> 0 < |name| <= MAX_NAME_LENGTH && |source| <= MAX_CHANNEL_LENGTH && !full && !taken)
            && (status == Ok ==> t'.triggers == t.triggers[|t.triggers| := TriggerDef(name, source)]
                                 && t'.triggerIndex == t.triggerIndex[name := |t.triggers|]
                                 && t'.channelIndex == t.channelIndex[source := |t.triggers|])
            && (status == InvalidArgument <==> name == "")
            && (status == CapacityExceeded <==> name != "" && full)
            && (status == NameTooLong <==> |name| > MAX_NAME_LENGTH && !full)
            && (status == ChannelTooLong <==> 0 < |name| <= MAX_NAME_LENGTH && |source| > MAX_CHANNEL_LENGTH && !full)
            && (status == DuplicateName <==>
                0 < |name| <= MAX_NAME_LENGTH && |source| <= MAX_CHANNEL_LENGTH && !full && taken)
  {
  }

  lemma AddTransitionAnswers(t: Tables, from: StateId, trigger: TriggerId, target: StateId, guard: ConditionList)
    ensures var status := AddTransition(t, from, trigger, target, guard).0;
            var known := from in t.states && trigger in t.triggers && target in t.states;
            && (status == UnknownState <==> from !in t.states || (trigger in t.triggers && target !in t.states))
            && (status == UnknownTrigger <==> from in t.states && trigger !in t.triggers)
            && (status == Ok || status == CapacityExceeded <==> known)
            && (known ==>
                  var listed := t.states[from].transitions;
                  status == Ok <==>
                  && |t.conditions| + |guard| <= MAX_CONDITIONS
                  && if trigger in listed then |listed[trigger]| < MAX_ALTERNATIVES
                     else |listed| < MAX_TRANSITIONS_PER_STATE)
  {
  }

  // ---------------------------------------------------------------------------
  // the decision

  predicate PositionHolds(pool: seq<Condition>, i: nat, m: ArgMap) {
    i < |pool| && Holds(pool[i], m)
  }

  /** Whether every condition in an alternative's slice is there and holds. */
  predicate SliceHolds(pool: seq<Condition>, a: Alternative, m: ArgMap) {
    forall i | a.first <= i < a.first + a.count :: PositionHolds(pool, i, m)
  }

  /** The first alternative at or after `k` whose slice holds. */
  function FirstHolding(pool: seq<Condition>, list: seq<Alternative>, m: ArgMap, k: nat): Option<StateId>
    requires k <= |list|
    decreases |list| - k
  {
    if k == |list| then None
    else if SliceHolds(pool, list[k], m) then Some(list[k].target)
    else FirstHolding(pool, list, m, k + 1)
  }

  function DecisionOf(found: Option<StateId>): (Decision, StateId) {
    match found
    case Some(target) => (Accepted, target)
    case None => (Rejected, NO_STATE)
  }

  function EvaluateTables(t: Tables, from: StateId, trigger: TriggerId, m: ArgMap): (Decision, StateId) {
    if from !in t.states || trigger !in t.states[from].transitions then (Unlisted, NO_STATE)
    else DecisionOf(FirstHolding(t.conditions, t.states[from].transitions[trigger], m, 0))
  }

  /** A target goes with acceptance and nothing else, and a trigger counts as listed by having a
      list. */
  lemma RefusalHasNoTarget(t: Tables, from: StateId, trigger: TriggerId, m: ArgMap)
    ensures var (decision, target) := EvaluateTables(t, from, trigger, m);
            && (decision != Accepted ==> target == NO_STATE)
            && (decision == Unlisted <==> from !in t.states || trigger !in t.states[from].transitions)
  {
  }

  // ---------------------------------------------------------------------------
  // what validation asks

  predicate AlternativeLinked(t: Tables, a: Alternative) {
    a.target in t.states && a.first + a.count <= |t.conditions|
  }

  predicate ListLinked(t: Tables, trigger: TriggerId, list: seq<Alternative>) {
    trigger in t.triggers && list != [] && forall k | 0 <= k < |list| :: AlternativeLinked(t, list[k])
  }

  ghost predicate NodeLinked(t: Tables, node: StateNode) {
    forall trigger :: trigger in node.transitions ==> ListLinked(t, trigger, node.transitions[trigger])
  }

  ghost predicate WellLinked(t: Tables) {
    t.states != map[] && forall id :: id in t.states ==> NodeLinked(t, t.states[id])
  }

  // ---------------------------------------------------------------------------
  // and what it answers: the first thing wrong, ids ascending

  function AlternativeFault(t: Tables, a: Alternative): (r: Status)
    ensures r == Ok <==> AlternativeLinked(t, a)
  {
    if a.target !in t.states then UnknownState
    else if a.first + a.count > |t.conditions| then SchemaError
    else Ok
  }

  function ListFault(t: Tables, list: seq<Alternative>, k: nat): Status
    requires k <= |list|
    decreases |list| - k
  {
    if k == |list| then Ok
    else if AlternativeFault(t, list[k]) != Ok then AlternativeFault(t, list[k])
    else ListFault(t, list, k + 1)
  }

  function EntryFault(t: Tables, node: StateNode, e: TriggerId): Status {
    if e !in node.transitions then Ok
    else if e !in t.triggers then UnknownTrigger
    else if node.transitions[e] == [] then SchemaError
    else ListFault(t, node.transitions[e], 0)
  }

  function NodeFault(t: Tables, node: StateNode, from: nat): Status
    requires from <= 0x1_0000
    decreases 0x1_0000 - from
  {
    if from == 0x1_0000 then Ok
    else if EntryFault(t, node, from) != Ok then EntryFault(t, node, from)
    else NodeFault(t, node, from + 1)
  }

  function StatesFault(t: Tables, from: nat): Status
    requires from <= 0x1_0000
    decreases 0x1_0000 - from
  {
    if from == 0x1_0000 then Ok
    else if from in t.states && NodeFault(t, t.states[from], 0) != Ok then NodeFault(t, t.states[from], 0)
    else StatesFault(t, from + 1)
  }

  /** The answer of validation. */
  function ValidationOf(t: Tables): Status {
    if t.states == map[] then SchemaError else StatesFault(t, 0)
  }

  lemma {:induction false} ListFaultMeans(t: Tables, list: seq<Alternative>, k: nat)
    requires k <= |list|
    ensures ListFault(t, list, k) == Ok <==> forall i | k <= i < |list| :: AlternativeLinked(t, list[i])
    decreases |list| - k
  {
    if k < |list| {
      ListFaultMeans(t, list, k + 1);
    }
  }

  lemma EntryFaultMeans(t: Tables, node: StateNode, e: TriggerId)
    ensures EntryFault(t, node, e) == Ok <==> (e in node.transitions ==> ListLinked(t, e, node.transitions[e]))
  {
    if e in node.transitions {
      ListFaultMeans(t, node.transitions[e], 0);
    }
  }

  lemma {:induction false} NodeFaultMeans(t: Tables, node: StateNode, from: nat)
    requires from <= 0x1_0000
    ensures NodeFault(t, node, from) == Ok <==>
            forall e :: e in node.transitions && from <= e ==> ListLinked(t, e, node.transitions[e])
    decreases 0x1_0000 - from
  {
    if from < 0x1_0000 {
      EntryFaultMeans(t, node, from);
      NodeFaultMeans(t, node, from + 1);
    }
  }

  lemma {:induction false} StatesFaultMeans(t: Tables, from: nat)
    requires from <= 0x1_0000
    ensures StatesFault(t, from) == Ok <==> forall id :: id in t.states && from <= id ==> NodeLinked(t, t.states[id])
    decreases 0x1_0000 - from
  {
    if from < 0x1_0000 {
      if from in t.states {
        NodeFaultMeans(t, t.states[from], 0);
      }
      StatesFaultMeans(t, from + 1);
    }
  }

  /** The first alternative of a list that is not linked, and what that is called. */
  ghost predicate FirstInList(t: Tables, list: seq<Alternative>, k: nat, status: Status) {
    && k < |list| && (forall j | 0 <= j < k :: AlternativeLinked(t, list[j])) && !AlternativeLinked(t, list[k])
    && status == if list[k].target !in t.states then UnknownState else SchemaError
  }

  /** The first list of a state that is not, triggers ascending. */
  ghost predicate FirstInNode(t: Tables, node: StateNode, e: TriggerId, status: Status) {
    && e in node.transitions && (forall d | d in node.transitions && d < e :: ListLinked(t, d, node.transitions[d]))
    && if e !in t.triggers then status == UnknownTrigger
       else if node.transitions[e] == [] then status == SchemaError
       else exists k :: FirstInList(t, node.transitions[e], k, status)
  }

  /** The first state of which that is so, states ascending. */
  ghost predicate FirstInTables(t: Tables, s: StateId, e: TriggerId, status: Status) {
    && s in t.states && (forall id | id in t.states && id < s :: NodeLinked(t, t.states[id]))
    && FirstInNode(t, t.states[s], e, status)
  }

  lemma {:induction false} ListFaultIsFirst(t: Tables, list: seq<Alternative>, k: nat)
    requires k <= |list| && ListFault(t, list, k) != Ok && forall j | 0 <= j < k :: AlternativeLinked(t, list[j])
    ensures exists i :: FirstInList(t, list, i, ListFault(t, list, k))
    decreases |list| - k
  {
    if AlternativeLinked(t, list[k]) {
      ListFaultIsFirst(t, list, k + 1);
    } else {
      assert FirstInList(t, list, k, ListFault(t, list, k));
    }
  }

  lemma {:induction false} NodeFaultIsFirst(t: Tables, node: StateNode, from: nat)
    requires from <= 0x1_0000 && NodeFault(t, node, from) != Ok
    requires forall d | d in node.transitions && d < from :: ListLinked(t, d, node.transitions[d])
    ensures exists e :: FirstInNode(t, node, e, NodeFault(t, node, from))
    decreases 0x1_0000 - from
  {
    EntryFaultMeans(t, node, from);
    if EntryFault(t, node, from) == Ok {
      NodeFaultIsFirst(t, node, from + 1);
    } else {
      if from in t.triggers && node.transitions[from] != [] {
        ListFaultIsFirst(t, node.transitions[from], 0);
      }
      assert FirstInNode(t, node, from, NodeFault(t, node, from));
    }
  }

  lemma {:induction false} StatesFaultIsFirst(t: Tables, from: nat)
    requires from <= 0x1_0000 && StatesFault(t, from) != Ok
    requires forall id | id in t.states && id < from :: NodeLinked(t, t.states[id])
    ensures exists s, e :: FirstInTables(t, s, e, StatesFault(t, from))
    decreases 0x1_0000 - from
  {
    if from in t.states {
      NodeFaultMeans(t, t.states[from], 0);
    }
    if from in t.states && NodeFault(t, t.states[from], 0) != Ok {
      NodeFaultIsFirst(t, t.states[from], 0);
      var e :| FirstInNode(t, t.states[from], e, StatesFault(t, from));
      assert FirstInTables(t, from, e, StatesFault(t, from));
    } else {
      StatesFaultIsFirst(t, from + 1);
    }
  }

  /** What validation answers about tables that are not linked: a machine without states is
      refused as such, and any other for its first fault, said by its kind. */
  lemma ValidationIsFirstFault(t: Tables)
    requires !WellLinked(t)
    ensures if t.states == map[] then ValidationOf(t) == SchemaError
            else exists s, e :: FirstInTables(t, s, e, ValidationOf(t))
  {
    ValidationMeans(t);
    if t.states != map[] {
      StatesFaultIsFirst(t, 0);
    }
  }

  /** Validation finds nothing wrong exactly when everything is linked. */
  lemma ValidationMeans(t: Tables)
    ensures ValidationOf(t) == Ok <==> WellLinked(t)
  {
    StatesFaultMeans(t, 0);
  }
}
