/** What the tables mean, said without ids that point into a pool: the history of accepted
    declarations, and lists of alternatives that own their conditions. */
module Histories {
  import opened Limits
  import opened Types
  import opened Arguments
  import opened Conditions
  import opened MachineTables
  import opened BuildPhase

  /** An alternative that carries its own conditions. */
  datatype Choice = Choice(guard: seq<Condition>, target: StateId)

  predicate AllHold(guard: seq<Condition>, m: ArgMap) {
    forall i | 0 <= i < |guard| :: Holds(guard[i], m)
  }

  /** The target of the first choice whose conditions all hold. */
  function FirstMatch(choices: seq<Choice>, m: ArgMap): Option<StateId> {
    if choices == [] then None
    else if AllHold(choices[0].guard, m) then Some(choices[0].target)
    else FirstMatch(choices[1..], m)
  }

  /** The decision over owned lists: no list at all means the trigger is not listed. */
  function Decide(choices: seq<Choice>, m: ArgMap): (Decision, StateId) {
    if choices == [] then (Unlisted, NO_STATE) else DecisionOf(FirstMatch(choices, m))
  }

  // ---------------------------------------------------------------------------
  // decoding

  function GuardOf(pool: seq<Condition>, a: Alternative): seq<Condition> {
    if a.first + a.count <= |pool| then pool[a.first..a.first + a.count] else []
  }

  function ChoiceOf(pool: seq<Condition>, a: Alternative): Choice {
    Choice(GuardOf(pool, a), a.target)
  }

  function Choices(pool: seq<Condition>, list: seq<Alternative>): (r: seq<Choice>)
    ensures |r| == |list|
  {
    seq(|list|, i requires 0 <= i < |list| => ChoiceOf(pool, list[i]))
  }

  /** Everything a state lists for a trigger, decoded. */
  function ChoicesAt(t: Tables, from: StateId, trigger: TriggerId): seq<Choice> {
    if from in t.states then Choices(t.conditions, Listed(t.states[from], trigger)) else []
  }

  lemma {:induction false} FirstHoldingDecoded(pool: seq<Condition>, list: seq<Alternative>, m: ArgMap, k: nat)
    requires k <= |list|
    requires forall i | 0 <= i < |list| :: list[i].first + list[i].count <= |pool|
    ensures FirstHolding(pool, list, m, k) == FirstMatch(Choices(pool, list)[k..], m)
    decreases |list| - k
  {
    if k < |list| {
      var rest := Choices(pool, list)[k..];
      assert rest[0] == ChoiceOf(pool, list[k]);
      SliceHoldsDecoded(pool, list[k], m);
      FirstHoldingDecoded(pool, list, m, k + 1);
      assert rest[1..] == Choices(pool, list)[k + 1..];
    }
  }

  lemma SliceHoldsDecoded(pool: seq<Condition>, a: Alternative, m: ArgMap)
    requires a.first + a.count <= |pool|
    ensures SliceHolds(pool, a, m) <==> AllHold(GuardOf(pool, a), m)
  {
    var guard := GuardOf(pool, a);
    assert forall i | a.first <= i < a.first + a.count :: PositionHolds(pool, i, m) == Holds(guard[i - a.first], m);
    assert forall i | 0 <= i < |guard| :: Holds(guard[i], m) == PositionHolds(pool, a.first + i, m);
  }

  /** Evaluating through the shared pool decides exactly as first-match over lists that own
      their conditions. */
  lemma PoolRefinesOwned(t: Tables, from: StateId, trigger: TriggerId, m: ArgMap)
    requires Invariant(t)
    ensures EvaluateTables(t, from, trigger, m) == Decide(ChoicesAt(t, from, trigger), m)
  {
    if from in t.states && trigger in t.states[from].transitions {
      var list := t.states[from].transitions[trigger];
      ListInBounds(t, from, trigger);
      FirstHoldingDecoded(t.conditions, list, m, 0);
      assert Choices(t.conditions, list)[0..] == Choices(t.conditions, list);
    }
  }

  lemma ListInBounds(t: Tables, from: StateId, trigger: TriggerId)
    requires NodesSound(t) && from in t.states && trigger in t.states[from].transitions
    ensures var list := t.states[from].transitions[trigger];
            && 0 < |list| <= MAX_ALTERNATIVES && trigger in t.triggers
            && forall i | 0 <= i < |list| ::
                 && list[i].first + list[i].count <= |t.conditions| && list[i].target in t.states
                 && list[i].count <= MAX_CONDITIONS_PER_GUARD
  {
  }

  // ---------------------------------------------------------------------------
  // build sequences

  datatype Command =
    | DefineState(state: string)
    | DefineTrigger(trigger: string, channel: string)
    | DefineTransition(from: StateId, on: TriggerId, target: StateId, guard: ConditionList)

  function Apply(t: Tables, c: Command): (Status, Tables) {
    match c
    case DefineState(name) => DeclareState(t, name)
    case DefineTrigger(name, channel) => DeclareTrigger(t, name, channel)
    case DefineTransition(from, on, target, guard) => AddTransition(t, from, on, target, guard)
  }

  /** The tables after a sequence of calls, failed ones included. */
  function Build(commands: seq<Command>): Tables {
    if commands == [] then NOTHING
    else Apply(Build(commands[..|commands| - 1]), commands[|commands| - 1]).1
  }

  /** The calls that succeeded. */
  function Log(commands: seq<Command>): seq<Command> {
    if commands == [] then []
    else
      var before := commands[..|commands| - 1];
      var last := commands[|commands| - 1];
      if Apply(Build(before), last).0 == Ok then Log(before) + [last] else Log(before)
  }

  function StatesIn(log: seq<Command>): seq<string> {
    if log == [] then []
    else
      var last := log[|log| - 1];
      StatesIn(log[..|log| - 1]) + if last.DefineState? then [last.state] else []
  }

  function TriggersIn(log: seq<Command>): seq<TriggerDef> {
    if log == [] then []
    else
      var last := log[|log| - 1];
      TriggersIn(log[..|log| - 1]) +
      if last.DefineTrigger? then [TriggerDef(last.trigger, ChannelOr(last.channel, last.trigger))] else []
  }

  function PoolIn(log: seq<Command>): seq<Condition> {
    if log == [] then []
    else
      var last := log[|log| - 1];
      PoolIn(log[..|log| - 1]) + if last.DefineTransition? then last.guard else []
  }

  /** What one call adds to the choices of a state and trigger. */
  function ChoicesOf(c: Command, from: StateId, trigger: TriggerId): seq<Choice> {
    if c.DefineTransition? && c.from == from && c.on == trigger then [Choice(c.guard, c.target)] else []
  }

  /** The guards and targets passed for one state and trigger, in order. */
  function ChoicesIn(log: seq<Command>, from: StateId, trigger: TriggerId): seq<Choice> {
    if log == [] then []
    else ChoicesIn(log[..|log| - 1], from, trigger) + ChoicesOf(log[|log| - 1], from, trigger)
  }

  ghost predicate StatesAgree(t: Tables, log: seq<Command>) {
    && |t.states| == |StatesIn(log)|
    && forall id :: id in t.states ==> id < |StatesIn(log)| && t.states[id].name == StatesIn(log)[id]
  }

  ghost predicate TriggersAgree(t: Tables, log: seq<Command>) {
    && |t.triggers| == |TriggersIn(log)|
    && forall id :: id in t.triggers ==> id < |TriggersIn(log)| && t.triggers[id] == TriggersIn(log)[id]
  }

  ghost predicate ChoicesAgree(t: Tables, log: seq<Command>) {
    forall from, trigger :: ChoicesAt(t, from, trigger) == ChoicesIn(log, from, trigger)
  }

  /** The tables are exactly what a history of successful calls says. */
  ghost predicate Represents(t: Tables, log: seq<Command>) {
    StatesAgree(t, log) && TriggersAgree(t, log) && t.conditions == PoolIn(log) && ChoicesAgree(t, log)
  }

  lemma ChoicesGrow(pool: seq<Condition>, more: seq<Condition>, list: seq<Alternative>)
    requires forall i | 0 <= i < |list| :: list[i].first + list[i].count <= |pool|
    ensures Choices(pool + more, list) == Choices(pool, list)
  {
    forall i | 0 <= i < |list|
      ensures ChoiceOf(pool + more, list[i]) == ChoiceOf(pool, list[i])
    {
      assert (pool + more)[list[i].first..list[i].first + list[i].count] ==
             pool[list[i].first..list[i].first + list[i].count];
    }
  }

  /** What a successful add_transition did, in one line. */
  predicate Extended(t: Tables, t': Tables, from: StateId, trigger: TriggerId, a: Alternative, guard: ConditionList) {
    && from in t.states && from in t'.states && a.first == |t.conditions| && a.count == |guard|
    && t'.conditions == t.conditions + guard
    && t'.states == t.states[from := t'.states[from]]
    && t'.states[from].name == t.states[from].name
    && t'.states[from].transitions == t.states[from].transitions[trigger := Listed(t.states[from], trigger) + [a]]
  }

  lemma AddTransitionExtends(t: Tables, from: StateId, trigger: TriggerId, target: StateId, guard: ConditionList)
    requires AddTransition(t, from, trigger, target, guard).0 == Ok
    ensures |t.conditions| <= MAX_CONDITIONS
    ensures Extended(t, AddTransition(t, from, trigger, target, guard).1, from, trigger,
                     Alternative(|t.conditions|, |guard|, target), guard)
  {
  }

  predicate InBounds(t: Tables, list: seq<Alternative>) {
    forall i | 0 <= i < |list| :: list[i].first + list[i].count <= |t.conditions|
  }

  /** A new alternative decodes to what was passed, at the end of its own list; every other
      list decodes as before although the pool has grown. */
  lemma ExtendedDecodes(t: Tables, t': Tables, from: StateId, trigger: TriggerId, a: Alternative, guard: ConditionList,
                        s: StateId, e: TriggerId)
    requires Extended(t, t', from, trigger, a, guard)
    requires s in t.states ==> InBounds(t, Listed(t.states[s], e))
    ensures ChoicesAt(t', s, e) ==
            ChoicesAt(t, s, e) + if s == from && e == trigger then [Choice(guard, a.target)] else []
  {
    if s in t.states {
      var list := Listed(t.states[s], e);
      ChoicesGrow(t.conditions, guard, list);
      if s == from && e == trigger {
        assert t'.conditions[|t.conditions|..|t.conditions| + |guard|] == guard;
        assert Choices(t'.conditions, list + [a]) == Choices(t'.conditions, list) + [ChoiceOf(t'.conditions, a)];
      } else {
        assert Listed(t'.states[s], e) == list;
      }
    }
  }

  lemma AllInBounds(t: Tables, s: StateId, e: TriggerId)
    requires NodesSound(t) && s in t.states
    ensures InBounds(t, Listed(t.states[s], e))
  {
  }

  lemma ApplyKeeps(t: Tables, c: Command)
    requires Invariant(t) && Apply(t, c).0 == Ok
    ensures Invariant(Apply(t, c).1)
  {
    match c
    case DefineState(name) => DeclareStateKeeps(t, name);
    case DefineTrigger(name, channel) => DeclareTriggerKeeps(t, name, channel);
    case DefineTransition(from, on, target, guard) => AddTransitionKeeps(t, from, on, target, guard);
  }

  lemma FailureChangesNothing(t: Tables, c: Command)
    requires Apply(t, c).0 != Ok
    ensures Apply(t, c).1 == t
  {
  }

  lemma NamingAddsNoChoices(t: Tables, c: Command, s: StateId, e: TriggerId)
    requires !c.DefineTransition? && Apply(t, c).0 == Ok && |t.states| !in t.states.Keys
    ensures ChoicesAt(Apply(t, c).1, s, e) == ChoicesAt(t, s, e)
  {
  }

  lemma TransitionAddsItsChoice(t: Tables, c: Command, s: StateId, e: TriggerId)
    requires NodesSound(t) && c.DefineTransition? && Apply(t, c).0 == Ok
    ensures ChoicesAt(Apply(t, c).1, s, e) == ChoicesAt(t, s, e) + ChoicesOf(c, s, e)
  {
    AddTransitionExtends(t, c.from, c.on, c.target, c.guard);
    if s in t.states {
      AllInBounds(t, s, e);
    }
    ExtendedDecodes(t, Apply(t, c).1, c.from, c.on, Alternative(|t.conditions|, |c.guard|, c.target), c.guard, s, e);
  }

  lemma ApplyChoicesAt(t: Tables, c: Command, s: StateId, e: TriggerId)
    requires NodesSound(t) && Apply(t, c).0 == Ok && |t.states| !in t.states.Keys
    ensures ChoicesAt(Apply(t, c).1, s, e) == ChoicesAt(t, s, e) + ChoicesOf(c, s, e)
  {
    if c.DefineTransition? {
      TransitionAddsItsChoice(t, c, s, e);
    } else {
      NamingAddsNoChoices(t, c, s, e);
      assert ChoicesAt(t, s, e) + [] == ChoicesAt(t, s, e);
    }
  }

  lemma ApplyChoices(t: Tables, log: seq<Command>, c: Command)
    requires NodesSound(t) && ChoicesAgree(t, log) && Apply(t, c).0 == Ok && |t.states| !in t.states.Keys
    ensures ChoicesAgree(Apply(t, c).1, log + [c])
  {
    assert (log + [c])[..|log|] == log;
    forall s, e
      ensures ChoicesAt(Apply(t, c).1, s, e) == ChoicesIn(log + [c], s, e)
    {
      ApplyChoicesAt(t, c, s, e);
      assert ChoicesAt(t, s, e) == ChoicesIn(log, s, e);
    }
  }

  lemma {:induction false} StatesInMore(log: seq<Command>, c: Command)
    ensures StatesIn(log + [c]) == StatesIn(log) + if c.DefineState? then [c.state] else []
  {
  }

  lemma SameStatesAgree(t: Tables, t': Tables, log: seq<Command>)
    requires StatesAgree(t, log) && t'.states.Keys == t.states.Keys
    requires forall s | s in t.states :: t'.states[s].name == t.states[s].name
    ensures StatesAgree(t', log)
  {
  }

  lemma ApplyStates(t: Tables, log: seq<Command>, c: Command)
    requires StatesAgree(t, log) && Apply(t, c).0 == Ok
    requires |t.states| !in t.states.Keys
    ensures StatesAgree(Apply(t, c).1, log + [c])
  {
    StatesInMore(log, c);
    if c.DefineTransition? {
      AddTransitionExtends(t, c.from, c.on, c.target, c.guard);
      SameStatesAgree(t, Apply(t, c).1, log);
    }
  }

  lemma {:induction false} TriggersInMore(log: seq<Command>, c: Command)
    ensures TriggersIn(log + [c]) ==
            TriggersIn(log) + if c.DefineTrigger? then [TriggerDef(c.trigger, ChannelOr(c.channel, c.trigger))] else []
  {
  }

  lemma ApplyTriggers(t: Tables, log: seq<Command>, c: Command)
    requires TriggersAgree(t, log) && Apply(t, c).0 == Ok
    requires |t.triggers| !in t.triggers.Keys
    ensures TriggersAgree(Apply(t, c).1, log + [c])
  {
    TriggersInMore(log, c);
    if !c.DefineTrigger? {
      assert Apply(t, c).1.triggers == t.triggers;
    }
  }

  lemma {:induction false} ApplyPool(t: Tables, log: seq<Command>, c: Command)
    requires t.conditions == PoolIn(log) && Apply(t, c).0 == Ok
    ensures Apply(t, c).1.conditions == PoolIn(log + [c])
  {
  }

  lemma ApplyRepresents(t: Tables, log: seq<Command>, c: Command)
    requires Invariant(t) && Represents(t, log) && Apply(t, c).0 == Ok
    ensures Represents(Apply(t, c).1, log + [c])
  {
    NextIdIsNew(t);
    ApplyStates(t, log, c);
    ApplyTriggers(t, log, c);
    ApplyPool(t, log, c);
    ApplyChoices(t, log, c);
  }

  /** After any sequence of calls, failed ones included, the invariant holds and the tables
      are exactly what the successful calls say: names in order, each alternative decoding to
      the conditions and target it was given, and a pool that is those conditions end to end. */
  lemma {:induction false} BuildIsHistory(commands: seq<Command>)
    ensures Invariant(Build(commands)) && Represents(Build(commands), Log(commands))
  {
    if commands == [] {
      assert NOTHING.states == map[];
    } else {
      var before, last := commands[..|commands| - 1], commands[|commands| - 1];
      BuildIsHistory(before);
      if Apply(Build(before), last).0 == Ok {
        ApplyKeeps(Build(before), last);
        ApplyRepresents(Build(before), Log(before), last);
      } else {
        FailureChangesNothing(Build(before), last);
      }
    }
  }

  // ---------------------------------------------------------------------------
  // slices

  datatype Position = Position(state: StateId, trigger: TriggerId, index: nat)

  predicate At(t: Tables, p: Position) {
    && p.state in t.states && p.trigger in t.states[p.state].transitions
    && p.index < |t.states[p.state].transitions[p.trigger]|
  }

  function SliceAt(t: Tables, p: Position): Alternative
    requires At(t, p)
  {
    t.states[p.state].transitions[p.trigger][p.index]
  }

  predicate Apart(a: Alternative, b: Alternative) {
    a.first + a.count <= b.first || b.first + b.count <= a.first
  }

  ghost predicate SlicesDisjoint(t: Tables) {
    forall p, q :: At(t, p) && At(t, q) && p != q ==> Apart(SliceAt(t, p), SliceAt(t, q))
  }

  /** Every slice that was there stays as it was. */
  lemma SlicesStay(t: Tables, c: Command, p: Position)
    requires |t.states| !in t.states.Keys && Apply(t, c).0 == Ok && At(t, p)
    ensures At(Apply(t, c).1, p) && SliceAt(Apply(t, c).1, p) == SliceAt(t, p)
  {
  }

  /** At most one slice is new, and it starts where the pool ended. */
  lemma NewSlice(t: Tables, c: Command, p: Position)
    requires |t.states| !in t.states.Keys && Apply(t, c).0 == Ok && At(Apply(t, c).1, p) && !At(t, p)
    ensures c.DefineTransition? && c.from in t.states
    ensures p == Position(c.from, c.on, |Listed(t.states[c.from], c.on)|)
    ensures SliceAt(Apply(t, c).1, p).first == |t.conditions|
  {
  }

  lemma SliceInBounds(t: Tables, p: Position)
    requires NodesSound(t) && At(t, p)
    ensures SliceAt(t, p).first + SliceAt(t, p).count <= |t.conditions|
  {
  }

  lemma ApplyKeepsDisjoint(t: Tables, c: Command)
    requires NodesSound(t) && |t.states| !in t.states.Keys && SlicesDisjoint(t) && Apply(t, c).0 == Ok
    ensures SlicesDisjoint(Apply(t, c).1)
  {
    var t' := Apply(t, c).1;
    forall p, q | At(t', p) && At(t', q) && p != q
      ensures Apart(SliceAt(t', p), SliceAt(t', q))
    {
      if At(t, p) {
        SlicesStay(t, c, p);
        SliceInBounds(t, p);
      } else {
        NewSlice(t, c, p);
      }
      if At(t, q) {
        SlicesStay(t, c, q);
        SliceInBounds(t, q);
      } else {
        NewSlice(t, c, q);
      }
    }
  }

  /** Whatever was called, no two alternatives share any part of the pool. */
  lemma {:induction false} BuildKeepsSlicesDisjoint(commands: seq<Command>)
    ensures SlicesDisjoint(Build(commands))
  {
    if commands != [] {
      var before, c := commands[..|commands| - 1], commands[|commands| - 1];
      BuildKeepsSlicesDisjoint(before);
      BuildIsHistory(before);
      NextIdIsNew(Build(before));
      if Apply(Build(before), c).0 == Ok {
        ApplyKeepsDisjoint(Build(before), c);
      } else {
        FailureChangesNothing(Build(before), c);
      }
    }
  }
}
