/** The machine itself: the tables as an object that the loader fills and everything else reads. */
module Models {
  import opened Limits
  import opened Types
  import opened Arguments
  import opened Conditions
  import opened MachineTables

  class Model {
    var name: string
    var states: map<StateId, StateNode>
    var stateIndex: map<string, StateId>
    var triggers: map<TriggerId, TriggerDef>
    var triggerIndex: map<string, TriggerId>
    var channelIndex: map<string, TriggerId>
    var conditions: seq<Condition>

    ghost function View(): Tables
      reads this
    {
      Tables(name, states, stateIndex, triggers, triggerIndex, channelIndex, conditions)
    }

    constructor ()
      ensures View() == NOTHING
    {
      name := "";
      states, stateIndex := map[], map[];
      triggers, triggerIndex, channelIndex := map[], map[], map[];
      conditions := [];
    }

    method Clear()
      modifies this
      ensures View() == NOTHING
    {
      name := "";
      states, stateIndex := map[], map[];
      triggers, triggerIndex, channelIndex := map[], map[], map[];
      conditions := [];
    }

    method SetName(name: string) returns (status: Status)
      modifies this
      ensures (status, View()) == MachineTables.SetName(old(View()), name)
    {
      if |name| > MAX_NAME_LENGTH {
        return NameTooLong;
      }
      this.name := name;
      return Ok;
    }

    method DeclareState(name: string) returns (status: Status, id: StateId)
      modifies this
      ensures (status, View()) == MachineTables.DeclareState(old(View()), name)
      ensures id == if status == Ok then |old(states)| else NO_STATE
    {
      id := NO_STATE;
      if name == "" {
        return InvalidArgument, id;
      }
      if |states| >= MAX_STATES || |stateIndex| >= MAX_STATES {
        return CapacityExceeded, id;
      }
      if |name| > MAX_NAME_LENGTH {
        return NameTooLong, id;
      }
      if name in stateIndex {
        return DuplicateName, id;
      }
      id := |states|;
      states := states[id := StateNode(name, map[])];
      stateIndex := stateIndex[name := id];
      return Ok, id;
    }

    method DeclareTrigger(name: string, channel: string) returns (status: Status, id: TriggerId)
      modifies this
      ensures (status, View()) == MachineTables.DeclareTrigger(old(View()), name, channel)
      ensures id == if status == Ok then |old(triggers)| else NO_TRIGGER
    {
      id := NO_TRIGGER;
      if name == "" {
        return InvalidArgument, id;
      }
      if |triggers| >= MAX_TRIGGERS || |triggerIndex| >= MAX_TRIGGERS || |channelIndex| >= MAX_TRIGGERS {
        return CapacityExceeded, id;
      }
      if |name| > MAX_NAME_LENGTH {
        return NameTooLong, id;
      }
      var source := if channel == "" then name else channel;
      if |source| > MAX_CHANNEL_LENGTH {
        return ChannelTooLong, id;
      }
      if name in triggerIndex {
        return DuplicateName, id;
      }
      if source in channelIndex {
        return DuplicateName, id;
      }
      id := |triggers|;
      triggers := triggers[id := TriggerDef(name, source)];
      triggerIndex := triggerIndex[name := id];
      channelIndex := channelIndex[source := id];
      return Ok, id;
    }

    /** Makes sure a state has a list for a trigger, inserting an empty one when it has none
        and there is room. */
    method AlternativesFor(from: StateId, trigger: TriggerId) returns (found: bool)
      modifies this`states
      ensures found <==> from in old(states) &&
                         (trigger in old(states)[from].transitions ||
                          |old(states)[from].transitions| < MAX_TRANSITIONS_PER_STATE)
      ensures !found || trigger in old(states)[from].transitions ==> states == old(states)
      ensures found && trigger !in old(states)[from].transitions ==>
                var node := old(states)[from];
                states == old(states)[from := node.(transitions := node.transitions[trigger := []])]
    {
      if from !in states {
        return false;
      }
      var node := states[from];
      if trigger !in node.transitions {
        if |node.transitions| >= MAX_TRANSITIONS_PER_STATE {
          return false;
        }
        states := states[from := node.(transitions := node.transitions[trigger := []])];
      }
      return true;
    }

    /** Copies the conditions into the pool and appends one alternative. A call that fails
        leaves every table as it was, the empty list that AlternativesFor may insert included. */
    method AddTransition(from: StateId, trigger: TriggerId, target: StateId, guard: ConditionList)
      returns (status: Status)
      modifies this
      ensures (status, View()) == MachineTables.AddTransition(old(View()), from, trigger, target, guard)
    {
      if from !in states {
        return UnknownState;
      }
      if trigger !in triggers {
        return UnknownTrigger;
      }
      if target !in states {
        return UnknownState;
      }
      if |conditions| + |guard| > MAX_CONDITIONS {
        return CapacityExceeded;
      }
      var found := AlternativesFor(from, trigger);
      if !found {
        return CapacityExceeded;
      }
      var node := states[from];
      var list := node.transitions[trigger];
      if |list| >= MAX_ALTERNATIVES {
        return CapacityExceeded;
      }
      var alternative := Alternative(|conditions|, |guard|, target);
      Intern(guard);
      ghost var before := old(states)[from];
      assert node.transitions[trigger := list + [alternative]] ==
             before.transitions[trigger := Listed(before, trigger) + [alternative]];
      states := states[from := node.(transitions := node.transitions[trigger := list + [alternative]])];
      assert states == old(states)[from := states[from]];
      return Ok;
    }

    /** Pushes conditions onto the pool, which has room for all of them. */
    method Intern(guard: ConditionList)
      requires |conditions| + |guard| <= MAX_CONDITIONS
      modifies this`conditions
      ensures conditions == old(conditions) + guard
    {
      for i := 0 to |guard|
        invariant conditions == old(conditions) + guard[..i]
      {
        assert |conditions| < MAX_CONDITIONS;
        conditions := conditions + [guard[i]];
      }
    }

    /** Cross-checks every reference between the tables. */
    method Validate() returns (status: Status)
      ensures status == ValidationOf(View())
    {
      if states == map[] {
        return SchemaError;
      }
      for id := 0 to 0x1_0000
        invariant StatesFault(View(), 0) == StatesFault(View(), id)
      {
        if id in states {
          status := ValidateNode(states[id]);
          if status != Ok {
            return;
          }
        }
      }
      return Ok;
    }

    method ValidateNode(node: StateNode) returns (status: Status)
      ensures status == NodeFault(View(), node, 0)
    {
      for trigger := 0 to 0x1_0000
        invariant NodeFault(View(), node, 0) == NodeFault(View(), node, trigger)
      {
        if trigger in node.transitions {
          status := ValidateEntry(trigger, node.transitions[trigger]);
          if status != Ok {
            return;
          }
        }
      }
      return Ok;
    }

    method ValidateEntry(trigger: TriggerId, list: seq<Alternative>) returns (status: Status)
      ensures status == if trigger !in triggers then UnknownTrigger
                        else if list == [] then SchemaError
                        else ListFault(View(), list, 0)
    {
      if trigger !in triggers {
        return UnknownTrigger;
      }
      if list == [] {
        return SchemaError;
      }
      for k := 0 to |list|
        invariant ListFault(View(), list, 0) == ListFault(View(), list, k)
      {
        if list[k].target !in states {
          return UnknownState;
        }
        if list[k].first + list[k].count > |conditions| {
          return SchemaError;
        }
      }
      return Ok;
    }

    function FindState(name: string): StateId
      reads this
    {
      FindName(stateIndex, name, MAX_NAME_LENGTH)
    }

    function FindTrigger(name: string): TriggerId
      reads this
    {
      FindName(triggerIndex, name, MAX_NAME_LENGTH)
    }

    function FindTriggerForChannel(channel: string): TriggerId
      reads this
    {
      FindName(channelIndex, channel, MAX_CHANNEL_LENGTH)
    }

    /** Walks the alternatives in order and takes the first whose conditions all hold. */
    method Evaluate(from: StateId, trigger: TriggerId, args: Args) returns (decision: Decision, target: StateId)
      ensures (decision, target) == EvaluateTables(View(), from, trigger, args.entries)
    {
      target := NO_STATE;
      if from !in states {
        return Unlisted, target;
      }
      var node := states[from];
      if trigger !in node.transitions {
        return Unlisted, target;
      }
      var list := node.transitions[trigger];
      for k := 0 to |list|
        invariant FirstHolding(conditions, list, args.entries, 0) == FirstHolding(conditions, list, args.entries, k)
      {
        var holds := SliceHoldsFor(list[k], args);
        if holds {
          target := list[k].target;
          return Accepted, target;
        }
      }
      return Rejected, target;
    }

    method SliceHoldsFor(a: Alternative, args: Args) returns (holds: bool)
      ensures holds == SliceHolds(conditions, a, args.entries)
    {
      holds := true;
      var i := 0;
      while holds && i < a.count
        invariant 0 <= i <= a.count
        invariant holds ==> forall j | a.first <= j < a.first + i :: PositionHolds(conditions, j, args.entries)
        invariant !holds ==> !SliceHolds(conditions, a, args.entries)
      {
        var index := a.first + i;
        if index >= |conditions| {
          assert !PositionHolds(conditions, index, args.entries);
          holds := false;
          break;
        }
        holds := Conditions.Evaluate(conditions[index], args);
        assert holds == PositionHolds(conditions, index, args.entries);
        i := i + 1;
      }
    }
  }
}
