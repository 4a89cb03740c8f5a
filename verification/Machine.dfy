/** The running machine: a model, a starting point, and a current state. */
module Machines {
  import opened Limits
  import opened Types
  import opened Arguments
  import opened MachineTables
  import opened BuildPhase
  import opened Models

  type Name = s: string | |s| <= MAX_NAME_LENGTH

  /** The half of the configuration that says where to start; everything else it holds is
      handed to the port unread. */
  class Setup {
    var initial: Name

    constructor (initial: Name)
      ensures this.initial == initial
    {
      this.initial := initial;
    }

    function InitialIn(model: Model): StateId
      reads this, model
    {
      model.FindState(initial)
    }

    function ValidateAgainst(model: Model): Status
      reads this, model
    {
      if initial == "" then SchemaError
      else if InitialIn(model) == NO_STATE then UnknownState
      else Ok
    }
  }

  datatype TransitionEvent = TransitionEvent(
    from: StateId,
    to: StateId,
    trigger: TriggerId,
    accepted: bool,
    guardRejected: bool)

  const NO_EVENT := TransitionEvent(NO_STATE, NO_STATE, NO_TRIGGER, false, false)

  /** What a machine carries from one trigger to the next. */
  datatype Progress = Progress(
    initial: StateId,
    current: StateId,
    started: bool,
    transitions: uint32,
    rejections: uint32)

  /** One trigger applied to a started machine. */
  function Fired(t: Tables, p: Progress, trigger: TriggerId, m: ArgMap): (Status, Progress) {
    var (decision, target) := EvaluateTables(t, p.current, trigger, m);
    match decision
    case Accepted => (Ok, p.(current := target, transitions := Increment(p.transitions)))
    case Rejected => (GuardRejected, p.(rejections := Increment(p.rejections)))
    case Unlisted => (NoTransition, p.(rejections := Increment(p.rejections)))
  }

  /** Of a model that was built, a name is bound exactly when one of its states has it. */
  lemma BoundNames(t: Tables, name: string)
    ensures Invariant(t) ==>
              var id := FindName(t.stateIndex, name, MAX_NAME_LENGTH);
              && (ValidationOf(t) == Ok && name != "" && id != NO_STATE <==> t.states != map[] && name in t.stateIndex)
              && (id != NO_STATE ==> id in t.states && t.states[id].name == name)
  {
    if Invariant(t) {
      ValidationMeans(t);
      ValidationIsOneQuestion(t);
      NameFindsState(t, name);
    }
  }

  class StateMachine {
    var model: Model?
    var setup: Setup?
    var initial: StateId
    var current: StateId
    var started: bool
    var transitions: uint32
    var rejections: uint32

    constructor ()
      ensures model == null && setup == null && View() == Progress(NO_STATE, NO_STATE, false, 0, 0)
    {
      model, setup := null, null;
      initial, current, started := NO_STATE, NO_STATE, false;
      transitions, rejections := 0, 0;
    }

    ghost function View(): Progress
      reads this
    {
      Progress(initial, current, started, transitions, rejections)
    }

    /** Binds a model and a setup. This is where the one reference between them is checked: a
        model that was built is bound when it has states and one of them has the name the setup
        gives, and it is in that state that the machine will start. */
    method Init(newModel: Model, newSetup: Setup) returns (status: Status)
      modifies this
      ensures old(started) ==> status == AlreadyInitialised
      ensures !old(started) ==>
                status == if ValidationOf(newModel.View()) != Ok then ValidationOf(newModel.View())
                          else if newSetup.initial == "" then SchemaError
                          else if FindName(newModel.stateIndex, newSetup.initial, MAX_NAME_LENGTH) == NO_STATE
                          then UnknownState
                          else Ok
      ensures status == Ok ==> model == newModel && setup == newSetup
      ensures status == Ok ==>
                && View() == Progress(initial, NO_STATE, false, 0, 0)
                && initial == FindName(newModel.stateIndex, newSetup.initial, MAX_NAME_LENGTH)
      ensures status == Ok && Invariant(newModel.View()) ==>
                initial in newModel.states && newModel.states[initial].name == newSetup.initial
      ensures status != Ok ==> View() == old(View()) && model == old(model) && setup == old(setup)
    {
      if started {
        return AlreadyInitialised;
      }
      BoundNames(newModel.View(), newSetup.initial);
      status := newModel.Validate();
      if status != Ok {
        return;
      }
      status := newSetup.ValidateAgainst(newModel);
      if status != Ok {
        return;
      }
      model, setup := newModel, newSetup;
      initial := newSetup.InitialIn(newModel);
      current := NO_STATE;
      transitions, rejections := 0, 0;
    }

    /** Enters the initial state. */
    method Start() returns (status: Status)
      modifies this
      ensures model == old(model) && setup == old(setup)
      ensures status == if model == null || setup == null then NotInitialised
                        else if old(started) then AlreadyInitialised
                        else if initial !in model.states then UnknownState
                        else Ok
      ensures View() == if status == Ok then old(View()).(current := old(initial), started := true) else old(View())
    {
      if model == null || setup == null {
        return NotInitialised;
      }
      if started {
        return AlreadyInitialised;
      }
      if initial !in model.states {
        return UnknownState;
      }
      current := initial;
      started := true;
      return Ok;
    }

    /** Applies a trigger with the arguments it carried; a refusal leaves the state alone. */
    method Fire(trigger: TriggerId, args: Args) returns (status: Status, event: TransitionEvent)
      modifies this
      ensures model == old(model) && setup == old(setup)
      ensures model == null || !old(started) ==>
                status == NotInitialised && event == NO_EVENT && View() == old(View())
      ensures model != null && old(started) ==>
                && (status, View()) == Fired(model.View(), old(View()), trigger, args.entries)
                && event == TransitionEvent(old(current), if status == Ok then current else NO_STATE, trigger,
                                            status == Ok, status == GuardRejected)
    {
      event := NO_EVENT;
      if model == null || !started {
        return NotInitialised, event;
      }
      event := event.(from := current, trigger := trigger);
      var decision, target := model.Evaluate(current, trigger, args);
      if decision == Accepted {
        current := target;
        event := event.(to := target, accepted := true);
        transitions := Increment(transitions);
        return Ok, event;
      }
      rejections := Increment(rejections);
      if decision == Rejected {
        event := event.(guardRejected := true);
        return GuardRejected, event;
      }
      return NoTransition, event;
    }
  }
}
