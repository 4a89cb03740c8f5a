/** The runtime between a port and a machine: where each input is routed, what is announced or
    reported about it, and how it is counted. */
module Runtimes {
  import opened Limits
  import opened Types
  import opened Text
  import opened Arguments
  import opened MachineTables
  import opened Models
  import opened Machines

  /** A failed receive: anything but input or a timeout. */
  type Failure = s: Status | s != Ok && s != Timeout witness EndOfInput

  /** What one receive can bring. */
  datatype Reception = Arrived(channel: string, arguments: string) | Idle | Failed(reason: Failure)

  /** What is published on the error channel, by what it says rather than by its wording. */
  datatype ErrorReport =
    | UnknownChannel(channel: string)
    | RefusedTrigger(trigger: TriggerId, state: StateId, guard: bool)
    | BadArguments(trigger: TriggerId, reason: Status)

  /** What a port says to a channel: yes, unless it has something else to say. */
  function AnswerTo(answers: map<string, Status>, channel: string): Status {
    if channel in answers then answers[channel] else Ok
  }

  /** What comes of offering channels in ascending order: the first answer that is not Ok. */
  ghost function Offered(channels: set<string>, answers: map<string, Status>): Status {
    if channels == {} then Ok
    else
      var channel := Least(channels);
      if AnswerTo(answers, channel) != Ok then AnswerTo(answers, channel) else Offered(channels - {channel}, answers)
  }

  /** All channels are taken when the port says yes to each. Otherwise the answer is that to the
      least channel it does not say yes to. */
  lemma {:induction false} OfferedMeans(channels: set<string>, answers: map<string, Status>)
    ensures Offered(channels, answers) == Ok <==> forall c | c in channels :: AnswerTo(answers, c) == Ok
    ensures Offered(channels, answers) != Ok ==>
              exists c :: c in channels && AnswerTo(answers, c) == Offered(channels, answers) &&
                          forall d | d in channels && AnswerTo(answers, d) != Ok :: Precedes(c, d)
    decreases channels
  {
    if channels != {} {
      var least := Least(channels);
      OfferedMeans(channels - {least}, answers);
      assert channels == channels - {least} + {least};
    }
  }

  /** A port that answers as it likes and remembers what it was asked to publish. */
  class Port {
    var configureAnswer: Status
    var openAnswer: Status
    var closeAnswer: Status
    var answers: map<string, Status>
    var publishAnswer: Status
    var inbox: seq<Reception>
    ghost var announced: seq<string>
    ghost var errors: seq<ErrorReport>

    constructor (inbox: seq<Reception>, configureAnswer: Status, openAnswer: Status, closeAnswer: Status,
                 answers: map<string, Status>, publishAnswer: Status)
      ensures this.inbox == inbox && announced == [] && errors == []
      ensures this.configureAnswer == configureAnswer && this.openAnswer == openAnswer && this.answers == answers
    {
      this.inbox, this.configureAnswer, this.openAnswer, this.closeAnswer :=
        inbox, configureAnswer, openAnswer, closeAnswer;
      this.answers, this.publishAnswer := answers, publishAnswer;
      announced, errors := [], [];
    }

    function Listen(channel: string): Status
      reads this
    {
      AnswerTo(answers, channel)
    }

    /** An empty inbox is an exhausted source. */
    function Next(): Reception
      reads this
    {
      if inbox == [] then Failed(EndOfInput) else inbox[0]
    }

    method Receive() returns (r: Reception)
      modifies this`inbox
      ensures r == old(Next()) && inbox == if old(inbox) == [] then [] else old(inbox)[1..]
    {
      r := Next();
      inbox := if inbox == [] then [] else inbox[1..];
    }

    method PublishState(state: string) returns (status: Status)
      modifies this`announced
      ensures announced == old(announced) + [state]
    {
      announced := announced + [state];
      status := publishAnswer;
    }

    method PublishError(report: ErrorReport) returns (status: Status)
      modifies this`errors
      ensures errors == old(errors) + [report]
    {
      errors := errors + [report];
      status := publishAnswer;
    }
  }

  // ---------------------------------------------------------------------------
  // one step, on values

  /** Everything a step can change, what was published included. */
  datatype Session = Session(
    progress: Progress,
    received: uint32,
    unrouted: uint32,
    rejected: uint32,
    announced: seq<string>,
    errors: seq<ErrorReport>)

  function Announce(t: Tables, s: Session, state: StateId): Session {
    if state in t.states then s.(announced := s.announced + [t.states[state].name]) else s
  }

  function Refuse(s: Session, report: ErrorReport): Session {
    s.(rejected := Increment(s.rejected), errors := s.errors + [report])
  }

  /** A session right after start: the machine in its initial state, and that announced. */
  function Started(names: Tables, s: Session): Session {
    var p := s.progress.(current := s.progress.initial, started := true);
    Announce(names, s.(progress := p), p.current)
  }

  /** Triggers and states are named by the runtime's own tables, and decided by the machine's. */
  function Dispatched(names: Tables, rules: Tables, s: Session, trigger: TriggerId, m: ArgMap): (Status, Session) {
    var (status, now) := Fired(rules, s.progress, trigger, m);
    if status == Ok then (status, Announce(names, s.(progress := now), now.current))
    else (status, Refuse(s.(progress := now), RefusedTrigger(trigger, s.progress.current, status == GuardRejected)))
  }

  function Serviced(names: Tables, rules: Tables, s: Session, r: Reception): (Status, Session) {
    match r
    case Idle => (Ok, s)
    case Failed(reason) => (reason, s)
    case Arrived(channel, arguments) =>
      var counted := s.(received := Increment(s.received));
      var trigger := FindName(names.channelIndex, channel, MAX_CHANNEL_LENGTH);
      if trigger == NO_TRIGGER then
        (Ok, counted.(unrouted := Increment(s.unrouted), errors := s.errors + [UnknownChannel(channel)]))
      else
        var (parsed, m) := ParseText(arguments);
        if parsed != Ok then (Ok, Refuse(counted, BadArguments(trigger, parsed)))
        else (Ok, Dispatched(names, rules, counted, trigger, m).1)
  }

  function Raised(names: Tables, rules: Tables, s: Session, name: string, arguments: string): (Status, Session) {
    var trigger := FindName(names.triggerIndex, name, MAX_NAME_LENGTH);
    if trigger == NO_TRIGGER then (UnknownTrigger, s)
    else
      var (parsed, m) := ParseText(arguments);
      if parsed != Ok then (parsed, s) else Dispatched(names, rules, s, trigger, m)
  }

  // ---------------------------------------------------------------------------
  // the object

  class Runtime {
    var model: Model?
    var setup: Setup?
    var machine: StateMachine?
    var port: Port?
    const args: Args
    var received: uint32
    var unrouted: uint32
    var rejected: uint32
    var started: bool

    constructor ()
      ensures model == null && setup == null && machine == null && port == null && fresh(args)
      ensures received == unrouted == rejected == 0 && !started
    {
      model, setup, machine, port := null, null, null, null;
      args := new Args();
      received, unrouted, rejected, started := 0, 0, 0, false;
    }

    /** A started runtime is bound, and so is the machine it drives, though not always to the
        same model: a machine may be bound anew until it is started. */
    predicate Valid()
      reads this, machine
    {
      started ==> model != null && machine != null && port != null && machine.model != null && machine.started
    }

    ghost function View(): Session
      requires machine != null && port != null
      reads this, machine, port
    {
      Session(machine.View(), received, unrouted, rejected, port.announced, port.errors)
    }

    method Init(newMachine: StateMachine, newPort: Port) returns (status: Status)
      modifies this`model, this`setup, this`machine, this`port
      ensures status == if old(started) then AlreadyInitialised
                        else if newMachine.model == null || newMachine.setup == null then NotInitialised
                        else Ok
      ensures if status == Ok
              then model == newMachine.model && setup == newMachine.setup && machine == newMachine && port == newPort
              else model == old(model) && setup == old(setup) && machine == old(machine) && port == old(port)
    {
      if started {
        return AlreadyInitialised;
      }
      if newMachine.model == null || newMachine.setup == null {
        return NotInitialised;
      }
      model, setup := newMachine.model, newMachine.setup;
      machine, port := newMachine, newPort;
      return Ok;
    }

    /** Announces every channel to the port in ascending order, until one is refused. */
    method ListenAll(channels: set<string>, port: Port) returns (status: Status)
      ensures status == Offered(channels, port.answers)
    {
      var left := channels;
      while left != {}
        invariant Offered(channels, port.answers) == Offered(left, port.answers)
        decreases left
      {
        LeastIsFirst(left);
        var channel :| channel in left && forall other | other in left :: Precedes(channel, other);
        LeastIsUnique(left, channel);
        status := port.Listen(channel);
        if status != Ok {
          return;
        }
        left := left - {channel};
      }
      return Ok;
    }

    /** The port comes first, then its channels one by one, and only when all of them are taken
        does the machine start. */
    method Start() returns (status: Status)
      modifies this`started, machine, port
      ensures status ==
              if model == null || setup == null || machine == null || port == null then NotInitialised
              else if old(started) then AlreadyInitialised
              else if old(port.configureAnswer) != Ok then old(port.configureAnswer)
              else if old(port.openAnswer) != Ok then old(port.openAnswer)
              else if Offered(model.channelIndex.Keys, old(port.answers)) != Ok
              then Offered(model.channelIndex.Keys, old(port.answers))
              else if old(machine.model) == null || old(machine.setup) == null then NotInitialised
              else if old(machine.started) then AlreadyInitialised
              else if old(machine.initial) !in old(machine.model.states) then UnknownState
              else Ok
      ensures status == Ok ==> started && Valid() && View() == Started(model.View(), old(View()))
      ensures machine != null && port != null ==> machine.model == old(machine.model) && port.inbox == old(port.inbox)
      ensures machine != null ==> machine.setup == old(machine.setup)
      ensures status != Ok ==> started == old(started)
      ensures status != Ok && machine != null && port != null ==> View() == old(View())
    {
      if model == null || setup == null || machine == null || port == null {
        return NotInitialised;
      }
      if started {
        return AlreadyInitialised;
      }
      status := port.configureAnswer;
      if status != Ok {
        return;
      }
      status := port.openAnswer;
      if status != Ok {
        return;
      }
      status := ListenAll(model.channelIndex.Keys, port);
      if status != Ok {
        return;
      }
      status := machine.Start();
      if status != Ok {
        return;
      }
      started := true;
      PublishState(machine.current);
      return Ok;
    }

    /** Closes the port. The machine is left where it is, still started, so Start is refused from
        then on unless another machine is bound. */
    method Stop() returns (status: Status)
      modifies this`started
      ensures status == if port == null then NotInitialised else port.closeAnswer
      ensures started == (old(started) && port == null)
      ensures machine != null && port != null ==> View() == old(View())
    {
      if port == null {
        return NotInitialised;
      }
      started := false;
      return port.closeAnswer;
    }

    method PublishState(state: StateId)
      requires model != null && machine != null && port != null
      modifies port`announced
      ensures View() == Announce(model.View(), old(View()), state)
    {
      if state in model.states {
        var ignored := port.PublishState(model.states[state].name);
      }
    }

    /** Fires the trigger and publishes what came of it. */
    method Dispatch(trigger: TriggerId) returns (status: Status)
      requires Valid() && started
      modifies this`rejected, machine, port`announced, port`errors
      ensures Valid() && machine.model == old(machine.model)
      ensures (status, View()) == Dispatched(model.View(), machine.model.View(), old(View()), trigger, args.entries)
    {
      var event;
      status, event := machine.Fire(trigger, args);
      if status == Ok {
        PublishState(event.to);
      } else if status == NoTransition || status == GuardRejected {
        rejected := Increment(rejected);
        var ignored := port.PublishError(RefusedTrigger(event.trigger, event.from, event.guardRejected));
      }
    }

    /** One turn of the main loop. */
    method Service() returns (status: Status)
      requires Valid()
      modifies this`received, this`unrouted, this`rejected, machine, port, args
      ensures Valid() && started == old(started)
      ensures started ==> machine.model == old(machine.model)
      ensures started ==> port.inbox == if old(port.inbox) == [] then [] else old(port.inbox)[1..]
      ensures !started ==> status == NotInitialised
      ensures started ==>
                (status, View()) == Serviced(model.View(), machine.model.View(), old(View()), old(port.Next()))
    {
      if !started {
        return NotInitialised;
      }
      var input := port.Receive();
      if input.Idle? {
        return Ok;
      }
      if input.Failed? {
        return input.reason;
      }
      Route(input.channel, input.arguments);
      return Ok;
    }

    /** An input is counted, routed by its channel and, when its arguments can be read,
        dispatched. */
    method Route(channel: string, arguments: string)
      requires Valid() && started
      modifies this`received, this`unrouted, this`rejected, machine, port`announced, port`errors, args
      ensures Valid() && machine.model == old(machine.model)
      ensures View() ==
              Serviced(model.View(), machine.model.View(), old(View()), Arrived(channel, arguments)).1
    {
      received := Increment(received);
      var trigger := model.FindTriggerForChannel(channel);
      if trigger == NO_TRIGGER {
        unrouted := Increment(unrouted);
        var ignored := port.PublishError(UnknownChannel(channel));
        return;
      }
      var parsed := args.Parse(arguments);
      if parsed != Ok {
        rejected := Increment(rejected);
        var ignored := port.PublishError(BadArguments(trigger, parsed));
        return;
      }
      var ignored := Dispatch(trigger);
    }

    /** Raises a trigger by name from application code. */
    method FireByName(name: string, arguments: string) returns (status: Status)
      requires Valid()
      modifies this`rejected, machine, port, args
      ensures Valid() && started == old(started)
      ensures port != null ==> port.inbox == old(port.inbox)
      ensures !started ==> status == NotInitialised
      ensures started ==> (status, View()) == Raised(model.View(), machine.model.View(), old(View()), name, arguments)
    {
      if !started {
        return NotInitialised;
      }
      var trigger := model.FindTrigger(name);
      if trigger == NO_TRIGGER {
        return UnknownTrigger;
      }
      var parsed := args.Parse(arguments);
      if parsed != Ok {
        return parsed;
      }
      status := Dispatch(trigger);
    }
  }
}
