/** The program around the library: load, bind, start, and serve until the port has nothing more
    to say. */
module Programs {
  import opened Limits
  import opened Types
  import opened MachineTables
  import opened BuildPhase
  import opened Documents
  import opened Loaders
  import opened NamePass
  import opened Acceptance
  import opened CompilerCorrectness
  import opened Models
  import opened Machines
  import opened Runtimes
  import opened Sessions
  import opened WrittenSessions

  /** The turns it takes to use up an inbox: up to the first receive that fails, which at the
      latest is the one after the last. */
  function Turns(inbox: seq<Reception>): seq<Step> {
    if inbox == [] then [Service(Failed(EndOfInput))]
    else [Service(inbox[0])] + if inbox[0].Failed? then [] else Turns(inbox[1..])
  }

  function ReasonOf(inbox: seq<Reception>): Status {
    if inbox == [] then EndOfInput else if inbox[0].Failed? then inbox[0].reason else ReasonOf(inbox[1..])
  }

  function NextOf(inbox: seq<Reception>): Reception {
    if inbox == [] then Failed(EndOfInput) else inbox[0]
  }

  function RestOf(inbox: seq<Reception>): seq<Reception> {
    if inbox == [] then [] else inbox[1..]
  }

  /** Where serving an inbox has got to: some turns are done, and unless one was answered with a
      failure the others are still to come. */
  predicate Underway(inbox: seq<Reception>, done: seq<Step>, left: seq<Reception>, status: Status) {
    if status == Ok then done + Turns(left) == Turns(inbox) && ReasonOf(left) == ReasonOf(inbox)
    else done == Turns(inbox) && status == ReasonOf(inbox)
  }

  lemma NothingDone(inbox: seq<Reception>)
    ensures Underway(inbox, [], inbox, Ok)
  {
    assert [] + Turns(inbox) == Turns(inbox);
  }

  function StatusOf(r: Reception): Status {
    if r.Failed? then r.reason else Ok
  }

  lemma {:induction false} OneTurnOn(inbox: seq<Reception>, done: seq<Step>, left: seq<Reception>)
    requires Underway(inbox, done, left, Ok)
    ensures Underway(inbox, done + [Service(NextOf(left))], RestOf(left), StatusOf(NextOf(left)))
  {
    var turn := [Service(NextOf(left))];
    if NextOf(left).Failed? {
      assert Turns(left) == turn;
    } else {
      Associates(done, turn, Turns(left[1..]));
    }
  }

  lemma {:induction false} AfterOneMore(t: Tables, s: Session, done: seq<Step>, r: Reception)
    ensures After(t, s, done + [Service(r)]) == Serviced(t, t, After(t, s, done), r).1
    ensures Serviced(t, t, After(t, s, done), r).0 == StatusOf(r)
  {
    assert (done + [Service(r)])[..|done|] == done;
  }

  /** A runtime that is started, and whose machine goes by its own model. */
  ghost predicate Running(runtime: Runtime, t: Tables)
    reads runtime, runtime.machine, runtime.model, if runtime.machine != null then {runtime.machine.model} else {}
  {
    && runtime.Valid() && runtime.started
    && runtime.model.View() == t == runtime.machine.model.View()
  }

  method Turn(runtime: Runtime, ghost t: Tables, ghost s: Session, ghost done: seq<Step>) returns (status: Status)
    requires Running(runtime, t) && runtime.View() == After(t, s, done)
    modifies runtime`received, runtime`unrouted, runtime`rejected, runtime.machine, runtime.port, runtime.args
    ensures Running(runtime, t) && runtime.machine.model == old(runtime.machine.model)
    ensures runtime.port.inbox == RestOf(old(runtime.port.inbox))
    ensures status == StatusOf(NextOf(old(runtime.port.inbox)))
    ensures runtime.View() == After(t, s, done + [Service(NextOf(old(runtime.port.inbox)))])
  {
    AfterOneMore(t, s, done, NextOf(runtime.port.inbox));
    status := runtime.Service();
  }

  /** Serves until a turn answers anything but Ok. */
  method Serve(runtime: Runtime, ghost t: Tables) returns (status: Status)
    requires Running(runtime, t)
    modifies runtime`received, runtime`unrouted, runtime`rejected, runtime.machine, runtime.port, runtime.args
    ensures Running(runtime, t)
    ensures status == ReasonOf(old(runtime.port.inbox))
    ensures runtime.View() == After(t, old(runtime.View()), Turns(old(runtime.port.inbox)))
  {
    status := Ok;
    ghost var before, inbox, done := runtime.View(), runtime.port.inbox, [];
    NothingDone(inbox);
    while status == Ok
      invariant Running(runtime, t) && runtime.View() == After(t, before, done)
      invariant Underway(inbox, done, runtime.port.inbox, status)
      decreases |runtime.port.inbox|, status == Ok
    {
      OneTurnOn(inbox, done, runtime.port.inbox);
      ghost var r := NextOf(runtime.port.inbox);
      status := Turn(runtime, t, before, done);
      done := done + [Service(r)];
    }
  }

  // ---------------------------------------------------------------------------
  // from a document to a machine that runs

  lemma LoadedNames(doc: Node)
    requires Load(doc).0 == Ok
    ensures Load(doc).1.stateIndex.Keys == Names(StateEntries(doc))
  {
    var between := LoadCompiles(doc);
  }

  lemma LoadedChannels(doc: Node)
    requires Load(doc).0 == Ok
    ensures Load(doc).1.channelIndex.Keys == ChannelsOf(doc)
  {
    LoadedDeclares(doc);
    ChannelIndexMeans(Load(doc).1, Defs(doc));
    ChannelsAre(doc);
  }

  lemma ChannelsAre(doc: Node)
    ensures forall c :: c in ChannelsIn(Defs(doc)) <==> c in ChannelsOf(doc)
  {
    var defs, channels := Defs(doc), ChannelsIn(Defs(doc));
    assert forall i | 0 <= i < |defs| :: channels[i] == defs[i].channel;
  }

  function ChannelsOf(doc: Node): set<string> {
    set i | 0 <= i < |Defs(doc)| :: Defs(doc)[i].channel
  }

  lemma LoadedBinds(doc: Node, name: string)
    requires Acceptable(doc)
    ensures Load(doc).0 == Ok && ValidationOf(Load(doc).1) == Ok
    ensures var t := Load(doc).1;
            var id := FindName(t.stateIndex, name, MAX_NAME_LENGTH);
            if name in Names(StateEntries(doc)) then name != "" && id in t.states && t.states[id].name == name
            else id == NO_STATE
    ensures NO_STATE !in Load(doc).1.states
  {
    LoadingSucceedsExactly(doc);
    LoadedIsSound(doc);
    LoadedNames(doc);
    NameFindsState(Load(doc).1, name);
    NextIdIsNew(Load(doc).1);
  }

  /** Loads a document and binds what it says to a setup. */
  method Bind(doc: Node, setup: Setup) returns (exit: Option<Exit>, machine: StateMachine)
    ensures fresh(machine)
    ensures exit == if !Acceptable(doc) then Some(NotLoaded(Load(doc).0))
                    else if setup.initial in Names(StateEntries(doc)) then None
                    else Some(NotBound(if setup.initial == "" then SchemaError else UnknownState))
    ensures exit == None ==>
              && machine.model != null && machine.setup != null && fresh(machine.model)
              && machine.model.View() == Load(doc).1 && Load(doc).0 == Ok && !machine.started
              && var p := machine.View();
                 p.initial in machine.model.states && machine.model.states[p.initial].name == setup.initial &&
                 p.transitions == p.rejections == 0
  {
    machine := new StateMachine();
    var model := new Model();
    var status := LoadMachine(doc, model);
    LoadAcceptsExactly(doc);
    if Acceptable(doc) {
      LoadedBinds(doc, setup.initial);
    }
    if status != Ok {
      return Some(NotLoaded(status)), machine;
    }
    status := machine.Init(model, setup);
    exit := if status == Ok then None else Some(NotBound(status));
  }

  /** How a run of the program ends. */
  datatype Exit =
    | NotLoaded(status: Status)
    | NotBound(status: Status)
    | NotStarted(status: Status)
    | Served(status: Status)

  /** Whether a port takes its configuration, opens, and listens on every channel there is. */
  predicate Willing(port: Port, channels: set<string>)
    reads port
  {
    && port.configureAnswer == Ok && port.openAnswer == Ok
    && forall c | c in channels :: AnswerTo(port.answers, c) == Ok
  }

  /** Starts a machine that is bound, on a port. */
  method Begin(machine: StateMachine, port: Port) returns (status: Status, runtime: Runtime)
    requires machine.model != null && machine.setup != null && !machine.started
    requires machine.initial in machine.model.states
    modifies machine, port
    ensures fresh(runtime) && fresh(runtime.args) && machine.model == old(machine.model)
    ensures status == Ok <==> old(Willing(port, machine.model.channelIndex.Keys))
    ensures status == Ok ==>
              && Running(runtime, machine.model.View()) && runtime.machine == machine && runtime.port == port
              && port.inbox == old(port.inbox)
              && runtime.View() == Started(machine.model.View(), old(Unstarted(machine, port)))
  {
    runtime := new Runtime();
    status := runtime.Init(machine, port);
    OfferedMeans(machine.model.channelIndex.Keys, port.answers);
    status := runtime.Start();
  }

  /** A session that has not counted anything. */
  ghost function Unstarted(machine: StateMachine, port: Port): Session
    reads machine, port
  {
    Session(machine.View(), 0, 0, 0, port.announced, port.errors)
  }

  /** Starts a machine that is bound, and serves. */
  method Run(machine: StateMachine, port: Port, ghost t: Tables) returns (exit: Exit, runtime: Runtime)
    requires machine.model != null && machine.setup != null && !machine.started
    requires machine.initial in machine.model.states && machine.model.View() == t
    modifies machine, port
    ensures fresh(runtime)
    ensures exit.Served? <==> old(Willing(port, t.channelIndex.Keys))
    ensures exit.Served? || exit.NotStarted?
    ensures exit.Served? ==>
              && runtime.machine == machine && runtime.port == port && exit.status == ReasonOf(old(port.inbox))
              && runtime.View() == After(t, Started(t, old(Unstarted(machine, port))), Turns(old(port.inbox)))
  {
    var status;
    status, runtime := Begin(machine, port);
    if status != Ok {
      return NotStarted(status), runtime;
    }
    status := Serve(runtime, t);
    var ignored := runtime.Stop();
    exit := Served(status);
  }

  /** How the document tells the beginning of a session. */
  function Beginning(doc: Node, initial: string, announced: seq<string>, errors: seq<ErrorReport>): Story {
    Story(initial, announced + [initial], NoticesOf(Load(doc).1, errors), 0, 0, 0, 0, 0)
  }

  /** The whole program. It serves exactly when the document is acceptable, has the state the
      setup starts in, and the port is willing. Then, whatever the inbox holds, what is announced,
      reported and counted, and the state it ends in, are what the document says. */
  method Play(doc: Node, setup: Setup, port: Port) returns (exit: Exit, runtime: Runtime?)
    modifies port
    ensures exit.NotLoaded? <==> !Acceptable(doc)
    ensures exit.NotBound? <==> Acceptable(doc) && setup.initial !in Names(StateEntries(doc))
    ensures exit.Served? <==>
            Acceptable(doc) && setup.initial in Names(StateEntries(doc)) && old(Willing(port, ChannelsOf(doc)))
    ensures exit.Served? ==>
              && runtime != null && runtime.machine != null && runtime.port == port
              && exit.status == ReasonOf(old(port.inbox))
              && StoryOf(Load(doc).1, runtime.View()) ==
                 Retold(doc, Beginning(doc, setup.initial, old(port.announced), old(port.errors)),
                        Turns(old(port.inbox)))
  {
    runtime := null;
    var failed, machine := Bind(doc, setup);
    if failed.Some? {
      return failed.value, runtime;
    }
    LoadedChannels(doc);
    LoadedSessionAsWritten(doc, Unstarted(machine, port), Turns(port.inbox));
    exit, runtime := Run(machine, port, Load(doc).1);
  }
}
