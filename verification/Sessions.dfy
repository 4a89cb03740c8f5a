/** Whole sessions of a runtime that is the only driver of its machine: what is announced, and
    what the counters add up to. */
module Sessions {
  import opened Limits
  import opened Types
  import opened Arguments
  import opened MachineTables
  import opened BuildPhase
  import opened Reachability
  import opened FindingLists
  import opened Machines
  import opened Safety
  import opened Runtimes

  /** Either a turn of the main loop with whatever it receives, or a trigger raised by name. */
  datatype Step = Service(reception: Reception) | Raise(name: string, arguments: string)

  function Stepped(t: Tables, s: Session, step: Step): (Status, Session) {
    match step
    case Service(r) => Serviced(t, t, s, r)
    case Raise(name, arguments) => Raised(t, t, s, name, arguments)
  }

  function After(t: Tables, s: Session, steps: seq<Step>): Session {
    if steps == [] then s else Stepped(t, After(t, s, steps[..|steps| - 1]), steps[|steps| - 1]).1
  }

  /** The trigger a step fires, when it gets as far as the machine. */
  function FiringOf(t: Tables, step: Step): Option<Input> {
    var (trigger, arguments) :=
      match step
      case Raise(name, text) => (FindName(t.triggerIndex, name, MAX_NAME_LENGTH), text)
      case Service(Arrived(channel, text)) => (FindName(t.channelIndex, channel, MAX_CHANNEL_LENGTH), text)
      case _ => (NO_TRIGGER, "");
    if trigger != NO_TRIGGER && ParseText(arguments).0 == Ok then Some(Input(trigger, ParseText(arguments).1)) else None
  }

  function OneOrNone<T>(x: Option<T>): seq<T> {
    if x.Some? then [x.value] else []
  }

  function Firings(t: Tables, steps: seq<Step>): seq<Input> {
    if steps == [] then [] else Firings(t, steps[..|steps| - 1]) + OneOrNone(FiringOf(t, steps[|steps| - 1]))
  }

  /** The states a run of the machine enters, one for each accepted trigger. */
  function Entered(t: Tables, p: Progress, inputs: seq<Input>): seq<StateId> {
    if inputs == [] then []
    else
      var before, last := inputs[..|inputs| - 1], inputs[|inputs| - 1];
      var (status, now) := Fired(t, Run(t, p, before), last.trigger, last.args);
      Entered(t, p, before) + if status == Ok then [now.current] else []
  }

  function NameOf(t: Tables, s: StateId): string {
    if s in t.states then t.states[s].name else ""
  }

  function NamesOf(t: Tables, states: seq<StateId>): (r: seq<string>)
    ensures |r| == |states|
  {
    seq(|states|, i requires 0 <= i < |states| => NameOf(t, states[i]))
  }

  // ---------------------------------------------------------------------------
  // one step

  lemma StepFires(t: Tables, s: Session, step: Step)
    ensures Stepped(t, s, step).1.progress ==
            match FiringOf(t, step)
            case Some(input) => Fired(t, s.progress, input.trigger, input.args).1
            case None => s.progress
  {
  }

  /** What is announced when the machine is given one more trigger, or none: the name of where
      it goes, when it accepts. */
  function Gain(t: Tables, p: Progress, next: Option<Input>): seq<string> {
    match next
    case None => []
    case Some(input) =>
      var (status, now) := Fired(t, p, input.trigger, input.args);
      if status == Ok then [NameOf(t, now.current)] else []
  }

  /** Announced exactly when the machine accepted, and then the name of where it went. */
  lemma StepAnnounces(t: Tables, s: Session, step: Step)
    requires NodesSound(t)
    ensures Stepped(t, s, step).1.announced == s.announced + Gain(t, s.progress, FiringOf(t, step))
  {
    match FiringOf(t, step)
    case None =>
    case Some(input) =>
      var from := s.progress.current;
      if EvaluateTables(t, from, input.trigger, input.args).0 == Accepted {
        AcceptedIsEdge(t, from, input.trigger, input.args);
        EdgesStayInside(t, from, EvaluateTables(t, from, input.trigger, input.args).1);
      }
  }

  // ---------------------------------------------------------------------------
  // whole sessions

  /** The machine sees exactly the triggers that were routed and carried legal arguments. */
  lemma {:induction false} SessionIsRun(t: Tables, s: Session, steps: seq<Step>)
    ensures After(t, s, steps).progress == Run(t, s.progress, Firings(t, steps))
  {
    if steps != [] {
      var before, last := steps[..|steps| - 1], steps[|steps| - 1];
      SessionIsRun(t, s, before);
      StepFires(t, After(t, s, before), last);
      if FiringOf(t, last).Some? {
        var inputs := Firings(t, steps);
        assert inputs[..|inputs| - 1] == Firings(t, before);
      } else {
        assert Firings(t, steps) == Firings(t, before);
      }
    }
  }

  /** The announced history is the run: the names of the states entered, one for each accepted
      trigger, in order. */
  lemma {:induction false} AnnouncedIsRun(t: Tables, s: Session, steps: seq<Step>)
    requires NodesSound(t)
    ensures After(t, s, steps).announced == s.announced + NamesOf(t, Entered(t, s.progress, Firings(t, steps)))
  {
    if steps != [] {
      var before, last := steps[..|steps| - 1], steps[|steps| - 1];
      AnnouncedIsRun(t, s, before);
      SessionIsRun(t, s, before);
      StepAnnounces(t, After(t, s, before), last);
      EnteredGrows(t, s.progress, Firings(t, before), FiringOf(t, last));
      Associates(s.announced, NamesOf(t, Entered(t, s.progress, Firings(t, before))),
                 Gain(t, Run(t, s.progress, Firings(t, before)), FiringOf(t, last)));
    }
  }

  lemma {:induction false} EnteredGrows(t: Tables, p: Progress, inputs: seq<Input>, next: Option<Input>)
    ensures NamesOf(t, Entered(t, p, inputs + OneOrNone(next))) ==
            NamesOf(t, Entered(t, p, inputs)) + Gain(t, Run(t, p, inputs), next)
  {
    match next
    case None => assert inputs + [] == inputs;
    case Some(input) => assert (inputs + [input])[..|inputs|] == inputs;
  }

  predicate LastNamesCurrent(t: Tables, s: Session) {
    s.announced != [] && s.announced[|s.announced| - 1] == NameOf(t, s.progress.current)
  }

  lemma StepNamesCurrent(t: Tables, s: Session, step: Step)
    requires NodesSound(t) && LastNamesCurrent(t, s)
    ensures LastNamesCurrent(t, Stepped(t, s, step).1)
  {
    StepAnnouncesOne(t, s, step);
  }

  /** A step that announces nothing goes nowhere. Any other announces one name, after all the
      earlier ones, and it is the current one's. */
  lemma StepAnnouncesOne(t: Tables, s: Session, step: Step)
    requires NodesSound(t)
    ensures var now := Stepped(t, s, step).1;
            || (now.announced == s.announced && now.progress.current == s.progress.current)
            || now.announced == s.announced + [NameOf(t, now.progress.current)]
  {
    StepFires(t, s, step);
    StepAnnounces(t, s, step);
  }

  /** As long as the last announcement names the state the machine is in, it goes on to. */
  lemma {:induction false} LastAnnouncedIsCurrent(t: Tables, s: Session, steps: seq<Step>)
    requires NodesSound(t) && LastNamesCurrent(t, s)
    ensures LastNamesCurrent(t, After(t, s, steps))
  {
    if steps != [] {
      var before := steps[..|steps| - 1];
      LastAnnouncedIsCurrent(t, s, before);
      StepNamesCurrent(t, After(t, s, before), steps[|steps| - 1]);
    }
  }

  /** The name of some declared state that is not reported unreachable. */
  ghost predicate NamesReachable(t: Tables, initial: StateId, name: string)
    requires Invariant(t)
  {
    exists id :: id in t.states && t.states[id].name == name &&
                 StateFinding(UnreachableState, id) !in AllFindings(t, initial)
  }

  lemma {:induction false} CurrentIsReachable(t: Tables, s: Session, steps: seq<Step>)
    requires Invariant(t) && JustStarted(t, s.progress)
    ensures NamesReachable(t, s.progress.initial, NameOf(t, After(t, s, steps).progress.current))
  {
    var inputs := Firings(t, steps);
    SessionIsRun(t, s, steps);
    RunsStayReachable(t, s.progress, inputs);
    UnreachableStatesAreNeverEntered(t, s.progress, inputs);
  }

  /** Every name announced after start is that of a declared state which is not reported
      unreachable. */
  lemma {:induction false} AnnouncedIsReachable(t: Tables, s: Session, steps: seq<Step>, k: nat)
    requires Invariant(t) && JustStarted(t, s.progress)
    requires |s.announced| <= k < |After(t, s, steps).announced|
    ensures NamesReachable(t, s.progress.initial, After(t, s, steps).announced[k])
  {
    if steps != [] {
      var before := steps[..|steps| - 1];
      StepAnnouncesOne(t, After(t, s, before), steps[|steps| - 1]);
      if k < |After(t, s, before).announced| {
        AnnouncedIsReachable(t, s, before, k);
      } else {
        CurrentIsReachable(t, s, steps);
      }
    }
  }

  // ---------------------------------------------------------------------------
  // counting

  /** Whether a step raises a trigger that gets as far as the machine. */
  function Through(t: Tables, step: Step): nat {
    if step.Raise? && FiringOf(t, step).Some? then 1 else 0
  }

  /** The raised triggers that got as far as the machine. */
  function RaisedThrough(t: Tables, steps: seq<Step>): nat {
    if steps == [] then 0
    else
      var last := steps[|steps| - 1];
      RaisedThrough(t, steps[..|steps| - 1]) + Through(t, last)
  }

  /** What became of the inputs, and `more`. */
  function Made(s: Session, more: nat): nat {
    more + s.unrouted + s.rejected + s.progress.transitions
  }

  /** Since an earlier point of a session: what came in, inputs and raised triggers, is what was
      made of it, modulo 2^32. Each side has the other's earlier count added. */
  predicate Conserved(s: Session, now: Session, raised: nat) {
    Made(s, now.received + raised) % 0x1_0000_0000 == Made(now, s.received) % 0x1_0000_0000
  }

  /** Since an earlier point: the errors published are what was refused, modulo 2^32. */
  predicate ErrorsMatch(s: Session, now: Session) {
    (|now.errors| + s.unrouted + s.rejected) % 0x1_0000_0000 ==
    (|s.errors| + now.unrouted + now.rejected) % 0x1_0000_0000
  }

  /** One thing came of it: an acceptance, a rejection or an unrouted input, the last two with
      one error report. */
  predicate Became(s: Session, now: Session) {
    || (now.progress.transitions == Increment(s.progress.transitions) && now.unrouted == s.unrouted &&
        now.rejected == s.rejected && |now.errors| == |s.errors|)
    || (now.progress.transitions == s.progress.transitions && now.unrouted == s.unrouted &&
        now.rejected == Increment(s.rejected) && |now.errors| == |s.errors| + 1)
    || (now.progress.transitions == s.progress.transitions && now.unrouted == Increment(s.unrouted) &&
        now.rejected == s.rejected && |now.errors| == |s.errors| + 1)
  }

  lemma DispatchedBecame(t: Tables, s: Session, trigger: TriggerId, m: ArgMap)
    ensures Became(s, Dispatched(t, t, s, trigger, m).1) && Dispatched(t, t, s, trigger, m).1.received == s.received
  {
  }

  lemma ServicedBecame(t: Tables, s: Session, r: Reception)
    ensures var now := Serviced(t, t, s, r).1;
            if r.Arrived? then Became(s, now) && now.received == Increment(s.received) else now == s
  {
    match r
    case Arrived(channel, arguments) =>
      var trigger := FindName(t.channelIndex, channel, MAX_CHANNEL_LENGTH);
      DispatchedBecame(t, s.(received := Increment(s.received)), trigger, ParseText(arguments).1);
    case _ =>
  }

  lemma RaisedBecame(t: Tables, s: Session, name: string, arguments: string)
    ensures var now := Raised(t, t, s, name, arguments).1;
            if FiringOf(t, Raise(name, arguments)).Some? then Became(s, now) && now.received == s.received else now == s
  {
  }

  lemma OneMoreIsMade(now: Session, next: Session, more: nat)
    requires Became(now, next)
    ensures Made(next, more) % 0x1_0000_0000 == (Made(now, more) + 1) % 0x1_0000_0000
  {
    WrapsOnce(now.unrouted, more + now.rejected + now.progress.transitions);
    WrapsOnce(now.rejected, more + now.unrouted + now.progress.transitions);
    WrapsOnce(now.progress.transitions, more + now.unrouted + now.rejected);
  }

  /** Whether a step brings an input in. */
  predicate BringsInput(step: Step) {
    step.Service? && step.reception.Arrived?
  }

  lemma StepBecame(t: Tables, s: Session, step: Step)
    ensures Outcome(s, Stepped(t, s, step).1, BringsInput(step), Through(t, step))
  {
    match step
    case Service(r) => ServicedBecame(t, s, r);
    case Raise(name, arguments) => RaisedBecame(t, s, name, arguments);
  }

  /** One thing comes of an input or of a raised trigger that gets through, and nothing of
      anything else. */
  predicate Outcome(s: Session, now: Session, input: bool, through: nat) {
    if input then through == 0 && Became(s, now) && now.received == Increment(s.received)
    else if through == 1 then Became(s, now) && now.received == s.received
    else through == 0 && now == s
  }

  lemma OutcomeConserves(s: Session, now: Session, next: Session, raised: nat, input: bool, through: nat)
    requires Conserved(s, now, raised) && Outcome(now, next, input, through)
    ensures Conserved(s, next, raised + through)
  {
    if input || through == 1 {
      OneMoreIsMade(now, next, s.received);
      BothMore(Made(s, now.received + raised), Made(now, s.received));
      WrapsOnce(now.received, Made(s, raised));
    }
  }

  lemma StepConserves(t: Tables, s: Session, now: Session, step: Step, raised: nat)
    requires Conserved(s, now, raised)
    ensures Conserved(s, Stepped(t, now, step).1, raised + Through(t, step))
  {
    StepBecame(t, now, step);
    OutcomeConserves(s, now, Stepped(t, now, step).1, raised, BringsInput(step), Through(t, step));
  }

  lemma OutcomeMatches(s: Session, now: Session, next: Session, input: bool, through: nat)
    requires ErrorsMatch(s, now) && Outcome(now, next, input, through)
    ensures ErrorsMatch(s, next)
  {
    if input || through == 1 {
      BothMore(|now.errors| + s.unrouted + s.rejected, |s.errors| + now.unrouted + now.rejected);
      WrapsOnce(now.unrouted, |s.errors| + now.rejected);
      WrapsOnce(now.rejected, |s.errors| + now.unrouted);
    }
  }

  lemma StepMatches(t: Tables, s: Session, now: Session, step: Step)
    requires ErrorsMatch(s, now)
    ensures ErrorsMatch(s, Stepped(t, now, step).1)
  {
    StepBecame(t, now, step);
    OutcomeMatches(s, now, Stepped(t, now, step).1, BringsInput(step), Through(t, step));
  }

  /** Nothing that comes in is lost or counted twice: over any session, whatever its counters
      began with, inputs received and raised triggers that got through are the unrouted, the
      rejected and the transitions together. */
  lemma {:induction false} InputsAreConserved(t: Tables, s: Session, steps: seq<Step>)
    ensures Conserved(s, After(t, s, steps), RaisedThrough(t, steps))
  {
    if steps != [] {
      var before := steps[..|steps| - 1];
      InputsAreConserved(t, s, before);
      StepConserves(t, s, After(t, s, before), steps[|steps| - 1], RaisedThrough(t, before));
    }
  }

  /** The errors published are exactly the unrouted and the rejected. */
  lemma {:induction false} ErrorsAreCounted(t: Tables, s: Session, steps: seq<Step>)
    ensures ErrorsMatch(s, After(t, s, steps))
  {
    if steps != [] {
      var before := steps[..|steps| - 1];
      ErrorsAreCounted(t, s, before);
      StepMatches(t, s, After(t, s, before), steps[|steps| - 1]);
    }
  }

  // ---------------------------------------------------------------------------
  // from start on

  /** Start leaves the machine in its initial state with that announced, and no counter moved. */
  lemma StartOpens(t: Tables, s: Session)
    requires s.progress.initial in t.states
    ensures var now := Started(t, s);
            && JustStarted(t, now.progress) && LastNamesCurrent(t, now)
            && now.announced == s.announced + [NameOf(t, s.progress.initial)]
            && now.progress.transitions == s.progress.transitions && now.received == s.received
            && now.unrouted == s.unrouted && now.rejected == s.rejected && now.errors == s.errors
  {
  }

  lemma StartMovesNoCounter(t: Tables, s: Session, now: Session, raised: nat)
    ensures Conserved(Started(t, s), now, raised) ==> Conserved(s, now, raised)
    ensures ErrorsMatch(Started(t, s), now) ==> ErrorsMatch(s, now)
  {
  }

  /** A whole session: what is announced from start on is the initial state and then the states
      the run enters, the last of them current; and every input is accounted for. */
  lemma {:induction false} SessionFromStart(t: Tables, s: Session, steps: seq<Step>)
    requires NodesSound(t) && s.progress.initial in t.states
    ensures var first := Started(t, s);
            var now := After(t, first, steps);
            && now.announced == s.announced + [NameOf(t, s.progress.initial)] +
                                NamesOf(t, Entered(t, first.progress, Firings(t, steps)))
            && LastNamesCurrent(t, now)
            && Conserved(s, now, RaisedThrough(t, steps)) && ErrorsMatch(s, now)
  {
    StartOpens(t, s);
    AnnouncedIsRun(t, Started(t, s), steps);
    LastAnnouncedIsCurrent(t, Started(t, s), steps);
    InputsAreConserved(t, Started(t, s), steps);
    ErrorsAreCounted(t, Started(t, s), steps);
    StartMovesNoCounter(t, s, After(t, Started(t, s), steps), RaisedThrough(t, steps));
  }
}
