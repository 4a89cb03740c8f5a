/** Whole sessions of a loaded machine, told without an id: from the document and the texts that
    arrive to the names that are announced and the errors that are reported. */
module WrittenSessions {
  import opened Limits
  import opened Types
  import opened Arguments
  import opened MachineTables
  import opened BuildPhase
  import opened Documents
  import opened Loaders
  import opened NamePass
  import opened LinkPass
  import opened Acceptance
  import opened CompilerCorrectness
  import opened WrittenRuns
  import opened Runtimes
  import opened Sessions

  // ---------------------------------------------------------------------------
  // channels

  function Defs(doc: Node): seq<TriggerDef> {
    TriggerDefs(TriggerEntries(doc))
  }

  /** The trigger a document declares on a channel. */
  function TriggerOn(defs: seq<TriggerDef>, channel: string): Option<string> {
    if defs == [] then None
    else if defs[0].channel == channel then Some(defs[0].name)
    else TriggerOn(defs[1..], channel)
  }

  /** The tables declare exactly these triggers, each found by its name and by its channel. */
  ghost predicate Declares(t: Tables, defs: seq<TriggerDef>) {
    TriggersAre(t, defs) && TriggersIndexed(t) && NamesFit(t)
  }

  lemma LoadedDeclares(doc: Node)
    requires Load(doc).0 == Ok
    ensures Declares(Load(doc).1, Defs(doc))
  {
    var between := LoadCompiles(doc);
    LinksDeclare(between, LinksOf(doc, between), Defs(doc));
  }

  lemma {:induction false} LinksDeclare(t: Tables, links: seq<Link>, defs: seq<TriggerDef>)
    requires Invariant(t) && TriggersAre(t, defs) && RunLinks(t, links).0 == Ok
    ensures Declares(RunLinks(t, links).1, defs)
  {
    RunLinksKeeps(t, links);
  }

  lemma DefIsFound(t: Tables, defs: seq<TriggerDef>, i: nat)
    requires Declares(t, defs) && i < |defs|
    ensures FindName(t.channelIndex, defs[i].channel, MAX_CHANNEL_LENGTH) == i
    ensures FindName(t.triggerIndex, defs[i].name, MAX_NAME_LENGTH) == i
    ensures i in t.triggers && t.triggers[i].name == defs[i].name && i != NO_TRIGGER
  {
    TriggerIndexMeans(t, defs);
    ChannelIndexMeans(t, defs);
  }

  lemma ElsewhereIsNothing(t: Tables, defs: seq<TriggerDef>, channel: string)
    requires Declares(t, defs) && channel !in ChannelsIn(defs)
    ensures FindName(t.channelIndex, channel, MAX_CHANNEL_LENGTH) == NO_TRIGGER
  {
    ChannelIndexMeans(t, defs);
  }

  /** A loaded machine routes channels as its document does: each declared channel to the
      trigger it is declared with, and any other to none. */
  lemma LoadedRoutesAsWritten(doc: Node)
    requires Load(doc).0 == Ok
    ensures var t := Load(doc).1;
            && (forall d | d in Defs(doc) ::
                  FindName(t.channelIndex, d.channel, MAX_CHANNEL_LENGTH) ==
                  FindName(t.triggerIndex, d.name, MAX_NAME_LENGTH) != NO_TRIGGER)
            && (forall channel | channel !in ChannelsIn(Defs(doc)) ::
                  FindName(t.channelIndex, channel, MAX_CHANNEL_LENGTH) == NO_TRIGGER)
  {
    var t, defs := Load(doc).1, Defs(doc);
    LoadedDeclares(doc);
    forall d | d in defs
      ensures FindName(t.channelIndex, d.channel, MAX_CHANNEL_LENGTH) ==
              FindName(t.triggerIndex, d.name, MAX_NAME_LENGTH) != NO_TRIGGER
    {
      var i :| 0 <= i < |defs| && defs[i] == d;
      DefIsFound(t, defs, i);
    }
    forall channel | channel !in ChannelsIn(defs)
      ensures FindName(t.channelIndex, channel, MAX_CHANNEL_LENGTH) == NO_TRIGGER
    {
      ElsewhereIsNothing(t, defs, channel);
    }
  }

  /** Said of the entries themselves: one that gives a channel is found under that channel, and
      one that gives none, or an empty one, under its own name. Either way it is the trigger
      with that name. */
  lemma LoadedChannelsAsGiven(doc: Node, i: nat)
    requires Load(doc).0 == Ok && i < |TriggerEntries(doc)|
    ensures var t, entry := Load(doc).1, TriggerEntries(doc)[i];
            var source := match Field(entry, "channel")
                          case Some(channel) => if TextOr(channel) == "" then NameOfEntry(entry) else TextOr(channel)
                          case None => NameOfEntry(entry);
            FindName(t.channelIndex, source, MAX_CHANNEL_LENGTH) ==
            FindName(t.triggerIndex, NameOfEntry(entry), MAX_NAME_LENGTH) != NO_TRIGGER
  {
    TriggerDefsAt(TriggerEntries(doc), i);
    assert Defs(doc)[i] in Defs(doc);
    LoadedRoutesAsWritten(doc);
  }

  lemma {:induction false} TriggerOnIs(defs: seq<TriggerDef>, channel: string)
    ensures match TriggerOn(defs, channel)
            case Some(name) => exists i :: 0 <= i < |defs| && defs[i].channel == channel && defs[i].name == name
            case None => channel !in ChannelsIn(defs)
  {
    if defs != [] && defs[0].channel != channel {
      TriggerOnIs(defs[1..], channel);
      if TriggerOn(defs, channel).Some? {
        var i :| 0 <= i < |defs[1..]| && defs[1..][i].channel == channel &&
                 defs[1..][i].name == TriggerOn(defs, channel).value;
        assert defs[i + 1] == defs[1..][i];
      } else {
        assert forall i | 0 < i < |defs| :: ChannelsIn(defs)[i] == ChannelsIn(defs[1..])[i - 1];
      }
    }
  }

  /** What a name or a channel written in the document finds in the tables. */
  ghost predicate Finds(t: Tables, e: TriggerId, name: string) {
    && e == FindName(t.triggerIndex, name, MAX_NAME_LENGTH) && e != NO_TRIGGER
    && e in t.triggers && t.triggers[e].name == name
  }

  lemma {:induction false} ChannelFinds(t: Tables, defs: seq<TriggerDef>, channel: string)
    requires Declares(t, defs)
    ensures match TriggerOn(defs, channel)
            case Some(name) => Finds(t, FindName(t.channelIndex, channel, MAX_CHANNEL_LENGTH), name)
            case None => FindName(t.channelIndex, channel, MAX_CHANNEL_LENGTH) == NO_TRIGGER
  {
    TriggerOnIs(defs, channel);
    match TriggerOn(defs, channel)
    case Some(name) =>
      var i :| 0 <= i < |defs| && defs[i].channel == channel && defs[i].name == name;
      DefIsFound(t, defs, i);
    case None => ElsewhereIsNothing(t, defs, channel);
  }

  lemma TriggerFinds(t: Tables, defs: seq<TriggerDef>, name: string)
    requires Declares(t, defs)
    ensures if name in NamesIn(defs) then Finds(t, FindName(t.triggerIndex, name, MAX_NAME_LENGTH), name)
            else FindName(t.triggerIndex, name, MAX_NAME_LENGTH) == NO_TRIGGER
  {
    if name in NamesIn(defs) {
      var i :| 0 <= i < |defs| && NamesIn(defs)[i] == name;
      DefIsFound(t, defs, i);
    } else {
      TriggerIndexMeans(t, defs);
    }
  }

  // ---------------------------------------------------------------------------
  // what the document says of a session

  datatype Notice =
    | NoSuchChannel(channel: string)
    | Refusal(trigger: string, state: string, guard: bool)
    | Malformed(trigger: string, reason: Status)

  /** A session as it looks from outside: where it is, what it announced, what it reported, and
      its five counters. */
  datatype Story = Story(
    state: string,
    announced: seq<string>,
    notices: seq<Notice>,
    received: uint32,
    unrouted: uint32,
    rejected: uint32,
    transitions: uint32,
    rejections: uint32)

  function OneMore(count: uint32): uint32 {
    if count == 0xFFFF_FFFF then 0 else count + 1
  }

  function Rejecting(story: Story, notice: Notice): Story {
    story.(notices := story.notices + [notice], rejected := OneMore(story.rejected))
  }

  function Acted(doc: Node, story: Story, trigger: string, m: ArgMap): (Status, Story) {
    Reacted(story, trigger, Interpret(doc, story.state, trigger, m))
  }

  /** Going somewhere is announced; anything else is reported, as a guard's doing or not. */
  function Reacted(story: Story, trigger: string, answer: Answer): (Status, Story) {
    match answer
    case Goes(target) =>
      (Ok, story.(state := target, announced := story.announced + [target], transitions := OneMore(story.transitions)))
    case Refuses =>
      (GuardRejected,
       Rejecting(story, Refusal(trigger, story.state, true)).(rejections := OneMore(story.rejections)))
    case Ignores =>
      (NoTransition,
       Rejecting(story, Refusal(trigger, story.state, false)).(rejections := OneMore(story.rejections)))
  }

  function Heard(doc: Node, story: Story, channel: string, text: string): Story {
    match TriggerOn(Defs(doc), channel)
    case None => story.(notices := story.notices + [NoSuchChannel(channel)], unrouted := OneMore(story.unrouted))
    case Some(trigger) =>
      var (status, m) := ParseText(text);
      if status != Ok then Rejecting(story, Malformed(trigger, status)) else Acted(doc, story, trigger, m).1
  }

  function Called(doc: Node, story: Story, name: string, text: string): (Status, Story) {
    if name !in NamesIn(Defs(doc)) then (UnknownTrigger, story)
    else if ParseText(text).0 != Ok then (ParseText(text).0, story)
    else Acted(doc, story, name, ParseText(text).1)
  }

  /** A step, and what it is answered. Of what it receives, a turn answers only for failures. */
  function Told(doc: Node, story: Story, step: Step): (Status, Story) {
    match step
    case Service(r) => Received(doc, story, r)
    case Raise(name, text) => Called(doc, story, name, text)
  }

  function Received(doc: Node, story: Story, r: Reception): (Status, Story) {
    match r
    case Arrived(channel, text) => (Ok, Heard(doc, story.(received := OneMore(story.received)), channel, text))
    case Idle => (Ok, story)
    case Failed(reason) => (reason, story)
  }

  /** The whole session, read off the document. */
  function Retold(doc: Node, story: Story, steps: seq<Step>): Story {
    if steps == [] then story else Told(doc, Retold(doc, story, steps[..|steps| - 1]), steps[|steps| - 1]).1
  }

  /** And what each of its steps is answered. */
  function Answers(doc: Node, story: Story, steps: seq<Step>): seq<Status> {
    if steps == [] then []
    else
      var before := steps[..|steps| - 1];
      Answers(doc, story, before) + [Told(doc, Retold(doc, story, before), steps[|steps| - 1]).0]
  }

  // ---------------------------------------------------------------------------
  // what the runtime made of it

  function TriggerNamed(t: Tables, e: TriggerId): string {
    if e in t.triggers then t.triggers[e].name else ""
  }

  function NoticeOf(t: Tables, report: ErrorReport): Notice {
    match report
    case UnknownChannel(channel) => NoSuchChannel(channel)
    case RefusedTrigger(e, s, guard) => Refusal(TriggerNamed(t, e), NameOf(t, s), guard)
    case BadArguments(e, reason) => Malformed(TriggerNamed(t, e), reason)
  }

  function NoticesOf(t: Tables, errors: seq<ErrorReport>): (r: seq<Notice>)
    ensures |r| == |errors|
  {
    seq(|errors|, i requires 0 <= i < |errors| => NoticeOf(t, errors[i]))
  }

  function StoryOf(t: Tables, s: Session): Story {
    Story(NameOf(t, s.progress.current), s.announced, NoticesOf(t, s.errors), s.received, s.unrouted, s.rejected,
          s.progress.transitions, s.progress.rejections)
  }

  function Statuses(t: Tables, s: Session, steps: seq<Step>): seq<Status> {
    if steps == [] then []
    else
      var before := steps[..|steps| - 1];
      Statuses(t, s, before) + [Stepped(t, After(t, s, before), steps[|steps| - 1]).0]
  }

  lemma CountsAlike(x: uint32)
    ensures OneMore(x) == Increment(x)
  {
  }

  lemma OneMoreNotice(t: Tables, errors: seq<ErrorReport>, report: ErrorReport)
    ensures NoticesOf(t, errors + [report]) == NoticesOf(t, errors) + [NoticeOf(t, report)]
  {
  }

  ghost predicate LoadedFrom(doc: Node, t: Tables) {
    Load(doc) == (Ok, t) && Invariant(t) && Declares(t, Defs(doc))
  }

  lemma AnswersHere(doc: Node, t: Tables, here: StateId, e: TriggerId, name: string, m: ArgMap)
    requires Load(doc) == (Ok, t) && Invariant(t) && here in t.states && Finds(t, e, name)
    ensures AnswerOf(t, EvaluateTables(t, here, e, m)) == Interpret(doc, t.states[here].name, name, m)
  {
    NamesAreFound(t, here);
    LoadedDecidesAsWritten(doc, t.states[here].name, name, m);
  }

  lemma DispatchReacts(t: Tables, s: Session, e: TriggerId, m: ArgMap)
    requires NodesSound(t) && s.progress.current in t.states
    ensures var (status, now) := Dispatched(t, t, s, e, m);
            && now.progress.current in t.states
            && (status, StoryOf(t, now)) ==
               Reacted(StoryOf(t, s), TriggerNamed(t, e), AnswerOf(t, EvaluateTables(t, s.progress.current, e, m)))
  {
    var here := s.progress.current;
    FiresInside(t, s.progress, e, m);
    OneMoreNotice(t, s.errors, RefusedTrigger(e, here, EvaluateTables(t, here, e, m).0 == Rejected));
    CountsAlike(s.rejected);
    CountsAlike(s.progress.transitions);
    CountsAlike(s.progress.rejections);
  }

  lemma DispatchTells(doc: Node, t: Tables, s: Session, e: TriggerId, name: string, m: ArgMap)
    requires LoadedFrom(doc, t) && s.progress.current in t.states && Finds(t, e, name)
    ensures var (status, now) := Dispatched(t, t, s, e, m);
            now.progress.current in t.states && (status, StoryOf(t, now)) == Acted(doc, StoryOf(t, s), name, m)
  {
    AnswersHere(doc, t, s.progress.current, e, name, m);
    DispatchReacts(t, s, e, m);
  }

  lemma ArrivalTells(doc: Node, t: Tables, s: Session, channel: string, text: string)
    requires LoadedFrom(doc, t) && s.progress.current in t.states
    ensures var (status, now) := Serviced(t, t, s, Arrived(channel, text));
            && now.progress.current in t.states
            && (status, StoryOf(t, now)) == Received(doc, StoryOf(t, s), Arrived(channel, text))
  {
    var e := FindName(t.channelIndex, channel, MAX_CHANNEL_LENGTH);
    ChannelFinds(t, Defs(doc), channel);
    ArrivalIs(t, s, channel, text);
    CountsAlike(s.received);
    if e != NO_TRIGGER && ParseText(text).0 == Ok {
      DispatchTells(doc, t, Counted(s), e, TriggerOn(Defs(doc), channel).value, ParseText(text).1);
    }
  }

  function Counted(s: Session): Session {
    s.(received := Increment(s.received))
  }

  /** The three things that can come of an input. */
  lemma ArrivalIs(t: Tables, s: Session, channel: string, text: string)
    ensures var e := FindName(t.channelIndex, channel, MAX_CHANNEL_LENGTH);
            var (status, m) := ParseText(text);
            var (answer, now) := Serviced(t, t, s, Arrived(channel, text));
            var story := StoryOf(t, Counted(s));
            && answer == Ok
            && if e != NO_TRIGGER && status == Ok then now == Dispatched(t, t, Counted(s), e, m).1
               else
                 && now.progress == s.progress
                 && StoryOf(t, now) ==
                    if e == NO_TRIGGER
                    then story.(notices := story.notices + [NoSuchChannel(channel)],
                                unrouted := OneMore(story.unrouted))
                    else Rejecting(story, Malformed(TriggerNamed(t, e), status))
  {
    OneMoreNotice(t, s.errors, UnknownChannel(channel));
    OneMoreNotice(t, s.errors, BadArguments(FindName(t.channelIndex, channel, MAX_CHANNEL_LENGTH), ParseText(text).0));
    CountsAlike(s.unrouted);
    CountsAlike(s.rejected);
  }

  lemma RaiseTells(doc: Node, t: Tables, s: Session, name: string, text: string)
    requires LoadedFrom(doc, t) && s.progress.current in t.states
    ensures var (status, now) := Raised(t, t, s, name, text);
            now.progress.current in t.states && (status, StoryOf(t, now)) == Called(doc, StoryOf(t, s), name, text)
  {
    var e := FindName(t.triggerIndex, name, MAX_NAME_LENGTH);
    TriggerFinds(t, Defs(doc), name);
    if e != NO_TRIGGER && ParseText(text).0 == Ok {
      DispatchTells(doc, t, s, e, name, ParseText(text).1);
    }
  }

  lemma ServiceTells(doc: Node, t: Tables, s: Session, r: Reception)
    requires LoadedFrom(doc, t) && s.progress.current in t.states
    ensures var (status, now) := Serviced(t, t, s, r);
            now.progress.current in t.states && (status, StoryOf(t, now)) == Received(doc, StoryOf(t, s), r)
  {
    match r
    case Arrived(channel, text) => ArrivalTells(doc, t, s, channel, text);
    case _ =>
  }

  lemma StepTells(doc: Node, t: Tables, s: Session, step: Step)
    requires LoadedFrom(doc, t) && s.progress.current in t.states
    ensures var (status, now) := Stepped(t, s, step);
            now.progress.current in t.states && (status, StoryOf(t, now)) == Told(doc, StoryOf(t, s), step)
  {
    match step
    case Service(r) => ServiceTells(doc, t, s, r);
    case Raise(name, text) => RaiseTells(doc, t, s, name, text);
  }

  lemma {:induction false} StepsTell(doc: Node, t: Tables, s: Session, steps: seq<Step>)
    requires LoadedFrom(doc, t) && s.progress.current in t.states
    ensures var now := After(t, s, steps);
            && now.progress.current in t.states && StoryOf(t, now) == Retold(doc, StoryOf(t, s), steps)
            && Statuses(t, s, steps) == Answers(doc, StoryOf(t, s), steps)
  {
    if steps != [] {
      var before := steps[..|steps| - 1];
      StepsTell(doc, t, s, before);
      StepTells(doc, t, After(t, s, before), steps[|steps| - 1]);
    }
  }

  /** How a session of a loaded machine starts: in a state with a given name, announced. */
  function Opening(t: Tables, s: Session, initial: string): Story {
    StoryOf(t, s).(state := initial, announced := s.announced + [initial])
  }

  /** A session of a loaded machine, from start and over any steps, goes, announces, reports,
      counts and answers as the document, read directly and by name, says of it. */
  lemma {:induction false} LoadedSessionAsWritten(doc: Node, s: Session, steps: seq<Step>)
    requires Load(doc).0 == Ok && s.progress.initial in Load(doc).1.states
    ensures var t := Load(doc).1;
            var opening := Opening(t, s, t.states[s.progress.initial].name);
            && StoryOf(t, After(t, Started(t, s), steps)) == Retold(doc, opening, steps)
            && Statuses(t, Started(t, s), steps) == Answers(doc, opening, steps)
  {
    var t := Load(doc).1;
    LoadedIsSound(doc);
    LoadedDeclares(doc);
    StartOpens(t, s);
    StartStory(t, s);
    StepsTell(doc, t, Started(t, s), steps);
  }

  lemma StartStory(t: Tables, s: Session)
    requires s.progress.initial in t.states
    ensures StoryOf(t, Started(t, s)) == Opening(t, s, t.states[s.progress.initial].name)
  {
  }
}
