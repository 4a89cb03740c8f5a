/** The first pass of the loader: exactly which names can be declared, and what they become. */
module NamePass {
  import opened Limits
  import opened Types
  import opened MachineTables
  import opened BuildPhase
  import opened Documents
  import opened Loaders

  predicate StatesAre(t: Tables, names: seq<string>) {
    |t.states| == |names| <= 0xFFFF &&
    forall i | 0 <= i < |names| :: i in t.states && t.states[i].name == names[i]
  }

  predicate TriggersAre(t: Tables, defs: seq<TriggerDef>) {
    |t.triggers| == |defs| <= 0xFFFF && forall i | 0 <= i < |defs| :: i in t.triggers && t.triggers[i] == defs[i]
  }

  ghost predicate NoTransitions(t: Tables) {
    t.conditions == [] && forall id :: id in t.states ==> t.states[id].transitions == map[]
  }

  /** An inverse index holds exactly the names of a list, each under its own position. */
  lemma IndexMeans(index: map<string, Id>, table: map<Id, string>, list: seq<string>)
    requires |list| <= 0xFFFF && Inverse(index, table, |list|)
    requires forall i | 0 <= i < |list| :: i in table && table[i] == list[i]
    ensures forall n :: n in index <==> n in list
    ensures forall i | 0 <= i < |list| :: list[i] in index && index[list[i]] == i
    ensures |list| !in table.Keys
  {
  }

  lemma StateIndexMeans(t: Tables, names: seq<string>)
    requires StatesIndexed(t) && StatesAre(t, names)
    ensures |t.stateIndex| == |names| <= MAX_STATES
    ensures forall n :: n in t.stateIndex <==> n in names
    ensures forall i | 0 <= i < |names| :: names[i] in t.stateIndex && t.stateIndex[names[i]] == i
    ensures |names| !in t.states.Keys
  {
    var table := StateNames(t.states);
    assert table.Keys == t.states.Keys;
    assert forall i | 0 <= i < |names| :: i in table && table[i] == names[i];
    IndexMeans(t.stateIndex, table, names);
  }

  function NamesIn(defs: seq<TriggerDef>): (r: seq<string>)
    ensures |r| == |defs|
  {
    seq(|defs|, i requires 0 <= i < |defs| => defs[i].name)
  }

  function ChannelsIn(defs: seq<TriggerDef>): (r: seq<string>)
    ensures |r| == |defs|
  {
    seq(|defs|, i requires 0 <= i < |defs| => defs[i].channel)
  }

  lemma TriggerIndexMeans(t: Tables, defs: seq<TriggerDef>)
    requires TriggersIndexed(t) && TriggersAre(t, defs)
    ensures |t.triggerIndex| == |defs| <= MAX_TRIGGERS
    ensures forall n :: n in t.triggerIndex <==> n in NamesIn(defs)
    ensures forall i | 0 <= i < |defs| :: defs[i].name in t.triggerIndex && t.triggerIndex[defs[i].name] == i
    ensures |defs| !in t.triggers.Keys
  {
    var table := TriggerNames(t.triggers);
    var names := NamesIn(defs);
    assert table.Keys == t.triggers.Keys;
    assert forall i | 0 <= i < |defs| :: i in table && table[i] == names[i] == defs[i].name;
    IndexMeans(t.triggerIndex, table, names);
  }

  lemma ChannelIndexMeans(t: Tables, defs: seq<TriggerDef>)
    requires TriggersIndexed(t) && TriggersAre(t, defs)
    ensures |t.channelIndex| == |defs|
    ensures forall n :: n in t.channelIndex <==> n in ChannelsIn(defs)
    ensures forall i | 0 <= i < |defs| :: defs[i].channel in t.channelIndex && t.channelIndex[defs[i].channel] == i
  {
    var table := Channels(t.triggers);
    var channels := ChannelsIn(defs);
    assert forall i | 0 <= i < |defs| :: i in table && table[i] == channels[i] == defs[i].channel;
    IndexMeans(t.channelIndex, table, channels);
  }

  // ---------------------------------------------------------------------------
  // states

  lemma LegalNamesGrow(names: seq<string>, name: string)
    requires StateNamesLegal(names)
    ensures StateNamesLegal(names + [name]) <==>
            name != "" && |name| <= MAX_NAME_LENGTH && |names| < MAX_STATES && name !in names
  {
    var longer := names + [name];
    assert longer[|names|] == name;
    assert forall i | 0 <= i < |names| :: longer[i] == names[i];
  }

  lemma LegalNamesShrink(names: seq<string>, all: seq<string>)
    requires names <= all
    ensures StateNamesLegal(all) ==> StateNamesLegal(names)
  {
  }

  lemma DeclareStateExact(t: Tables, names: seq<string>, name: string)
    requires StatesIndexed(t) && StatesAre(t, names) && StateNamesLegal(names)
    ensures DeclareState(t, name).0 == Ok <==> StateNamesLegal(names + [name])
  {
    StateIndexMeans(t, names);
    LegalNamesGrow(names, name);
  }

  lemma DeclareStateAdds(t: Tables, names: seq<string>, name: string)
    requires |names| !in t.states.Keys && StatesAre(t, names) && DeclareState(t, name).0 == Ok
    ensures var t' := DeclareState(t, name).1;
            && StatesAre(t', names + [name]) && t'.triggers == t.triggers && t'.triggerIndex == t.triggerIndex
            && (NoTransitions(t) ==> NoTransitions(t'))
  {
  }

  ghost predicate StatesReady(t: Tables, names: seq<string>) {
    Invariant(t) && StatesAre(t, names) && StateNamesLegal(names) && NoTransitions(t)
  }

  lemma DeclareStateReady(t: Tables, names: seq<string>, name: string)
    requires StatesReady(t, names) && DeclareState(t, name).0 == Ok
    ensures var t' := DeclareState(t, name).1;
            StatesReady(t', names + [name]) && t'.triggers == t.triggers && t'.triggerIndex == t.triggerIndex
  {
    StateIndexMeans(t, names);
    DeclareStateExact(t, names, name);
    DeclareStateAdds(t, names, name);
    DeclareStateKeeps(t, name);
  }

  lemma DeclareStateFails(t: Tables, names: seq<string>, name: string, rest: seq<string>)
    requires StatesIndexed(t) && StatesAre(t, names) && StateNamesLegal(names) && DeclareState(t, name).0 != Ok
    ensures !StateNamesLegal(names + [name] + rest)
  {
    DeclareStateExact(t, names, name);
    LegalNamesShrink(names + [name], names + [name] + rest);
  }

  lemma OneStateExact(t: Tables, names: seq<string>, entry: Node, all: seq<string>, rest: seq<string>)
    requires StatesReady(t, names) && NameReadable(entry) && all == names + [NameOfEntry(entry)] + rest
    ensures var (status, t') := DeclareState(t, NameOfEntry(entry));
            if status == Ok then
              StatesReady(t', names + [NameOfEntry(entry)])
              && t'.triggers == t.triggers && t'.triggerIndex == t.triggerIndex
            else
              !StateNamesLegal(all)
  {
    var name := NameOfEntry(entry);
    if DeclareState(t, name).0 == Ok {
      DeclareStateReady(t, names, name);
    } else {
      DeclareStateFails(t, names, name, rest);
    }
  }

  /** The whole pass succeeds exactly when every entry has a readable name and the names are
      legal together; then they are declared in order, and nothing else has changed. */
  lemma {:induction false} DeclareStatesExact(t: Tables, names: seq<string>, entries: seq<Node>, all: seq<string>)
    requires StatesReady(t, names) && all == names + EntryNames(entries)
    ensures DeclareStates(t, entries).0 == Ok <==> StatesReadable(entries) && StateNamesLegal(all)
    ensures DeclareStates(t, entries).0 == Ok ==>
              var t' := DeclareStates(t, entries).1;
              StatesReady(t', all) && t'.triggers == t.triggers && t'.triggerIndex == t.triggerIndex
    decreases entries
  {
    if entries == [] {
      assert all == names;
    } else {
      var name, rest := NameOfEntry(entries[0]), EntryNames(entries[1..]);
      assert all == names + [name] + rest;
      ReadableFirst(entries);
      if NameReadable(entries[0]) {
        OneStateExact(t, names, entries[0], all, rest);
        if DeclareState(t, name).0 == Ok {
          DeclareStatesExact(DeclareState(t, name).1, names + [name], entries[1..], all);
        }
      }
    }
  }

  predicate StatesReadable(entries: seq<Node>) {
    forall i | 0 <= i < |entries| :: NameReadable(entries[i])
  }

  lemma ReadableFirst(entries: seq<Node>)
    requires entries != []
    ensures StatesReadable(entries) <==> NameReadable(entries[0]) && StatesReadable(entries[1..])
    ensures NameReadable(entries[0]) ==> ReadName(entries[0]) == Done(NameOfEntry(entries[0]))
    ensures !NameReadable(entries[0]) ==> ReadName(entries[0]).Unread?
  {
    assert forall i | 0 < i < |entries| :: entries[i] == entries[1..][i - 1];
  }

  // ---------------------------------------------------------------------------
  // triggers

  predicate NewDef(defs: seq<TriggerDef>, d: TriggerDef) {
    forall i | 0 <= i < |defs| :: defs[i].name != d.name && defs[i].channel != d.channel
  }

  lemma LegalDefsGrow(defs: seq<TriggerDef>, d: TriggerDef)
    requires TriggersLegal(defs)
    ensures TriggersLegal(defs + [d]) <==>
            && 0 < |d.name| <= MAX_NAME_LENGTH && |d.channel| <= MAX_CHANNEL_LENGTH
            && |defs| < MAX_TRIGGERS && NewDef(defs, d)
  {
    var longer := defs + [d];
    assert longer[|defs|] == d;
    assert forall i | 0 <= i < |defs| :: longer[i] == defs[i];
  }

  lemma LegalDefsShrink(defs: seq<TriggerDef>, all: seq<TriggerDef>)
    requires defs <= all
    ensures TriggersLegal(all) ==> TriggersLegal(defs)
  {
  }

  lemma NewDefByName(defs: seq<TriggerDef>, d: TriggerDef)
    ensures NewDef(defs, d) <==> d.name !in NamesIn(defs) && d.channel !in ChannelsIn(defs)
  {
    var names, channels := NamesIn(defs), ChannelsIn(defs);
    assert forall i | 0 <= i < |defs| :: names[i] == defs[i].name && channels[i] == defs[i].channel;
  }

  lemma NewDefMeans(t: Tables, defs: seq<TriggerDef>, d: TriggerDef)
    requires TriggersIndexed(t) && TriggersAre(t, defs)
    ensures NewDef(defs, d) <==> d.name !in t.triggerIndex && d.channel !in t.channelIndex
    ensures |t.triggerIndex| == |t.channelIndex| == |t.triggers| == |defs|
  {
    TriggerIndexMeans(t, defs);
    ChannelIndexMeans(t, defs);
    NewDefByName(defs, d);
  }

  lemma DeclareTriggerExact(t: Tables, defs: seq<TriggerDef>, name: string, channel: string)
    requires TriggersIndexed(t) && TriggersAre(t, defs) && TriggersLegal(defs)
    ensures DeclareTrigger(t, name, channel).0 == Ok <==>
            TriggersLegal(defs + [TriggerDef(name, ChannelOr(channel, name))])
  {
    var d := TriggerDef(name, ChannelOr(channel, name));
    NewDefMeans(t, defs, d);
    LegalDefsGrow(defs, d);
  }

  lemma DeclareTriggerAdds(t: Tables, defs: seq<TriggerDef>, name: string, channel: string)
    requires |defs| !in t.triggers.Keys && TriggersAre(t, defs) && DeclareTrigger(t, name, channel).0 == Ok
    ensures var t' := DeclareTrigger(t, name, channel).1;
            && TriggersAre(t', defs + [TriggerDef(name, ChannelOr(channel, name))])
            && t'.states == t.states && t'.conditions == t.conditions
  {
  }

  predicate EntryReadable(entry: Node) {
    NameReadable(entry) && ChannelReadable(entry)
  }

  predicate EntriesReadable(entries: seq<Node>) {
    forall i | 0 <= i < |entries| :: EntryReadable(entries[i])
  }

  lemma EntriesReadableFirst(entries: seq<Node>)
    requires entries != []
    ensures EntriesReadable(entries) <==> EntryReadable(entries[0]) && EntriesReadable(entries[1..])
  {
    assert forall i | 0 < i < |entries| :: entries[i] == entries[1..][i - 1];
  }

  lemma EntryReads(entry: Node)
    ensures EntryReadable(entry) ==>
              && ReadTrigger(entry).Done?
              && var (name, channel) := ReadTrigger(entry).value;
                 TriggerDef(name, ChannelOr(channel, name)) == TriggerDefOf(entry)
    ensures !EntryReadable(entry) ==> ReadTrigger(entry).Unread?
  {
  }

  ghost predicate TriggersReady(t: Tables, defs: seq<TriggerDef>) {
    Invariant(t) && TriggersAre(t, defs) && TriggersLegal(defs)
  }

  lemma DeclareTriggerReady(t: Tables, defs: seq<TriggerDef>, name: string, channel: string)
    requires TriggersReady(t, defs) && DeclareTrigger(t, name, channel).0 == Ok
    ensures var t' := DeclareTrigger(t, name, channel).1;
            TriggersReady(t', defs + [TriggerDef(name, ChannelOr(channel, name))])
            && t'.states == t.states && t'.conditions == t.conditions
  {
    TriggerIndexMeans(t, defs);
    DeclareTriggerExact(t, defs, name, channel);
    DeclareTriggerAdds(t, defs, name, channel);
    DeclareTriggerKeeps(t, name, channel);
  }

  lemma DeclareTriggerFails(t: Tables, defs: seq<TriggerDef>, name: string, channel: string, all: seq<TriggerDef>)
    requires TriggersIndexed(t) && TriggersAre(t, defs) && TriggersLegal(defs) &&
             DeclareTrigger(t, name, channel).0 != Ok
    requires defs + [TriggerDef(name, ChannelOr(channel, name))] <= all
    ensures !TriggersLegal(all)
  {
    DeclareTriggerExact(t, defs, name, channel);
    LegalDefsShrink(defs + [TriggerDef(name, ChannelOr(channel, name))], all);
  }

  lemma OneTriggerExact(t: Tables, defs: seq<TriggerDef>, entry: Node, all: seq<TriggerDef>)
    requires TriggersReady(t, defs) && defs + [TriggerDefOf(entry)] <= all
    ensures var (status, t') := DeclareOneTrigger(t, entry);
            if status == Ok then
              EntryReadable(entry) && TriggersReady(t', defs + [TriggerDefOf(entry)])
              && t'.states == t.states && t'.conditions == t.conditions
            else
              !EntryReadable(entry) || !TriggersLegal(all)
  {
    EntryReads(entry);
    if EntryReadable(entry) {
      var (name, channel) := ReadTrigger(entry).value;
      if DeclareTrigger(t, name, channel).0 == Ok {
        DeclareTriggerReady(t, defs, name, channel);
      } else {
        DeclareTriggerFails(t, defs, name, channel, all);
      }
    }
  }

  /** The trigger section succeeds exactly when every entry can be read and the definitions,
      channels defaulted, are legal together. */
  lemma {:induction false} DeclareTriggersExact(t: Tables, defs: seq<TriggerDef>, entries: seq<Node>,
                                                all: seq<TriggerDef>)
    requires TriggersReady(t, defs) && all == defs + TriggerDefs(entries)
    ensures DeclareTriggers(t, entries).0 == Ok <==> EntriesReadable(entries) && TriggersLegal(all)
    ensures DeclareTriggers(t, entries).0 == Ok ==>
              var t' := DeclareTriggers(t, entries).1;
              TriggersReady(t', all) && t'.states == t.states && t'.conditions == t.conditions
    decreases entries
  {
    if entries == [] {
      assert all == defs;
    } else {
      var longer := defs + [TriggerDefOf(entries[0])];
      assert all == longer + TriggerDefs(entries[1..]);
      EntriesReadableFirst(entries);
      OneTriggerExact(t, defs, entries[0], all);
      if DeclareOneTrigger(t, entries[0]).0 == Ok {
        DeclareTriggersExact(DeclareOneTrigger(t, entries[0]).1, longer, entries[1..], all);
      }
    }
  }
}
