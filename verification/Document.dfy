/** A configuration document, and what it says read directly: no ids, no tables, no pool. */
module Documents {
  import opened Limits
  import opened Types
  import opened Text
  import opened Arguments
  import opened Conditions
  import opened MachineTables

  datatype Node = Null | Scalar(text: string) | Sequence(items: seq<Node>) | Mapping(entries: seq<(Node, Node)>)

  /** What the YAML library makes of a null that is read as text: some text, or a failure. */
  const NULL_TEXT: Option<string>

  /** Reading a node as text; a sequence or a mapping is a parse error. */
  function TextOfNode(n: Node): (r: Option<string>)
    ensures n.Scalar? ==> r == Some(n.text)
    ensures n.Sequence? || n.Mapping? ==> r == None
  {
    match n
    case Scalar(text) => Some(text)
    case Null => NULL_TEXT
    case _ => None
  }

  function TextOr(n: Node): string {
    match TextOfNode(n)
    case Some(text) => text
    case None => ""
  }

  function Lookup(entries: seq<(Node, Node)>, key: string): Option<Node> {
    if entries == [] then None
    else if entries[0].0 == Scalar(key) then Some(entries[0].1)
    else Lookup(entries[1..], key)
  }

  /** The value under a key; nothing when the node is not a mapping. */
  function Field(n: Node, key: string): Option<Node> {
    if n.Mapping? then Lookup(n.entries, key) else None
  }

  /** The first entry under a key is the one that is found. */
  lemma {:induction false} LookupMeans(entries: seq<(Node, Node)>, key: string, value: Node)
    ensures Lookup(entries, key) == Some(value) <==>
            exists i :: 0 <= i < |entries| && entries[i] == (Scalar(key), value) &&
                        forall j | 0 <= j < i :: entries[j].0 != Scalar(key)
  {
    if entries != [] && entries[0].0 != Scalar(key) {
      LookupMeans(entries[1..], key, value);
      if i :| 0 <= i < |entries| && entries[i] == (Scalar(key), value) &&
              forall j | 0 <= j < i :: entries[j].0 != Scalar(key) {
        assert entries[1..][i - 1] == (Scalar(key), value);
        assert forall j | 0 <= j < i - 1 :: entries[1..][j] == entries[j + 1];
      }
      if i :| 0 <= i < |entries[1..]| && entries[1..][i] == (Scalar(key), value) &&
              forall j | 0 <= j < i :: entries[1..][j].0 != Scalar(key) {
        assert entries[i + 1] == (Scalar(key), value);
        assert forall j | 1 <= j < i + 1 :: entries[j] == entries[1..][j - 1];
      }
    }
  }

  predicate IsList(n: Option<Node>) {
    n.Some? && n.value.Sequence? && n.value.items != []
  }

  function Items(n: Option<Node>): seq<Node> {
    if n.Some? && n.value.Sequence? then n.value.items else []
  }

  // ---------------------------------------------------------------------------
  // what is written

  /** One alternative as written: the texts of its conditions and the name of its target. */
  datatype Written = Written(when: seq<string>, target: string)

  function Texts(items: seq<Node>): (r: seq<string>)
    ensures |r| == |items|
  {
    seq(|items|, i requires 0 <= i < |items| => TextOr(items[i]))
  }

  function WhenTexts(when: Option<Node>): seq<string> {
    match when
    case None => []
    case Some(Sequence(items)) => Texts(items)
    case Some(n) => [TextOr(n)]
  }

  function TargetText(n: Node): string {
    match Field(n, "target")
    case Some(target) => TextOr(target)
    case None => ""
  }

  function WrittenAlternative(n: Node): Written {
    Written(WhenTexts(Field(n, "when")), TargetText(n))
  }

  function WrittenList(items: seq<Node>): (r: seq<Written>)
    ensures |r| == |items|
  {
    if items == [] then [] else [WrittenAlternative(items[0])] + WrittenList(items[1..])
  }

  /** The three spellings of an outcome: a state name, one alternative, or a list of them. */
  function WrittenOutcome(outcome: Node): seq<Written> {
    match outcome
    case Scalar(text) => [Written([], text)]
    case Mapping(_) => [WrittenAlternative(outcome)]
    case Sequence(items) => WrittenList(items)
    case Null => []
  }

  /** Everything listed for a trigger, in the order it is written. */
  function WrittenFor(pairs: seq<(Node, Node)>, trigger: string): seq<Written> {
    if pairs == [] then []
    else
      (if TextOfNode(pairs[0].0) == Some(trigger) then WrittenOutcome(pairs[0].1) else []) +
      WrittenFor(pairs[1..], trigger)
  }

  function PairsOf(entry: Node): seq<(Node, Node)> {
    match Field(entry, "transitions")
    case Some(Mapping(pairs)) => pairs
    case _ => []
  }

  function NameOfEntry(entry: Node): string {
    match Field(entry, "name")
    case Some(name) => TextOr(name)
    case None => ""
  }

  // ---------------------------------------------------------------------------
  // the direct interpreter

  datatype Answer = Goes(target: string) | Refuses | Ignores

  /** A guard text that cannot be read holds of nothing. */
  predicate TextHolds(text: string, m: ArgMap) {
    match ReadGuard(text)
    case Guard(c) => Holds(c, m)
    case Refused(_) => false
  }

  /** A guard as it is usually written. */
  function Comparison(arg: string, spelling: string, literal: string): string {
    arg + " " + spelling + " " + literal
  }

  predicate IsArgument(arg: string) {
    0 < |arg| <= MAX_NAME_LENGTH && IsTrimmed(arg) && OperatorFree(arg)
  }

  lemma ComparisonReads(arg: string, spelling: string, op: CompareOp, literal: string)
    requires IsArgument(arg) && SpellsOp(spelling, op) && literal != "" && IsTrimmed(literal)
    ensures ReadGuard(Comparison(arg, spelling, literal)) == ReadOperands(arg, op, literal)
  {
    var l := Spaced(arg, spelling, literal);
    SpacedText(arg, spelling, literal);
    assert Splits(l, op);
    SplitIsRead(l, op);
  }

  lemma NumberReads(arg: string, spelling: string, op: CompareOp, literal: string, n: int32)
    requires IsArgument(arg) && SpellsOp(spelling, op) && Denotes(literal, n)
    ensures ReadGuard(Comparison(arg, spelling, literal)) == Guard(Condition(arg, op, true, n, ""))
  {
    IntOfMeans(literal, n);
    NumberHasNoSpace(literal);
    ComparisonReads(arg, spelling, op, literal);
  }

  ghost predicate Numeric(m: ArgMap, arg: string) {
    exists k: int32 :: arg in m && Denotes(m[arg], k)
  }

  lemma NumberHolds(arg: string, spelling: string, op: CompareOp, literal: string, n: int32, m: ArgMap)
    requires IsArgument(arg) && SpellsOp(spelling, op) && Denotes(literal, n)
    ensures TextHolds(Comparison(arg, spelling, literal), m) ==> Numeric(m, arg)
    ensures forall k: int32 | arg in m && Denotes(m[arg], k) ::
              TextHolds(Comparison(arg, spelling, literal), m) <==> Compare(k, op, n)
  {
    NumberReads(arg, spelling, op, literal, n);
    if arg in m {
      DenotesOnce(m[arg]);
      forall k: int32 | Denotes(m[arg], k)
        ensures IntOf(m[arg]) == Some(k)
      {
        IntOfMeans(m[arg], k);
      }
    }
  }

  /** What each comparison with a number says, text to text: the argument is there, reads as a
      number, and the two numbers compare as written. */
  lemma NumberGuardsMean(arg: string, literal: string, n: int32, m: ArgMap)
    requires IsArgument(arg) && Denotes(literal, n)
    ensures forall k: int32 | arg in m && Denotes(m[arg], k) ::
              && (TextHolds(Comparison(arg, "==", literal), m) <==> k == n)
              && (TextHolds(Comparison(arg, "=", literal), m) <==> k == n)
              && (TextHolds(Comparison(arg, "!=", literal), m) <==> k != n)
              && (TextHolds(Comparison(arg, "<", literal), m) <==> k < n)
              && (TextHolds(Comparison(arg, "<=", literal), m) <==> k <= n)
              && (TextHolds(Comparison(arg, ">", literal), m) <==> k > n)
              && (TextHolds(Comparison(arg, ">=", literal), m) <==> k >= n)
    ensures !Numeric(m, arg) ==>
              forall spelling | spelling in {"==", "=", "!=", "<", "<=", ">", ">="} ::
                !TextHolds(Comparison(arg, spelling, literal), m)
  {
    NumberHolds(arg, "==", Equal, literal, n, m);
    NumberHolds(arg, "=", Equal, literal, n, m);
    NumberHolds(arg, "!=", NotEqual, literal, n, m);
    NumberHolds(arg, "<", Less, literal, n, m);
    NumberHolds(arg, "<=", LessEqual, literal, n, m);
    NumberHolds(arg, ">", Greater, literal, n, m);
    NumberHolds(arg, ">=", GreaterEqual, literal, n, m);
  }

  predicate IsWord(word: string) {
    0 < |word| <= MAX_NAME_LENGTH && IsTrimmed(word) && IntOf(word) == None
  }

  lemma WordHolds(arg: string, spelling: string, op: CompareOp, word: string, m: ArgMap)
    requires IsArgument(arg) && SpellsOp(spelling, op) && IsWord(word) && !IsOrdering(op)
    ensures TextHolds(Comparison(arg, spelling, word), m) <==>
            arg in m && m[arg] != "" && (m[arg] == word <==> op == Equal)
  {
    ComparisonReads(arg, spelling, op, word);
  }

  /** And with a word: the argument is there, and is that word or is another. */
  lemma WordGuardsMean(arg: string, word: string, m: ArgMap)
    requires IsArgument(arg) && IsWord(word)
    ensures TextHolds(Comparison(arg, "==", word), m) <==> arg in m && m[arg] == word
    ensures TextHolds(Comparison(arg, "=", word), m) <==> arg in m && m[arg] == word
    ensures TextHolds(Comparison(arg, "!=", word), m) <==> arg in m && m[arg] != "" && m[arg] != word
  {
    WordHolds(arg, "==", Equal, word, m);
    WordHolds(arg, "=", Equal, word, m);
    WordHolds(arg, "!=", NotEqual, word, m);
  }

  lemma OrderingReads(arg: string, spelling: string, op: CompareOp, word: string)
    requires IsArgument(arg) && SpellsOp(spelling, op) && IsWord(word) && IsOrdering(op)
    ensures ReadGuard(Comparison(arg, spelling, word)) == Refused(SchemaError)
  {
    ComparisonReads(arg, spelling, op, word);
  }

  /** Words have no order. */
  lemma WordsHaveNoOrder(arg: string, word: string)
    requires IsArgument(arg) && IsWord(word)
    ensures forall spelling | spelling in {"<", "<=", ">", ">="} ::
              ReadGuard(Comparison(arg, spelling, word)) == Refused(SchemaError)
  {
    OrderingReads(arg, "<", Less, word);
    OrderingReads(arg, "<=", LessEqual, word);
    OrderingReads(arg, ">", Greater, word);
    OrderingReads(arg, ">=", GreaterEqual, word);
  }

  predicate WrittenHolds(w: Written, m: ArgMap) {
    forall i | 0 <= i < |w.when| :: TextHolds(w.when[i], m)
  }

  function FirstWritten(list: seq<Written>, m: ArgMap): Answer {
    if list == [] then Refuses
    else if WrittenHolds(list[0], m) then Goes(list[0].target)
    else FirstWritten(list[1..], m)
  }

  /** The first state entry with a given name. */
  function FindEntry(entries: seq<Node>, name: string): Option<Node> {
    if entries == [] then None
    else if NameOfEntry(entries[0]) == name then Some(entries[0])
    else FindEntry(entries[1..], name)
  }

  /** What the document says a state does with a trigger and its arguments: the first
      alternative, as written, whose conditions all hold. */
  function Interpret(doc: Node, state: string, trigger: string, m: ArgMap): Answer {
    match FindEntry(Items(Field(doc, "states")), state)
    case None => Ignores
    case Some(entry) =>
      var list := WrittenFor(PairsOf(entry), trigger);
      if list == [] then Ignores else FirstWritten(list, m)
  }

  // ---------------------------------------------------------------------------
  // what makes a document acceptable

  function EntryNames(entries: seq<Node>): (r: seq<string>)
    ensures |r| == |entries|
  {
    if entries == [] then [] else [NameOfEntry(entries[0])] + EntryNames(entries[1..])
  }

  /** A trigger entry as declared, its channel defaulted to its name. */
  function TriggerDefOf(entry: Node): TriggerDef {
    var name := NameOfEntry(entry);
    match Field(entry, "channel")
    case Some(channel) => if TextOr(channel) == "" then TriggerDef(name, name) else TriggerDef(name, TextOr(channel))
    case None => TriggerDef(name, name)
  }

  function TriggerDefs(entries: seq<Node>): (r: seq<TriggerDef>)
    ensures |r| == |entries|
  {
    if entries == [] then [] else [TriggerDefOf(entries[0])] + TriggerDefs(entries[1..])
  }

  predicate NameReadable(entry: Node) {
    match Field(entry, "name")
    case Some(name) => TextOfNode(name).Some?
    case None => false
  }

  predicate ChannelReadable(entry: Node) {
    match Field(entry, "channel")
    case Some(channel) => TextOfNode(channel).Some?
    case None => true
  }

  predicate StateNamesLegal(names: seq<string>) {
    && |names| <= MAX_STATES
    && (forall i | 0 <= i < |names| :: 0 < |names[i]| <= MAX_NAME_LENGTH)
    && (forall i, j | 0 <= i < j < |names| :: names[i] != names[j])
  }

  predicate TriggersLegal(defs: seq<TriggerDef>) {
    && |defs| <= MAX_TRIGGERS
    && (forall i | 0 <= i < |defs| :: 0 < |defs[i].name| <= MAX_NAME_LENGTH && |defs[i].channel| <= MAX_CHANNEL_LENGTH)
    && (forall i, j | 0 <= i < j < |defs| :: defs[i].name != defs[j].name && defs[i].channel != defs[j].channel)
  }

  predicate ConditionReadable(n: Node) {
    match TextOfNode(n)
    case Some(text) => ReadGuard(text).Guard?
    case None => false
  }

  predicate WhenLegal(when: Option<Node>) {
    match when
    case None => true
    case Some(Sequence(items)) =>
      0 < |items| <= MAX_CONDITIONS_PER_GUARD && forall i | 0 <= i < |items| :: ConditionReadable(items[i])
    case Some(n) => ConditionReadable(n)
  }

  predicate AlternativeLegal(states: set<string>, n: Node) {
    match Field(n, "target")
    case None => false
    case Some(target) =>
      TextOfNode(target).Some? && TextOr(target) in states && WhenLegal(Field(n, "when"))
  }

  predicate OutcomeLegal(states: set<string>, outcome: Node) {
    match outcome
    case Scalar(text) => text in states
    case Mapping(_) => AlternativeLegal(states, outcome)
    case Sequence(items) => items != [] && forall i | 0 <= i < |items| :: AlternativeLegal(states, items[i])
    case Null => false
  }

  predicate PairLegal(states: set<string>, triggers: set<string>, pair: (Node, Node)) {
    TextOfNode(pair.0).Some? && TextOr(pair.0) in triggers && OutcomeLegal(states, pair.1)
  }

  /** Transitions are absent, or a mapping from declared triggers to legal outcomes. */
  predicate TransitionsLegal(states: set<string>, triggers: set<string>, entry: Node) {
    match Field(entry, "transitions")
    case None => true
    case Some(Mapping(pairs)) => forall i | 0 <= i < |pairs| :: PairLegal(states, triggers, pairs[i])
    case _ => false
  }

  function ConditionsIn(list: seq<Written>): nat {
    if list == [] then 0 else |list[0].when| + ConditionsIn(list[1..])
  }

  function ConditionsInPairs(pairs: seq<(Node, Node)>): nat {
    if pairs == [] then 0 else ConditionsIn(WrittenOutcome(pairs[0].1)) + ConditionsInPairs(pairs[1..])
  }

  function ConditionsInStates(entries: seq<Node>): nat {
    if entries == [] then 0 else ConditionsInPairs(PairsOf(entries[0])) + ConditionsInStates(entries[1..])
  }

  function KeysOf(pairs: seq<(Node, Node)>): set<string> {
    set i | 0 <= i < |pairs| :: TextOr(pairs[i].0)
  }

  /** Nothing a state lists outgrows its tables. */
  predicate StateFits(entry: Node) {
    && |KeysOf(PairsOf(entry))| <= MAX_TRANSITIONS_PER_STATE
    && forall trigger | trigger in KeysOf(PairsOf(entry)) :: |WrittenFor(PairsOf(entry), trigger)| <= MAX_ALTERNATIVES
  }

  function Names(entries: seq<Node>): set<string> {
    set i | 0 <= i < |entries| :: NameOfEntry(entries[i])
  }

  /** The document is a mapping without the setup file's sections, and its own name fits. */
  predicate HeadLegal(doc: Node) {
    && doc.Mapping? && Field(doc, "io") == None
    && match Field(doc, "fsm")
       case None => true
       case Some(fsm) =>
         && Field(fsm, "initial") == None
         && match Field(fsm, "name")
            case None => true
            case Some(name) => TextOfNode(name).Some? && |TextOr(name)| <= MAX_NAME_LENGTH
  }

  /** Everything that makes a document a machine. */
  predicate Acceptable(doc: Node) {
    var triggers, states := Field(doc, "triggers"), Field(doc, "states");
    && HeadLegal(doc)
    && IsList(triggers) && IsList(states)
    && (forall i | 0 <= i < |Items(triggers)| ::
          NameReadable(Items(triggers)[i]) && ChannelReadable(Items(triggers)[i]))
    && TriggersLegal(TriggerDefs(Items(triggers)))
    && (forall i | 0 <= i < |Items(states)| :: NameReadable(Items(states)[i]))
    && StateNamesLegal(EntryNames(Items(states)))
    && (forall i | 0 <= i < |Items(states)| ::
          && TransitionsLegal(Names(Items(states)), Names(Items(triggers)), Items(states)[i])
          && StateFits(Items(states)[i]))
    && ConditionsInStates(Items(states)) <= MAX_CONDITIONS
  }
}
