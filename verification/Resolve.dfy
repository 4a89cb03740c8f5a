/** From a document to links: exactly which parts of a document resolve, and that what they
    resolve to means what was written. */
module Resolving {
  import opened Limits
  import opened Types
  import opened Conditions
  import opened MachineTables
  import opened Guards
  import opened Documents
  import opened Loaders
  import opened LinkPass

  /** An index of usable names: each fits, none stands for "no such name", and no two share an
      id. */
  predicate GoodIndex(index: map<string, Id>) {
    && (forall n | n in index :: |n| <= MAX_NAME_LENGTH && index[n] != 0xFFFF)
    && (forall n, m | n in index && m in index && index[n] == index[m] :: n == m)
  }

  lemma FindsName(index: map<string, Id>, name: string)
    requires GoodIndex(index)
    ensures FindName(index, name, MAX_NAME_LENGTH) != 0xFFFF <==> name in index
    ensures name in index ==> FindName(index, name, MAX_NAME_LENGTH) == index[name]
  {
  }

  // ---------------------------------------------------------------------------
  // guards

  /** Each text reads as the condition at its place. */
  predicate GuardReads(texts: seq<string>, guard: seq<Condition>) {
    |texts| == |guard| && forall i | 0 <= i < |texts| :: ReadGuard(texts[i]) == Guard(guard[i])
  }

  predicate AllReadable(items: seq<Node>) {
    forall i | 0 <= i < |items| :: ConditionReadable(items[i])
  }

  lemma AllReadableFirst(items: seq<Node>)
    requires items != []
    ensures AllReadable(items) <==> ConditionReadable(items[0]) && AllReadable(items[1..])
  {
  }

  function ConditionAt(n: Node): Condition
    requires ConditionReadable(n)
  {
    ReadGuard(TextOr(n)).condition
  }

  lemma {:induction false} ReadConditionsStep(items: seq<Node>, read: ConditionList)
    requires items != []
    ensures if ConditionReadable(items[0]) && |read| < MAX_CONDITIONS_PER_GUARD
            then ReadConditions(items, read) == ReadConditions(items[1..], read + [ConditionAt(items[0])])
            else ReadConditions(items, read).Unread?
  {
  }

  lemma {:induction false} ReadConditionsSucceeds(items: seq<Node>, read: ConditionList)
    ensures ReadConditions(items, read).Done? <==>
            AllReadable(items) && |read| + |items| <= MAX_CONDITIONS_PER_GUARD
    decreases items
  {
    if items != [] {
      AllReadableFirst(items);
      ReadConditionsStep(items, read);
      if ConditionReadable(items[0]) && |read| < MAX_CONDITIONS_PER_GUARD {
        ReadConditionsSucceeds(items[1..], read + [ConditionAt(items[0])]);
      }
    }
  }

  /** What was read before, and then what the items say. */
  predicate ReadsAfter(items: seq<Node>, read: seq<Condition>, guard: seq<Condition>) {
    read <= guard && GuardReads(Texts(items), guard[|read|..])
  }

  lemma {:induction false} ReadConditionsReads(items: seq<Node>, read: ConditionList)
    requires ReadConditions(items, read).Done?
    ensures ReadsAfter(items, read, ReadConditions(items, read).value)
    decreases items
  {
    if items != [] {
      ReadConditionsStep(items, read);
      var c := ConditionAt(items[0]);
      ReadConditionsReads(items[1..], read + [c]);
      OneMoreReads(items, read, c, ReadConditions(items, read).value);
    }
  }

  lemma FirstReads(text: string, texts: seq<string>, c: Condition, guard: seq<Condition>)
    requires ReadGuard(text) == Guard(c) && GuardReads(texts, guard)
    ensures GuardReads([text] + texts, [c] + guard)
  {
  }

  lemma FirstOfRest<T>(read: seq<T>, c: T, all: seq<T>)
    requires read + [c] <= all
    ensures read <= all && all[|read|..] == [c] + all[|read| + 1..]
  {
  }

  lemma TextsFirst(items: seq<Node>)
    requires items != []
    ensures Texts(items) == [TextOr(items[0])] + Texts(items[1..])
  {
  }

  lemma OneMoreReads(items: seq<Node>, read: seq<Condition>, c: Condition, guard: seq<Condition>)
    requires items != [] && ReadGuard(TextOr(items[0])) == Guard(c)
    requires ReadsAfter(items[1..], read + [c], guard)
    ensures ReadsAfter(items, read, guard)
  {
    assert guard[|read + [c]|..] == guard[|read| + 1..];
    FirstReads(TextOr(items[0]), Texts(items[1..]), c, guard[|read| + 1..]);
    TextsFirst(items);
    FirstOfRest(read, c, guard);
  }

  /** A `when` can be read exactly when it is legal, and then each condition is the one its
      text denotes. */
  lemma ReadWhenExact(when: Option<Node>)
    ensures ReadWhen(when).Done? <==> WhenLegal(when)
    ensures ReadWhen(when).Done? ==> GuardReads(WhenTexts(when), ReadWhen(when).value)
  {
    match when
    case None =>
    case Some(Sequence(items)) =>
      ReadConditionsSucceeds(items, []);
      if ReadConditions(items, []).Done? {
        ReadConditionsReads(items, []);
        var guard := ReadConditions(items, []).value;
        assert guard[0..] == guard;
      }
    case Some(n) => SingleExact(n);
  }

  lemma SingleExact(n: Node)
    ensures ReadConditions([n], []).Done? <==> ConditionReadable(n)
    ensures ReadConditions([n], []).Done? ==> GuardReads([TextOr(n)], ReadConditions([n], []).value)
  {
  }

  lemma ReadsAreWellFormed(texts: seq<string>, guard: seq<Condition>)
    requires GuardReads(texts, guard)
    ensures AllWellFormed(guard)
  {
    forall i | 0 <= i < |guard|
      ensures WellFormed(guard[i])
    {
      GuardNormalForm(texts[i]);
    }
  }

  // ---------------------------------------------------------------------------
  // alternatives and outcomes

  predicate Compiles(states: map<string, StateId>, w: Written, guard: seq<Condition>, target: StateId) {
    GuardReads(w.when, guard) && w.target in states && states[w.target] == target
  }

  /** A link made of what was written, for one state and trigger. */
  predicate LinkCompiles(states: map<string, StateId>, w: Written, link: Link, from: StateId, on: TriggerId) {
    link.Add? && link.from == from && link.on == on && Compiles(states, w, link.guard, link.target)
  }

  predicate LinksCompile(states: map<string, StateId>, list: seq<Written>, links: seq<Link>, from: StateId,
                         on: TriggerId) {
    |list| == |links| && forall i | 0 <= i < |list| :: LinkCompiles(states, list[i], links[i], from, on)
  }

  lemma AlternativeExact(states: map<string, StateId>, n: Node, from: StateId, on: TriggerId)
    requires GoodIndex(states)
    ensures AlternativeLink(states, n, from, on).Add? <==> AlternativeLegal(states.Keys, n)
    ensures AlternativeLink(states, n, from, on).Add? ==>
              LinkCompiles(states, WrittenAlternative(n), AlternativeLink(states, n, from, on), from, on)
  {
    ReadWhenExact(Field(n, "when"));
    FindsName(states, TargetText(n));
  }

  predicate AllAlternativesLegal(states: set<string>, items: seq<Node>) {
    forall i | 0 <= i < |items| :: AlternativeLegal(states, items[i])
  }

  lemma AllAlternativesFirst(states: set<string>, items: seq<Node>)
    requires items != []
    ensures AllAlternativesLegal(states, items) <==>
            AlternativeLegal(states, items[0]) && AllAlternativesLegal(states, items[1..])
  {
  }

  lemma NoneBrokenFirst(link: Link, rest: seq<Link>)
    ensures NoneBroken([link] + rest) <==> link.Add? && NoneBroken(rest)
  {
    var links := [link] + rest;
    assert forall i | 0 <= i < |rest| :: rest[i] == links[i + 1];
    assert links[0] == link;
  }

  lemma LinksCompileFirst(states: map<string, StateId>, w: Written, list: seq<Written>, link: Link, links: seq<Link>,
                          from: StateId, on: TriggerId)
    requires LinkCompiles(states, w, link, from, on) && LinksCompile(states, list, links, from, on)
    ensures LinksCompile(states, [w] + list, [link] + links, from, on)
  {
  }

  lemma {:induction false} AlternativesExact(states: map<string, StateId>, items: seq<Node>, from: StateId,
                                             on: TriggerId)
    requires GoodIndex(states)
    ensures NoneBroken(AlternativeLinks(states, items, from, on)) <==> AllAlternativesLegal(states.Keys, items)
    ensures AllAlternativesLegal(states.Keys, items) ==>
              LinksCompile(states, WrittenList(items), AlternativeLinks(states, items, from, on), from, on)
    decreases items
  {
    if items != [] {
      var link, rest := AlternativeLink(states, items[0], from, on), AlternativeLinks(states, items[1..], from, on);
      AlternativeExact(states, items[0], from, on);
      AlternativesExact(states, items[1..], from, on);
      AllAlternativesFirst(states.Keys, items);
      NoneBrokenFirst(link, rest);
      if AllAlternativesLegal(states.Keys, items) {
        LinksCompileFirst(states, WrittenAlternative(items[0]), WrittenList(items[1..]), link, rest, from, on);
      }
    }
  }

  /** An outcome resolves exactly when it is legal, and in all three spellings it resolves to
      what was written. */
  lemma OutcomeExact(states: map<string, StateId>, outcome: Node, from: StateId, on: TriggerId)
    requires GoodIndex(states)
    ensures NoneBroken(OutcomeLinks(states, outcome, from, on)) <==> OutcomeLegal(states.Keys, outcome)
    ensures OutcomeLegal(states.Keys, outcome) ==>
              LinksCompile(states, WrittenOutcome(outcome), OutcomeLinks(states, outcome, from, on), from, on)
  {
    var links := OutcomeLinks(states, outcome, from, on);
    match outcome
    case Scalar(name) =>
      FindsName(states, name);
      assert NoneBroken(links) <==> links[0].Add?;
    case Mapping(_) =>
      AlternativeExact(states, outcome, from, on);
      assert NoneBroken(links) <==> links[0].Add?;
    case Sequence(items) =>
      AlternativesExact(states, items, from, on);
      assert items == [] ==> !links[0].Add?;
    case Null =>
      assert !links[0].Add?;
  }

  lemma OutcomeIsNotEmpty(states: map<string, StateId>, outcome: Node, from: StateId, on: TriggerId)
    requires NoneBroken(OutcomeLinks(states, outcome, from, on))
    ensures OutcomeLinks(states, outcome, from, on) != []
  {
  }
}
