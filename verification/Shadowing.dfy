/** Which conditions the guard decider can be trusted with: exactly those that folding
    represents. */
module FoldableConditions {
  import opened Limits
  import opened Types
  import opened Text
  import opened Arguments
  import opened Conditions
  import opened Histories
  import opened Guards

  /** The decider is right about a guard. */
  ghost predicate Right(guard: seq<Condition>) {
    Impossible(guard) <==> !exists m: ArgMap :: AllHold(guard, m)
  }

  lemma FactsOfOne(c: Condition)
    ensures FactsOf([c], c.arg) == Folded(NO_FACTS, c)
    ensures Impossible([c]) <==> NoValue(Folded(NO_FACTS, c))
  {
    assert [c][..0] == [];
    assert [c][0] == c;
  }

  lemma FactsOfTwo(c: Condition, d: Condition)
    requires c.arg == d.arg
    ensures FactsOf([c, d], c.arg) == Folded(Folded(NO_FACTS, c), d)
    ensures Impossible([c, d]) <==> NoValue(Folded(Folded(NO_FACTS, c), d))
  {
    var guard := [c, d];
    assert guard[..1] == [c];
    FactsOfOne(c);
    assert guard[0] == c && guard[1] == d;
  }

  /** A word compared for order is compared for equality at run time, and folding drops it. */
  lemma OrderedWordsMislead(c: Condition)
    requires !c.numeric && IsOrdering(c.op)
    ensures !Right(if c.literal == "" then [c] else [c, Condition(c.arg, NotEqual, false, 0, c.literal)])
  {
    if c.literal == "" {
      FactsOfOne(c);
      forall m: ArgMap
        ensures !AllHold([c], m)
      {
        assert [c][0] == c;
      }
    } else {
      var other := Condition(c.arg, NotEqual, false, 0, c.literal);
      FactsOfTwo(c, other);
      forall m: ArgMap
        ensures !AllHold([c, other], m)
      {
        assert [c, other][0] == c && [c, other][1] == other;
      }
    }
  }

  /** No argument ever has the empty value, and folding does not know it. */
  lemma EmptyWordMisleads(c: Condition)
    requires !c.numeric && c.op == Equal && c.literal == ""
    ensures !Right([c])
  {
    FactsOfOne(c);
    forall m: ArgMap
      ensures !AllHold([c], m)
    {
      assert [c][0] == c;
    }
  }

  /** A word that reads as a number does not contradict comparing it as one. */
  lemma NumberAsWordMisleads(c: Condition)
    requires !c.numeric && c.op == Equal && IntOf(c.literal).Some? && |c.arg| <= MAX_NAME_LENGTH
    ensures !Right([c, Condition(c.arg, GreaterEqual, true, INT32_MIN, "")])
  {
    var any := Condition(c.arg, GreaterEqual, true, INT32_MIN, "");
    FactsOfTwo(c, any);
    assert AllHold([c, any], map[c.arg := c.literal]);
  }

  lemma WhatIsNotFoldableMisleads(c: Condition) returns (guard: seq<Condition>)
    requires |c.arg| <= MAX_NAME_LENGTH && !Foldable(c)
    ensures |guard| <= (if c.literal == "" then 1 else 2) &&
            (forall i | 0 <= i < |guard| :: guard[i] == c || Foldable(guard[i])) && !Right(guard)
  {
    if IsOrdering(c.op) {
      guard := if c.literal == "" then [c] else [c, Condition(c.arg, NotEqual, false, 0, c.literal)];
      OrderedWordsMislead(c);
    } else if c.literal == "" {
      guard := [c];
      EmptyWordMisleads(c);
    } else {
      guard := [c, Condition(c.arg, GreaterEqual, true, INT32_MIN, "")];
      NumberAsWordMisleads(c);
    }
  }

  /** A guard of one condition, repeated at will, and any foldable others. */
  predicate Around(guard: seq<Condition>, c: Condition) {
    |guard| <= MAX_CONDITIONS_PER_GUARD && forall i | 0 <= i < |guard| :: guard[i] == c || Foldable(guard[i])
  }

  /** Alone, even such a word can hold, and is not called impossible. */
  lemma AloneItIsRight(c: Condition)
    requires |c.arg| <= MAX_NAME_LENGTH && !Foldable(c) && c.literal != ""
    ensures Right([c])
  {
    FactsOfOne(c);
    assert AllHold([c], map[c.arg := c.literal]);
  }

  lemma GuardsOfOne(guard: seq<Condition>, c: Condition)
    requires MAX_CONDITIONS_PER_GUARD == 1 && Around(guard, c)
    ensures guard == [c] || AllFoldable(guard)
  {
  }

  /** What the decider can be trusted with: a foldable condition, or, where a guard has room
      for one condition only, any that does not ask for the empty word. */
  predicate Trusted(c: Condition) {
    Foldable(c) || (MAX_CONDITIONS_PER_GUARD == 1 && c.literal != "")
  }

  /** The decider is right about every guard around a condition exactly when the condition is
      one to be trusted with. The tables accept others, which only a caller that builds a
      machine by hand can give them. */
  lemma TrustIsExact(c: Condition)
    requires |c.arg| <= MAX_NAME_LENGTH
    ensures Trusted(c) <==> forall guard | Around(guard, c) :: Right(guard)
  {
    if Trusted(c) {
      forall guard | Around(guard, c)
        ensures Right(guard)
      {
        TrustedIsRight(guard, c);
      }
    } else {
      var guard := WhatIsNotTrustedMisleads(c);
      assert Around(guard, c) && !Right(guard);
    }
  }

  lemma TrustedIsRight(guard: seq<Condition>, c: Condition)
    requires |c.arg| <= MAX_NAME_LENGTH && Trusted(c) && Around(guard, c)
    ensures Right(guard)
  {
    if Foldable(c) || AllFoldable(guard) {
      GuardDeciderIsExact(guard);
    } else {
      GuardsOfOne(guard, c);
      AloneItIsRight(c);
    }
  }

  lemma WhatIsNotTrustedMisleads(c: Condition) returns (guard: seq<Condition>)
    requires |c.arg| <= MAX_NAME_LENGTH && !Trusted(c)
    ensures Around(guard, c) && !Right(guard)
  {
    guard := WhatIsNotFoldableMisleads(c);
  }
}

/** When an alternative can never be taken because of those before it, and how much of that the
    linter sees. */
module Shadows {
  import opened Limits
  import opened Types
  import opened Text
  import opened Arguments
  import opened Conditions
  import opened Histories
  import opened Guards
  import opened FindingLists
  import opened DeadAlternatives

  // ---------------------------------------------------------------------------
  // one argument

  /** A value satisfies one of the conditions on an argument. */
  predicate Meets(conditions: seq<Condition>, argument: string, value: string) {
    exists i | 0 <= i < |conditions| && conditions[i].arg == argument :: HoldsFor(conditions[i], value)
  }

  /** The same of a number, looking at the comparisons with numbers only. */
  predicate Reaches(conditions: seq<Condition>, argument: string, n: int) {
    exists i | 0 <= i < |conditions| && conditions[i].arg == argument && conditions[i].numeric ::
      Compare(n, conditions[i].op, conditions[i].number)
  }

  /** The only value that fails differing from a word is that word: it is ruled out, or
      satisfies another of the conditions. */
  predicate Cornered(f: Facts, argument: string, conditions: seq<Condition>, c: Condition) {
    && c.arg == argument && !c.numeric && c.op == NotEqual
    && (!Admits(f, c.literal) || Meets(conditions, argument, c.literal))
  }

  /** Read off the facts about an argument: every value they allow satisfies one of the
      conditions. A required word has to; or differing from some word corners them; or there is
      a comparison for every number that is left. */
  predicate FactsForce(f: Facts, argument: string, conditions: seq<Condition>) {
    match f.required
    case Some(word) => Meets(conditions, argument, word)
    case None =>
      || (exists i | 0 <= i < |conditions| :: Cornered(f, argument, conditions, conditions[i]))
      || (f.numericSeen && forall n | f.low <= n <= f.high && n !in f.excluded :: Reaches(conditions, argument, n))
  }

  function Literals(conditions: seq<Condition>): (r: seq<string>)
    ensures |r| == |conditions|
  {
    seq(|conditions|, i requires 0 <= i < |conditions| => conditions[i].literal)
  }

  lemma ForcedValue(f: Facts, argument: string, conditions: seq<Condition>, value: string)
    requires FactsForce(f, argument, conditions) && Admits(f, value)
    ensures Meets(conditions, argument, value)
  {
    if f.required == None {
      if i :| 0 <= i < |conditions| && Cornered(f, argument, conditions, conditions[i]) {
        assert value != conditions[i].literal ==> HoldsFor(conditions[i], value);
      } else {
        var n := IntOf(value).value;
        assert Reaches(conditions, argument, n);
        var i :| 0 <= i < |conditions| && conditions[i].arg == argument && conditions[i].numeric &&
                 Compare(n, conditions[i].op, conditions[i].number);
        assert HoldsFor(conditions[i], value);
      }
    }
  }

  /** When the facts force none of the conditions, they allow a value that fails them all. */
  lemma UnforcedValue(f: Facts, argument: string, conditions: seq<Condition>) returns (value: string)
    requires Sound(f) && !NoValue(f) && !FactsForce(f, argument, conditions)
    ensures Admits(f, value) && !Meets(conditions, argument, value)
  {
    if f.required.Some? {
      value := f.required.value;
    } else if i :| 0 <= i < |conditions| && conditions[i].arg == argument &&
                   !conditions[i].numeric && conditions[i].op == NotEqual {
      assert !Cornered(f, argument, conditions, conditions[i]);
      value := conditions[i].literal;
    } else {
      value := UncorneredValue(f, argument, conditions);
    }
  }

  lemma UncorneredValue(f: Facts, argument: string, conditions: seq<Condition>) returns (value: string)
    requires Sound(f) && !NoValue(f) && f.required == None
    requires forall i | 0 <= i < |conditions| && conditions[i].arg == argument && !conditions[i].numeric ::
               conditions[i].op != NotEqual
    requires f.numericSeen ==> exists n :: f.low <= n <= f.high && n !in f.excluded && !Reaches(conditions, argument, n)
    ensures Admits(f, value) && !Meets(conditions, argument, value)
  {
    var words := f.forbidden + Literals(conditions);
    forall i | 0 <= i < |conditions|
      ensures conditions[i].literal in words
    {
      assert words[|f.forbidden| + i] == conditions[i].literal;
    }
    if f.numericSeen {
      var n :| f.low <= n <= f.high && n !in f.excluded && !Reaches(conditions, argument, n);
      value := NewSpelling(n, words);
      NewSpellingMeans(n, words);
    } else {
      value := LongWord(words);
      LongWordIsNew(words);
    }
  }

  // ---------------------------------------------------------------------------
  // one guard

  /** Some argument the guard mentions is left no value that fails all the conditions on it. */
  predicate ForcesOne(guard: seq<Condition>, conditions: seq<Condition>) {
    exists a | a in ArgumentsOf(guard) :: FactsForce(FactsOf(guard, a), a, conditions)
  }

  ghost predicate OneHolds(conditions: seq<Condition>, m: ArgMap) {
    exists i :: 0 <= i < |conditions| && Holds(conditions[i], m)
  }

  lemma ForcedHolds(guard: seq<Condition>, conditions: seq<Condition>, m: ArgMap)
    requires AllFoldable(guard) && |guard| <= MAX_CONDITIONS_PER_GUARD && ForcesOne(guard, conditions) &&
             AllHold(guard, m)
    ensures OneHolds(conditions, m)
  {
    var a :| a in ArgumentsOf(guard) && FactsForce(FactsOf(guard, a), a, conditions);
    var value := TextOf(m, a);
    var k :| 0 <= k < |guard| && guard[k].arg == a;
    assert Holds(guard[k], m);
    FactsMean(guard, a, value);
    assert HoldsOn(guard, a, value) by {
      forall k | 0 <= k < |guard| && guard[k].arg == a
        ensures HoldsFor(guard[k], value)
      {
        assert Holds(guard[k], m);
      }
    }
    ForcedValue(FactsOf(guard, a), a, conditions, value);
    var i :| 0 <= i < |conditions| && conditions[i].arg == a && HoldsFor(conditions[i], value);
    assert Holds(conditions[i], m);
  }

  ghost predicate Avoids(guard: seq<Condition>, conditions: seq<Condition>, a: string, value: string) {
    Admits(FactsOf(guard, a), value) && !Meets(conditions, a, value)
  }

  lemma CanAvoid(guard: seq<Condition>, conditions: seq<Condition>, a: string)
    requires AllFoldable(guard) && |guard| <= MAX_CONDITIONS_PER_GUARD && !Impossible(guard)
    requires !ForcesOne(guard, conditions) && a in ArgumentsOf(guard)
    ensures exists value :: Avoids(guard, conditions, a, value)
  {
    var i :| 0 <= i < |guard| && guard[i].arg == a;
    FactsMean(guard, a, "x");
    var value := UnforcedValue(FactsOf(guard, a), a, conditions);
    assert Avoids(guard, conditions, a, value);
  }

  ghost function Avoiding(guard: seq<Condition>, conditions: seq<Condition>, a: string): (value: string)
    requires exists value :: Avoids(guard, conditions, a, value)
    ensures Avoids(guard, conditions, a, value)
  {
    var value :| Avoids(guard, conditions, a, value);
    value
  }

  lemma AvoidingHolds(guard: seq<Condition>, conditions: seq<Condition>, m: ArgMap)
    requires AllFoldable(guard) && |guard| <= MAX_CONDITIONS_PER_GUARD
    requires m.Keys == ArgumentsOf(guard) && forall a | a in m :: Avoids(guard, conditions, a, m[a])
    ensures AllHold(guard, m) && !OneHolds(conditions, m)
  {
    forall i | 0 <= i < |guard|
      ensures Holds(guard[i], m)
    {
      var a := guard[i].arg;
      assert a in ArgumentsOf(guard) && Foldable(guard[i]);
      FactsMean(guard, a, m[a]);
    }
    forall i | 0 <= i < |conditions|
      ensures !Holds(conditions[i], m)
    {
      if conditions[i].arg in m {
        assert Avoids(guard, conditions, conditions[i].arg, m[conditions[i].arg]);
      }
    }
  }

  /** A guard that can hold at all never does without one of a list of conditions exactly when
      it forces one of them, and that can be read off it argument by argument. */
  lemma ForcingIsExact(guard: seq<Condition>, conditions: seq<Condition>)
    requires AllFoldable(guard) && |guard| <= MAX_CONDITIONS_PER_GUARD && !Impossible(guard)
    ensures ForcesOne(guard, conditions) <==> forall m: ArgMap | AllHold(guard, m) :: OneHolds(conditions, m)
  {
    if ForcesOne(guard, conditions) {
      forall m: ArgMap | AllHold(guard, m)
        ensures OneHolds(conditions, m)
      {
        ForcedHolds(guard, conditions, m);
      }
    } else {
      forall a | a in ArgumentsOf(guard)
        ensures exists value :: Avoids(guard, conditions, a, value)
      {
        CanAvoid(guard, conditions, a);
      }
      var m := map a | a in ArgumentsOf(guard) :: Avoiding(guard, conditions, a);
      AvoidingHolds(guard, conditions, m);
    }
  }

  // ---------------------------------------------------------------------------
  // one guard before another

  /** Each of the conditions, on its own. */
  predicate ForcesAll(guard: seq<Condition>, conditions: seq<Condition>) {
    forall i | 0 <= i < |conditions| :: ForcesOne(guard, [conditions[i]])
  }

  /** An earlier guard holds whenever a later one does. */
  ghost predicate AlwaysBefore(earlier: seq<Condition>, later: seq<Condition>) {
    forall m: ArgMap | AllHold(later, m) :: AllHold(earlier, m)
  }

  lemma OneOfOne(c: Condition, m: ArgMap)
    ensures OneHolds([c], m) <==> Holds(c, m)
  {
    if Holds(c, m) {
      assert [c][0] == c;
    }
  }

  /** Whether an earlier guard holds whenever a later one does can be read off the later one,
      condition by condition. */
  lemma ShadowingIsForcing(earlier: seq<Condition>, later: seq<Condition>)
    requires AllFoldable(later) && |later| <= MAX_CONDITIONS_PER_GUARD && !Impossible(later)
    ensures AlwaysBefore(earlier, later) <==> ForcesAll(later, earlier)
  {
    if AlwaysBefore(earlier, later) {
      forall i | 0 <= i < |earlier|
        ensures ForcesOne(later, [earlier[i]])
      {
        forall m: ArgMap | AllHold(later, m)
          ensures OneHolds([earlier[i]], m)
        {
          assert AllHold(earlier, m);
          OneOfOne(earlier[i], m);
        }
        ForcingIsExact(later, [earlier[i]]);
      }
    }
    if ForcesAll(later, earlier) {
      forall m: ArgMap, i | AllHold(later, m) && 0 <= i < |earlier|
        ensures Holds(earlier[i], m)
      {
        ForcedHolds(later, [earlier[i]], m);
        OneOfOne(earlier[i], m);
      }
    }
  }

  /** The linter compares conditions. On one pair of guards it is right exactly when the later
      guard forces the earlier one only by repeating it. */
  lemma ShadowCheckIsRight(earlier: seq<Condition>, later: seq<Condition>)
    requires AllFoldable(later) && |later| <= MAX_CONDITIONS_PER_GUARD && !Impossible(later)
    ensures Covers(earlier, later) ==> AlwaysBefore(earlier, later)
    ensures (Covers(earlier, later) <==> AlwaysBefore(earlier, later)) <==>
            (ForcesAll(later, earlier) ==> Covers(earlier, later))
  {
    ShadowingIsForcing(earlier, later);
    if Covers(earlier, later) {
      forall m: ArgMap | AllHold(later, m)
        ensures AllHold(earlier, m)
      {
        CoveredHolds(earlier, later, m);
      }
    }
  }

  /** An alternative something before it makes dead goes unreported exactly when its guard
      forces all of an earlier one and repeats all of none. */
  lemma {:induction false} ShadowIsMissed(choices: seq<Choice>, s: StateId, e: TriggerId, i: nat)
    requires i < |choices| <= 0xFF && Trusting(choices)
    requires FirstUnguarded(choices, i) == i && choices[i].guard != [] && !Impossible(choices[i].guard)
    ensures var guard := choices[i].guard;
            (exists j :: 0 <= j < i && AlwaysBefore(choices[j].guard, guard))
            && FindingFor(choices, s, e, i) == None <==>
            && (exists j :: 0 <= j < i && ForcesAll(guard, choices[j].guard))
            && (forall j | 0 <= j < i :: !Covers(choices[j].guard, guard))
  {
    var guard := choices[i].guard;
    forall j | 0 <= j < i
      ensures AlwaysBefore(choices[j].guard, guard) <==> ForcesAll(guard, choices[j].guard)
    {
      ShadowingIsForcing(choices[j].guard, guard);
    }
    assert FirstCover(choices, i, guard) == i <==> forall j | 0 <= j < i :: !Covers(choices[j].guard, guard);
  }

  // ---------------------------------------------------------------------------
  // all the earlier guards together

  /** Wherever its guard holds, one before it does. */
  ghost predicate NeverTaken(choices: seq<Choice>, i: nat)
    requires i < |choices|
  {
    forall m: ArgMap | AllHold(choices[i].guard, m) :: Preceded(choices, i, m)
  }

  ghost predicate Preceded(choices: seq<Choice>, i: nat, m: ArgMap)
    requires i <= |choices|
  {
    exists j :: 0 <= j < i && AllHold(choices[j].guard, m)
  }

  /** One condition out of each earlier guard. */
  ghost predicate PickedFrom(choices: seq<Choice>, i: nat, picked: seq<Condition>)
    requires i <= |choices|
  {
    |picked| == i && forall j | 0 <= j < i :: picked[j] in choices[j].guard
  }

  lemma PrecededMeetsPicked(choices: seq<Choice>, i: nat, picked: seq<Condition>, m: ArgMap)
    requires i <= |choices| && Preceded(choices, i, m) && PickedFrom(choices, i, picked)
    ensures OneHolds(picked, m)
  {
    var j :| 0 <= j < i && AllHold(choices[j].guard, m);
    var k :| 0 <= k < |choices[j].guard| && choices[j].guard[k] == picked[j];
    assert Holds(picked[j], m);
  }

  lemma {:induction false} PickFailing(choices: seq<Choice>, i: nat, m: ArgMap) returns (picked: seq<Condition>)
    requires i <= |choices| && !Preceded(choices, i, m)
    ensures PickedFrom(choices, i, picked) && !OneHolds(picked, m)
  {
    picked := [];
    if i > 0 {
      var before := PickFailing(choices, i - 1, m);
      assert !AllHold(choices[i - 1].guard, m);
      var k :| 0 <= k < |choices[i - 1].guard| && !Holds(choices[i - 1].guard[k], m);
      picked := before + [choices[i - 1].guard[k]];
    }
  }

  /** Every way of picking one condition from each earlier guard is forced. */
  ghost predicate AllPicksForced(choices: seq<Choice>, i: nat)
    requires i < |choices|
  {
    forall picked | PickedFrom(choices, i, picked) :: ForcesOne(choices[i].guard, picked)
  }

  /** An alternative is never taken exactly when its guard is impossible, or forces one
      condition of every pick: it cannot hold while something fails in each guard before it. */
  lemma {:induction false} NeverTakenIsForced(choices: seq<Choice>, i: nat)
    requires i < |choices| && Trusting(choices)
    ensures NeverTaken(choices, i) <==> Impossible(choices[i].guard) || AllPicksForced(choices, i)
  {
    var guard := choices[i].guard;
    if Impossible(guard) {
      GuardDeciderIsExact(guard);
    } else if NeverTaken(choices, i) {
      forall picked | PickedFrom(choices, i, picked)
        ensures ForcesOne(guard, picked)
      {
        forall m: ArgMap | AllHold(guard, m)
          ensures OneHolds(picked, m)
        {
          PrecededMeetsPicked(choices, i, picked, m);
        }
        ForcingIsExact(guard, picked);
      }
    } else {
      var m: ArgMap :| AllHold(guard, m) && !Preceded(choices, i, m);
      var picked := PickFailing(choices, i, m);
      ForcingIsExact(guard, picked);
    }
  }

  lemma {:induction false} NothingFoundMeans(choices: seq<Choice>, s: StateId, e: TriggerId, i: nat)
    requires i < |choices| <= 0xFF
    ensures FindingFor(choices, s, e, i) == None <==>
            && (forall j | 0 <= j < i :: choices[j].guard != [])
            && !Impossible(choices[i].guard)
            && (forall j | 0 <= j < i :: !Covers(choices[j].guard, choices[i].guard))
  {
    var guard := choices[i].guard;
    assert FirstUnguarded(choices, i) == i <==> forall j | 0 <= j < i :: choices[j].guard != [];
    assert FirstCover(choices, i, guard) == i <==> forall j | 0 <= j < i :: !Covers(choices[j].guard, guard);
    if guard == [] {
      forall j | 0 <= j < i && choices[j].guard != []
        ensures !Covers(choices[j].guard, guard)
      {
        assert !OccursIn(choices[j].guard[0], guard);
      }
    }
  }

  /** What the linter misses of all that can never be taken: guards that can hold, repeat all
      of none before them, and force every pick. */
  lemma {:induction false} NeverTakenIsMissed(choices: seq<Choice>, s: StateId, e: TriggerId, i: nat)
    requires i < |choices| <= 0xFF && Trusting(choices)
    ensures NeverTaken(choices, i) && FindingFor(choices, s, e, i) == None <==>
            && !Impossible(choices[i].guard) && AllPicksForced(choices, i)
            && (forall j | 0 <= j < i :: choices[j].guard != [] && !Covers(choices[j].guard, choices[i].guard))
  {
    NeverTakenIsForced(choices, i);
    NothingFoundMeans(choices, s, e, i);
  }

  const ABOVE_FIVE := Condition("pedal", Greater, true, 5, "")
  const ABOVE_SIX := Condition("pedal", Greater, true, 6, "")

  lemma PedalParses(c: Condition)
    requires MAX_NAME_LENGTH >= 5 && c in {ABOVE_FIVE, ABOVE_SIX, BELOW_SIX, ABOVE_ZERO}
    ensures ReadGuard(ConditionText(c)) == Guard(c)
  {
    GuardRoundTrip(c);
  }

  lemma PedalsPrint()
    ensures ConditionText(ABOVE_FIVE) == "pedal > 5" && ConditionText(ABOVE_SIX) == "pedal > 6"
  {
    assert Decimal(5) == "5" && Decimal(6) == "6";
  }

  lemma OtherPedalsPrint()
    ensures ConditionText(BELOW_SIX) == "pedal < 6" && ConditionText(ABOVE_ZERO) == "pedal > 0"
  {
    assert Decimal(6) == "6" && Decimal(0) == "0";
  }

  lemma ThreePedalsParse()
    requires MAX_NAME_LENGTH >= 5
    ensures ReadGuard("pedal > 5") == Guard(ABOVE_FIVE) && ReadGuard("pedal < 6") == Guard(BELOW_SIX)
    ensures ReadGuard("pedal > 0") == Guard(ABOVE_ZERO)
  {
    PedalsPrint();
    OtherPedalsPrint();
    PedalParses(ABOVE_FIVE);
    PedalParses(BELOW_SIX);
    PedalParses(ABOVE_ZERO);
  }

  lemma SixForcesFive()
    ensures !Impossible([ABOVE_SIX]) && ForcesAll([ABOVE_SIX], [ABOVE_FIVE]) && !Covers([ABOVE_FIVE], [ABOVE_SIX])
  {
    var later := [ABOVE_SIX];
    assert later[..0] == [];
    assert FactsOf(later, "pedal") == Folded(NO_FACTS, ABOVE_SIX);
    assert later[0].arg == "pedal";
    assert !OccursIn([ABOVE_FIVE][0], later);
  }

  lemma FirstOfTwo(earlier: seq<Condition>, later: seq<Condition>, s: StateId)
    requires earlier != [] && AllFoldable(earlier) && |earlier| <= MAX_CONDITIONS_PER_GUARD
    requires AllFoldable(later) && |later| <= MAX_CONDITIONS_PER_GUARD
    ensures var choices := [Choice(earlier, s), Choice(later, s)];
            Trusting(choices) && FirstUnguarded(choices, 1) == 1 && choices[1].guard == later
  {
    var choices := [Choice(earlier, s), Choice(later, s)];
    assert FirstUnguarded(choices, 0) == 0;
  }

  /** Such a pair exists and loads: `pedal > 6` after `pedal > 5` is dead and not reported. */
  lemma AShadowIsMissed(s: StateId, e: TriggerId)
    requires MAX_NAME_LENGTH >= 5
    ensures ReadGuard("pedal > 5") == Guard(ABOVE_FIVE) && ReadGuard("pedal > 6") == Guard(ABOVE_SIX)
    ensures AlwaysBefore([ABOVE_FIVE], [ABOVE_SIX])
    ensures FindingFor([Choice([ABOVE_FIVE], s), Choice([ABOVE_SIX], s)], s, e, 1) == None
  {
    PedalsPrint();
    PedalParses(ABOVE_FIVE);
    PedalParses(ABOVE_SIX);
    SixForcesFive();
    ShadowingIsForcing([ABOVE_FIVE], [ABOVE_SIX]);
    FirstOfTwo([ABOVE_FIVE], [ABOVE_SIX], s);
    var choices := [Choice([ABOVE_FIVE], s), Choice([ABOVE_SIX], s)];
    assert choices[0].guard == [ABOVE_FIVE];
    ShadowIsMissed(choices, s, e, 1);
  }

  const BELOW_SIX := Condition("pedal", Less, true, 6, "")
  const ABOVE_ZERO := Condition("pedal", Greater, true, 0, "")

  lemma FactsAboveZero()
    ensures FactsOf([ABOVE_ZERO], "pedal") == Folded(NO_FACTS, ABOVE_ZERO)
    ensures "pedal" in ArgumentsOf([ABOVE_ZERO]) && !Impossible([ABOVE_ZERO])
  {
    assert [ABOVE_ZERO][..0] == [];
    assert [ABOVE_ZERO][0].arg == "pedal";
  }

  lemma OneOrTheOther()
    ensures ForcesOne([ABOVE_ZERO], [ABOVE_FIVE, BELOW_SIX])
  {
    FactsAboveZero();
    var both := [ABOVE_FIVE, BELOW_SIX];
    forall n: int
      ensures Reaches(both, "pedal", n)
    {
      assert both[0] == ABOVE_FIVE && both[1] == BELOW_SIX;
    }
  }

  lemma NeitherAlone()
    requires MAX_NAME_LENGTH >= 5
    ensures !AlwaysBefore([ABOVE_FIVE], [ABOVE_ZERO]) && !AlwaysBefore([BELOW_SIX], [ABOVE_ZERO])
  {
    var one, seven: ArgMap := map["pedal" := "1"], map["pedal" := "7"];
    assert [ABOVE_FIVE][0] == ABOVE_FIVE && [BELOW_SIX][0] == BELOW_SIX;
    assert AllHold([ABOVE_ZERO], one) && !AllHold([ABOVE_FIVE], one);
    assert AllHold([ABOVE_ZERO], seven) && !AllHold([BELOW_SIX], seven);
  }

  lemma {:induction false} OnlyPick(choices: seq<Choice>)
    requires |choices| == 3 && choices[2].guard == [ABOVE_ZERO]
    requires choices[0].guard == [ABOVE_FIVE] && choices[1].guard == [BELOW_SIX]
    ensures AllPicksForced(choices, 2)
  {
    forall picked | PickedFrom(choices, 2, picked)
      ensures ForcesOne(choices[2].guard, picked)
    {
      assert picked[0] in choices[0].guard && picked[1] in choices[1].guard;
      assert picked == [ABOVE_FIVE, BELOW_SIX];
      OneOrTheOther();
    }
  }

  lemma {:induction false} DeadTogether(choices: seq<Choice>, s: StateId, e: TriggerId)
    requires MAX_NAME_LENGTH >= 5 && |choices| == 3 && choices[2].guard == [ABOVE_ZERO]
    requires choices[0].guard == [ABOVE_FIVE] && choices[1].guard == [BELOW_SIX]
    ensures NeverTaken(choices, 2) && FindingFor(choices, s, e, 2) == None
  {
    OnlyPick(choices);
    FactsAboveZero();
    NothingRepeated(ABOVE_FIVE);
    NothingRepeated(BELOW_SIX);
    NeverTakenIsMissed(choices, s, e, 2);
  }

  /** Guards can make an alternative dead only together: `pedal > 0` after `pedal > 5` and
      `pedal < 6` is never taken, though neither holds whenever it does. */
  lemma {:induction false} TogetherIsMissed(s: StateId, e: TriggerId)
    requires MAX_NAME_LENGTH >= 5
    ensures ReadGuard("pedal > 5") == Guard(ABOVE_FIVE) && ReadGuard("pedal < 6") == Guard(BELOW_SIX)
    ensures ReadGuard("pedal > 0") == Guard(ABOVE_ZERO)
    ensures !AlwaysBefore([ABOVE_FIVE], [ABOVE_ZERO]) && !AlwaysBefore([BELOW_SIX], [ABOVE_ZERO])
    ensures var choices := [Choice([ABOVE_FIVE], s), Choice([BELOW_SIX], s), Choice([ABOVE_ZERO], s)];
            NeverTaken(choices, 2) && FindingFor(choices, s, e, 2) == None
  {
    ThreePedalsParse();
    NeitherAlone();
    DeadTogether([Choice([ABOVE_FIVE], s), Choice([BELOW_SIX], s), Choice([ABOVE_ZERO], s)], s, e);
  }

  lemma NothingRepeated(c: Condition)
    requires c == ABOVE_FIVE || c == BELOW_SIX
    ensures !Covers([c], [ABOVE_ZERO])
  {
    assert !OccursIn([c][0], [ABOVE_ZERO]);
  }
}
