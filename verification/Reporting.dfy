/** What a full report says: which findings, about what, and in which order. */
module Reporting {
  import opened Types
  import opened Conditions
  import opened Arguments
  import opened MachineTables
  import opened BuildPhase
  import opened Histories
  import opened Guards
  import opened Reachability
  import opened FindingLists
  import opened Safety
  import opened DeadAlternatives

  // ---------------------------------------------------------------------------
  // order

  /** States that cannot be reached come first, then dead ends, then unused triggers, and then
      everything about alternatives. */
  function Section(check: Check): nat {
    match check
    case UnreachableState => 0
    case DeadEndState => 1
    case UnusedTrigger => 2
    case _ => 3
  }

  /** Within a section: by state, then by trigger, then by position. */
  predicate Earlier(f: Finding, g: Finding) {
    || Section(f.check) < Section(g.check)
    || (Section(f.check) == Section(g.check) &&
        (|| f.state < g.state
         || (f.state == g.state &&
             (f.trigger < g.trigger || (f.trigger == g.trigger && f.alternative < g.alternative)))))
  }

  /** Each finding before every later one; so none comes twice. */
  predicate InOrder(list: seq<Finding>) {
    forall i, j | 0 <= i < j < |list| :: Earlier(list[i], list[j])
  }

  /** All of one list before all of another. */
  predicate AllEarlier(a: seq<Finding>, b: seq<Finding>) {
    forall i, j | 0 <= i < |a| && 0 <= j < |b| :: Earlier(a[i], b[j])
  }

  lemma OrderedTogether(a: seq<Finding>, b: seq<Finding>)
    requires InOrder(a) && InOrder(b) && AllEarlier(a, b)
    ensures InOrder(a + b)
  {
  }

  /** Everything in a list is from one section, and about states below a bound. */
  predicate Within(list: seq<Finding>, section: nat, bound: nat) {
    forall i | 0 <= i < |list| :: Section(list[i].check) == section && list[i].state < bound
  }

  lemma {:induction false} UnreachableInOrder(t: Tables, initial: StateId, n: nat)
    requires n <= 0xFFFF
    ensures InOrder(UnreachableStates(t, initial, n)) && Within(UnreachableStates(t, initial, n), 0, n)
  {
    if n > 0 {
      UnreachableInOrder(t, initial, n - 1);
    }
  }

  lemma {:induction false} DeadEndsInOrder(states: map<StateId, StateNode>, n: nat)
    requires n <= 0xFFFF && forall id: StateId :: id < n ==> id in states
    ensures InOrder(DeadEnds(states, n)) && Within(DeadEnds(states, n), 1, n)
  {
    if n > 0 {
      DeadEndsInOrder(states, n - 1);
    }
  }

  predicate OfTriggers(list: seq<Finding>, bound: nat) {
    forall i | 0 <= i < |list| ::
      Section(list[i].check) == 2 && list[i].state == NO_STATE && list[i].trigger < bound
  }

  lemma {:induction false} UnusedInOrder(states: map<StateId, StateNode>, n: nat)
    requires n <= 0xFFFF
    ensures InOrder(UnusedTriggers(states, n)) && OfTriggers(UnusedTriggers(states, n), n)
  {
    if n > 0 {
      UnusedInOrder(states, n - 1);
    }
  }

  /** Everything in a list is about alternatives of one state, for triggers below a bound. */
  predicate OfState(list: seq<Finding>, s: StateId, bound: nat) {
    forall i | 0 <= i < |list| :: Section(list[i].check) == 3 && list[i].state == s && list[i].trigger < bound
  }

  predicate OfList(list: seq<Finding>, s: StateId, e: TriggerId, bound: nat) {
    forall i | 0 <= i < |list| ::
      Section(list[i].check) == 3 && list[i].state == s && list[i].trigger == e && list[i].alternative <= bound
  }

  /** A verdict is about its own place in the list. */
  ghost predicate AboutItsPlace(verdicts: seq<Option<Finding>>, s: StateId, e: TriggerId) {
    forall i | 0 <= i < |verdicts| && verdicts[i].Some? ::
      var f := verdicts[i].value;
      Section(f.check) == 3 && f.state == s && f.trigger == e && f.alternative == i + 1
  }

  lemma {:induction false} PresentInOrder(verdicts: seq<Option<Finding>>, s: StateId, e: TriggerId)
    requires AboutItsPlace(verdicts, s, e)
    ensures InOrder(Present(verdicts)) && OfList(Present(verdicts), s, e, |verdicts|)
  {
    if verdicts != [] {
      PresentInOrder(verdicts[..|verdicts| - 1], s, e);
    }
  }

  lemma VerdictsAboutTheirPlace(choices: seq<Choice>, s: StateId, e: TriggerId)
    requires |choices| <= 0xFF
    ensures AboutItsPlace(Verdicts(choices, s, e), s, e)
  {
    forall i | 0 <= i < |choices| && FindingFor(choices, s, e, i).Some?
      ensures var f := FindingFor(choices, s, e, i).value;
              Section(f.check) == 3 && f.state == s && f.trigger == e && f.alternative == i + 1
    {
    }
  }

  lemma FoundInOrder(t: Tables, s: StateId, e: TriggerId)
    ensures InOrder(FoundAt(t, s, e)) && OfList(FoundAt(t, s, e), s, e, 0xFF)
  {
    var choices := ChoicesAt(t, s, e);
    if |choices| <= 0xFF {
      VerdictsAboutTheirPlace(choices, s, e);
      PresentInOrder(Verdicts(choices, s, e), s, e);
    }
  }

  lemma NextListInOrder(a: seq<Finding>, b: seq<Finding>, s: StateId, e: TriggerId)
    requires InOrder(a) && OfState(a, s, e) && InOrder(b) && OfList(b, s, e, 0xFF)
    ensures InOrder(a + b) && OfState(a + b, s, e + 1)
  {
    OrderedTogether(a, b);
  }

  lemma {:induction false} StateInOrder(t: Tables, s: StateId, n: nat)
    requires n <= 0xFFFF
    ensures InOrder(StateFindings(t, s, n)) && OfState(StateFindings(t, s, n), s, n)
  {
    if n > 0 {
      StateInOrder(t, s, n - 1);
      TriggerInOrder(t, s, n - 1);
    }
  }

  lemma {:induction false} TriggerInOrder(t: Tables, s: StateId, e: TriggerId)
    requires e < 0xFFFF && InOrder(StateFindings(t, s, e)) && OfState(StateFindings(t, s, e), s, e)
    ensures InOrder(StateFindings(t, s, e + 1)) && OfState(StateFindings(t, s, e + 1), s, e + 1)
  {
    FoundInOrder(t, s, e);
    NextListInOrder(StateFindings(t, s, e), FoundAt(t, s, e), s, e);
  }

  lemma NextStateInOrder(a: seq<Finding>, b: seq<Finding>, s: StateId, triggers: nat)
    requires InOrder(a) && Within(a, 3, s) && InOrder(b) && OfState(b, s, triggers)
    ensures InOrder(a + b) && Within(a + b, 3, s + 1)
  {
    OrderedTogether(a, b);
  }

  lemma {:induction false} MachineInOrder(t: Tables, n: nat)
    requires n <= 0xFFFF && |t.triggers| <= 0xFFFF
    ensures InOrder(MachineFindings(t, n)) && Within(MachineFindings(t, n), 3, n)
  {
    if n > 0 {
      MachineInOrder(t, n - 1);
      StateInOrder(t, n - 1, |t.triggers|);
      NextStateInOrder(MachineFindings(t, n - 1), StateFindings(t, n - 1, |t.triggers|), n - 1, |t.triggers|);
    }
  }

  lemma ThreeInOrder(a: seq<Finding>, b: seq<Finding>, c: seq<Finding>, n: nat, k: nat)
    requires InOrder(a) && InOrder(b) && InOrder(c) && Within(a, 0, n) && Within(b, 1, n) && OfTriggers(c, k)
    ensures InOrder(a + b + c) && forall i | 0 <= i < |a + b + c| :: Section((a + b + c)[i].check) < 3
  {
    OrderedTogether(a, b);
    OrderedTogether(a + b, c);
  }

  lemma {:induction false} DeclarationsInOrder(t: Tables, initial: StateId)
    requires Invariant(t)
    ensures var found := DeclarationFindings(t, initial);
            InOrder(found) && forall i | 0 <= i < |found| :: Section(found[i].check) < 3
  {
    IdsAreDense(t);
    var first := if initial in t.states then UnreachableStates(t, initial, |t.states|) else [];
    UnreachableInOrder(t, initial, |t.states|);
    DeadEndsInOrder(t.states, |t.states|);
    UnusedInOrder(t.states, |t.triggers|);
    ThreeInOrder(first, DeadEnds(t.states, |t.states|), UnusedTriggers(t.states, |t.triggers|), |t.states|,
                 |t.triggers|);
  }

  /** A full report is in order: states that cannot be reached, dead ends, unused triggers, and
      then alternatives; ids and positions ascend in each, and nothing comes twice. */
  lemma {:induction false} ReportIsInOrder(t: Tables, initial: StateId)
    requires Invariant(t)
    ensures InOrder(AllFindings(t, initial))
  {
    IdsAreDense(t);
    DeclarationsInOrder(t, initial);
    MachineInOrder(t, |t.states|);
    OrderedTogether(DeclarationFindings(t, initial), MachineFindings(t, |t.states|));
  }

  // ---------------------------------------------------------------------------
  // what is said of states and triggers

  /** A full report says of states and triggers exactly which cannot be reached, cannot be left and
      are not listed anywhere. */
  lemma {:induction false} DeclarationsAreReported(t: Tables, initial: StateId, f: Finding)
    requires Invariant(t) && f.alternative == 0
    ensures f in AllFindings(t, initial) <==>
            match f.check
            case UnreachableState =>
              && f == Finding(UnreachableState, f.state, NO_TRIGGER, 0, 0)
              && initial in t.states && f.state in t.states && !Reachable(t, initial, f.state)
            case DeadEndState =>
              && f == Finding(DeadEndState, f.state, NO_TRIGGER, 0, 0)
              && f.state in t.states && !Leaves(t.states[f.state], f.state)
            case UnusedTrigger =>
              && f == Finding(UnusedTrigger, NO_STATE, f.trigger, 0, 0)
              && f.trigger in t.triggers && !Used(t.states, f.trigger)
            case _ => false
  {
    AllFindingsSplit(t, initial, f);
    NextIdIsNew(t);
    UnreachableStatesMean(t, initial, |t.states|, f);
    DeadEndsMean(t.states, |t.states|, f);
    UnusedTriggersMean(t.states, |t.triggers|, f);
  }

  // ---------------------------------------------------------------------------
  // what is said of an alternative

  /** The first of the choices before a position that has no guard. */
  predicate FirstFallback(choices: seq<Choice>, i: nat, j: int) {
    0 <= j < i <= |choices| && choices[j].guard == [] && forall k | 0 <= k < j :: choices[k].guard != []
  }

  /** The first whose conditions are all repeated in a guard. */
  predicate FirstRepeated(choices: seq<Choice>, i: nat, guard: seq<Condition>, j: int) {
    && 0 <= j < i <= |choices| && Covers(choices[j].guard, guard)
    && forall k | 0 <= k < j :: !Covers(choices[k].guard, guard)
  }

  /** Some earlier choice is taken whenever this one could be: it has no guard. */
  predicate HasFallback(choices: seq<Choice>, i: nat)
    requires i <= |choices|
  {
    exists j :: 0 <= j < i && choices[j].guard == []
  }

  ghost predicate Satisfiable(guard: seq<Condition>) {
    exists m: ArgMap :: AllHold(guard, m)
  }

  /** What there is to say about an alternative, and which earlier one it is to be blamed on. */
  ghost predicate Deserves(choices: seq<Choice>, i: nat, check: Check, other: nat)
    requires i < |choices|
  {
    var guard := choices[i].guard;
    match check
    case UnreachableAlternative => FirstFallback(choices, i, other - 1)
    case ImpossibleGuard => other == 0 && !HasFallback(choices, i) && !Satisfiable(guard)
    case ShadowedAlternative =>
      !HasFallback(choices, i) && Satisfiable(guard) && FirstRepeated(choices, i, guard, other - 1)
    case _ => false
  }

  lemma {:induction false} FallbackIs(choices: seq<Choice>, i: nat, j: int)
    requires i <= |choices|
    ensures FirstFallback(choices, i, j) <==> j == FirstUnguarded(choices, i) < i
    ensures HasFallback(choices, i) <==> FirstUnguarded(choices, i) < i
  {
  }

  lemma {:induction false} RepeatedIs(choices: seq<Choice>, i: nat, guard: seq<Condition>, j: int)
    requires i <= |choices|
    ensures FirstRepeated(choices, i, guard, j) <==> j == FirstCover(choices, i, guard) < i
  {
  }

  lemma NothingIsRepeatedBy(choices: seq<Choice>, i: nat)
    requires i <= |choices| && !HasFallback(choices, i)
    ensures forall j | 0 <= j < i :: !Covers(choices[j].guard, [])
  {
    forall j | 0 <= j < i
      ensures !Covers(choices[j].guard, [])
    {
      assert !OccursIn(choices[j].guard[0], []);
    }
  }

  lemma {:induction false} FallbackIsDeserved(choices: seq<Choice>, f: Finding)
    requires 0 < f.alternative <= |choices| <= 0xFF && HasFallback(choices, f.alternative - 1)
    ensures FindingFor(choices, f.state, f.trigger, f.alternative - 1) == Some(f) <==>
            Deserves(choices, f.alternative - 1, f.check, f.other)
  {
    FallbackIs(choices, f.alternative - 1, f.other as int - 1);
  }

  lemma {:induction false} NoGuardDeservesNothing(choices: seq<Choice>, f: Finding)
    requires 0 < f.alternative <= |choices| <= 0xFF && !HasFallback(choices, f.alternative - 1)
    requires choices[f.alternative - 1].guard == []
    ensures FindingFor(choices, f.state, f.trigger, f.alternative - 1) == None
    ensures !Deserves(choices, f.alternative - 1, f.check, f.other)
  {
    var i := f.alternative - 1;
    FallbackIs(choices, i, f.other as int - 1);
    NothingIsRepeatedBy(choices, i);
    assert AllHold(choices[i].guard, map[]);
  }

  lemma {:induction false} GuardIsDeserved(choices: seq<Choice>, f: Finding, i: nat)
    requires i < |choices| <= 0xFF && f.alternative == i + 1 && !HasFallback(choices, i)
    requires choices[i].guard != [] && (Impossible(choices[i].guard) <==> !Satisfiable(choices[i].guard))
    ensures FindingFor(choices, f.state, f.trigger, i) == Some(f) <==> Deserves(choices, i, f.check, f.other)
  {
    FallbackIs(choices, i, f.other as int - 1);
    RepeatedIs(choices, i, choices[i].guard, f.other as int - 1);
    GuardFindingIs(choices, f, i);
  }

  lemma {:induction false} GuardFindingIs(choices: seq<Choice>, f: Finding, i: nat)
    requires i < |choices| <= 0xFF && f.alternative == i + 1
    requires FirstUnguarded(choices, i) == i && choices[i].guard != []
    ensures var cover := FirstCover(choices, i, choices[i].guard);
            FindingFor(choices, f.state, f.trigger, i) == Some(f) <==>
            if Impossible(choices[i].guard) then f.check == ImpossibleGuard && f.other == 0
            else cover < i && f.check == ShadowedAlternative && f.other == cover + 1
  {
  }

  lemma {:induction false} VerdictIsDeserved(choices: seq<Choice>, f: Finding)
    requires |choices| <= 0xFF && Trusting(choices) && f.alternative != 0
    ensures VerdictIn(choices, f) <==>
            f.alternative <= |choices| && Deserves(choices, f.alternative - 1, f.check, f.other)
  {
    if f.alternative <= |choices| {
      FindingIsDeserved(choices, f);
    }
  }

  lemma {:induction false} FindingIsDeserved(choices: seq<Choice>, f: Finding)
    requires 0 < f.alternative <= |choices| <= 0xFF && Trusting(choices)
    ensures FindingFor(choices, f.state, f.trigger, f.alternative - 1) == Some(f) <==>
            Deserves(choices, f.alternative - 1, f.check, f.other)
  {
    if HasFallback(choices, f.alternative - 1) {
      FallbackIsDeserved(choices, f);
    } else if choices[f.alternative - 1].guard == [] {
      NoGuardDeservesNothing(choices, f);
    } else {
      GuardDeciderIsExact(choices[f.alternative - 1].guard);
      GuardIsDeserved(choices, f, f.alternative - 1);
    }
  }

  lemma TrustedLists(t: Tables, s: StateId, e: TriggerId)
    requires NodesSound(t) && PoolFoldable(t)
    ensures |ChoicesAt(t, s, e)| <= 0xFF && Trusting(ChoicesAt(t, s, e))
  {
    ListIsShort(t, s, e);
    if ChoicesAt(t, s, e) != [] {
      ChoicesAreTrusting(t, s, e);
    }
  }

  /** A full report says of an alternative exactly what it deserves: that an earlier one without
      a guard is always taken first, naming the first such; or else that no arguments satisfy
      its guard; or else that it repeats all of an earlier guard, naming the first such. */
  lemma AlternativesAreReported(t: Tables, initial: StateId, f: Finding)
    requires Invariant(t) && PoolFoldable(t) && f.alternative != 0
    ensures var choices := ChoicesAt(t, f.state, f.trigger);
            f in AllFindings(t, initial) <==>
            f.alternative <= |choices| && Deserves(choices, f.alternative - 1, f.check, f.other)
  {
    AlternativeIsExact(t, initial, f);
    TrustedLists(t, f.state, f.trigger);
    VerdictIsDeserved(ChoicesAt(t, f.state, f.trigger), f);
  }

  lemma SameIsEqual(c: Condition, d: Condition)
    requires WellFormed(c) && WellFormed(d)
    ensures SameCondition(c, d) <==> c == d
  {
  }

  lemma OccursIsIn(c: Condition, guard: seq<Condition>)
    requires WellFormed(c) && AllWellFormed(guard)
    ensures OccursIn(c, guard) <==> c in guard
  {
    forall j | 0 <= j < |guard|
      ensures SameCondition(c, guard[j]) <==> c == guard[j]
    {
      SameIsEqual(c, guard[j]);
    }
  }

  /** For parsed guards, repeating is having the same conditions among one's own. */
  lemma RepeatingIsContaining(earlier: seq<Condition>, later: seq<Condition>)
    requires AllWellFormed(earlier) && AllWellFormed(later)
    ensures Covers(earlier, later) <==> forall c | c in earlier :: c in later
  {
    forall i | 0 <= i < |earlier|
      ensures earlier[i] in earlier && (OccursIn(earlier[i], later) <==> earlier[i] in later)
    {
      OccursIsIn(earlier[i], later);
    }
  }
}
