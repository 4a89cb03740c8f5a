/** What the linter should find, said without a report that can run out of room. */
module FindingLists {
  import opened Types
  import opened Conditions
  import opened MachineTables
  import opened BuildPhase
  import opened Histories
  import opened Reachability
  import opened Guards

  datatype Check =
    | UnreachableState
    | DeadEndState
    | UnusedTrigger
    | UnreachableAlternative
    | ImpossibleGuard
    | ShadowedAlternative

  /** Positions are 1-based; 0 and the invalid ids stand for "does not apply". */
  datatype Finding = Finding(check: Check, state: StateId, trigger: TriggerId, alternative: uint8, other: uint8)

  function StateFinding(check: Check, state: StateId): Finding {
    Finding(check, state, NO_TRIGGER, 0, 0)
  }

  // ---------------------------------------------------------------------------
  // states and triggers

  ghost function UnreachableStates(t: Tables, initial: StateId, n: nat): seq<Finding>
    requires n <= 0xFFFF
  {
    if n == 0 then []
    else
      UnreachableStates(t, initial, n - 1) +
      if Reachable(t, initial, n - 1) then [] else [StateFinding(UnreachableState, n - 1)]
  }

  /** Some alternative leads from here to a different state. */
  ghost predicate Leaves(node: StateNode, id: StateId) {
    exists e, k :: e in node.transitions && 0 <= k < |node.transitions[e]| && node.transitions[e][k].target != id
  }

  ghost function DeadEnds(states: map<StateId, StateNode>, n: nat): seq<Finding>
    requires n <= 0xFFFF && forall id: StateId :: id < n ==> id in states
  {
    if n == 0 then []
    else
      DeadEnds(states, n - 1) +
      if Leaves(states[n - 1], n - 1) then [] else [StateFinding(DeadEndState, n - 1)]
  }

  ghost predicate Used(states: map<StateId, StateNode>, e: TriggerId) {
    exists s :: s in states && e in states[s].transitions
  }

  ghost function UnusedTriggers(states: map<StateId, StateNode>, n: nat): seq<Finding>
    requires n <= 0xFFFF
  {
    if n == 0 then []
    else
      UnusedTriggers(states, n - 1) +
      if Used(states, n - 1) then [] else [Finding(UnusedTrigger, NO_STATE, n - 1, 0, 0)]
  }

  // ---------------------------------------------------------------------------
  // alternatives

  predicate SameCondition(a: Condition, b: Condition) {
    && a.arg == b.arg && a.op == b.op && a.numeric == b.numeric
    && if a.numeric then a.number == b.number else a.literal == b.literal
  }

  predicate OccursIn(c: Condition, guard: seq<Condition>) {
    exists j :: 0 <= j < |guard| && SameCondition(c, guard[j])
  }

  /** Every condition of the earlier guard also appears in the later one. */
  predicate Covers(earlier: seq<Condition>, later: seq<Condition>) {
    forall i | 0 <= i < |earlier| :: OccursIn(earlier[i], later)
  }

  /** The first choice before position `i` that has no guard. */
  function FirstUnguarded(choices: seq<Choice>, i: nat): (j: nat)
    requires i <= |choices|
    ensures j <= i && (j < i ==> choices[j].guard == []) && forall k | 0 <= k < j :: choices[k].guard != []
  {
    if i == 0 then 0
    else
      var j := FirstUnguarded(choices, i - 1);
      if j < i - 1 then j else if choices[i - 1].guard == [] then i - 1 else i
  }

  /** The first choice before position `n` whose conditions all appear in the guard. */
  function FirstCover(choices: seq<Choice>, n: nat, guard: seq<Condition>): (j: nat)
    requires n <= |choices|
    ensures j <= n && (j < n ==> Covers(choices[j].guard, guard))
    ensures forall k | 0 <= k < j :: !Covers(choices[k].guard, guard)
  {
    if n == 0 then 0
    else
      var j := FirstCover(choices, n - 1, guard);
      if j < n - 1 then j else if Covers(choices[n - 1].guard, guard) then n - 1 else n
  }

  /** What is wrong with a guard that something could reach: it cannot hold, or an earlier one
      holds whenever it does. */
  ghost function GuardFinding(choices: seq<Choice>, s: StateId, e: TriggerId, i: nat): Option<Finding>
    requires i < |choices| <= 0xFF
  {
    var guard := choices[i].guard;
    if Impossible(guard) then Some(Finding(ImpossibleGuard, s, e, i + 1, 0))
    else
      var cover := FirstCover(choices, i, guard);
      if cover < i then Some(Finding(ShadowedAlternative, s, e, i + 1, cover + 1)) else None
  }

  /** The one finding an alternative can give rise to, the most fundamental first. */
  ghost function FindingFor(choices: seq<Choice>, s: StateId, e: TriggerId, i: nat): Option<Finding>
    requires i < |choices| <= 0xFF
  {
    var fallback := FirstUnguarded(choices, i);
    if fallback < i then Some(Finding(UnreachableAlternative, s, e, i + 1, fallback + 1))
    else if choices[i].guard == [] then None
    else GuardFinding(choices, s, e, i)
  }

  /** The values that are there, in order. */
  function Present<T>(options: seq<Option<T>>): seq<T> {
    if options == [] then []
    else
      var last := options[|options| - 1];
      Present(options[..|options| - 1]) + if last.Some? then [last.value] else []
  }

  lemma {:induction false} PresentMeans<T>(options: seq<Option<T>>, x: T)
    ensures x in Present(options) <==> Some(x) in options
  {
    if options != [] {
      PresentMeans(options[..|options| - 1], x);
    }
  }

  ghost function Verdicts(choices: seq<Choice>, s: StateId, e: TriggerId): (r: seq<Option<Finding>>)
    requires |choices| <= 0xFF
    ensures |r| == |choices|
  {
    seq(|choices|, i requires 0 <= i < |choices| => FindingFor(choices, s, e, i))
  }

  ghost function ListFindings(choices: seq<Choice>, s: StateId, e: TriggerId): seq<Finding>
    requires |choices| <= 0xFF
  {
    Present(Verdicts(choices, s, e))
  }

  /** What there is to find in one list of the machine, which is never longer than 255. */
  ghost function FoundAt(t: Tables, s: StateId, e: TriggerId): seq<Finding> {
    var choices := ChoicesAt(t, s, e);
    if |choices| <= 0xFF then ListFindings(choices, s, e) else []
  }

  /** The findings about one state's triggers below `n`, in ascending order. */
  ghost function StateFindings(t: Tables, s: StateId, n: nat): seq<Finding>
    requires n <= 0xFFFF
  {
    if n == 0 then [] else StateFindings(t, s, n - 1) + FoundAt(t, s, n - 1)
  }

  ghost function MachineFindings(t: Tables, n: nat): seq<Finding>
    requires n <= 0xFFFF && |t.triggers| <= 0xFFFF
  {
    if n == 0 then [] else MachineFindings(t, n - 1) + StateFindings(t, n - 1, |t.triggers|)
  }

  lemma ListIsShort(t: Tables, s: StateId, e: TriggerId)
    requires NodesSound(t)
    ensures |ChoicesAt(t, s, e)| <= 0xFF
  {
    if s in t.states && e in t.states[s].transitions {
      ListInBounds(t, s, e);
    }
  }

  /** The bounds that let ids be counted through. */
  lemma IdsAreDense(t: Tables)
    requires StatesIndexed(t) && TriggersIndexed(t)
    ensures |t.states| <= 0xFFFF && |t.triggers| <= 0xFFFF
    ensures forall id: StateId :: id < |t.states| ==> id in t.states
  {
    NextIdIsNew(t);
  }

  /** The findings about a state or a trigger. Reachability is left out when there is no initial
      state to ask it of. */
  ghost function DeclarationFindings(t: Tables, initial: StateId): seq<Finding>
    requires Invariant(t)
  {
    IdsAreDense(t);
    (if initial in t.states then UnreachableStates(t, initial, |t.states|) else []) +
    DeadEnds(t.states, |t.states|) +
    UnusedTriggers(t.states, |t.triggers|)
  }

  /** Everything there is to find, in the order it is looked for. */
  ghost function AllFindings(t: Tables, initial: StateId): seq<Finding>
    requires Invariant(t)
  {
    IdsAreDense(t);
    DeclarationFindings(t, initial) + MachineFindings(t, |t.states|)
  }

  // ---------------------------------------------------------------------------
  // membership

  lemma {:induction false} UnreachableStatesMean(t: Tables, initial: StateId, n: nat, f: Finding)
    requires n <= 0xFFFF
    ensures f in UnreachableStates(t, initial, n) <==>
            f.state < n && f == StateFinding(UnreachableState, f.state) && !Reachable(t, initial, f.state)
  {
    if n > 0 {
      UnreachableStatesMean(t, initial, n - 1, f);
    }
  }

  lemma {:induction false} DeadEndsMean(states: map<StateId, StateNode>, n: nat, f: Finding)
    requires n <= 0xFFFF && forall id: StateId :: id < n ==> id in states
    ensures f in DeadEnds(states, n) <==>
            f.state < n && f == StateFinding(DeadEndState, f.state) && !Leaves(states[f.state], f.state)
  {
    if n > 0 {
      DeadEndsMean(states, n - 1, f);
    }
  }

  lemma {:induction false} UnusedTriggersMean(states: map<StateId, StateNode>, n: nat, f: Finding)
    requires n <= 0xFFFF
    ensures f in UnusedTriggers(states, n) <==>
            f.trigger < n && f == Finding(UnusedTrigger, NO_STATE, f.trigger, 0, 0) && !Used(states, f.trigger)
  {
    if n > 0 {
      UnusedTriggersMean(states, n - 1, f);
    }
  }

  lemma FindingForShape(choices: seq<Choice>, s: StateId, e: TriggerId, i: nat)
    requires i < |choices| <= 0xFF
    ensures var found := FindingFor(choices, s, e, i);
            found.Some? ==> found.value.state == s && found.value.trigger == e && found.value.alternative == i + 1
  {
  }

  /** A finding that is the verdict on the alternative it names. */
  ghost predicate VerdictIn(choices: seq<Choice>, f: Finding) {
    && 0 < f.alternative <= |choices| <= 0xFF
    && FindingFor(choices, f.state, f.trigger, f.alternative - 1) == Some(f)
  }

  /** Each finding names the list and its own position in it. */
  predicate Placed(verdicts: seq<Option<Finding>>, s: StateId, e: TriggerId) {
    forall i | 0 <= i < |verdicts| && verdicts[i].Some? ::
      verdicts[i].value.state == s && verdicts[i].value.trigger == e && verdicts[i].value.alternative == i + 1
  }

  lemma PlacedAt(verdicts: seq<Option<Finding>>, s: StateId, e: TriggerId, f: Finding, i: nat)
    requires Placed(verdicts, s, e) && i < |verdicts| && verdicts[i] == Some(f)
    ensures f.state == s && f.trigger == e && f.alternative == i + 1
  {
  }

  lemma {:induction false} PlacedMeans(verdicts: seq<Option<Finding>>, s: StateId, e: TriggerId, f: Finding)
    requires Placed(verdicts, s, e)
    ensures f in Present(verdicts) <==>
            && f.state == s && f.trigger == e && 0 < f.alternative <= |verdicts|
            && verdicts[f.alternative - 1] == Some(f)
  {
    PresentMeans(verdicts, f);
    if Some(f) in verdicts {
      var i :| 0 <= i < |verdicts| && verdicts[i] == Some(f);
      PlacedAt(verdicts, s, e, f, i);
    }
  }

  lemma VerdictsArePlaced(choices: seq<Choice>, s: StateId, e: TriggerId)
    requires |choices| <= 0xFF
    ensures Placed(Verdicts(choices, s, e), s, e)
  {
    forall i | 0 <= i < |choices| && FindingFor(choices, s, e, i).Some?
      ensures FindingFor(choices, s, e, i).value.state == s && FindingFor(choices, s, e, i).value.trigger == e
      ensures FindingFor(choices, s, e, i).value.alternative == i + 1
    {
      FindingForShape(choices, s, e, i);
    }
  }

  /** A finding is in a list's findings exactly when it is the verdict on the alternative it
      names. */
  lemma ListFindingsMean(choices: seq<Choice>, s: StateId, e: TriggerId, f: Finding)
    requires |choices| <= 0xFF
    ensures f in ListFindings(choices, s, e) <==> f.state == s && f.trigger == e && VerdictIn(choices, f)
  {
    VerdictsArePlaced(choices, s, e);
    PlacedMeans(Verdicts(choices, s, e), s, e, f);
  }

  /** The verdict on one alternative of the machine. */
  ghost predicate VerdictOn(t: Tables, f: Finding) {
    VerdictIn(ChoicesAt(t, f.state, f.trigger), f)
  }

  lemma FoundAtMeans(t: Tables, s: StateId, e: TriggerId, f: Finding)
    ensures f in FoundAt(t, s, e) <==> f.state == s && f.trigger == e && VerdictOn(t, f)
  {
    var choices := ChoicesAt(t, s, e);
    if |choices| <= 0xFF {
      ListFindingsMean(choices, s, e, f);
    }
  }

  lemma {:induction false} StateFindingsAre(t: Tables, s: StateId, n: nat, f: Finding, verdict: bool)
    requires n <= 0xFFFF
    requires forall e: TriggerId :: f in FoundAt(t, s, e) <==> f.state == s && f.trigger == e && verdict
    ensures f in StateFindings(t, s, n) <==> f.state == s && f.trigger < n && verdict
  {
    if n > 0 {
      StateFindingsAre(t, s, n - 1, f, verdict);
    }
  }

  lemma {:induction false} StateFindingsMean(t: Tables, s: StateId, n: nat, f: Finding)
    requires n <= 0xFFFF
    ensures f in StateFindings(t, s, n) <==> f.state == s && f.trigger < n && VerdictOn(t, f)
  {
    forall e: TriggerId
      ensures f in FoundAt(t, s, e) <==> f.state == s && f.trigger == e && VerdictOn(t, f)
    {
      FoundAtMeans(t, s, e, f);
    }
    StateFindingsAre(t, s, n, f, VerdictOn(t, f));
  }

  lemma {:induction false} MachineFindingsAre(t: Tables, n: nat, f: Finding, verdict: bool)
    requires n <= 0xFFFF && |t.triggers| <= 0xFFFF
    requires forall s: StateId :: f in StateFindings(t, s, |t.triggers|) <==> f.state == s && verdict
    ensures f in MachineFindings(t, n) <==> f.state < n && verdict
  {
    if n > 0 {
      MachineFindingsAre(t, n - 1, f, verdict);
    }
  }

  /** What is reported about alternatives is the verdict on each, and nothing else. */
  lemma {:induction false} MachineFindingsMean(t: Tables, n: nat, f: Finding)
    requires n <= 0xFFFF && |t.triggers| <= 0xFFFF
    ensures f in MachineFindings(t, n) <==> f.state < n && f.trigger < |t.triggers| && VerdictOn(t, f)
  {
    var verdict := f.trigger < |t.triggers| && VerdictOn(t, f);
    forall s: StateId
      ensures f in StateFindings(t, s, |t.triggers|) <==> f.state == s && verdict
    {
      StateFindingsMean(t, s, |t.triggers|, f);
    }
    MachineFindingsAre(t, n, f, verdict);
  }
}

/** The same verdicts, read straight off slices of the pool, dangling ones included. */
module SliceFindings {
  import opened Types
  import opened Conditions
  import opened MachineTables
  import opened Histories
  import opened Guards
  import opened FindingLists

  /** Whether a condition occurs, as written, in what the pool has of a slice. */
  predicate OccursInSlice(pool: seq<Condition>, c: Condition, a: Alternative) {
    exists j :: a.first <= j < a.first + a.count && MatchesAt(pool, c, j)
  }

  predicate MatchesAt(pool: seq<Condition>, c: Condition, j: nat) {
    j < |pool| && SameCondition(c, pool[j])
  }

  /** Every condition of the earlier slice is there and also occurs in the later one. */
  predicate SliceCovers(pool: seq<Condition>, earlier: Alternative, later: Alternative) {
    forall i | earlier.first <= i < earlier.first + earlier.count :: CoveredAt(pool, i, later)
  }

  predicate CoveredAt(pool: seq<Condition>, i: nat, later: Alternative) {
    i < |pool| && OccursInSlice(pool, pool[i], later)
  }

  predicate SliceFits(pool: seq<Condition>, a: Alternative) {
    a.first + a.count <= |pool|
  }

  predicate SlicesFit(pool: seq<Condition>, list: seq<Alternative>) {
    |list| <= 0xFF && forall k | 0 <= k < |list| :: SliceFits(pool, list[k])
  }

  ghost predicate SliceImpossible(pool: seq<Condition>, a: Alternative) {
    SliceFits(pool, a) && Impossible(GuardOf(pool, a))
  }

  /** The first alternative before position `i` without conditions, 1-based, or 0. */
  function Fallback(list: seq<Alternative>, i: nat): (r: nat)
    requires i <= |list|
    ensures r <= i
  {
    if i == 0 then 0
    else if Fallback(list, i - 1) != 0 then Fallback(list, i - 1)
    else if list[i - 1].count == 0 then i
    else 0
  }

  /** The first alternative before position `n` that covers a slice, or `n`. */
  function FirstSliceCover(pool: seq<Condition>, list: seq<Alternative>, n: nat, later: Alternative): (j: nat)
    requires n <= |list|
    ensures j <= n
  {
    if n == 0 then 0
    else
      var j := FirstSliceCover(pool, list, n - 1, later);
      if j < n - 1 then j else if SliceCovers(pool, list[n - 1], later) then n - 1 else n
  }

  ghost function SliceGuardFinding(pool: seq<Condition>, list: seq<Alternative>, s: StateId, e: TriggerId, i: nat)
    : Option<Finding>
    requires i < |list| <= 0xFF
  {
    if SliceImpossible(pool, list[i]) then Some(Finding(ImpossibleGuard, s, e, i + 1, 0))
    else
      var cover := FirstSliceCover(pool, list, i, list[i]);
      if cover < i then Some(Finding(ShadowedAlternative, s, e, i + 1, cover + 1)) else None
  }

  /** What there is to say about one alternative. */
  ghost function SliceFinding(pool: seq<Condition>, list: seq<Alternative>, s: StateId, e: TriggerId, i: nat)
    : Option<Finding>
    requires i < |list| <= 0xFF
  {
    if Fallback(list, i) != 0 then Some(Finding(UnreachableAlternative, s, e, i + 1, Fallback(list, i)))
    else if list[i].count == 0 then None
    else SliceGuardFinding(pool, list, s, e, i)
  }

  ghost function SliceVerdicts(pool: seq<Condition>, list: seq<Alternative>, s: StateId, e: TriggerId)
    : (r: seq<Option<Finding>>)
    requires |list| <= 0xFF
    ensures |r| == |list|
  {
    seq(|list|, i requires 0 <= i < |list| => SliceFinding(pool, list, s, e, i))
  }

  // ---------------------------------------------------------------------------
  // slices that fit mean what their guards mean

  lemma OccursInGuard(pool: seq<Condition>, c: Condition, a: Alternative)
    requires SliceFits(pool, a)
    ensures OccursInSlice(pool, c, a) <==> OccursIn(c, GuardOf(pool, a))
  {
    var guard := GuardOf(pool, a);
    if OccursIn(c, guard) {
      var j :| 0 <= j < |guard| && SameCondition(c, guard[j]);
      assert MatchesAt(pool, c, a.first + j);
    }
    if OccursInSlice(pool, c, a) {
      var j :| a.first <= j < a.first + a.count && MatchesAt(pool, c, j);
      assert guard[j - a.first] == pool[j];
    }
  }

  lemma SliceCoversMeans(pool: seq<Condition>, earlier: Alternative, later: Alternative)
    requires SliceFits(pool, earlier) && SliceFits(pool, later)
    ensures SliceCovers(pool, earlier, later) <==> Covers(GuardOf(pool, earlier), GuardOf(pool, later))
  {
    var guard, other := GuardOf(pool, earlier), GuardOf(pool, later);
    forall i | earlier.first <= i < earlier.first + earlier.count
      ensures CoveredAt(pool, i, later) <==> OccursIn(guard[i - earlier.first], other)
    {
      OccursInGuard(pool, pool[i], later);
    }
    SliceIsShifted(pool, earlier, later, guard, other);
  }

  lemma SliceIsShifted(pool: seq<Condition>, earlier: Alternative, later: Alternative,
                       guard: seq<Condition>, other: seq<Condition>)
    requires |guard| == earlier.count
    requires forall i | earlier.first <= i < earlier.first + earlier.count ::
               CoveredAt(pool, i, later) <==> OccursIn(guard[i - earlier.first], other)
    ensures SliceCovers(pool, earlier, later) <==> Covers(guard, other)
  {
    if SliceCovers(pool, earlier, later) {
      forall k | 0 <= k < |guard|
        ensures OccursIn(guard[k], other)
      {
        assert CoveredAt(pool, earlier.first + k, later);
      }
    }
  }

  lemma {:induction false} FallbackMeans(pool: seq<Condition>, list: seq<Alternative>, i: nat)
    requires SlicesFit(pool, list) && i <= |list|
    ensures var j := FirstUnguarded(Choices(pool, list), i);
            Fallback(list, i) == if j < i then j + 1 else 0
  {
    if i > 0 {
      FallbackMeans(pool, list, i - 1);
      assert Choices(pool, list)[i - 1] == ChoiceOf(pool, list[i - 1]);
    }
  }

  lemma {:induction false} FirstSliceCoverMeans(pool: seq<Condition>, list: seq<Alternative>, n: nat,
                                                later: Alternative)
    requires SlicesFit(pool, list) && n <= |list| && SliceFits(pool, later)
    ensures FirstSliceCover(pool, list, n, later) == FirstCover(Choices(pool, list), n, GuardOf(pool, later))
  {
    if n > 0 {
      FirstSliceCoverMeans(pool, list, n - 1, later);
      SliceCoversMeans(pool, list[n - 1], later);
      assert Choices(pool, list)[n - 1] == ChoiceOf(pool, list[n - 1]);
    }
  }

  lemma SliceGuardFindingMeans(pool: seq<Condition>, list: seq<Alternative>, s: StateId, e: TriggerId, i: nat)
    requires SlicesFit(pool, list) && i < |list|
    ensures SliceGuardFinding(pool, list, s, e, i) == GuardFinding(Choices(pool, list), s, e, i)
  {
    assert Choices(pool, list)[i] == ChoiceOf(pool, list[i]);
    FirstSliceCoverMeans(pool, list, i, list[i]);
  }

  lemma SliceFindingMeans(pool: seq<Condition>, list: seq<Alternative>, s: StateId, e: TriggerId, i: nat)
    requires SlicesFit(pool, list) && i < |list|
    ensures SliceFinding(pool, list, s, e, i) == FindingFor(Choices(pool, list), s, e, i)
  {
    FallbackMeans(pool, list, i);
    SliceGuardFindingMeans(pool, list, s, e, i);
    assert Choices(pool, list)[i] == ChoiceOf(pool, list[i]);
  }

  /** On slices that fit, as all do in a machine that was built, these are the verdicts on the
      guards. */
  lemma SliceVerdictsMean(pool: seq<Condition>, list: seq<Alternative>, s: StateId, e: TriggerId)
    requires SlicesFit(pool, list)
    ensures SliceVerdicts(pool, list, s, e) == Verdicts(Choices(pool, list), s, e)
  {
    forall i | 0 <= i < |list|
      ensures SliceFinding(pool, list, s, e, i) == FindingFor(Choices(pool, list), s, e, i)
    {
      SliceFindingMeans(pool, list, s, e, i);
    }
  }
}
