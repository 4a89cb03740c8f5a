/** What the linter's findings promise about every run of the machine. */
module Safety {
  import opened Types
  import opened Arguments
  import opened Conditions
  import opened MachineTables
  import opened BuildPhase
  import opened Histories
  import opened Reachability
  import opened FindingLists
  import opened Machines

  /** One call of fire. */
  datatype Input = Input(trigger: TriggerId, args: ArgMap)

  function Run(t: Tables, p: Progress, inputs: seq<Input>): Progress {
    if inputs == [] then p
    else
      var last := inputs[|inputs| - 1];
      Fired(t, Run(t, p, inputs[..|inputs| - 1]), last.trigger, last.args).1
  }

  /** A machine that has just entered its initial state. */
  predicate JustStarted(t: Tables, p: Progress) {
    p.started && p.current == p.initial && p.initial in t.states
  }

  lemma {:induction false} FirstHoldingIsTarget(pool: seq<Condition>, list: seq<Alternative>, m: ArgMap, k: nat)
    requires k <= |list| && FirstHolding(pool, list, m, k).Some?
    ensures exists i :: k <= i < |list| && FirstHolding(pool, list, m, k) == Some(list[i].target) &&
                        SliceHolds(pool, list[i], m)
    decreases |list| - k
  {
    if !SliceHolds(pool, list[k], m) {
      FirstHoldingIsTarget(pool, list, m, k + 1);
    }
  }

  /** An accepted trigger follows an edge. */
  lemma AcceptedIsEdge(t: Tables, from: StateId, trigger: TriggerId, m: ArgMap)
    requires EvaluateTables(t, from, trigger, m).0 == Accepted
    ensures Edge(t, from, EvaluateTables(t, from, trigger, m).1)
  {
    FirstHoldingIsTarget(t.conditions, t.states[from].transitions[trigger], m, 0);
  }

  /** Over every sequence of triggers and arguments, the current state is declared and is one
      the configuration provides a path to. */
  lemma {:induction false} RunsStayReachable(t: Tables, p: Progress, inputs: seq<Input>)
    requires NodesSound(t) && JustStarted(t, p)
    ensures var now := Run(t, p, inputs);
            now.started && now.initial == p.initial && now.current in t.states && Reachable(t, p.initial, now.current)
  {
    if inputs == [] {
      ReachesItself(t, p.initial);
    } else {
      var before, last := inputs[..|inputs| - 1], inputs[|inputs| - 1];
      RunsStayReachable(t, p, before);
      var here := Run(t, p, before).current;
      var (decision, target) := EvaluateTables(t, here, last.trigger, last.args);
      if decision == Accepted {
        AcceptedIsEdge(t, here, last.trigger, last.args);
        ReachesFurther(t, p.initial, here, target);
        EdgesStayInside(t, here, target);
      }
    }
  }

  // ---------------------------------------------------------------------------
  // which findings there are

  lemma {:induction false} AllFindingsSplit(t: Tables, initial: StateId, f: Finding)
    requires Invariant(t) && f.alternative == 0
    ensures |t.states| <= 0xFFFF && |t.triggers| <= 0xFFFF && forall id: StateId :: id < |t.states| ==> id in t.states
    ensures f in AllFindings(t, initial) <==>
            || (initial in t.states && f in UnreachableStates(t, initial, |t.states|))
            || f in DeadEnds(t.states, |t.states|)
            || f in UnusedTriggers(t.states, |t.triggers|)
  {
    IdsAreDense(t);
    MachineFindingsMean(t, |t.states|, f);
  }

  lemma {:induction false} AlternativeFindingsSplit(t: Tables, initial: StateId, f: Finding)
    requires Invariant(t) && f.alternative != 0
    ensures |t.states| <= 0xFFFF && |t.triggers| <= 0xFFFF
    ensures f in AllFindings(t, initial) <==> f in MachineFindings(t, |t.states|)
  {
    IdsAreDense(t);
    UnreachableStatesMean(t, initial, |t.states|, f);
    DeadEndsMean(t.states, |t.states|, f);
    UnusedTriggersMean(t.states, |t.triggers|, f);
  }

  /** A finding about an alternative is reported exactly when it is the verdict on it. */
  lemma AlternativeIsExact(t: Tables, initial: StateId, f: Finding)
    requires Invariant(t) && f.alternative != 0
    ensures f in AllFindings(t, initial) <==> VerdictOn(t, f)
  {
    AlternativeFindingsSplit(t, initial, f);
    MachineFindingsMean(t, |t.states|, f);
    NextIdIsNew(t);
    if VerdictOn(t, f) {
      ListInBounds(t, f.state, f.trigger);
      assert f.state in t.states && f.trigger in t.triggers;
    }
  }

  /** A state is reported unreachable exactly when there is a state to start in, it is declared,
      and no path leads from the one to the other. */
  lemma UnreachableIsExact(t: Tables, initial: StateId, s: StateId)
    requires Invariant(t)
    ensures StateFinding(UnreachableState, s) in AllFindings(t, initial) <==>
            initial in t.states && s in t.states && !Reachable(t, initial, s)
  {
    var f := StateFinding(UnreachableState, s);
    AllFindingsSplit(t, initial, f);
    NextIdIsNew(t);
    UnreachableStatesMean(t, initial, |t.states|, f);
    DeadEndsMean(t.states, |t.states|, f);
    UnusedTriggersMean(t.states, |t.triggers|, f);
  }

  lemma DeadEndIsExact(t: Tables, initial: StateId, s: StateId)
    requires Invariant(t)
    ensures StateFinding(DeadEndState, s) in AllFindings(t, initial) <==>
            s in t.states && forall e, k | e in t.states[s].transitions && 0 <= k < |t.states[s].transitions[e]| ::
                               t.states[s].transitions[e][k].target == s
  {
    var f := StateFinding(DeadEndState, s);
    AllFindingsSplit(t, initial, f);
    NextIdIsNew(t);
    UnreachableStatesMean(t, initial, |t.states|, f);
    DeadEndsMean(t.states, |t.states|, f);
    UnusedTriggersMean(t.states, |t.triggers|, f);
  }

  lemma UnusedTriggerIsExact(t: Tables, initial: StateId, e: TriggerId)
    requires Invariant(t)
    ensures Finding(UnusedTrigger, NO_STATE, e, 0, 0) in AllFindings(t, initial) <==>
            e in t.triggers && forall s | s in t.states :: e !in t.states[s].transitions
  {
    var f := Finding(UnusedTrigger, NO_STATE, e, 0, 0);
    AllFindingsSplit(t, initial, f);
    NextIdIsNew(t);
    UnreachableStatesMean(t, initial, |t.states|, f);
    DeadEndsMean(t.states, |t.states|, f);
    UnusedTriggersMean(t.states, |t.triggers|, f);
  }

  // ---------------------------------------------------------------------------
  // what they promise

  /** No run ever enters a state reported unreachable for its own initial state. */
  lemma {:induction false} UnreachableStatesAreNeverEntered(t: Tables, p: Progress, inputs: seq<Input>)
    requires Invariant(t) && JustStarted(t, p)
    ensures StateFinding(UnreachableState, Run(t, p, inputs).current) !in AllFindings(t, p.initial)
  {
    RunsStayReachable(t, p, inputs);
    UnreachableIsExact(t, p.initial, Run(t, p, inputs).current);
  }

  /** Once a machine is in a state reported as a dead end, every later run leaves it there. */
  lemma {:induction false} DeadEndsAreTraps(t: Tables, initial: StateId, p: Progress, inputs: seq<Input>)
    requires Invariant(t) && StateFinding(DeadEndState, p.current) in AllFindings(t, initial)
    ensures Run(t, p, inputs).current == p.current
  {
    if inputs != [] {
      var last := inputs[|inputs| - 1];
      DeadEndsAreTraps(t, initial, p, inputs[..|inputs| - 1]);
      DeadEndIsExact(t, initial, p.current);
      if EvaluateTables(t, p.current, last.trigger, last.args).0 == Accepted {
        AcceptedIsEdge(t, p.current, last.trigger, last.args);
      }
    }
  }

  /** A trigger is reported unused exactly when it is declared and answered "no transition"
      wherever a machine is. */
  lemma UnusedTriggersAreRefused(t: Tables, initial: StateId, e: TriggerId)
    requires Invariant(t)
    ensures Finding(UnusedTrigger, NO_STATE, e, 0, 0) in AllFindings(t, initial) <==>
            e in t.triggers && NeverListed(t, e)
  {
    UnusedTriggerIsExact(t, initial, e);
    UnusedIsNeverListed(t, e);
  }

  /** Wherever a machine is, and whatever comes with it, the trigger finds no transition. */
  ghost predicate NeverListed(t: Tables, e: TriggerId) {
    forall p, m: ArgMap :: Fired(t, p, e, m).0 == NoTransition
  }

  lemma UnusedIsNeverListed(t: Tables, e: TriggerId)
    ensures Used(t.states, e) <==> !NeverListed(t, e)
  {
    if s :| s in t.states && e in t.states[s].transitions {
      assert Fired(t, Progress(s, s, true, 0, 0), e, map[]).0 != NoTransition;
    }
  }

  lemma CountedOnce(t: Tables, p: Progress, input: Input, n: nat)
    requires (p.transitions + p.rejections) % 0x1_0000_0000 == n % 0x1_0000_0000
    ensures var now := Fired(t, p, input.trigger, input.args).1;
            (now.transitions + now.rejections) % 0x1_0000_0000 == (n + 1) % 0x1_0000_0000
  {
    WrapsOnce(p.transitions, p.rejections);
    WrapsOnce(p.rejections, p.transitions);
    BothMore(p.transitions + p.rejections, n);
  }

  /** Every fire is counted once, as a transition or as a rejection. */
  lemma {:induction false} FiresAreCounted(t: Tables, p: Progress, inputs: seq<Input>)
    ensures var now := Run(t, p, inputs);
            (now.transitions + now.rejections) % 0x1_0000_0000 ==
            (p.transitions + p.rejections + |inputs|) % 0x1_0000_0000
  {
    if inputs != [] {
      var before := inputs[..|inputs| - 1];
      FiresAreCounted(t, p, before);
      CountedOnce(t, Run(t, p, before), inputs[|inputs| - 1], p.transitions + p.rejections + |before|);
    }
  }
}

/** Alternatives the linter calls dead can be deleted without changing anything. */
module DeadAlternatives {
  import opened Limits
  import opened Types
  import opened Arguments
  import opened Conditions
  import opened MachineTables
  import opened BuildPhase
  import opened Histories
  import opened Guards
  import opened FindingLists
  import opened Machines
  import opened Safety

  /** Lists of guards the decider can be trusted with, as every loaded machine has. */
  predicate Trusting(choices: seq<Choice>) {
    forall i | 0 <= i < |choices| :: AllFoldable(choices[i].guard) && |choices[i].guard| <= MAX_CONDITIONS_PER_GUARD
  }

  lemma CoveredHolds(earlier: seq<Condition>, later: seq<Condition>, m: ArgMap)
    requires Covers(earlier, later) && AllHold(later, m)
    ensures AllHold(earlier, m)
  {
  }

  /** When a reported alternative's guard holds, an earlier one's holds too. */
  lemma ReportedIsPreceded(choices: seq<Choice>, s: StateId, e: TriggerId, i: nat, m: ArgMap)
    requires i < |choices| <= 0xFF && Trusting(choices)
    requires FindingFor(choices, s, e, i).Some? && AllHold(choices[i].guard, m)
    ensures exists j :: 0 <= j < i && AllHold(choices[j].guard, m)
  {
    var guard := choices[i].guard;
    var fallback, cover := FirstUnguarded(choices, i), FirstCover(choices, i, guard);
    if fallback < i {
      assert AllHold(choices[fallback].guard, m);
    } else if Impossible(guard) {
      ImpossibleIsRight(guard, m);
    } else {
      CoveredHolds(choices[cover].guard, guard, m);
    }
  }

  lemma {:induction false} FirstMatchLast(choices: seq<Choice>, c: Choice, m: ArgMap)
    ensures FirstMatch(choices + [c], m) ==
            if FirstMatch(choices, m).Some? then FirstMatch(choices, m)
            else if AllHold(c.guard, m) then Some(c.target) else None
  {
    if choices == [] {
      assert choices + [c] == [c];
    } else {
      assert (choices + [c])[1..] == choices[1..] + [c];
      FirstMatchLast(choices[1..], c, m);
    }
  }

  lemma {:induction false} SomeMatch(choices: seq<Choice>, j: nat, m: ArgMap)
    requires j < |choices| && AllHold(choices[j].guard, m)
    ensures FirstMatch(choices, m).Some?
  {
    if j > 0 {
      SomeMatch(choices[1..], j - 1, m);
    }
  }

  /** What is left when everything with a verdict is dropped. */
  function Kept<T>(items: seq<T>, verdicts: seq<Option<Finding>>): seq<T>
    requires |items| == |verdicts|
  {
    if items == [] then []
    else
      var last := |items| - 1;
      Kept(items[..last], verdicts[..last]) + if verdicts[last] == None then [items[last]] else []
  }

  lemma KeptMore<T>(items: seq<T>, verdicts: seq<Option<Finding>>, n: nat)
    requires n < |items| == |verdicts|
    ensures Kept(items[..n + 1], verdicts[..n + 1]) ==
            Kept(items[..n], verdicts[..n]) + if verdicts[n] == None then [items[n]] else []
  {
    assert items[..n + 1][..n] == items[..n] && verdicts[..n + 1][..n] == verdicts[..n];
  }

  /** One more choice changes neither list's first match, or both the same way. */
  lemma {:induction false} KeepOrDrop(before: seq<Choice>, kept: seq<Choice>, c: Choice, keep: bool, m: ArgMap)
    requires FirstMatch(kept, m) == FirstMatch(before, m)
    requires !keep && AllHold(c.guard, m) ==> FirstMatch(before, m).Some?
    ensures FirstMatch(kept + if keep then [c] else [], m) == FirstMatch(before + [c], m)
  {
    FirstMatchLast(before, c, m);
    FirstMatchLast(kept, c, m);
    assert kept + [] == kept;
  }

  lemma {:induction false} ReportedIsMatched(choices: seq<Choice>, s: StateId, e: TriggerId, n: nat, m: ArgMap)
    requires n < |choices| <= 0xFF && Trusting(choices)
    requires FindingFor(choices, s, e, n).Some? && AllHold(choices[n].guard, m)
    ensures FirstMatch(choices[..n], m).Some?
  {
    ReportedIsPreceded(choices, s, e, n, m);
    var j :| 0 <= j < n && AllHold(choices[j].guard, m);
    SomeMatch(choices[..n], j, m);
  }

  /** Every choice with a verdict is preceded, wherever it holds, by a match. */
  ghost predicate VerdictsRight(choices: seq<Choice>, verdicts: seq<Option<Finding>>, m: ArgMap) {
    && |choices| == |verdicts|
    && forall k | 0 <= k < |choices| && verdicts[k].Some? && AllHold(choices[k].guard, m) ::
         FirstMatch(choices[..k], m).Some?
  }

  lemma {:induction false} VerdictIsRight(choices: seq<Choice>, verdicts: seq<Option<Finding>>, k: nat, m: ArgMap)
    requires VerdictsRight(choices, verdicts, m) && k < |choices|
    ensures verdicts[k].Some? && AllHold(choices[k].guard, m) ==> FirstMatch(choices[..k], m).Some?
  {
  }

  lemma {:induction false} DroppedMatches(choices: seq<Choice>, verdicts: seq<Option<Finding>>, n: nat, m: ArgMap)
    requires VerdictsRight(choices, verdicts, m) && n <= |choices|
    ensures FirstMatch(Kept(choices[..n], verdicts[..n]), m) == FirstMatch(choices[..n], m)
  {
    if n > 0 {
      var k := n - 1;
      DroppedMatches(choices, verdicts, k, m);
      KeptMore(choices, verdicts, k);
      VerdictIsRight(choices, verdicts, k, m);
      KeepOrDrop(choices[..k], Kept(choices[..k], verdicts[..k]), choices[k], verdicts[k] == None, m);
      assert choices[..n] == choices[..k] + [choices[k]];
    }
  }

  /** Dropping every reported choice at once leaves the first match what it was. */
  lemma {:induction false} KeptMatches(choices: seq<Choice>, s: StateId, e: TriggerId, m: ArgMap)
    requires |choices| <= 0xFF && Trusting(choices)
    ensures FirstMatch(Kept(choices, Verdicts(choices, s, e)), m) == FirstMatch(choices, m)
  {
    var verdicts, n := Verdicts(choices, s, e), |choices|;
    forall k | 0 <= k < n && verdicts[k].Some? && AllHold(choices[k].guard, m)
      ensures FirstMatch(choices[..k], m).Some?
    {
      ReportedIsMatched(choices, s, e, k, m);
    }
    DroppedMatches(choices, verdicts, n, m);
    assert choices[..n] == choices && verdicts[..n] == verdicts;
  }

  // ---------------------------------------------------------------------------
  // the tables and the report

  /** Some finding is about one given alternative. */
  ghost predicate Mentions(findings: seq<Finding>, s: StateId, e: TriggerId, k: nat) {
    exists f :: f in findings && f.state == s && f.trigger == e && f.alternative == k + 1
  }

  lemma MentionedMeans(t: Tables, findings: seq<Finding>, s: StateId, e: TriggerId, k: nat)
    requires forall f: Finding | f.alternative != 0 :: f in findings <==> VerdictOn(t, f)
    ensures Mentions(findings, s, e, k) <==>
            k < |ChoicesAt(t, s, e)| <= 0xFF && FindingFor(ChoicesAt(t, s, e), s, e, k).Some?
  {
    if k < |ChoicesAt(t, s, e)| <= 0xFF && FindingFor(ChoicesAt(t, s, e), s, e, k).Some? {
      FindingForShape(ChoicesAt(t, s, e), s, e, k);
      assert VerdictOn(t, FindingFor(ChoicesAt(t, s, e), s, e, k).value);
    }
  }

  /** The report mentions an alternative exactly when there is a verdict on it. */
  lemma ReportedIsVerdict(t: Tables, initial: StateId, s: StateId, e: TriggerId, k: nat)
    requires Invariant(t)
    ensures Mentions(AllFindings(t, initial), s, e, k) <==>
            k < |ChoicesAt(t, s, e)| <= 0xFF && FindingFor(ChoicesAt(t, s, e), s, e, k).Some?
  {
    var findings := AllFindings(t, initial);
    forall f: Finding | f.alternative != 0
      ensures f in findings <==> VerdictOn(t, f)
    {
      AlternativeIsExact(t, initial, f);
    }
    MentionedMeans(t, findings, s, e, k);
  }

  /** The alternative at a position is the one that is taken: its slice of the pool holds, and
      that of none before it. */
  predicate Takes(t: Tables, s: StateId, e: TriggerId, m: ArgMap, k: nat) {
    && s in t.states && k < |Listed(t.states[s], e)|
    && SliceHolds(t.conditions, Listed(t.states[s], e)[k], m)
    && forall j | 0 <= j < k :: !SliceHolds(t.conditions, Listed(t.states[s], e)[j], m)
  }

  lemma {:induction false} FirstHoldingIsAt(pool: seq<Condition>, list: seq<Alternative>, m: ArgMap, from: nat, k: nat)
    requires from <= k < |list| && SliceHolds(pool, list[k], m)
    requires forall j | from <= j < k :: !SliceHolds(pool, list[j], m)
    ensures FirstHolding(pool, list, m, from) == Some(list[k].target)
    decreases k - from
  {
    if from < k {
      FirstHoldingIsAt(pool, list, m, from + 1, k);
    }
  }

  /** What evaluation accepts is what the taken alternative says. */
  lemma TakenDecides(t: Tables, s: StateId, e: TriggerId, m: ArgMap, k: nat)
    requires Takes(t, s, e, m, k)
    ensures EvaluateTables(t, s, e, m) == (Accepted, Listed(t.states[s], e)[k].target)
  {
    FirstHoldingIsAt(t.conditions, Listed(t.states[s], e), m, 0, k);
  }

  lemma {:induction false} SomeSliceIsFirst(pool: seq<Condition>, list: seq<Alternative>, m: ArgMap, from: nat)
    returns (k: nat)
    requires from <= |list| && FirstHolding(pool, list, m, from).Some?
    ensures from <= k < |list| && SliceHolds(pool, list[k], m)
    ensures forall j | from <= j < k :: !SliceHolds(pool, list[j], m)
    decreases |list| - from
  {
    k := from;
    if !SliceHolds(pool, list[from], m) {
      k := SomeSliceIsFirst(pool, list, m, from + 1);
    }
  }

  /** Evaluation accepts exactly when an alternative is taken, and then goes where that says. */
  lemma AcceptedIsTaken(t: Tables, s: StateId, e: TriggerId, m: ArgMap)
    ensures EvaluateTables(t, s, e, m).0 == Accepted <==> exists k: nat :: Takes(t, s, e, m, k)
    ensures forall k: nat | Takes(t, s, e, m, k) ::
              EvaluateTables(t, s, e, m) == (Accepted, Listed(t.states[s], e)[k].target)
  {
    forall k: nat | Takes(t, s, e, m, k)
      ensures EvaluateTables(t, s, e, m) == (Accepted, Listed(t.states[s], e)[k].target)
    {
      TakenDecides(t, s, e, m, k);
    }
    if EvaluateTables(t, s, e, m).0 == Accepted {
      var k := SomeSliceIsFirst(t.conditions, t.states[s].transitions[e], m, 0);
      assert Takes(t, s, e, m, k);
    }
  }

  lemma SliceIsChoice(t: Tables, s: StateId, e: TriggerId, m: ArgMap, j: nat)
    requires NodesSound(t) && s in t.states && j < |Listed(t.states[s], e)|
    ensures j < |ChoicesAt(t, s, e)|
    ensures SliceHolds(t.conditions, Listed(t.states[s], e)[j], m) <==> AllHold(ChoicesAt(t, s, e)[j].guard, m)
  {
    ListInBounds(t, s, e);
    SliceHoldsDecoded(t.conditions, Listed(t.states[s], e)[j], m);
  }

  /** The report is safe to act on: the alternative that is taken is never one it mentions,
      whatever the state, the trigger and the arguments. */
  lemma TakenIsNeverReported(t: Tables, initial: StateId, s: StateId, e: TriggerId, m: ArgMap, k: nat)
    requires Invariant(t) && PoolFoldable(t) && Takes(t, s, e, m, k)
    ensures !Mentions(AllFindings(t, initial), s, e, k)
  {
    ReportedIsVerdict(t, initial, s, e, k);
    TakenHasNoVerdict(t, s, e, m, k);
  }

  lemma TakenHasNoVerdict(t: Tables, s: StateId, e: TriggerId, m: ArgMap, k: nat)
    requires NodesSound(t) && PoolFoldable(t) && Takes(t, s, e, m, k)
    ensures k < |ChoicesAt(t, s, e)| <= 0xFF ==> FindingFor(ChoicesAt(t, s, e), s, e, k) == None
  {
    var choices := ChoicesAt(t, s, e);
    SliceIsChoice(t, s, e, m, k);
    ChoicesAreTrusting(t, s, e);
    if |choices| <= 0xFF && FindingFor(choices, s, e, k).Some? {
      ReportedIsPreceded(choices, s, e, k, m);
      var j :| 0 <= j < k && AllHold(choices[j].guard, m);
      SliceIsChoice(t, s, e, m, j);
    }
  }

  // ---------------------------------------------------------------------------
  // pruning the tables

  predicate PoolFoldable(t: Tables) {
    AllFoldable(t.conditions)
  }

  /** What is left of one list of the machine, which is never longer than 255. */
  ghost function KeptAt(t: Tables, s: StateId, e: TriggerId): seq<Alternative>
    requires s in t.states && e in t.states[s].transitions
  {
    var list, choices := t.states[s].transitions[e], ChoicesAt(t, s, e);
    if |choices| <= 0xFF then Kept(list, Verdicts(choices, s, e)) else list
  }

  ghost function PrunedNode(t: Tables, s: StateId): (node: StateNode)
    requires s in t.states
    ensures node.transitions.Keys == t.states[s].transitions.Keys
  {
    var node := t.states[s];
    node.(transitions := map e | e in node.transitions :: KeptAt(t, s, e))
  }

  /** The same machine without the alternatives that were reported. Every trigger stays listed. */
  ghost function Pruned(t: Tables): Tables {
    t.(states := map s | s in t.states :: PrunedNode(t, s))
  }

  lemma {:induction false} KeptDecoded(pool: seq<Condition>, list: seq<Alternative>, verdicts: seq<Option<Finding>>,
                                       n: nat)
    requires n <= |list| == |verdicts|
    ensures Choices(pool, Kept(list[..n], verdicts[..n])) == Kept(Choices(pool, list)[..n], verdicts[..n])
  {
    if n > 0 {
      var k := n - 1;
      KeptDecoded(pool, list, verdicts, k);
      KeptMore(list, verdicts, k);
      KeptMore(Choices(pool, list), verdicts, k);
      assert Choices(pool, Kept(list[..k], verdicts[..k]) + [list[k]]) ==
             Choices(pool, Kept(list[..k], verdicts[..k])) + [ChoiceOf(pool, list[k])];
    }
  }

  lemma {:induction false} KeptInBounds(list: seq<Alternative>, verdicts: seq<Option<Finding>>, n: nat, bound: nat)
    requires n <= |list| == |verdicts| && forall i | 0 <= i < |list| :: list[i].first + list[i].count <= bound
    ensures forall i | 0 <= i < |Kept(list[..n], verdicts[..n])| ::
              Kept(list[..n], verdicts[..n])[i].first + Kept(list[..n], verdicts[..n])[i].count <= bound
  {
    if n > 0 {
      KeptInBounds(list, verdicts, n - 1, bound);
      KeptMore(list, verdicts, n - 1);
    }
  }

  lemma {:induction false} KeptHolding(pool: seq<Condition>, list: seq<Alternative>, s: StateId, e: TriggerId,
                                       m: ArgMap)
    requires |list| <= 0xFF && forall i | 0 <= i < |list| :: list[i].first + list[i].count <= |pool|
    requires Trusting(Choices(pool, list))
    ensures FirstHolding(pool, Kept(list, Verdicts(Choices(pool, list), s, e)), m, 0) == FirstHolding(pool, list, m, 0)
  {
    var choices, n := Choices(pool, list), |list|;
    var verdicts := Verdicts(choices, s, e);
    assert list[..n] == list && verdicts[..n] == verdicts && choices[..n] == choices;
    KeptInBounds(list, verdicts, n, |pool|);
    KeptDecoded(pool, list, verdicts, n);
    KeptMatches(choices, s, e, m);
    FirstHoldingDecoded(pool, list, m, 0);
    var kept := Kept(list, verdicts);
    FirstHoldingDecoded(pool, kept, m, 0);
    assert choices[0..] == choices && Choices(pool, kept)[0..] == Choices(pool, kept);
  }

  lemma ChoicesAreTrusting(t: Tables, s: StateId, e: TriggerId)
    requires NodesSound(t) && PoolFoldable(t) && s in t.states && e in t.states[s].transitions
    ensures Trusting(ChoicesAt(t, s, e))
  {
  }

  lemma PrunedLists(t: Tables, s: StateId, e: TriggerId)
    requires NodesSound(t)
    ensures |ChoicesAt(t, s, e)| <= 0xFF && Pruned(t).conditions == t.conditions
    ensures s in Pruned(t).states <==> s in t.states
    ensures s in t.states ==> (e in Pruned(t).states[s].transitions <==> e in t.states[s].transitions)
    ensures s in t.states && e in t.states[s].transitions ==>
              Pruned(t).states[s].transitions[e] ==
              Kept(t.states[s].transitions[e], Verdicts(Choices(t.conditions, t.states[s].transitions[e]), s, e))
  {
    ListIsShort(t, s, e);
  }

  /** Deleting every reported alternative at once changes no decision: for every state,
      trigger and arguments the verdict and the target are the same. */
  lemma PruningChangesNothing(t: Tables, s: StateId, e: TriggerId, m: ArgMap)
    requires Invariant(t) && PoolFoldable(t)
    ensures EvaluateTables(Pruned(t), s, e, m) == EvaluateTables(t, s, e, m)
  {
    PrunedLists(t, s, e);
    if s in t.states && e in t.states[s].transitions {
      ListKept(t, s, e, m);
    }
  }

  lemma {:induction false} ListKept(t: Tables, s: StateId, e: TriggerId, m: ArgMap)
    requires NodesSound(t) && PoolFoldable(t) && s in t.states && e in t.states[s].transitions
    ensures var list := t.states[s].transitions[e];
            && |list| <= 0xFF
            && FirstHolding(t.conditions, Kept(list, Verdicts(Choices(t.conditions, list), s, e)), m, 0) ==
               FirstHolding(t.conditions, list, m, 0)
  {
    ListInBounds(t, s, e);
    ChoicesAreTrusting(t, s, e);
    KeptHolding(t.conditions, t.states[s].transitions[e], s, e, m);
  }

  ghost predicate SameDecisions(t: Tables, t': Tables) {
    forall s, e, m :: EvaluateTables(t', s, e, m) == EvaluateTables(t, s, e, m)
  }

  lemma {:induction false} SameDecisionsSameRuns(t: Tables, t': Tables, p: Progress, inputs: seq<Input>)
    requires SameDecisions(t, t')
    ensures Run(t', p, inputs) == Run(t, p, inputs)
  {
    if inputs != [] {
      var before, last := inputs[..|inputs| - 1], inputs[|inputs| - 1];
      SameDecisionsSameRuns(t, t', p, before);
      var s := Run(t, p, before).current;
      assert EvaluateTables(t', s, last.trigger, last.args) == EvaluateTables(t, s, last.trigger, last.args);
    }
  }

  /** And so it changes no run. */
  lemma {:induction false} PruningChangesNoRun(t: Tables, p: Progress, inputs: seq<Input>)
    requires Invariant(t) && PoolFoldable(t)
    ensures Run(Pruned(t), p, inputs) == Run(t, p, inputs)
  {
    forall s, e, m
      ensures EvaluateTables(Pruned(t), s, e, m) == EvaluateTables(t, s, e, m)
    {
      PruningChangesNothing(t, s, e, m);
    }
    SameDecisionsSameRuns(t, Pruned(t), p, inputs);
  }
}
