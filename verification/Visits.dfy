/** Which states a machine can really be in, guards and their order included. */
module Visiting {
  import opened Types
  import opened Arguments
  import opened MachineTables
  import opened BuildPhase
  import opened Histories
  import opened Guards
  import opened Reachability
  import opened FindingLists
  import opened Machines
  import opened Safety
  import opened DeadAlternatives
  import opened Shadows

  /** Some trigger, with some arguments, takes a machine from one state to the other. */
  ghost predicate CanGo(t: Tables, a: StateId, b: StateId) {
    exists e, m: ArgMap :: EvaluateTables(t, a, e, m) == (Accepted, b)
  }

  ghost predicate IsWalk(t: Tables, path: seq<StateId>, from: StateId, to: StateId) {
    && path != [] && path[0] == from && path[|path| - 1] == to
    && forall i | 0 <= i < |path| - 1 :: CanGo(t, path[i], path[i + 1])
  }

  ghost predicate IsVisited(t: Tables, p: Progress, s: StateId) {
    exists inputs :: Run(t, p, inputs).current == s
  }

  lemma WalkFurther(t: Tables, path: seq<StateId>, from: StateId, to: StateId, next: StateId)
    requires IsWalk(t, path, from, to) && CanGo(t, to, next)
    ensures IsWalk(t, path + [next], from, next)
  {
  }

  lemma {:induction false} RunIsWalk(t: Tables, p: Progress, inputs: seq<Input>) returns (path: seq<StateId>)
    ensures IsWalk(t, path, p.current, Run(t, p, inputs).current)
  {
    if inputs == [] {
      return [p.current];
    }
    var before, last := inputs[..|inputs| - 1], inputs[|inputs| - 1];
    path := RunIsWalk(t, p, before);
    var here := Run(t, p, before).current;
    var (decision, target) := EvaluateTables(t, here, last.trigger, last.args);
    if decision == Accepted {
      assert CanGo(t, here, target);
      WalkFurther(t, path, p.current, here, target);
      path := path + [target];
    }
  }

  lemma {:induction false} WalkIsRun(t: Tables, p: Progress, path: seq<StateId>, to: StateId)
    returns (inputs: seq<Input>)
    requires IsWalk(t, path, p.current, to)
    ensures Run(t, p, inputs).current == to
    decreases |path|
  {
    if |path| == 1 {
      return [];
    }
    var before := path[..|path| - 1];
    var here := before[|before| - 1];
    assert CanGo(t, path[|path| - 2], path[|path| - 2 + 1]);
    var first := WalkIsRun(t, p, before, here);
    var e, m: ArgMap :| EvaluateTables(t, here, e, m) == (Accepted, to);
    inputs := first + [Input(e, m)];
    assert inputs[..|inputs| - 1] == first;
  }

  /** The states that runs visit are exactly those at the end of a path of steps that
      evaluation accepts. */
  lemma VisitedIsWalked(t: Tables, p: Progress, s: StateId)
    ensures IsVisited(t, p, s) <==> exists path :: IsWalk(t, path, p.current, s)
  {
    if IsVisited(t, p, s) {
      var inputs :| Run(t, p, inputs).current == s;
      var path := RunIsWalk(t, p, inputs);
    }
    if path :| IsWalk(t, path, p.current, s) {
      var inputs := WalkIsRun(t, p, path, s);
    }
  }

  /** An alternative that leads somewhere and is taken for some arguments, going by the guards
      of its list alone. */
  ghost predicate Live(choices: seq<Choice>, k: nat, target: StateId) {
    && k < |choices| && choices[k].target == target
    && !Impossible(choices[k].guard) && !AllPicksForced(choices, k)
  }

  lemma TakenIsFirst(t: Tables, s: StateId, e: TriggerId, m: ArgMap, k: nat)
    requires NodesSound(t) && s in t.states && k < |Listed(t.states[s], e)|
    ensures k < |ChoicesAt(t, s, e)| && ChoicesAt(t, s, e)[k].target == Listed(t.states[s], e)[k].target
    ensures var choices := ChoicesAt(t, s, e);
            Takes(t, s, e, m, k) <==> AllHold(choices[k].guard, m) && !Preceded(choices, k, m)
  {
    forall j | 0 <= j <= k
      ensures j < |ChoicesAt(t, s, e)|
      ensures SliceHolds(t.conditions, Listed(t.states[s], e)[j], m) <==> AllHold(ChoicesAt(t, s, e)[j].guard, m)
    {
      SliceIsChoice(t, s, e, m, j);
    }
  }

  /** An alternative is taken for some arguments exactly when it is live. */
  lemma LiveIsTaken(t: Tables, s: StateId, e: TriggerId, k: nat)
    requires NodesSound(t) && PoolFoldable(t) && s in t.states && k < |Listed(t.states[s], e)|
    ensures (exists m: ArgMap :: Takes(t, s, e, m, k)) <==>
            Live(ChoicesAt(t, s, e), k, Listed(t.states[s], e)[k].target)
  {
    var choices := ChoicesAt(t, s, e);
    forall m: ArgMap
      ensures k < |choices| && choices[k].target == Listed(t.states[s], e)[k].target
      ensures Takes(t, s, e, m, k) <==> AllHold(choices[k].guard, m) && !Preceded(choices, k, m)
    {
      TakenIsFirst(t, s, e, m, k);
    }
    TakenIsFirst(t, s, e, map[], k);
    ChoicesAreTrusting(t, s, e);
    NeverTakenIsForced(choices, k);
  }

  /** So whether a machine can go from one state to another can be read off its guards. */
  lemma CanGoIsExact(t: Tables, a: StateId, b: StateId)
    requires NodesSound(t) && PoolFoldable(t)
    ensures CanGo(t, a, b) <==> exists e, k: nat :: Live(ChoicesAt(t, a, e), k, b)
  {
    if CanGo(t, a, b) {
      var e, m: ArgMap :| EvaluateTables(t, a, e, m) == (Accepted, b);
      AcceptedIsTaken(t, a, e, m);
      var k: nat :| Takes(t, a, e, m, k);
      LiveIsTaken(t, a, e, k);
    }
    if e, k: nat :| Live(ChoicesAt(t, a, e), k, b) {
      LiveIsTaken(t, a, e, k);
      var m: ArgMap :| Takes(t, a, e, m, k);
      AcceptedIsTaken(t, a, e, m);
    }
  }

  /** The states no run visits that are not reported: there is a path to them, and on every
      such path some step no arguments take. */
  lemma UnvisitedIsMissed(t: Tables, p: Progress, s: StateId)
    requires Invariant(t) && JustStarted(t, p) && s in t.states
    ensures !IsVisited(t, p, s) && StateFinding(UnreachableState, s) !in AllFindings(t, p.initial) <==>
            Reachable(t, p.initial, s) && !exists path :: IsWalk(t, path, p.initial, s)
  {
    VisitedIsWalked(t, p, s);
    UnreachableIsExact(t, p.initial, s);
  }
}
