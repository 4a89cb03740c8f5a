/** The linter: a second pass over a loaded machine that reports and never rejects. */
module Linter {
  import opened Limits
  import opened Types
  import opened Conditions
  import opened MachineTables
  import opened BuildPhase
  import opened Histories
  import opened Reachability
  import opened Guards
  import opened FindingLists
  import opened SliceFindings
  import opened Models

  type Report = BoundedVector<Finding>

  /** Appends a finding, or says that the report is full. */
  method Record(report: Report, finding: Finding) returns (room: bool)
    requires report.Valid()
    modifies report
    ensures report.Valid() && report.items == Clipped(old(report.items), [finding], report.capacity)
    ensures room <==> |old(report.items)| < report.capacity
  {
    if report.Full() {
      return false;
    }
    report.PushBack(finding);
    return true;
  }

  /** The report holds what was there before and then as much of `found` as fits; `room` says
      whether that is all of it. */
  ghost predicate ReportHolds(before: seq<Finding>, found: seq<Finding>, report: Report, room: bool)
    reads report
  {
    && |before| <= report.capacity
    && report.items == Clipped(before, found, report.capacity)
    && (room <==> |before| + |found| <= report.capacity)
  }

  lemma NothingFound(report: Report)
    requires report.Valid()
    ensures ReportHolds(report.items, [], report, true)
  {
  }

  /** Records one more finding after those `found` so far. */
  method Note(report: Report, finding: Finding, sofar: bool, ghost before: seq<Finding>, ghost found: seq<Finding>)
    returns (room: bool)
    requires report.Valid() && ReportHolds(before, found, report, sofar)
    modifies report
    ensures report.Valid() && ReportHolds(before, found + [finding], report, room)
  {
    ClippedTwice(before, found, [finding], report.capacity);
    var fits := Record(report, finding);
    room := fits && sofar;
  }

  method ReportUnreachable(ghost t: Tables, ghost initial: StateId, count: nat, reached: array<bool>, report: Report)
    returns (room: bool)
    requires count <= MAX_STATES == reached.Length && report.Valid()
    requires forall s: StateId :: s < MAX_STATES ==> (reached[s] <==> Reachable(t, initial, s))
    modifies report
    ensures report.Valid() && ReportHolds(old(report.items), UnreachableStates(t, initial, count), report, room)
  {
    room := true;
    NothingFound(report);
    for id := 0 to count
      invariant report.Valid() && ReportHolds(old(report.items), UnreachableStates(t, initial, id), report, room)
    {
      if id < MAX_STATES && !reached[id] {
        room := Note(report, StateFinding(UnreachableState, id), room,
                     old(report.items), UnreachableStates(t, initial, id));
      }
    }
  }

  lemma StatesFit(t: Tables)
    requires Invariant(t)
    ensures |t.states| <= MAX_STATES && NO_STATE !in t.states.Keys
  {
    NextIdIsNew(t);
  }

  /** Reports every declared state that the search did not mark; nothing when there is no
      initial state to search from. */
  method CheckReachability(model: Model, initial: StateId, report: Report) returns (room: bool)
    requires Invariant(model.View()) && report.Valid()
    modifies report
    ensures report.Valid() && |model.states| <= 0xFFFF
    ensures initial in model.states ==>
              ReportHolds(old(report.items), UnreachableStates(model.View(), initial, |model.states|), report, room)
    ensures initial !in model.states ==> ReportHolds(old(report.items), [], report, room)
  {
    room := true;
    ghost var t := model.View();
    StatesFit(t);
    NothingFound(report);
    if initial == NO_STATE || initial !in model.states {
      return;
    }
    var reached := Explore(model, initial);
    room := ReportUnreachable(t, initial, |model.states|, reached, report);
    assert model.View() == t;
  }

  /** Whether some alternative of a node leads to a different state. */
  method NodeLeaves(node: StateNode, id: StateId, triggers: nat) returns (leaves: bool)
    requires triggers <= 0xFFFF && forall e :: e in node.transitions ==> e < triggers
    ensures leaves <==> Leaves(node, id)
  {
    leaves := false;
    for e := 0 to triggers
      invariant leaves ==> Leaves(node, id)
      invariant !leaves ==> forall d :: d in node.transitions && d < e ==> Comes(node.transitions[d], id)
    {
      if e in node.transitions {
        var list := node.transitions[e];
        for k := 0 to |list|
          invariant leaves ==> Leaves(node, id)
          invariant !leaves ==> Comes(list[..k], id)
          invariant !leaves ==> forall d :: d in node.transitions && d < e ==> Comes(node.transitions[d], id)
        {
          if list[k].target != id {
            assert node.transitions[e][k].target != id;
            leaves := true;
          }
        }
        assert list[..|list|] == list;
      }
    }
    assert !leaves ==> forall d :: d in node.transitions ==> Comes(node.transitions[d], id);
  }

  predicate Comes(list: seq<Alternative>, id: StateId) {
    forall k | 0 <= k < |list| :: list[k].target == id
  }

  method ReportDeadEnds(states: map<StateId, StateNode>, triggers: nat, report: Report) returns (room: bool)
    requires |states| <= 0xFFFF && triggers <= 0xFFFF && report.Valid()
    requires forall id: StateId :: id < |states| <==> id in states
    requires forall s, e :: s in states && e in states[s].transitions ==> e < triggers
    modifies report
    ensures report.Valid() && ReportHolds(old(report.items), DeadEnds(states, |states|), report, room)
  {
    room := true;
    NothingFound(report);
    for id := 0 to |states|
      invariant report.Valid() && ReportHolds(old(report.items), DeadEnds(states, id), report, room)
    {
      var leaves := NodeLeaves(states[id], id, triggers);
      if !leaves {
        room := Note(report, StateFinding(DeadEndState, id), room, old(report.items), DeadEnds(states, id));
      }
    }
  }

  method CheckDeadEnds(model: Model, report: Report) returns (room: bool)
    requires Invariant(model.View()) && report.Valid()
    modifies report
    ensures report.Valid() && |model.states| <= 0xFFFF
    ensures forall id: StateId :: id < |model.states| ==> id in model.states
    ensures ReportHolds(old(report.items), DeadEnds(model.states, |model.states|), report, room)
  {
    StartIsSound(model.View());
    room := ReportDeadEnds(model.states, |model.triggers|, report);
  }

  lemma StartIsSound(t: Tables)
    requires Invariant(t)
    ensures |t.states| <= 0xFFFF && |t.triggers| <= MAX_TRIGGERS
    ensures forall id: StateId :: id < |t.states| <==> id in t.states
    ensures forall s, e :: s in t.states && e in t.states[s].transitions ==> e < |t.triggers|
  {
    NextIdIsNew(t);
    forall s | s in t.states
      ensures forall e :: e in t.states[s].transitions ==> e < |t.triggers|
    {
      TriggersBelow(t, s);
    }
  }

  /** Marks every trigger that some state lists. */
  method MarkUsed(states: map<StateId, StateNode>, triggers: nat) returns (used: array<bool>)
    requires triggers <= MAX_TRIGGERS && |states| <= 0xFFFF
    requires forall id: StateId :: id < |states| <==> id in states
    requires forall s, e :: s in states && e in states[s].transitions ==> e < triggers
    ensures fresh(used) && used.Length == MAX_TRIGGERS
    ensures forall e: TriggerId :: e < MAX_TRIGGERS ==> (used[e] <==> Used(states, e))
  {
    used := new bool[MAX_TRIGGERS](_ => false);
    for id := 0 to |states|
      invariant forall e: TriggerId :: e < MAX_TRIGGERS && used[e] ==> Used(states, e)
      invariant forall s, e :: s in states && s < id && e in states[s].transitions ==> used[e]
    {
      var node := states[id];
      for e := 0 to triggers
        invariant forall d: TriggerId :: d < MAX_TRIGGERS && used[d] ==> Used(states, d)
        invariant forall s, d :: s in states && s < id && d in states[s].transitions ==> used[d]
        invariant forall d :: d in node.transitions && d < e ==> used[d]
      {
        if e in node.transitions && e < MAX_TRIGGERS {
          used[e] := true;
        }
      }
    }
  }

  method ReportUnused(states: map<StateId, StateNode>, triggers: nat, used: array<bool>, report: Report)
    returns (room: bool)
    requires triggers <= MAX_TRIGGERS == used.Length && report.Valid()
    requires forall e: TriggerId :: e < MAX_TRIGGERS ==> (used[e] <==> Used(states, e))
    modifies report
    ensures report.Valid() && ReportHolds(old(report.items), UnusedTriggers(states, triggers), report, room)
  {
    room := true;
    NothingFound(report);
    for id := 0 to triggers
      invariant report.Valid() && ReportHolds(old(report.items), UnusedTriggers(states, id), report, room)
    {
      if id < MAX_TRIGGERS && !used[id] {
        room := Note(report, Finding(UnusedTrigger, NO_STATE, id, 0, 0), room,
                     old(report.items), UnusedTriggers(states, id));
      }
    }
  }

  method CheckUnusedTriggers(model: Model, report: Report) returns (room: bool)
    requires Invariant(model.View()) && report.Valid()
    modifies report
    ensures report.Valid() && |model.triggers| <= 0xFFFF
    ensures ReportHolds(old(report.items), UnusedTriggers(model.states, |model.triggers|), report, room)
  {
    StartIsSound(model.View());
    var used := MarkUsed(model.states, |model.triggers|);
    room := ReportUnused(model.states, |model.triggers|, used, report);
  }

  // ---------------------------------------------------------------------------
  // alternatives

  /** Whether one condition occurs, as written, in a slice of the pool. */
  method FindInSlice(pool: seq<Condition>, c: Condition, later: Alternative) returns (found: bool)
    ensures found <==> OccursInSlice(pool, c, later)
  {
    found := false;
    var j := 0;
    while j < later.count && !found
      invariant 0 <= j <= later.count
      invariant found ==> OccursInSlice(pool, c, later)
      invariant !found ==> forall k | later.first <= k < later.first + j :: !MatchesAt(pool, c, k)
    {
      var other := later.first + j;
      found := other < |pool| && SameCondition(c, pool[other]);
      assert found == MatchesAt(pool, c, other);
      j := j + 1;
    }
  }

  method Implies(pool: seq<Condition>, earlier: Alternative, later: Alternative) returns (r: bool)
    ensures r <==> SliceCovers(pool, earlier, later)
  {
    for i := 0 to earlier.count
      invariant forall k | earlier.first <= k < earlier.first + i :: CoveredAt(pool, k, later)
    {
      var index := earlier.first + i;
      if index >= |pool| {
        assert !CoveredAt(pool, index, later);
        return false;
      }
      var found := FindInSlice(pool, pool[index], later);
      assert found == CoveredAt(pool, index, later);
      if !found {
        return false;
      }
    }
    return true;
  }

  /** The first earlier alternative whose guard shadows the one at position `i`. */
  method FindCover(pool: seq<Condition>, list: seq<Alternative>, i: nat) returns (cover: nat)
    requires i < |list|
    ensures cover == FirstSliceCover(pool, list, i, list[i])
  {
    for j := 0 to i
      invariant FirstSliceCover(pool, list, j, list[i]) == j
    {
      var shadows := Implies(pool, list[j], list[i]);
      if shadows {
        FirstCoverStops(pool, list, j, i, list[i]);
        return j;
      }
    }
    return i;
  }

  lemma {:induction false} FirstCoverStops(pool: seq<Condition>, list: seq<Alternative>, j: nat, n: nat,
                                           later: Alternative)
    requires j < n <= |list| && FirstSliceCover(pool, list, j, later) == j && SliceCovers(pool, list[j], later)
    ensures FirstSliceCover(pool, list, n, later) == j
    decreases n
  {
    if j + 1 < n {
      FirstCoverStops(pool, list, j, n - 1, later);
    }
  }

  method JudgeGuard(pool: seq<Condition>, list: seq<Alternative>, s: StateId, e: TriggerId, i: nat)
    returns (verdict: Option<Finding>)
    requires i < |list| <= 0xFF
    ensures verdict == SliceGuardFinding(pool, list, s, e, i)
  {
    var impossible := GuardImpossible(pool, list[i]);
    if impossible {
      return Some(Finding(ImpossibleGuard, s, e, i + 1, 0));
    }
    var cover := FindCover(pool, list, i);
    if cover < i {
      return Some(Finding(ShadowedAlternative, s, e, i + 1, cover + 1));
    }
    return None;
  }

  /** What is wrong with one alternative, if anything; `fallback` is the 1-based position of
      the first unguarded one before it, or 0. */
  method Judge(pool: seq<Condition>, list: seq<Alternative>, s: StateId, e: TriggerId, i: nat, fallback: uint8)
    returns (verdict: Option<Finding>)
    requires i < |list| <= 0xFF && fallback == Fallback(list, i)
    ensures verdict == SliceFinding(pool, list, s, e, i)
  {
    if fallback != 0 {
      return Some(Finding(UnreachableAlternative, s, e, i + 1, fallback));
    }
    if list[i].count == 0 {
      return None;
    }
    verdict := JudgeGuard(pool, list, s, e, i);
  }

  lemma PresentMore<T>(options: seq<Option<T>>, i: nat)
    requires i < |options|
    ensures Present(options[..i + 1]) == Present(options[..i]) + if options[i].Some? then [options[i].value] else []
  {
    assert options[..i + 1][..i] == options[..i];
  }

  /** Judges one alternative and records what there is to say about it. */
  method JudgeNext(pool: seq<Condition>, s: StateId, e: TriggerId, list: seq<Alternative>, i: nat, fallback: uint8,
                   sofar: bool, report: Report, ghost before: seq<Finding>, ghost verdicts: seq<Option<Finding>>)
    returns (room: bool)
    requires i < |list| <= 0xFF && report.Valid() && fallback == Fallback(list, i)
    requires verdicts == SliceVerdicts(pool, list, s, e)
    requires ReportHolds(before, Present(verdicts[..i]), report, sofar)
    modifies report
    ensures report.Valid() && ReportHolds(before, Present(verdicts[..i + 1]), report, room)
  {
    PresentMore(verdicts, i);
    var verdict := Judge(pool, list, s, e, i, fallback);
    assert verdict == verdicts[i];
    room := sofar;
    if verdict.Some? {
      room := Note(report, verdict.value, room, before, Present(verdicts[..i]));
    }
  }

  /** Judges the alternatives of one state and trigger in order, at most one finding each. */
  method CheckAlternatives(pool: seq<Condition>, s: StateId, e: TriggerId, list: seq<Alternative>, report: Report)
    returns (room: bool)
    requires |list| <= 0xFF && report.Valid()
    modifies report
    ensures report.Valid() && ReportHolds(old(report.items), Present(SliceVerdicts(pool, list, s, e)), report, room)
  {
    room := true;
    var fallback: uint8 := 0;
    ghost var verdicts := SliceVerdicts(pool, list, s, e);
    NothingFound(report);
    for i := 0 to |list|
      invariant fallback == Fallback(list, i)
      invariant report.Valid() && ReportHolds(old(report.items), Present(verdicts[..i]), report, room)
    {
      room := JudgeNext(pool, s, e, list, i, fallback, room, report, old(report.items), verdicts);
      if fallback == 0 && list[i].count == 0 {
        fallback := i + 1;
      }
    }
    assert verdicts[..|list|] == verdicts;
  }

  /** Two checks one after the other report their findings one after the other. */
  lemma HoldsTogether(before: seq<Finding>, first: seq<Finding>, second: seq<Finding>,
                      middle: seq<Finding>, report: Report, room: bool, more: bool)
    requires |before| <= report.capacity && middle == Clipped(before, first, report.capacity)
    requires room <==> |before| + |first| <= report.capacity
    requires ReportHolds(middle, second, report, more)
    ensures ReportHolds(before, first + second, report, room && more)
  {
  }

  lemma SlicesFitAt(t: Tables, s: StateId, e: TriggerId)
    requires NodesSound(t) && s in t.states && e in t.states[s].transitions
    ensures SlicesFit(t.conditions, t.states[s].transitions[e])
    ensures Present(SliceVerdicts(t.conditions, t.states[s].transitions[e], s, e)) == FoundAt(t, s, e)
  {
    ListInBounds(t, s, e);
    SliceVerdictsMean(t.conditions, t.states[s].transitions[e], s, e);
  }

  lemma NothingAt(t: Tables, s: StateId, e: TriggerId)
    requires s in t.states && e !in t.states[s].transitions
    ensures FoundAt(t, s, e) == []
  {
    assert Verdicts([], s, e) == [];
  }

  /** What one state lists for one trigger, after the findings so far. */
  method CheckEntry(ghost t: Tables, pool: seq<Condition>, s: StateId, e: TriggerId, node: StateNode, sofar: bool,
                    report: Report, ghost before: seq<Finding>, ghost found: seq<Finding>)
    returns (room: bool)
    requires NodesSound(t) && s in t.states && node == t.states[s] && pool == t.conditions
    requires report.Valid() && ReportHolds(before, found, report, sofar)
    modifies report
    ensures report.Valid() && ReportHolds(before, found + FoundAt(t, s, e), report, room)
  {
    if e in node.transitions {
      ghost var middle := report.items;
      SlicesFitAt(t, s, e);
      var fits := CheckAlternatives(pool, s, e, node.transitions[e], report);
      HoldsTogether(before, found, FoundAt(t, s, e), middle, report, sofar, fits);
      room := fits && sofar;
    } else {
      NothingAt(t, s, e);
      assert found + [] == found;
      room := sofar;
    }
  }

  method CheckState(ghost t: Tables, pool: seq<Condition>, s: StateId, node: StateNode, triggers: nat, report: Report)
    returns (room: bool)
    requires NodesSound(t) && s in t.states && node == t.states[s] && pool == t.conditions && triggers <= 0xFFFF
    requires report.Valid()
    modifies report
    ensures report.Valid() && ReportHolds(old(report.items), StateFindings(t, s, triggers), report, room)
  {
    room := true;
    NothingFound(report);
    for e := 0 to triggers
      invariant report.Valid() && ReportHolds(old(report.items), StateFindings(t, s, e), report, room)
    {
      room := CheckEntry(t, pool, s, e, node, room, report, old(report.items), StateFindings(t, s, e));
    }
  }

  /** One more state, after the findings so far. */
  method CheckNext(ghost t: Tables, pool: seq<Condition>, s: StateId, node: StateNode, triggers: nat, sofar: bool,
                   report: Report, ghost before: seq<Finding>, ghost found: seq<Finding>)
    returns (room: bool)
    requires NodesSound(t) && s in t.states && node == t.states[s] && pool == t.conditions && triggers <= 0xFFFF
    requires report.Valid() && ReportHolds(before, found, report, sofar)
    modifies report
    ensures report.Valid() && ReportHolds(before, found + StateFindings(t, s, triggers), report, room)
  {
    ghost var middle := report.items;
    var fits := CheckState(t, pool, s, node, triggers, report);
    HoldsTogether(before, found, StateFindings(t, s, triggers), middle, report, sofar, fits);
    room := fits && sofar;
  }

  /** Lists one after the other. */
  function Flat<T>(parts: seq<seq<T>>): seq<T> {
    if parts == [] then [] else Flat(parts[..|parts| - 1]) + parts[|parts| - 1]
  }

  lemma FlatMore<T>(parts: seq<seq<T>>, i: nat)
    requires i < |parts|
    ensures Flat(parts[..i + 1]) == Flat(parts[..i]) + parts[i]
  {
    assert parts[..i + 1][..i] == parts[..i];
  }

  /** Each part is what there is to find in one state. */
  ghost predicate PartsAre(t: Tables, parts: seq<seq<Finding>>) {
    && |parts| == |t.states| <= 0xFFFF && |t.triggers| <= 0xFFFF
    && forall id | 0 <= id < |parts| :: parts[id] == StateFindings(t, id, |t.triggers|)
  }

  lemma {:induction false} PartsAreFindings(t: Tables, parts: seq<seq<Finding>>, n: nat)
    requires PartsAre(t, parts) && n <= |parts|
    ensures Flat(parts[..n]) == MachineFindings(t, n)
  {
    if n > 0 {
      PartsAreFindings(t, parts, n - 1);
      NextPart(t, parts, n - 1);
    }
  }

  lemma NextPart(t: Tables, parts: seq<seq<Finding>>, i: nat)
    requires PartsAre(t, parts) && i < |parts| && Flat(parts[..i]) == MachineFindings(t, i)
    ensures Flat(parts[..i + 1]) == MachineFindings(t, i + 1)
  {
    FlatMore(parts, i);
  }

  lemma PartsOfMachine(t: Tables) returns (parts: seq<seq<Finding>>)
    requires |t.states| <= 0xFFFF && |t.triggers| <= 0xFFFF
    ensures PartsAre(t, parts) && Flat(parts) == MachineFindings(t, |t.states|)
  {
    parts := seq(|t.states|, id requires 0 <= id < |t.states| => StateFindings(t, id, |t.triggers|));
    PartsAreFindings(t, parts, |parts|);
    assert parts[..|parts|] == parts;
  }

  method CheckStates(ghost t: Tables, pool: seq<Condition>, states: map<StateId, StateNode>, triggers: nat,
                     report: Report, ghost parts: seq<seq<Finding>>)
    returns (room: bool)
    requires NodesSound(t) && states == t.states && pool == t.conditions && triggers == |t.triggers|
    requires forall id: StateId :: id < |states| ==> id in states
    requires PartsAre(t, parts) && report.Valid()
    modifies report
    ensures report.Valid() && ReportHolds(old(report.items), Flat(parts), report, room)
  {
    room := true;
    NothingFound(report);
    ghost var before := report.items;
    for id := 0 to |states|
      invariant report.Valid() && ReportHolds(before, Flat(parts[..id]), report, room)
    {
      FlatMore(parts, id);
      room := CheckNext(t, pool, id, states[id], triggers, room, report, before, Flat(parts[..id]));
    }
    assert parts[..|states|] == parts;
  }

  method CheckMachine(model: Model, report: Report) returns (room: bool)
    requires Invariant(model.View()) && report.Valid()
    modifies report
    ensures report.Valid() && |model.states| <= 0xFFFF && |model.triggers| <= 0xFFFF
    ensures ReportHolds(old(report.items), MachineFindings(model.View(), |model.states|), report, room)
  {
    ghost var t := model.View();
    IdsAreDense(t);
    ghost var parts := PartsOfMachine(t);
    room := CheckStates(t, model.conditions, model.states, |model.triggers|, report, parts);
    assert model.View() == t;
  }

  /** The whole pass. Whatever the report held is followed by the longest prefix of the full
      list of findings that fits, and the status says whether that was all of it. */
  method Analyse(model: Model, initial: StateId, report: Report) returns (status: Status)
    requires Invariant(model.View()) && report.Valid()
    modifies report
    ensures report.Valid()
    ensures report.items == Clipped(old(report.items), AllFindings(model.View(), initial), report.capacity)
    ensures status == if |old(report.items)| + |AllFindings(model.View(), initial)| <= report.capacity
                      then Ok else CapacityExceeded
  {
    ghost var t := model.View();
    ghost var before := report.items;
    var room := CheckDeclarations(model, initial, report);
    ghost var middle := report.items;
    var fits := CheckMachine(model, report);
    HoldsTogether(before, DeclarationFindings(t, initial), MachineFindings(t, |t.states|), middle, report, room, fits);
    room := fits && room;
    status := if room then Ok else CapacityExceeded;
  }

  /** The findings that are about a state or a trigger rather than an alternative. */
  method CheckDeclarations(model: Model, initial: StateId, report: Report) returns (room: bool)
    requires Invariant(model.View()) && report.Valid()
    modifies report
    ensures |model.states| <= 0xFFFF && |model.triggers| <= 0xFFFF
    ensures report.Valid() && ReportHolds(old(report.items), DeclarationFindings(model.View(), initial), report, room)
  {
    ghost var t := model.View();
    ghost var before := report.items;
    room := CheckReachability(model, initial, report);
    ghost var first := if initial in t.states then UnreachableStates(t, initial, |t.states|) else [];
    ghost var middle := report.items;

    var fits := CheckDeadEnds(model, report);
    ghost var second := DeadEnds(t.states, |t.states|);
    HoldsTogether(before, first, second, middle, report, room, fits);
    room := fits && room;
    middle := report.items;

    fits := CheckUnusedTriggers(model, report);
    ghost var third := UnusedTriggers(t.states, |t.triggers|);
    HoldsTogether(before, first + second, third, middle, report, room, fits);
    room := fits && room;
  }

  datatype Severity = Warning | Error

  function SeverityOf(check: Check): Severity {
    match check
    case DeadEndState => Warning
    case UnusedTrigger => Warning
    case _ => Error
  }

  /** Whether anything in a report is worse than a warning, which dead ends and unused triggers
      are not. */
  method HasErrors(report: Report) returns (r: bool)
    ensures r <==> exists i :: 0 <= i < |report.items| && report.items[i].check !in {DeadEndState, UnusedTrigger}
  {
    for i := 0 to |report.items|
      invariant forall k | 0 <= k < i :: SeverityOf(report.items[k].check) != Error
    {
      if SeverityOf(report.items[i].check) == Error {
        return true;
      }
    }
    return false;
  }
}
