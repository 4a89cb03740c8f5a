/** Which states the configuration provides a path to, and the bounded-stack search for them. */
module Reachability {
  import opened Limits
  import opened Types
  import opened Finite
  import opened MachineTables
  import opened BuildPhase
  import opened Histories
  import opened Models

  ghost predicate Targets(node: StateNode, b: StateId) {
    exists e, k :: e in node.transitions && 0 <= k < |node.transitions[e]| && node.transitions[e][k].target == b
  }

  /** Some alternative of `a` leads to `b`, whatever its guard. */
  ghost predicate Edge(t: Tables, a: StateId, b: StateId) {
    a in t.states && Targets(t.states[a], b)
  }

  ghost predicate IsPath(t: Tables, path: seq<StateId>, from: StateId, to: StateId) {
    && path != [] && path[0] == from && path[|path| - 1] == to
    && forall i | 0 <= i < |path| - 1 :: Edge(t, path[i], path[i + 1])
  }

  ghost predicate Reachable(t: Tables, from: StateId, to: StateId) {
    exists path :: IsPath(t, path, from, to)
  }

  lemma ReachesItself(t: Tables, s: StateId)
    ensures Reachable(t, s, s)
  {
    assert IsPath(t, [s], s, s);
  }

  lemma ReachesFurther(t: Tables, from: StateId, a: StateId, b: StateId)
    requires Reachable(t, from, a) && Edge(t, a, b)
    ensures Reachable(t, from, b)
  {
    var path :| IsPath(t, path, from, a);
    assert IsPath(t, path + [b], from, b);
  }

  lemma EdgesStayInside(t: Tables, a: StateId, b: StateId)
    requires NodesSound(t) && Edge(t, a, b)
    ensures b in t.states
  {
  }

  /** A set of states that is closed under edges holds everything reachable from inside it. */
  lemma {:induction false} ClosedHoldsPath(t: Tables, inside: set<StateId>, path: seq<StateId>, from: StateId,
                                           to: StateId)
    requires from in inside && IsPath(t, path, from, to)
    requires forall a, b :: a in inside && Edge(t, a, b) ==> b in inside
    ensures to in inside
    decreases |path|
  {
    if |path| > 1 {
      var before := path[..|path| - 1];
      var a := before[|before| - 1];
      assert IsPath(t, before, from, a) by {
        assert forall i | 0 <= i < |before| :: before[i] == path[i];
        forall i | 0 <= i < |before| - 1
          ensures Edge(t, before[i], before[i + 1])
        {
          assert Edge(t, path[i], path[i + 1]);
        }
      }
      ClosedHoldsPath(t, inside, before, from, a);
      assert Edge(t, path[|path| - 2], path[|path| - 2 + 1]);
    }
  }

  /** The states marked in an array of flags. */
  ghost function Marked(flags: seq<bool>): set<StateId>
    requires |flags| <= 0xFFFF
  {
    set s: StateId | s < |flags| && flags[s]
  }

  ghost function Unmarked(flags: seq<bool>): set<StateId>
    requires |flags| <= 0xFFFF
  {
    set s: StateId | s < |flags| && !flags[s]
  }

  /** Every state on the stack is marked, and none is there twice; so there is always room for
      one that is not marked yet. */
  ghost predicate StackOk(stack: seq<StateId>, flags: seq<bool>) {
    Distinct(stack) && forall i | 0 <= i < |stack| :: stack[i] < |flags| && flags[stack[i]]
  }

  lemma RoomForUnmarked(stack: seq<StateId>, flags: seq<bool>, s: StateId)
    requires StackOk(stack, flags) && s < |flags| && !flags[s]
    ensures |stack| < |flags| && StackOk(stack + [s], flags[s := true])
  {
    DistinctFits(stack + [s], |flags|);
  }

  /** What one visit may do: mark and push targets of the node, and nothing else. */
  ghost predicate Visited(node: StateNode, flags: seq<bool>, stack: seq<StateId>, flags': seq<bool>,
                          stack': seq<StateId>) {
    && |flags'| == |flags| && stack <= stack' && StackOk(stack', flags') && |flags| <= 0xFFFF
    && (forall s: StateId :: s < |flags| && flags[s] ==> flags'[s])
    && (forall s: StateId :: s < |flags| && flags'[s] && !flags[s] ==> Targets(node, s) && s in stack')
    && (forall i | |stack| <= i < |stack'| :: !flags[stack'[i]])
  }

  lemma VisitOne(node: StateNode, flags: seq<bool>, stack: seq<StateId>, now: seq<bool>, top: seq<StateId>, s: StateId)
    requires Visited(node, flags, stack, now, top) && s < |flags| && !now[s] && Targets(node, s)
    ensures |top| < |flags| && Visited(node, flags, stack, now[s := true], top + [s])
  {
    RoomForUnmarked(top, now, s);
  }

  predicate ListMarked(list: seq<Alternative>, n: nat, flags: seq<bool>) {
    forall k | 0 <= k < n && k < |list| && list[k].target < |flags| :: flags[list[k].target]
  }

  /** Pushes every target of a node that is not marked yet. */
  method Visit(node: StateNode, reached: array<bool>, pending: BoundedVector<StateId>, triggers: nat)
    requires reached.Length == MAX_STATES == pending.capacity && pending.Valid()
    requires StackOk(pending.items, reached[..])
    requires triggers <= 0xFFFF && forall e :: e in node.transitions ==> e < triggers
    modifies reached, pending
    ensures pending.Valid()
    ensures Visited(node, old(reached[..]), old(pending.items), reached[..], pending.items)
    ensures forall s: StateId :: s < MAX_STATES && Targets(node, s) ==> reached[s]
  {
    ghost var flags, stack := reached[..], pending.items;
    for e := 0 to triggers
      invariant pending.Valid() && Visited(node, flags, stack, reached[..], pending.items)
      invariant forall d :: d in node.transitions && d < e ==>
                  ListMarked(node.transitions[d], |node.transitions[d]|, reached[..])
    {
      if e in node.transitions {
        var list := node.transitions[e];
        for k := 0 to |list|
          invariant pending.Valid() && Visited(node, flags, stack, reached[..], pending.items)
          invariant ListMarked(list, k, reached[..])
          invariant forall d :: d in node.transitions && d < e ==>
                      ListMarked(node.transitions[d], |node.transitions[d]|, reached[..])
        {
          var target := list[k].target;
          if target < MAX_STATES && !reached[target] {
            assert Targets(node, target);
            VisitOne(node, flags, stack, reached[..], pending.items, target);
            reached[target] := true;
            pending.PushBack(target);
          }
        }
      }
    }
  }

  /** Everything marked so far is reachable, and every target of a marked state that is not
      on the stack any more is marked. */
  ghost predicate Explored(t: Tables, initial: StateId, flags: seq<bool>, stack: seq<StateId>) {
    && StackOk(stack, flags)
    && (forall s: StateId :: s < |flags| && flags[s] ==> s in t.states && Reachable(t, initial, s))
    && (forall s: StateId :: s < |flags| && flags[s] && s !in stack ==> AllMarked(t.states, s, flags))
  }

  ghost predicate AllMarked(states: map<StateId, StateNode>, a: StateId, flags: seq<bool>) {
    forall b: StateId :: a in states && Targets(states[a], b) && b < |flags| ==> flags[b]
  }

  /** Popping a state and visiting it keeps the search explored. */
  lemma VisitExplores(t: Tables, initial: StateId, from: StateId, flags: seq<bool>, stack: seq<StateId>,
                      flags': seq<bool>, stack': seq<StateId>)
    requires NodesSound(t) && Explored(t, initial, flags, stack + [from]) && from in t.states
    requires Visited(t.states[from], flags, stack, flags', stack') && AllMarked(t.states, from, flags')
    ensures Explored(t, initial, flags', stack')
  {
    assert (stack + [from])[|stack|] == from;
    forall s: StateId | s < |flags'| && flags'[s]
      ensures s in t.states && Reachable(t, initial, s)
      ensures s !in stack' ==> AllMarked(t.states, s, flags')
    {
      if !flags[s] {
        assert Edge(t, from, s);
        ReachesFurther(t, initial, from, s);
        EdgesStayInside(t, from, s);
      } else if s !in stack' && s != from {
        assert s !in stack + [from];
        assert AllMarked(t.states, s, flags);
      }
    }
  }

  lemma ExploredIsExact(t: Tables, initial: StateId, flags: seq<bool>)
    requires NodesSound(t) && Explored(t, initial, flags, []) && initial < |flags| <= 0xFFFF && flags[initial]
    requires forall s: StateId :: s in t.states ==> s < |flags|
    ensures forall s: StateId :: s < |flags| ==> (flags[s] <==> Reachable(t, initial, s))
  {
    var inside := Marked(flags);
    forall a, b | a in inside && Edge(t, a, b)
      ensures b in inside
    {
      EdgesStayInside(t, a, b);
      assert AllMarked(t.states, a, flags);
    }
    forall s: StateId | s < |flags| && Reachable(t, initial, s)
      ensures flags[s]
    {
      var path :| IsPath(t, path, initial, s);
      ClosedHoldsPath(t, inside, path, initial, s);
    }
  }

  /** One step of the search: takes a state off the stack and visits it. */
  method ExploreOne(ghost t: Tables, ghost initial: StateId, states: map<StateId, StateNode>, triggers: nat,
                    reached: array<bool>, pending: BoundedVector<StateId>)
    requires NodesSound(t) && states == t.states && triggers <= 0xFFFF
    requires forall s, e :: s in states && e in states[s].transitions ==> e < triggers
    requires reached.Length == MAX_STATES == pending.capacity && pending.Valid() && pending.items != []
    requires Explored(t, initial, reached[..], pending.items)
    modifies reached, pending
    ensures pending.Valid() && Explored(t, initial, reached[..], pending.items)
    ensures forall s: StateId :: s < MAX_STATES && old(reached[s]) ==> reached[s]
    ensures Unmarked(reached[..]) < old(Unmarked(reached[..])) ||
            (Unmarked(reached[..]) == old(Unmarked(reached[..])) && |pending.items| < old(|pending.items|))
  {
    var from := Top(t, initial, reached, pending);
    ghost var flags, stack := reached[..], pending.items;
    Visit(states[from], reached, pending, triggers);
    VisitExplores(t, initial, from, flags, stack, reached[..], pending.items);
    VisitShrinks(states[from], flags, stack, reached[..], pending.items);
  }

  /** Depth-first over every alternative, guards ignored, until the stack is empty. */
  method Search(ghost t: Tables, states: map<StateId, StateNode>, triggers: nat, initial: StateId)
    returns (reached: array<bool>)
    requires NodesSound(t) && states == t.states && triggers <= 0xFFFF && initial < MAX_STATES
    requires forall s: StateId :: s in t.states ==> s < MAX_STATES
    requires forall s, e :: s in states && e in states[s].transitions ==> e < triggers
    requires Explored(t, initial, seq(MAX_STATES, _ => false)[initial := true], [initial])
    ensures fresh(reached) && reached.Length == MAX_STATES
    ensures forall s: StateId :: s < MAX_STATES ==> (reached[s] <==> Reachable(t, initial, s))
  {
    reached := new bool[MAX_STATES](_ => false);
    var pending := new BoundedVector<StateId>(MAX_STATES);
    reached[initial] := true;
    pending.PushBack(initial);
    assert reached[..] == seq(MAX_STATES, _ => false)[initial := true];

    while pending.items != []
      invariant fresh(reached) && fresh(pending) && reached.Length == MAX_STATES == pending.capacity
      invariant pending.Valid() && reached[initial]
      invariant Explored(t, initial, reached[..], pending.items)
      decreases Unmarked(reached[..]), |pending.items|
    {
      ExploreOne(t, initial, states, triggers, reached, pending);
    }
    ExploredIsExact(t, initial, reached[..]);
  }

  /** The search from the initial state of a machine. The stack never overflows, and the
      states marked are exactly the reachable ones. */
  method Explore(model: Model, initial: StateId) returns (reached: array<bool>)
    requires Invariant(model.View()) && initial in model.states
    ensures fresh(reached) && reached.Length == MAX_STATES
    ensures forall s: StateId :: s < MAX_STATES ==> (reached[s] <==> Reachable(model.View(), initial, s))
  {
    StartIsExplored(model.View(), initial);
    reached := Search(model.View(), model.states, |model.triggers|, initial);
  }

  lemma StartIsExplored(t: Tables, initial: StateId)
    requires Invariant(t) && initial in t.states
    ensures NodesSound(t) && initial < MAX_STATES && |t.triggers| <= 0xFFFF
    ensures forall s: StateId :: s in t.states ==> s < MAX_STATES
    ensures forall s, e :: s in t.states && e in t.states[s].transitions ==> e < |t.triggers|
    ensures Explored(t, initial, seq(MAX_STATES, _ => false)[initial := true], [initial])
  {
    NextIdIsNew(t);
    AllTriggersBelow(t);
    OnlyTheStart(t, initial);
  }

  lemma OnlyTheStart(t: Tables, initial: StateId)
    requires initial in t.states && initial < MAX_STATES
    ensures Explored(t, initial, seq(MAX_STATES, _ => false)[initial := true], [initial])
  {
    ReachesItself(t, initial);
  }

  lemma AllTriggersBelow(t: Tables)
    requires Invariant(t)
    ensures forall s, e :: s in t.states && e in t.states[s].transitions ==> e < |t.triggers|
  {
    forall s | s in t.states
      ensures forall e :: e in t.states[s].transitions ==> e < |t.triggers|
    {
      TriggersBelow(t, s);
    }
  }

  /** Takes the state on top of the stack off it. */
  method Top(ghost t: Tables, ghost initial: StateId, reached: array<bool>, pending: BoundedVector<StateId>)
    returns (from: StateId)
    requires pending.Valid() && pending.items != [] && Explored(t, initial, reached[..], pending.items)
    modifies pending
    ensures pending.Valid() && old(pending.items) == pending.items + [from]
    ensures StackOk(pending.items, reached[..]) && from in t.states
    ensures Explored(t, initial, reached[..], pending.items + [from])
  {
    ghost var stack := pending.items;
    from := pending.PopBack();
    assert stack[|stack| - 1] == from;
    assert forall i | 0 <= i < |pending.items| :: pending.items[i] == stack[i];
  }

  lemma TriggersBelow(t: Tables, s: StateId)
    requires Invariant(t) && s in t.states
    ensures |t.triggers| <= 0xFFFF && forall e :: e in t.states[s].transitions ==> e < |t.triggers|
  {
    NextIdIsNew(t);
    forall e | e in t.states[s].transitions
      ensures e < |t.triggers|
    {
      ListInBounds(t, s, e);
    }
  }

  /** Either something new was marked, or the stack got shorter. */
  lemma VisitShrinks(node: StateNode, flags: seq<bool>, stack: seq<StateId>, flags': seq<bool>, stack': seq<StateId>)
    requires Visited(node, flags, stack, flags', stack')
    ensures Unmarked(flags') < Unmarked(flags) || (Unmarked(flags') == Unmarked(flags) && |stack'| <= |stack|)
  {
    assert Unmarked(flags') <= Unmarked(flags);
    if |stack'| > |stack| {
      var pushed := stack'[|stack|];
      assert pushed in Unmarked(flags) && pushed !in Unmarked(flags');
    }
  }
}
