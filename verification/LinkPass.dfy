/** The second pass of the loader: exactly when every transition can be wired, and what the
    tables then say. */
module LinkPass {
  import opened Limits
  import opened Types
  import opened Finite
  import opened MachineTables
  import opened BuildPhase
  import opened Histories
  import opened Guards
  import opened Loaders

  predicate NoneBroken(links: seq<Link>) {
    forall i | 0 <= i < |links| :: links[i].Add?
  }

  lemma {:induction false} RunLinksNeedsAll(t: Tables, links: seq<Link>)
    requires RunLinks(t, links).0 == Ok
    ensures NoneBroken(links)
    decreases links
  {
    if links != [] {
      RunLinksNeedsAll(RunLink(t, links[0]).1, links[1..]);
      assert forall i | 0 < i < |links| :: links[i] == links[1..][i - 1];
    }
  }

  // ---------------------------------------------------------------------------
  // what a list of links adds

  function LinkChoice(link: Link, s: StateId, e: TriggerId): seq<Choice> {
    if link.Add? && link.from == s && link.on == e then [Choice(link.guard, link.target)] else []
  }

  function LinkChoices(links: seq<Link>, s: StateId, e: TriggerId): seq<Choice> {
    if links == [] then [] else LinkChoice(links[0], s, e) + LinkChoices(links[1..], s, e)
  }

  function LinkConditions(links: seq<Link>): nat {
    if links == [] then 0 else (if links[0].Add? then |links[0].guard| else 0) + LinkConditions(links[1..])
  }

  function LinkTrigger(link: Link, s: StateId): set<TriggerId> {
    if link.Add? && link.from == s then {link.on} else {}
  }

  /** The triggers a list of links mentions for one state. */
  function LinkTriggers(links: seq<Link>, s: StateId): set<TriggerId> {
    if links == [] then {} else LinkTrigger(links[0], s) + LinkTriggers(links[1..], s)
  }

  function TriggersListed(t: Tables, s: StateId): set<TriggerId> {
    if s in t.states then t.states[s].transitions.Keys else {}
  }

  ghost predicate ListsFit(t: Tables, links: seq<Link>) {
    forall s, e :: |ChoicesAt(t, s, e)| + |LinkChoices(links, s, e)| <= MAX_ALTERNATIVES
  }

  ghost predicate NodesFit(t: Tables, links: seq<Link>) {
    forall s :: |TriggersListed(t, s) + LinkTriggers(links, s)| <= MAX_TRANSITIONS_PER_STATE
  }

  predicate PoolFits(t: Tables, links: seq<Link>) {
    |t.conditions| + LinkConditions(links) <= MAX_CONDITIONS
  }

  /** All three bounds, with what the tables already hold counted in. */
  ghost predicate LinksFit(t: Tables, links: seq<Link>) {
    PoolFits(t, links) && ListsFit(t, links) && NodesFit(t, links)
  }

  /** Every id a link uses has been declared. */
  predicate Resolved(t: Tables, link: Link) {
    link.Add? && link.from in t.states && link.on in t.triggers && link.target in t.states
  }

  predicate AllResolved(t: Tables, links: seq<Link>) {
    forall i | 0 <= i < |links| :: Resolved(t, links[i])
  }

  predicate OneFits(t: Tables, link: Link)
    requires Resolved(t, link)
  {
    && |t.conditions| + |link.guard| <= MAX_CONDITIONS
    && (link.on in t.states[link.from].transitions || |t.states[link.from].transitions| < MAX_TRANSITIONS_PER_STATE)
    && |Listed(t.states[link.from], link.on)| < MAX_ALTERNATIVES
  }

  lemma RunLinkExact(t: Tables, link: Link)
    requires Resolved(t, link)
    ensures RunLink(t, link).0 == Ok <==> OneFits(t, link)
  {
  }

  lemma RunLinkShape(t: Tables, link: Link)
    requires Resolved(t, link) && RunLink(t, link).0 == Ok
    ensures var t' := RunLink(t, link).1;
            && t'.conditions == t.conditions + link.guard
            && t'.states.Keys == t.states.Keys && t'.triggers == t.triggers
  {
  }

  lemma RunLinkChoices(t: Tables, link: Link, s: StateId, e: TriggerId)
    requires NodesSound(t) && Resolved(t, link) && RunLink(t, link).0 == Ok
    ensures ChoicesAt(RunLink(t, link).1, s, e) == ChoicesAt(t, s, e) + LinkChoice(link, s, e)
  {
    AddTransitionExtends(t, link.from, link.on, link.target, link.guard);
    if s in t.states {
      AllInBounds(t, s, e);
    }
    var a := Alternative(|t.conditions|, |link.guard|, link.target);
    ExtendedDecodes(t, RunLink(t, link).1, link.from, link.on, a, link.guard, s, e);
  }

  lemma RunLinkTriggers(t: Tables, link: Link, s: StateId)
    requires Resolved(t, link) && RunLink(t, link).0 == Ok
    ensures TriggersListed(RunLink(t, link).1, s) == TriggersListed(t, s) + LinkTrigger(link, s)
  {
  }

  lemma FitsFirst(t: Tables, links: seq<Link>)
    requires links != [] && Resolved(t, links[0]) && LinksFit(t, links)
    ensures OneFits(t, links[0])
  {
    var link := links[0];
    var s, e := link.from, link.on;
    assert |ChoicesAt(t, s, e)| + |LinkChoices(links, s, e)| <= MAX_ALTERNATIVES;
    assert |TriggersListed(t, s) + LinkTriggers(links, s)| <= MAX_TRANSITIONS_PER_STATE;
    if e !in t.states[s].transitions {
      var keys := t.states[s].transitions.Keys;
      SubsetSize(keys + {e}, TriggersListed(t, s) + LinkTriggers(links, s));
      assert |keys + {e}| == |keys| + 1;
      assert |keys| == |t.states[s].transitions|;
    }
  }

  lemma ListsFitRest(t: Tables, links: seq<Link>)
    requires NodesSound(t) && links != [] && Resolved(t, links[0]) && RunLink(t, links[0]).0 == Ok
    ensures ListsFit(RunLink(t, links[0]).1, links[1..]) <==> ListsFit(t, links)
  {
    var t' := RunLink(t, links[0]).1;
    forall s, e
      ensures |ChoicesAt(t', s, e)| + |LinkChoices(links[1..], s, e)| ==
              |ChoicesAt(t, s, e)| + |LinkChoices(links, s, e)|
    {
      RunLinkChoices(t, links[0], s, e);
    }
  }

  lemma NodesFitRest(t: Tables, links: seq<Link>)
    requires links != [] && Resolved(t, links[0]) && RunLink(t, links[0]).0 == Ok
    ensures NodesFit(RunLink(t, links[0]).1, links[1..]) <==> NodesFit(t, links)
  {
    var t' := RunLink(t, links[0]).1;
    forall s
      ensures TriggersListed(t', s) + LinkTriggers(links[1..], s) == TriggersListed(t, s) + LinkTriggers(links, s)
    {
      RunLinkTriggers(t, links[0], s);
    }
  }

  /** Taking the first link moves its share from the list into the tables. */
  lemma FitsRest(t: Tables, links: seq<Link>)
    requires NodesSound(t) && links != [] && Resolved(t, links[0]) && RunLink(t, links[0]).0 == Ok
    ensures LinksFit(RunLink(t, links[0]).1, links[1..]) <==> LinksFit(t, links)
  {
    RunLinkShape(t, links[0]);
    ListsFitRest(t, links);
    NodesFitRest(t, links);
  }

  lemma ResolvedRest(t: Tables, links: seq<Link>)
    requires links != [] && AllResolved(t, links) && RunLink(t, links[0]).0 == Ok
    ensures AllResolved(RunLink(t, links[0]).1, links[1..])
  {
  }

  lemma NoneFit(t: Tables)
    requires Invariant(t)
    ensures LinksFit(t, [])
  {
    forall s
      ensures |TriggersListed(t, s) + LinkTriggers([], s)| <= MAX_TRANSITIONS_PER_STATE
    {
      assert TriggersListed(t, s) + {} == TriggersListed(t, s);
      if s in t.states {
        assert NodeSound(t, t.states[s]);
        assert |t.states[s].transitions.Keys| == |t.states[s].transitions|;
      }
    }
    forall s, e
      ensures |ChoicesAt(t, s, e)| <= MAX_ALTERNATIVES
    {
      if s in t.states && e in t.states[s].transitions {
        ListInBounds(t, s, e);
      }
    }
  }

  /** With every id resolved, wiring succeeds exactly when all three bounds are respected. */
  lemma {:induction false} RunLinksExact(t: Tables, links: seq<Link>)
    requires Invariant(t) && AllResolved(t, links)
    ensures RunLinks(t, links).0 == Ok <==> LinksFit(t, links)
    decreases links
  {
    if links == [] {
      NoneFit(t);
    } else {
      RunLinkExact(t, links[0]);
      if RunLink(t, links[0]).0 == Ok {
        FitsRest(t, links);
        ResolvedRest(t, links);
        AddTransitionKeeps(t, links[0].from, links[0].on, links[0].target, links[0].guard);
        RunLinksExact(RunLink(t, links[0]).1, links[1..]);
      } else if LinksFit(t, links) {
        FitsFirst(t, links);
      }
    }
  }

  lemma RunLinkKeeps(t: Tables, link: Link)
    requires Invariant(t) && RunLink(t, link).0 == Ok
    ensures Invariant(RunLink(t, link).1)
    ensures RunLink(t, link).1.states.Keys == t.states.Keys && RunLink(t, link).1.triggers == t.triggers
  {
    AddTransitionKeeps(t, link.from, link.on, link.target, link.guard);
  }

  /** Wiring keeps the invariant and every declaration. */
  lemma {:induction false} RunLinksKeeps(t: Tables, links: seq<Link>)
    requires Invariant(t) && RunLinks(t, links).0 == Ok
    ensures var t' := RunLinks(t, links).1;
            Invariant(t') && t'.states.Keys == t.states.Keys && t'.triggers == t.triggers
    decreases links
  {
    if links != [] {
      RunLinkKeeps(t, links[0]);
      RunLinksKeeps(RunLink(t, links[0]).1, links[1..]);
    }
  }

  /** The pool holds nothing but the conditions of the guards. */
  lemma {:induction false} RunLinksKeepsParsed(t: Tables, links: seq<Link>)
    requires RunLinks(t, links).0 == Ok && AllWellFormed(t.conditions) && GuardsWellFormed(links)
    ensures AllWellFormed(RunLinks(t, links).1.conditions)
    decreases links
  {
    if links != [] {
      WellFormedGrows(t, links);
      RunLinksKeepsParsed(RunLink(t, links[0]).1, links[1..]);
    }
  }

  predicate GuardsWellFormed(links: seq<Link>) {
    forall i | 0 <= i < |links| && links[i].Add? :: AllWellFormed(links[i].guard)
  }

  lemma WellFormedGrows(t: Tables, links: seq<Link>)
    requires links != [] && RunLink(t, links[0]).0 == Ok
    ensures AllWellFormed(t.conditions) && GuardsWellFormed(links) ==>
              AllWellFormed(RunLink(t, links[0]).1.conditions) && GuardsWellFormed(links[1..])
  {
  }

  lemma {:induction false} ReadyRest(t: Tables, links: seq<Link>)
    requires Invariant(t) && AllResolved(t, links) && links != [] && RunLink(t, links[0]).0 == Ok
    ensures Invariant(RunLink(t, links[0]).1) && AllResolved(RunLink(t, links[0]).1, links[1..])
    ensures RunLinks(t, links) == RunLinks(RunLink(t, links[0]).1, links[1..])
  {
    ResolvedRest(t, links);
    RunLinkKeeps(t, links[0]);
  }

  lemma FirstChoices(t: Tables, link: Link, s: StateId, e: TriggerId)
    requires Invariant(t) && Resolved(t, link) && RunLink(t, link).0 == Ok
    ensures ChoicesAt(RunLink(t, link).1, s, e) == ChoicesAt(t, s, e) + LinkChoice(link, s, e)
  {
    RunLinkChoices(t, link, s, e);
  }

  /** After wiring, a state lists for a trigger exactly what the links say, after whatever it
      listed before. */
  lemma {:induction false} RunLinksChoices(t: Tables, links: seq<Link>, s: StateId, e: TriggerId)
    requires Invariant(t) && AllResolved(t, links) && RunLinks(t, links).0 == Ok
    ensures ChoicesAt(RunLinks(t, links).1, s, e) == ChoicesAt(t, s, e) + LinkChoices(links, s, e)
    decreases links
  {
    if links != [] {
      var t1 := RunLink(t, links[0]).1;
      FirstChoices(t, links[0], s, e);
      ReadyRest(t, links);
      RunLinksChoices(t1, links[1..], s, e);
      Associates(ChoicesAt(t, s, e), LinkChoice(links[0], s, e), LinkChoices(links[1..], s, e));
    }
  }
}
