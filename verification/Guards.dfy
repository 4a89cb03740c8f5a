/** Whether the ANDed conditions of one guard can hold together: the decider that folds them
    argument by argument, and the proof that it decides exactly that. */
module Guards {
  import opened Limits
  import opened Types
  import opened Finite
  import opened Text
  import opened Arguments
  import opened Conditions
  import opened MachineTables
  import opened Histories

  /** What a guard says about one argument. */
  datatype Facts = Facts(
    low: int,
    high: int,
    excluded: seq<int>,
    forbidden: seq<string>,
    numericSeen: bool,
    required: Option<string>,
    contradicted: bool)

  const NO_FACTS := Facts(INT32_MIN, INT32_MAX, [], [], false, None, false)

  function Max(x: int, y: int): int {
    if x > y then x else y
  }

  function Min(x: int, y: int): int {
    if x < y then x else y
  }

  function NumericFolded(f: Facts, c: Condition): Facts {
    var seen := f.(numericSeen := true);
    match c.op
    case Equal => seen.(low := Max(c.number, f.low), high := Min(c.number, f.high))
    case NotEqual =>
      if |f.excluded| < MAX_CONDITIONS_PER_GUARD then seen.(excluded := f.excluded + [c.number]) else seen
    case Less => seen.(high := Min(c.number - 1, f.high))
    case LessEqual => seen.(high := Min(c.number, f.high))
    case Greater => seen.(low := Max(c.number + 1, f.low))
    case GreaterEqual => seen.(low := Max(c.number, f.low))
  }

  function TextFolded(f: Facts, c: Condition): Facts {
    if c.op == Equal then
      f.(contradicted := f.contradicted || (f.required.Some? && f.required.value != c.literal),
         required := Some(c.literal))
    else if c.op == NotEqual && |f.forbidden| < MAX_CONDITIONS_PER_GUARD then
      f.(forbidden := f.forbidden + [c.literal])
    else f
  }

  function Folded(f: Facts, c: Condition): Facts {
    if c.numeric then NumericFolded(f, c) else TextFolded(f, c)
  }

  /** Everything a guard says about one argument, folded in order. */
  function FactsOf(guard: seq<Condition>, argument: string): Facts {
    if guard == [] then NO_FACTS
    else
      var before := FactsOf(guard[..|guard| - 1], argument);
      var last := guard[|guard| - 1];
      if last.arg == argument then Folded(before, last) else before
  }

  /** The excluded values that the range still contains. */
  ghost function Inside(excluded: seq<int>, low: int, high: int): set<int> {
    set x | x in excluded && low <= x <= high
  }

  lemma InsideGrows(excluded: seq<int>, value: int, low: int, high: int)
    ensures |Inside(excluded + [value], low, high)| ==
            |Inside(excluded, low, high)| + if low <= value <= high && value !in excluded then 1 else 0
  {
    var before, after := Inside(excluded, low, high), Inside(excluded + [value], low, high);
    if low <= value <= high && value !in excluded {
      assert after == before + {value};
      assert value !in before;
    } else {
      assert after == before;
    }
  }

  ghost predicate NoValue(f: Facts) {
    || f.contradicted || f.low > f.high
    || (f.required.Some? && (f.numericSeen || f.required.value in f.forbidden))
    || (var span := f.high - f.low + 1; span <= |f.excluded| && |Inside(f.excluded, f.low, f.high)| >= span)
  }

  /** The verdict on a guard: some argument it mentions can have no value. */
  ghost predicate Impossible(guard: seq<Condition>) {
    exists i :: 0 <= i < |guard| && NoValue(FactsOf(guard, guard[i].arg))
  }

  // ---------------------------------------------------------------------------
  // the decider

  class ArgumentFacts {
    var low: int64
    var high: int64
    const excluded: array<int>
    var excludedCount: nat
    const forbidden: array<string>
    var forbiddenCount: nat
    var numericSeen: bool
    var required: Option<string>
    var contradicted: bool

    /** The bounds are one wider than 32 bits at each end, so no comparison wraps. */
    predicate Valid()
      reads this
    {
      && excluded.Length == MAX_CONDITIONS_PER_GUARD && excludedCount <= excluded.Length
      && forbidden.Length == MAX_CONDITIONS_PER_GUARD && forbiddenCount <= forbidden.Length
      && INT32_MIN <= low as int <= INT32_MAX + 1 && INT32_MIN - 1 <= high as int <= INT32_MAX
    }

    ghost function View(): Facts
      requires Valid()
      reads this, excluded, forbidden
    {
      Facts(low as int, high as int, excluded[..excludedCount], forbidden[..forbiddenCount],
            numericSeen, required, contradicted)
    }

    constructor ()
      ensures Valid() && View() == NO_FACTS && fresh(excluded) && fresh(forbidden)
    {
      low, high := -2147483648, 2147483647;
      excluded := new int[MAX_CONDITIONS_PER_GUARD](_ => 0);
      forbidden := new string[MAX_CONDITIONS_PER_GUARD](_ => "");
      excludedCount, forbiddenCount := 0, 0;
      numericSeen, required, contradicted := false, None, false;
    }

    method FoldNumeric(c: Condition)
      requires Valid()
      modifies this, excluded
      ensures Valid() && View() == NumericFolded(old(View()), c)
    {
      numericSeen := true;
      var literal := c.number as int64;
      match c.op {
        case Equal =>
          low := if literal > low then literal else low;
          high := if literal < high then literal else high;
        case NotEqual =>
          if excludedCount < excluded.Length {
            excluded[excludedCount] := c.number;
            excludedCount := excludedCount + 1;
          }
        case Less =>
          high := if literal - 1 < high then literal - 1 else high;
        case LessEqual =>
          high := if literal < high then literal else high;
        case Greater =>
          low := if literal + 1 > low then literal + 1 else low;
        case GreaterEqual =>
          low := if literal > low then literal else low;
      }
    }

    method FoldText(c: Condition)
      requires Valid()
      modifies this, forbidden
      ensures Valid() && View() == TextFolded(old(View()), c)
    {
      if c.op == Equal {
        if required.Some? && required.value != c.literal {
          contradicted := true;
        }
        required := Some(c.literal);
        return;
      }
      if c.op == NotEqual && forbiddenCount < forbidden.Length {
        forbidden[forbiddenCount] := c.literal;
        forbiddenCount := forbiddenCount + 1;
      }
    }

    /** Whether an excluded value was already listed further up. */
    method ListedBefore(i: nat) returns (duplicate: bool)
      requires Valid() && i < excludedCount
      ensures duplicate <==> excluded[i] in excluded[..i]
    {
      duplicate := false;
      var j := 0;
      while j < i && !duplicate
        invariant 0 <= j <= i && (duplicate <==> excluded[i] in excluded[..j])
      {
        duplicate := excluded[j] == excluded[i];
        j := j + 1;
      }
    }

    /** How many different excluded values the range still contains. */
    method ExcludedInside() returns (distinct: nat)
      requires Valid()
      ensures distinct == |Inside(View().excluded, View().low, View().high)|
    {
      distinct := 0;
      for i := 0 to excludedCount
        invariant distinct == |Inside(excluded[..i], low as int, high as int)|
      {
        var value := excluded[i];
        assert excluded[..i + 1] == excluded[..i] + [value];
        InsideGrows(excluded[..i], value, low as int, high as int);
        if value < low as int || value > high as int {
          continue;
        }
        var duplicate := ListedBefore(i);
        distinct := distinct + if duplicate then 0 else 1;
      }
    }

    /** Whether the facts folded so far leave the argument nothing to be. */
    method Unsatisfiable() returns (r: bool)
      requires Valid()
      ensures r <==> NoValue(View())
    {
      if contradicted || low > high {
        return true;
      }
      if required.Some? {
        if numericSeen {
          return true;
        }
        for i := 0 to forbiddenCount
          invariant required.value !in forbidden[..i]
        {
          if forbidden[i] == required.value {
            return true;
          }
        }
      }
      var span := high as int - low as int + 1;
      if span > excludedCount {
        return false;
      }
      var inside := ExcludedInside();
      return inside >= span;
    }
  }

  /** Folds every condition of a slice that talks about one argument. */
  method FoldSlice(pool: seq<Condition>, begin: nat, count: nat, argument: string) returns (facts: ArgumentFacts)
    requires begin + count <= |pool|
    ensures fresh(facts) && facts.Valid() && facts.View() == FactsOf(pool[begin..begin + count], argument)
  {
    facts := new ArgumentFacts();
    ghost var guard := pool[begin..begin + count];
    for i := 0 to count
      invariant fresh(facts) && fresh(facts.excluded) && fresh(facts.forbidden)
      invariant facts.Valid() && facts.View() == FactsOf(guard[..i], argument)
    {
      var condition := pool[begin + i];
      assert guard[..i + 1][..i] == guard[..i] && guard[..i + 1][i] == condition;
      if condition.arg == argument {
        if condition.numeric {
          facts.FoldNumeric(condition);
        } else {
          facts.FoldText(condition);
        }
      }
    }
    assert guard[..count] == guard;
  }

  /** Whether the guard of one alternative can never hold, one fold per distinct argument. */
  method GuardImpossible(pool: seq<Condition>, a: Alternative) returns (r: bool)
    ensures r <==> a.first + a.count <= |pool| && Impossible(pool[a.first..a.first + a.count])
  {
    var begin, count := a.first, a.count;
    if begin + count > |pool| {
      return false;
    }
    ghost var guard := pool[begin..begin + count];
    for i := 0 to count
      invariant forall k | 0 <= k < i :: !NoValue(FactsOf(guard, guard[k].arg))
    {
      var argument := pool[begin + i].arg;
      assert guard[i].arg == argument;
      var done := false;
      var j := 0;
      while j < i && !done
        invariant 0 <= j <= i
        invariant done ==> exists k :: 0 <= k < i && guard[k].arg == argument
      {
        done := pool[begin + j].arg == argument;
        assert guard[j] == pool[begin + j];
        j := j + 1;
      }
      if !done {
        var facts := FoldSlice(pool, begin, count, argument);
        var none := facts.Unsatisfiable();
        if none {
          return true;
        }
      }
    }
    return false;
  }

  // ---------------------------------------------------------------------------
  // what the facts mean

  /** The values that everything folded so far allows. */
  predicate Admits(f: Facts, value: string) {
    && value != "" && !f.contradicted
    && (f.required.Some? ==> value == f.required.value)
    && value !in f.forbidden
    && (f.numericSeen ==>
          match IntOf(value)
          case None => false
          case Some(n) => f.low <= n <= f.high && n !in f.excluded)
  }

  /** What folding takes for granted of a condition: its name can be an argument's, a word is
      compared for equality only, and a word that is asked for is not a number. */
  predicate Foldable(c: Condition) {
    && |c.arg| <= MAX_NAME_LENGTH
    && (c.numeric || (!IsOrdering(c.op) && (c.op == Equal ==> c.literal != "" && IntOf(c.literal) == None)))
  }

  predicate AllFoldable(guard: seq<Condition>) {
    forall i | 0 <= i < |guard| :: Foldable(guard[i])
  }

  predicate AllWellFormed(guard: seq<Condition>) {
    forall i | 0 <= i < |guard| :: WellFormed(guard[i])
  }

  lemma ParsedIsFoldable(guard: seq<Condition>)
    requires AllWellFormed(guard)
    ensures AllFoldable(guard)
  {
  }

  /** What holds of any facts folded from such conditions. */
  predicate Sound(f: Facts) {
    && INT32_MIN <= f.low && f.high <= INT32_MAX
    && (!f.numericSeen ==> f.low == INT32_MIN && f.high == INT32_MAX && f.excluded == [])
    && (f.required.Some? ==> f.required.value != "" && IntOf(f.required.value) == None)
  }

  lemma FoldedMeans(f: Facts, c: Condition, value: string)
    requires Sound(f) && Foldable(c) && value != ""
    requires |f.excluded| < MAX_CONDITIONS_PER_GUARD && |f.forbidden| < MAX_CONDITIONS_PER_GUARD
    ensures Sound(Folded(f, c))
    ensures Admits(Folded(f, c), value) <==> Admits(f, value) && HoldsFor(c, value)
  {
    if c.numeric {
      NumericMeans(f, c, value);
    } else {
      TextMeans(f, c, value);
    }
  }

  lemma NumericIsSound(f: Facts, c: Condition)
    requires Sound(f) && c.numeric
    ensures Sound(NumericFolded(f, c))
  {
  }

  lemma NumericMeans(f: Facts, c: Condition, value: string)
    requires Sound(f) && c.numeric && value != "" && |f.excluded| < MAX_CONDITIONS_PER_GUARD
    ensures Sound(NumericFolded(f, c))
    ensures Admits(NumericFolded(f, c), value) <==> Admits(f, value) && HoldsFor(c, value)
  {
    NumericIsSound(f, c);
    match IntOf(value)
    case None =>
    case Some(n) =>
      match c.op
      case NotEqual => assert n in f.excluded + [c.number] <==> n in f.excluded || n == c.number;
      case _ =>
  }

  lemma TextMeans(f: Facts, c: Condition, value: string)
    requires Sound(f) && Foldable(c) && !c.numeric && value != "" && |f.forbidden| < MAX_CONDITIONS_PER_GUARD
    ensures Sound(TextFolded(f, c))
    ensures Admits(TextFolded(f, c), value) <==> Admits(f, value) && HoldsFor(c, value)
  {
  }

  predicate HoldsOn(guard: seq<Condition>, argument: string, value: string) {
    forall i | 0 <= i < |guard| && guard[i].arg == argument :: HoldsFor(guard[i], value)
  }

  lemma FoldableFront(guard: seq<Condition>)
    requires guard != [] && AllFoldable(guard)
    ensures AllFoldable(guard[..|guard| - 1]) && Foldable(guard[|guard| - 1])
  {
  }

  /** One more condition, whether or not it is about the argument. */
  lemma OneMoreFact(f: Facts, c: Condition, argument: string, value: string, n: nat)
    requires Sound(f) && Foldable(c) && value != ""
    requires |f.excluded| <= n && |f.forbidden| <= n && n < MAX_CONDITIONS_PER_GUARD
    ensures var g := if c.arg == argument then Folded(f, c) else f;
            && Sound(g) && |g.excluded| <= n + 1 && |g.forbidden| <= n + 1
            && (Admits(g, value) <==> Admits(f, value) && (c.arg == argument ==> HoldsFor(c, value)))
  {
    FoldedMeans(f, c, value);
  }

  /** A non-empty value satisfies every condition on an argument exactly when the facts
      folded for that argument admit it. */
  lemma {:induction false} FactsMean(guard: seq<Condition>, argument: string, value: string)
    requires AllFoldable(guard) && |guard| <= MAX_CONDITIONS_PER_GUARD && value != ""
    ensures var f := FactsOf(guard, argument);
            && Sound(f) && |f.excluded| <= |guard| && |f.forbidden| <= |guard|
            && (Admits(f, value) <==> HoldsOn(guard, argument, value))
  {
    if guard != [] {
      var last := |guard| - 1;
      FoldableFront(guard);
      FactsMean(guard[..last], argument, value);
      HoldsOnLast(guard, argument, value);
      OneMoreFact(FactsOf(guard[..last], argument), guard[last], argument, value, last);
    }
  }

  lemma HoldsOnLast(guard: seq<Condition>, argument: string, value: string)
    requires guard != []
    ensures var last := guard[|guard| - 1];
            HoldsOn(guard, argument, value) <==>
            HoldsOn(guard[..|guard| - 1], argument, value) && (last.arg == argument ==> HoldsFor(last, value))
  {
  }

  // ---------------------------------------------------------------------------
  // pigeonhole

  lemma {:induction false} InsideSize(excluded: seq<int>, low: int, high: int)
    ensures |Inside(excluded, low, high)| <= |excluded|
  {
    if excluded != [] {
      var last := |excluded| - 1;
      InsideSize(excluded[..last], low, high);
      InsideGrows(excluded[..last], excluded[last], low, high);
      assert excluded[..last] + [excluded[last]] == excluded;
    }
  }

  /** The range is used up exactly when every number in it is excluded. */
  lemma ExhaustedMeans(f: Facts)
    requires f.low <= f.high
    ensures var span := f.high - f.low + 1;
            (span <= |f.excluded| && |Inside(f.excluded, f.low, f.high)| >= span) <==>
            (forall n | f.low <= n <= f.high :: n in f.excluded)
  {
    var inside, range := Inside(f.excluded, f.low, f.high), Range(f.low, f.high);
    RangeSize(f.low, f.high);
    InsideSize(f.excluded, f.low, f.high);
    SubsetSize(inside, range);
    if forall n | f.low <= n <= f.high :: n in f.excluded {
      assert inside == range;
    } else {
      var n :| f.low <= n <= f.high && n !in f.excluded;
      assert n in range && n !in inside;
    }
    assert forall n | f.low <= n <= f.high :: n in range;
  }

  // ---------------------------------------------------------------------------
  // the verdict is exact

  lemma NoValueIsRight(f: Facts, value: string)
    requires Sound(f) && NoValue(f)
    ensures !Admits(f, value)
  {
    if !f.contradicted && f.low <= f.high {
      ExhaustedMeans(f);
    }
  }

  /** A word longer than any it must differ from. */
  function LongWord(words: seq<string>): (w: string)
    ensures w != "" && NoSpace(w) && w[0] == 'x' && forall i | 0 <= i < |words| :: |words[i]| < |w|
  {
    if words == [] then "x"
    else
      var last := |words| - 1;
      var w := LongWord(words[..last]);
      assert forall i | 0 <= i < last :: words[..last][i] == words[i];
      w + seq(|words[last]|, _ => 'x')
  }

  lemma {:induction false} LongWordIsNew(words: seq<string>)
    ensures LongWord(words) !in words && IntOf(LongWord(words)) == None
  {
    assert !IsDigit(LongWord(words)[0]);
  }

  /** A spelling of a number that is none of a list of words. */
  function NewSpelling(n: int, words: seq<string>): string {
    Padded(n, |LongWord(words)|)
  }

  lemma NewSpellingMeans(n: int32, words: seq<string>)
    ensures IntOf(NewSpelling(n, words)) == Some(n) && NoSpace(NewSpelling(n, words))
    ensures NewSpelling(n, words) != "" && NewSpelling(n, words) !in words
  {
    PaddedMeans(n, |LongWord(words)|);
    assert forall i | 0 <= i < |words| :: |words[i]| < |NewSpelling(n, words)|;
  }

  /** A value the facts admit, without white space unless the facts require some. */
  lemma AWitness(f: Facts) returns (value: string)
    requires Sound(f) && !NoValue(f)
    ensures Admits(f, value)
    ensures f.required.Some? || NoSpace(value)
  {
    if f.required.Some? {
      value := f.required.value;
    } else if f.numericSeen {
      ExhaustedMeans(f);
      var n :| f.low <= n <= f.high && n !in f.excluded;
      value := NewSpelling(n, f.forbidden);
      NewSpellingMeans(n, f.forbidden);
    } else {
      value := LongWord(f.forbidden);
      LongWordIsNew(f.forbidden);
    }
  }

  lemma HasWitness(f: Facts)
    requires Sound(f) && !NoValue(f)
    ensures exists value :: Admits(f, value) && (f.required.Some? || NoSpace(value))
  {
    var value := AWitness(f);
  }

  ghost function Witness(f: Facts): (value: string)
    requires Sound(f) && !NoValue(f)
    ensures Admits(f, value) && (f.required.Some? || NoSpace(value))
  {
    HasWitness(f);
    var value :| Admits(f, value) && (f.required.Some? || NoSpace(value));
    value
  }

  function ArgumentsOf(guard: seq<Condition>): set<string> {
    set i | 0 <= i < |guard| :: guard[i].arg
  }

  /** One witness for each argument a guard mentions. */
  ghost function Witnesses(guard: seq<Condition>): (m: ArgMap)
    requires AllFoldable(guard) && |guard| <= MAX_CONDITIONS_PER_GUARD && !Impossible(guard)
    ensures m.Keys == ArgumentsOf(guard)
    ensures forall i | 0 <= i < |guard| ::
              var f := FactsOf(guard, guard[i].arg);
              Admits(f, m[guard[i].arg]) && (f.required.Some? || NoSpace(m[guard[i].arg]))
  {
    assert forall a | a in ArgumentsOf(guard) :: Sound(FactsOf(guard, a)) && !NoValue(FactsOf(guard, a)) by {
      forall a | a in ArgumentsOf(guard)
        ensures Sound(FactsOf(guard, a)) && !NoValue(FactsOf(guard, a))
      {
        FactsMean(guard, a, "x");
      }
    }
    map a | a in ArgumentsOf(guard) :: Witness(FactsOf(guard, a))
  }

  lemma WitnessesHold(guard: seq<Condition>)
    requires AllFoldable(guard) && |guard| <= MAX_CONDITIONS_PER_GUARD && !Impossible(guard)
    ensures AllHold(guard, Witnesses(guard))
  {
    var m := Witnesses(guard);
    forall i | 0 <= i < |guard|
      ensures Holds(guard[i], m)
    {
      var a := guard[i].arg;
      assert Foldable(guard[i]);
      FactsMean(guard, a, m[a]);
    }
  }

  /** A verdict of "impossible" is right: no arguments at all satisfy the guard. */
  lemma ImpossibleIsRight(guard: seq<Condition>, m: ArgMap)
    requires AllFoldable(guard) && |guard| <= MAX_CONDITIONS_PER_GUARD && Impossible(guard)
    ensures !AllHold(guard, m)
  {
    if AllHold(guard, m) {
      var i :| 0 <= i < |guard| && NoValue(FactsOf(guard, guard[i].arg));
      var value := TextOf(m, guard[i].arg);
      assert Holds(guard[i], m);
      FactsMean(guard, guard[i].arg, value);
      forall k | 0 <= k < |guard| && guard[k].arg == guard[i].arg
        ensures HoldsFor(guard[k], value)
      {
        assert Holds(guard[k], m);
      }
      NoValueIsRight(FactsOf(guard, guard[i].arg), value);
    }
  }

  /** The decider is exact: it calls a guard impossible exactly when no argument map satisfies
      all its conditions. Parsed guards are among those it is asked about; so are many others. */
  lemma GuardDeciderIsExact(guard: seq<Condition>)
    requires AllFoldable(guard) && |guard| <= MAX_CONDITIONS_PER_GUARD
    ensures Impossible(guard) <==> !exists m: ArgMap :: AllHold(guard, m)
  {
    if Impossible(guard) {
      forall m: ArgMap
        ensures !AllHold(guard, m)
      {
        ImpossibleIsRight(guard, m);
      }
    } else {
      WitnessesHold(guard);
    }
  }

  // ---------------------------------------------------------------------------
  // what can arrive

  /** A guard whose argument names, and the words it asks for, can be sent as tokens, and
      whose arguments fit in one message. */
  predicate CanBeSent(guard: seq<Condition>) {
    && |ArgumentsOf(guard)| <= MAX_ARGUMENTS
    && forall i | 0 <= i < |guard| ::
         SendableKey(guard[i].arg) && (!guard[i].numeric && guard[i].op == Equal ==> NoSpace(guard[i].literal))
  }

  lemma {:induction false} RequiredIsAsked(guard: seq<Condition>, argument: string)
    ensures var f := FactsOf(guard, argument);
            f.required.Some? ==>
              exists i :: 0 <= i < |guard| && !guard[i].numeric && guard[i].op == Equal &&
                          guard[i].literal == f.required.value
  {
    if guard != [] {
      var last := |guard| - 1;
      RequiredIsAsked(guard[..last], argument);
      var f := FactsOf(guard[..last], argument);
      if f.required.Some? {
        var i :| 0 <= i < last && !guard[i].numeric && guard[i].op == Equal && guard[i].literal == f.required.value;
      }
    }
  }

  lemma WitnessesAreDeliverable(guard: seq<Condition>)
    requires AllFoldable(guard) && |guard| <= MAX_CONDITIONS_PER_GUARD && !Impossible(guard) && CanBeSent(guard)
    ensures Deliverable(Witnesses(guard))
  {
    var m := Witnesses(guard);
    assert |m| == |m.Keys|;
    forall k | k in m
      ensures SendableKey(k) && NoSpace(m[k])
    {
      var i :| 0 <= i < |guard| && guard[i].arg == k;
      RequiredIsAsked(guard, k);
    }
  }

  lemma HoldingCanBeSent(guard: seq<Condition>, m: ArgMap)
    requires AllHold(guard, m) && Deliverable(m)
    ensures CanBeSent(guard)
  {
    forall i | 0 <= i < |guard|
      ensures guard[i].arg in m && SendableKey(guard[i].arg)
      ensures !guard[i].numeric && guard[i].op == Equal ==> NoSpace(guard[i].literal)
    {
      assert Holds(guard[i], m);
    }
    assert ArgumentsOf(guard) <= m.Keys;
    SubsetSize(ArgumentsOf(guard), m.Keys);
  }

  /** What the decider leaves out: a guard it lets pass is met by some argument text exactly
      when its names and required words can be sent at all. */
  lemma SomeTextMeetsGuard(guard: seq<Condition>)
    requires AllFoldable(guard) && |guard| <= MAX_CONDITIONS_PER_GUARD
    ensures (exists text :: ParseText(text).0 == Ok && AllHold(guard, ParseText(text).1)) <==>
            !Impossible(guard) && CanBeSent(guard)
  {
    forall text | ParseText(text).0 == Ok && AllHold(guard, ParseText(text).1)
      ensures !Impossible(guard) && CanBeSent(guard)
    {
      var m := ParseText(text).1;
      ParsedIsDeliverable(text);
      HoldingCanBeSent(guard, m);
      if Impossible(guard) {
        ImpossibleIsRight(guard, m);
      }
    }
    if !Impossible(guard) && CanBeSent(guard) {
      WitnessesHold(guard);
      WitnessesAreDeliverable(guard);
      ParsedMapsAreDeliverable(Witnesses(guard));
    }
  }

  const SPACED := Condition("a b", Greater, true, 5, "")

  lemma SpacedIsWellFormed()
    requires MAX_NAME_LENGTH >= 3
    ensures WellFormed(SPACED) && ReadGuard("a b > 5") == Guard(SPACED)
  {
    assert ConditionText(SPACED) == "a b > 5" by {
      assert Decimal(5) == "5";
    }
    GuardRoundTrip(SPACED);
  }

  lemma SpacedCanHold()
    requires MAX_NAME_LENGTH >= 3
    ensures AllHold([SPACED], map["a b" := "6"])
  {
  }

  /** Such a guard exists: `a b > 5` loads, the decider lets it pass, and no text meets it. */
  lemma AGuardNothingMeets()
    requires MAX_NAME_LENGTH >= 3
    ensures ReadGuard("a b > 5") == Guard(SPACED) && !Impossible([SPACED])
    ensures !exists text :: ParseText(text).0 == Ok && AllHold([SPACED], ParseText(text).1)
  {
    SpacedIsWellFormed();
    SpacedCanHold();
    var guard := [SPACED];
    GuardDeciderIsExact(guard);
    assert IsSpace(guard[0].arg[1]);
    SomeTextMeetsGuard(guard);
  }
}
