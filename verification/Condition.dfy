/** A guard condition: one comparison against one trigger argument. */
module Conditions {
  import opened Limits
  import opened Types
  import opened Text
  import opened Arguments

  datatype CompareOp = Equal | NotEqual | Less | LessEqual | Greater | GreaterEqual

  /** `number` is the literal of a numeric condition, `literal` that of a text one; the one
      that is not used keeps its default. */
  datatype Condition = Condition(arg: string, op: CompareOp, numeric: bool, number: int32, literal: string)

  // ---------------------------------------------------------------------------
  // trimming

  function TrimLeft(s: string): string {
    if s != "" && IsSpace(s[0]) then TrimLeft(s[1..]) else s
  }

  function TrimRight(s: string): string {
    if s != "" && IsSpace(s[|s| - 1]) then TrimRight(s[..|s| - 1]) else s
  }

  function Trimmed(s: string): string {
    TrimRight(TrimLeft(s))
  }

  /** No white space at either end. */
  predicate IsTrimmed(s: string) {
    s != "" ==> !IsSpace(s[0]) && !IsSpace(s[|s| - 1])
  }

  predicate Spaces(s: string) {
    forall i | 0 <= i < |s| :: IsSpace(s[i])
  }

  method Trim(text: string) returns (r: string)
    ensures r == Trimmed(text)
  {
    var begin, end := 0, |text|;
    assert text[0..] == text;
    while begin < end && IsSpace(text[begin])
      invariant 0 <= begin <= end == |text|
      invariant TrimLeft(text) == TrimLeft(text[begin..])
    {
      assert text[begin..][1..] == text[begin + 1..];
      begin := begin + 1;
    }
    assert text[begin..end] == text[begin..];
    assert TrimLeft(text) == text[begin..];
    while end > begin && IsSpace(text[end - 1])
      invariant begin <= end <= |text|
      invariant TrimRight(text[begin..]) == TrimRight(text[begin..end])
    {
      assert text[begin..end][..end - begin - 1] == text[begin..end - 1];
      end := end - 1;
    }
    return text[begin..end];
  }

  /** Trimming takes white space off both ends and nothing else. */
  lemma TrimSplits(s: string) returns (a: string, b: string)
    ensures s == a + Trimmed(s) + b && Spaces(a) && Spaces(b) && IsTrimmed(Trimmed(s))
  {
    a := TrimLeftSplits(s);
    b := TrimRightSplits(TrimLeft(s));
    assert s == a + (Trimmed(s) + b);
  }

  lemma {:induction false} TrimLeftSplits(s: string) returns (a: string)
    ensures s == a + TrimLeft(s) && Spaces(a)
    ensures TrimLeft(s) != "" ==> !IsSpace(TrimLeft(s)[0])
  {
    a := "";
    if s != "" && IsSpace(s[0]) {
      var rest := TrimLeftSplits(s[1..]);
      a := [s[0]] + rest;
    }
  }

  lemma {:induction false} TrimRightSplits(s: string) returns (b: string)
    ensures s == TrimRight(s) + b && Spaces(b)
    ensures TrimRight(s) != "" ==> !IsSpace(TrimRight(s)[|TrimRight(s)| - 1])
  {
    b := "";
    if s != "" && IsSpace(s[|s| - 1]) {
      var rest := TrimRightSplits(s[..|s| - 1]);
      b := rest + [s[|s| - 1]];
    }
  }

  lemma {:induction false} TrimLeftOf(a: string, s: string)
    requires Spaces(a) && (s != "" ==> !IsSpace(s[0]))
    ensures TrimLeft(a + s) == s
  {
    if a == "" {
      assert a + s == s;
    } else {
      assert (a + s)[1..] == a[1..] + s;
      TrimLeftOf(a[1..], s);
    }
  }

  lemma {:induction false} TrimRightOf(s: string, b: string)
    requires Spaces(b) && (s != "" ==> !IsSpace(s[|s| - 1]))
    ensures TrimRight(s + b) == s
  {
    if b == "" {
      assert s + b == s;
    } else {
      assert (s + b)[..|s + b| - 1] == s + b[..|b| - 1];
      TrimRightOf(s, b[..|b| - 1]);
    }
  }

  /** Padding is all that trimming removes. */
  lemma TrimmedOf(a: string, s: string, b: string)
    requires Spaces(a) && Spaces(b) && IsTrimmed(s) && s != ""
    ensures Trimmed(a + s + b) == s
  {
    assert a + s + b == a + (s + b);
    TrimLeftOf(a, s + b);
    TrimRightOf(s, b);
  }

  // ---------------------------------------------------------------------------
  // operators

  function Spelling(op: CompareOp): string {
    match op
    case Equal => "=="
    case NotEqual => "!="
    case Less => "<"
    case LessEqual => "<="
    case Greater => ">"
    case GreaterEqual => ">="
  }

  predicate IsOrdering(op: CompareOp) {
    op == Less || op == LessEqual || op == Greater || op == GreaterEqual
  }

  datatype Operator = Operator(length: nat, op: CompareOp)

  datatype Found = Found(position: nat, length: nat, op: CompareOp)

  /** The operator that starts at one position, the longest spelling first. */
  function OperatorAt(text: string, i: nat): (r: Option<Operator>)
    requires i < |text|
    ensures r.Some? ==> 0 < r.value.length <= 2 && i + r.value.length <= |text|
  {
    var c := text[i];
    var next := if i + 1 < |text| then text[i + 1] else '\0';
    if c == '=' && next == '=' then Some(Operator(2, Equal))
    else if c == '!' && next == '=' then Some(Operator(2, NotEqual))
    else if c == '<' && next == '=' then Some(Operator(2, LessEqual))
    else if c == '>' && next == '=' then Some(Operator(2, GreaterEqual))
    else if c == '<' then Some(Operator(1, Less))
    else if c == '>' then Some(Operator(1, Greater))
    else if c == '=' then Some(Operator(1, Equal))
    else None
  }

  /** The leftmost operator at or after a position. */
  function FirstOperator(text: string, from: nat): (r: Option<Found>)
    requires from <= |text|
    ensures r.Some? ==>
              && from <= r.value.position < |text|
              && OperatorAt(text, r.value.position) == Some(Operator(r.value.length, r.value.op))
    decreases |text| - from
  {
    if from == |text| then None
    else
      match OperatorAt(text, from)
      case Some(o) => Some(Found(from, o.length, o.op))
      case None => FirstOperator(text, from + 1)
  }

  method FindOperator(text: string) returns (found: Option<Found>)
    ensures found == FirstOperator(text, 0)
  {
    var i := 0;
    while i < |text|
      invariant i <= |text|
      invariant FirstOperator(text, 0) == FirstOperator(text, i)
    {
      var here := OperatorAt(text, i);
      if here.Some? {
        return Some(Found(i, here.value.length, here.value.op));
      }
      i := i + 1;
    }
    return None;
  }

  lemma {:induction false} FirstOperatorIsFirst(text: string, from: nat, position: nat)
    requires from <= position <= |text|
    requires FirstOperator(text, from).Some? ==> position <= FirstOperator(text, from).value.position
    ensures forall i | from <= i < position :: OperatorAt(text, i) == None
    decreases |text| - from
  {
    if from < position {
      FirstOperatorIsFirst(text, from + 1, position);
    }
  }

  lemma {:induction false} FirstOperatorAt(text: string, from: nat, position: nat)
    requires from <= position < |text|
    requires forall i | from <= i < position :: OperatorAt(text, i) == None
    requires OperatorAt(text, position).Some?
    ensures FirstOperator(text, from) ==
            Some(Found(position, OperatorAt(text, position).value.length, OperatorAt(text, position).value.op))
    decreases position - from
  {
    if from < position {
      FirstOperatorAt(text, from + 1, position);
    }
  }

  // ---------------------------------------------------------------------------
  // parsing

  datatype Parsed = Guard(condition: Condition) | Refused(status: Problem)

  /** What a guard text means, once its two operands have been cut out. */
  function ReadOperands(left: string, op: CompareOp, right: string): Parsed {
    if left == "" || right == "" then Refused(SchemaError)
    else if |left| > MAX_NAME_LENGTH then Refused(NameTooLong)
    else
      match IntOf(right)
      case Some(number) => Guard(Condition(left, op, true, number, ""))
      case None =>
        if IsOrdering(op) then Refused(SchemaError)
        else if |right| > MAX_NAME_LENGTH then Refused(NameTooLong)
        else Guard(Condition(left, op, false, 0, right))
  }

  function ReadExpression(expression: string): Parsed {
    match FirstOperator(expression, 0)
    case None => Refused(SchemaError)
    case Some(found) =>
      ReadOperands(Trimmed(expression[..found.position]), found.op,
                   Trimmed(expression[found.position + found.length..]))
  }

  function ReadGuard(text: string): Parsed {
    ReadExpression(Trimmed(text))
  }

  method ParseCondition(text: string) returns (status: Status, out: Condition)
    ensures match ReadGuard(text)
            case Guard(condition) => status == Ok && out == condition
            case Refused(reason) => status == reason != Ok
  {
    out := Condition("", Equal, false, 0, "");
    var expression := Trim(text);
    if expression == "" {
      return SchemaError, out;
    }
    var found := FindOperator(expression);
    if found == None {
      return SchemaError, out;
    }
    var left := Trim(expression[..found.value.position]);
    var right := Trim(expression[found.value.position + found.value.length..]);
    status, out := ParseOperands(left, found.value.op, right);
  }

  method ParseOperands(left: string, op: CompareOp, right: string) returns (status: Status, out: Condition)
    ensures match ReadOperands(left, op, right)
            case Guard(condition) => status == Ok && out == condition
            case Refused(reason) => status == reason != Ok
  {
    out := Condition("", Equal, false, 0, "");
    if left == "" || right == "" {
      return SchemaError, out;
    }
    if |left| > MAX_NAME_LENGTH {
      return NameTooLong, out;
    }
    out := out.(arg := left, op := op);
    var isNumber, number := ParseInt(right);
    if isNumber {
      out := out.(numeric := true, number := number);
      return Ok, out;
    }
    if IsOrdering(op) {
      return SchemaError, out;
    }
    if |right| > MAX_NAME_LENGTH {
      return NameTooLong, out;
    }
    out := out.(literal := right);
    return Ok, out;
  }

  // ---------------------------------------------------------------------------
  // evaluation

  /** Whether a condition holds of the value its argument has; an absent argument has the
      empty value. */
  function HoldsFor(c: Condition, value: string): bool {
    if value == "" then false
    else if c.numeric then
      match IntOf(value)
      case None => false
      case Some(actual) => Compare(actual, c.op, c.number)
    else if c.op == NotEqual then value != c.literal
    else value == c.literal
  }

  predicate Compare(actual: int, op: CompareOp, number: int) {
    match op
    case Equal => actual == number
    case NotEqual => actual != number
    case Less => actual < number
    case LessEqual => actual <= number
    case Greater => actual > number
    case GreaterEqual => actual >= number
  }

  function Holds(c: Condition, m: ArgMap): bool {
    HoldsFor(c, TextOf(m, c.arg))
  }

  method Evaluate(c: Condition, args: Args) returns (holds: bool)
    ensures holds == Holds(c, args.entries)
  {
    var value := TextOf(args.entries, c.arg);
    if value == "" {
      return false;
    }
    if c.numeric {
      var isNumber, actual := ParseInt(value);
      if !isNumber {
        return false;
      }
      return Compare(actual, c.op, c.number);
    }
    var same := value == c.literal;
    return if c.op == NotEqual then !same else same;
  }

  // ---------------------------------------------------------------------------
  // the grammar of guards

  predicate OperatorFree(s: string) {
    '=' !in s && '<' !in s && '>' !in s
  }

  /** The conditions a guard text can denote. */
  predicate WellFormed(c: Condition) {
    && 0 < |c.arg| <= MAX_NAME_LENGTH && IsTrimmed(c.arg) && OperatorFree(c.arg)
    && if c.numeric then c.literal == ""
       else
         && c.number == 0 && !IsOrdering(c.op)
         && 0 < |c.literal| <= MAX_NAME_LENGTH && IsTrimmed(c.literal) && IntOf(c.literal) == None
  }

  /** One way of laying a condition out: the operator and literal as spelled, and the white
      space before, between and after. */
  datatype Layout = Layout(before: string, arg: string, left: string, spelling: string,
                           right: string, literal: string, after: string)
  {
    function Core(): string {
      (arg + left) + (spelling + (right + literal))
    }

    function Text(): string {
      before + Core() + after
    }
  }

  predicate SpellsOp(spelling: string, op: CompareOp) {
    spelling == Spelling(op) || (op == Equal && spelling == "=")
  }

  predicate SpellsLiteral(literal: string, c: Condition) {
    if c.numeric then IntOf(literal) == Some(c.number) && IsTrimmed(literal) else literal == c.literal
  }

  /** A layout that can be taken apart again. Its operands are not empty, and it cannot be
      misread: `a!` directly before `=`, or `=` directly behind `<`, `>` or `=`, would read as
      a different operator. */
  predicate Splits(l: Layout, op: CompareOp) {
    && Spaces(l.before) && Spaces(l.left) && Spaces(l.right) && Spaces(l.after)
    && l.arg != "" && IsTrimmed(l.arg) && OperatorFree(l.arg)
    && l.literal != "" && IsTrimmed(l.literal) && SpellsOp(l.spelling, op)
    && !(l.left == "" && l.arg[|l.arg| - 1] == '!' && l.spelling[0] == '=')
    && !(|l.spelling| == 1 && l.right == "" && l.literal[0] == '=')
  }

  predicate Lays(l: Layout, c: Condition) {
    Splits(l, c.op) && l.arg == c.arg && SpellsLiteral(l.literal, c)
  }

  /** The guard parser accepts exactly the layouts of well-formed conditions, and reads each as
      the condition it lays out. */
  lemma GuardGrammar(text: string, c: Condition)
    ensures ReadGuard(text) == Guard(c) <==> WellFormed(c) && exists l: Layout :: Lays(l, c) && l.Text() == text
  {
    if ReadGuard(text) == Guard(c) {
      var l := LayoutOfGuard(text, c);
    }
    if WellFormed(c) {
      forall l: Layout | Lays(l, c) && l.Text() == text
        ensures ReadGuard(text) == Guard(c)
      {
        LayoutIsRead(l, c);
      }
    }
  }

  /** A name, or a word compared for equality, that is longer than names may be. */
  ghost predicate TooLong(l: Layout, op: CompareOp) {
    || |l.arg| > MAX_NAME_LENGTH
    || (!IsOrdering(op) && |l.literal| > MAX_NAME_LENGTH && forall n: int32 :: !Denotes(l.literal, n))
  }

  /** What is not accepted is told so: something in it is too long, or it is not a comparison. */
  lemma GuardRefusals(text: string)
    ensures ReadGuard(text) == Refused(NameTooLong) <==>
            exists l: Layout, op :: Splits(l, op) && l.Text() == text && TooLong(l, op)
    ensures ReadGuard(text).Guard? || ReadGuard(text) in {Refused(NameTooLong), Refused(SchemaError)}
  {
    forall l: Layout, op | Splits(l, op) && l.Text() == text
      ensures ReadGuard(text) == Refused(NameTooLong) <==> TooLong(l, op)
    {
      SplitIsRead(l, op);
      DenotesOnce(l.literal);
    }
    if ReadGuard(text) == Refused(NameTooLong) {
      var l, op := SplitOfGuard(text);
    }
  }

  lemma LayoutOfGuard(text: string, c: Condition) returns (l: Layout)
    requires ReadGuard(text) == Guard(c)
    ensures WellFormed(c) && Lays(l, c) && l.Text() == text
  {
    var op;
    l, op := SplitOfGuard(text);
    SplitIsRead(l, op);
    OperandsAreWellFormed(l.arg, op, l.literal, c);
  }

  lemma SplitOfGuard(text: string) returns (l: Layout, op: CompareOp)
    requires ReadGuard(text) != Refused(SchemaError)
    ensures Splits(l, op) && l.Text() == text
  {
    var before, after := TrimSplits(text);
    l, op := SplitOfExpression(Trimmed(text));
    assert l.Core() == l.Text() by {
      assert "" + l.Core() + "" == l.Core();
    }
    l := l.(before := before, after := after);
  }

  lemma SplitOfExpression(expression: string) returns (l: Layout, op: CompareOp)
    requires IsTrimmed(expression) && ReadExpression(expression) != Refused(SchemaError)
    ensures Splits(l, op) && l.Core() == expression && l.before == l.after == ""
  {
    var position, end;
    op, position, end := OperatorOfExpression(expression);
    l := LayoutAt(expression, position, end);
    ArgIsOperatorFree(expression, position, l.arg, l.left);
    Unambiguous(expression, position, end, l);
  }

  lemma OperatorOfExpression(expression: string) returns (op: CompareOp, position: nat, end: nat)
    requires ReadExpression(expression) != Refused(SchemaError)
    ensures position < end <= |expression| && end - position <= 2
    ensures forall i | 0 <= i < position :: OperatorAt(expression, i) == None
    ensures OperatorAt(expression, position) == Some(Operator(end - position, op))
    ensures SpellsOp(expression[position..end], op)
    ensures Trimmed(expression[..position]) != "" && Trimmed(expression[end..]) != ""
  {
    var found := FirstOperator(expression, 0).value;
    op, position, end := found.op, found.position, found.position + found.length;
    FirstOperatorIsFirst(expression, 0, position);
    OperatorSpelled(expression, position);
  }

  /** The layout of a text around an operator found in it. */
  lemma LayoutAt(expression: string, position: nat, end: nat) returns (l: Layout)
    requires IsTrimmed(expression) && position < end <= |expression|
    requires Trimmed(expression[..position]) != "" && Trimmed(expression[end..]) != ""
    ensures l.before == l.after == "" && Spaces(l.left) && Spaces(l.right)
    ensures l.arg == Trimmed(expression[..position]) && IsTrimmed(l.arg)
    ensures l.literal == Trimmed(expression[end..]) && IsTrimmed(l.literal)
    ensures expression[..position] == l.arg + l.left && expression[end..] == l.right + l.literal
    ensures l.spelling == expression[position..end] && l.Core() == expression
  {
    var arg, left := CutLeft(expression, position);
    var right, literal := CutRight(expression, end);
    l := Layout("", arg, left, expression[position..end], right, literal, "");
    CoreOf(expression, position, end, l);
  }

  lemma CoreOf(expression: string, position: nat, end: nat, l: Layout)
    requires position <= end <= |expression| && l.spelling == expression[position..end]
    requires expression[..position] == l.arg + l.left && expression[end..] == l.right + l.literal
    ensures l.Core() == expression
  {
  }

  lemma OperandsAreWellFormed(arg: string, op: CompareOp, literal: string, c: Condition)
    requires ReadOperands(arg, op, literal) == Guard(c)
    requires IsTrimmed(arg) && IsTrimmed(literal) && OperatorFree(arg)
    ensures WellFormed(c) && c.arg == arg && c.op == op && SpellsLiteral(literal, c)
  {
  }

  lemma NoneInFront(s: string, none: string, rest: string)
    requires s == none + rest && Spaces(none) && s != "" && !IsSpace(s[0])
    ensures none == ""
  {
  }

  lemma NoneBehind(s: string, rest: string, none: string)
    requires s == rest + none && Spaces(none) && s != "" && !IsSpace(s[|s| - 1])
    ensures none == ""
  {
  }

  lemma CutLeft(expression: string, position: nat) returns (arg: string, left: string)
    requires IsTrimmed(expression) && position <= |expression| && Trimmed(expression[..position]) != ""
    ensures arg == Trimmed(expression[..position]) && IsTrimmed(arg)
    ensures expression[..position] == arg + left && Spaces(left)
  {
    var head := expression[..position];
    var none, rest := TrimSplits(head);
    arg, left := Trimmed(head), rest;
    assert head[0] == expression[0];
    NoneInFront(head, none, arg + left);
  }

  lemma CutRight(expression: string, end: nat) returns (right: string, literal: string)
    requires IsTrimmed(expression) && end <= |expression| && Trimmed(expression[end..]) != ""
    ensures literal == Trimmed(expression[end..]) && IsTrimmed(literal)
    ensures expression[end..] == right + literal && Spaces(right)
  {
    var tail := expression[end..];
    var rest, none := TrimSplits(tail);
    right, literal := rest, Trimmed(tail);
    assert tail[|tail| - 1] == expression[|expression| - 1];
    NoneBehind(tail, right + literal, none);
  }

  /** The leftmost operator, read as long as it goes, leaves no other reading. */
  lemma Unambiguous(expression: string, position: nat, end: nat, l: Layout)
    requires position < end <= |expression| && end - position <= 2
    requires forall i | 0 <= i < position :: OperatorAt(expression, i) == None
    requires OperatorAt(expression, position).Some? && OperatorAt(expression, position).value.length == end - position
    requires expression[..position] == l.arg + l.left && expression[end..] == l.right + l.literal
    requires l.spelling == expression[position..end] && l.arg != "" && l.literal != ""
    ensures !(l.left == "" && l.arg[|l.arg| - 1] == '!' && l.spelling[0] == '=')
    ensures !(|l.spelling| == 1 && l.right == "" && l.literal[0] == '=')
  {
    assert position > 0 && OperatorAt(expression, position - 1) == None;
    assert l.left == "" ==> l.arg[|l.arg| - 1] == expression[..position][position - 1] == expression[position - 1];
    assert l.spelling[0] == expression[position];
    assert l.right == "" ==> l.literal[0] == expression[end..][0] == expression[end];
  }

  lemma OperatorSpelled(text: string, i: nat)
    requires i < |text| && OperatorAt(text, i).Some?
    ensures var o := OperatorAt(text, i).value; SpellsOp(text[i..i + o.length], o.op)
  {
  }

  lemma ArgIsOperatorFree(expression: string, position: nat, arg: string, left: string)
    requires position < |expression| && expression[..position] == arg + left
    requires forall i | 0 <= i < position :: OperatorAt(expression, i) == None
    ensures OperatorFree(arg)
  {
    forall i | 0 <= i < |arg|
      ensures arg[i] != '=' && arg[i] != '<' && arg[i] != '>'
    {
      assert arg[i] == expression[..position][i] == expression[i];
      assert OperatorAt(expression, i) == None;
    }
  }

  lemma LayoutIsRead(l: Layout, c: Condition)
    requires WellFormed(c) && Lays(l, c)
    ensures ReadGuard(l.Text()) == Guard(c)
  {
    SplitIsRead(l, c.op);
    OperandsAreRead(l.arg, l.literal, c);
  }

  /** What can be taken apart is. */
  lemma SplitIsRead(l: Layout, op: CompareOp)
    requires Splits(l, op)
    ensures ReadGuard(l.Text()) == ReadOperands(l.arg, op, l.literal)
  {
    var found := Found(|l.arg + l.left|, |l.spelling|, op);
    SplitTrims(l, op);
    SplitOperator(l, op);
    SplitOperands(l, op, found);
    PartsAreRead(l.Text(), l.Core(), found, l.arg, l.literal);
  }

  lemma {:induction false} PartsAreRead(text: string, expression: string, found: Found, arg: string, literal: string)
    requires Trimmed(text) == expression && FirstOperator(expression, 0) == Some(found)
    requires found.position + found.length <= |expression|
    requires Trimmed(expression[..found.position]) == arg &&
             Trimmed(expression[found.position + found.length..]) == literal
    ensures ReadGuard(text) == ReadOperands(arg, found.op, literal)
  {
  }

  lemma SplitTrims(l: Layout, op: CompareOp)
    requires Splits(l, op)
    ensures Trimmed(l.Text()) == l.Core()
  {
    var expression := l.Core();
    assert expression[0] == l.arg[0];
    assert expression[|expression| - 1] == l.literal[|l.literal| - 1];
    TrimmedOf(l.before, expression, l.after);
  }

  lemma OperandsAreRead(arg: string, literal: string, c: Condition)
    requires WellFormed(c) && arg == c.arg && SpellsLiteral(literal, c) && literal != ""
    ensures ReadOperands(arg, c.op, literal) == Guard(c)
  {
  }

  lemma SplitOperands(l: Layout, op: CompareOp, found: Found)
    requires Splits(l, op) && found == Found(|l.arg + l.left|, |l.spelling|, op)
    ensures found.position + found.length <= |l.Core()|
    ensures Trimmed(l.Core()[..found.position]) == l.arg
    ensures Trimmed(l.Core()[found.position + found.length..]) == l.literal
  {
    assert l.Core()[..|l.arg + l.left|] == "" + l.arg + l.left;
    TrimmedOf("", l.arg, l.left);
    assert l.Core()[|l.arg + l.left| + |l.spelling|..] == l.right + l.literal + "";
    TrimmedOf(l.right, l.literal, "");
  }

  /** The leftmost operator of a layout is the one it spells. */
  lemma SplitOperator(l: Layout, op: CompareOp)
    requires Splits(l, op)
    ensures FirstOperator(l.Core(), 0) == Some(Found(|l.arg + l.left|, |l.spelling|, op))
  {
    var text, operand := l.Core(), l.arg + l.left;
    var position := |operand|;
    assert text[position] == l.spelling[0];
    forall i | 0 <= i < position
      ensures OperatorAt(text, i) == None
    {
      NoOperatorBefore(l, op, i);
    }
    OperatorHere(l, op);
    FirstOperatorAt(text, 0, position);
  }

  lemma NoOperatorBefore(l: Layout, op: CompareOp, i: nat)
    requires Splits(l, op) && i < |l.arg + l.left|
    ensures OperatorAt(l.Core(), i) == None
  {
  }

  lemma OperatorHere(l: Layout, op: CompareOp)
    requires Splits(l, op)
    ensures |l.arg + l.left| < |l.Core()|
    ensures OperatorAt(l.Core(), |l.arg + l.left|) == Some(Operator(|l.spelling|, op))
  {
  }

  // ---------------------------------------------------------------------------
  // printing

  /** How a condition is printed. */
  function ConditionText(c: Condition): string {
    c.arg + " " + Spelling(c.op) + " " + if c.numeric then IntText(c.number) else c.literal
  }

  /** Appends a condition to a bounded string, as much of it as fits. */
  method AppendCondition(out: FixedString, c: Condition)
    requires out.Valid()
    modifies out
    ensures out.Valid() && out.text == Clipped(old(out.text), ConditionText(c), out.capacity)
  {
    ghost var before := out.text;
    out.AppendClipped(c.arg);
    out.AppendClipped(" ");
    ClippedTwice(before, c.arg, " ", out.capacity);
    out.AppendClipped(Spelling(c.op));
    ClippedTwice(before, c.arg + " ", Spelling(c.op), out.capacity);
    out.AppendClipped(" ");
    ghost var head := c.arg + " " + Spelling(c.op) + " ";
    ClippedTwice(before, c.arg + " " + Spelling(c.op), " ", out.capacity);
    if c.numeric {
      AppendInt(out, c.number);
      ClippedTwice(before, head, IntText(c.number), out.capacity);
    } else {
      out.AppendClipped(c.literal);
      ClippedTwice(before, head, c.literal, out.capacity);
    }
  }

  function Spaced(arg: string, spelling: string, literal: string): Layout {
    Layout("", arg, " ", spelling, " ", literal, "")
  }

  lemma SpacedText(arg: string, spelling: string, literal: string)
    ensures Spaced(arg, spelling, literal).Text() == arg + " " + spelling + " " + literal
  {
  }

  lemma SpacedLays(c: Condition, literal: string)
    requires WellFormed(c) && SpellsLiteral(literal, c)
    ensures Lays(Spaced(c.arg, Spelling(c.op), literal), c)
  {
  }

  lemma PrintedLayout(c: Condition) returns (l: Layout)
    requires WellFormed(c)
    ensures Lays(l, c) && l.Text() == ConditionText(c)
  {
    var literal := if c.numeric then IntText(c.number) else c.literal;
    if c.numeric {
      IntTextRoundTrip(c.number);
      IntTextShape(c.number);
    }
    l := Spaced(c.arg, Spelling(c.op), literal);
    SpacedText(c.arg, Spelling(c.op), literal);
    SpacedLays(c, literal);
  }

  /** Parsing a printed condition gives the condition back. */
  lemma GuardRoundTrip(c: Condition)
    requires WellFormed(c)
    ensures ReadGuard(ConditionText(c)) == Guard(c)
  {
    var l := PrintedLayout(c);
    LayoutIsRead(l, c);
  }

  /** The longest a printed condition can be: two names, or a name and eleven digits, and four
      characters. */
  function LongestText(): nat {
    MAX_NAME_LENGTH + 4 + if MAX_NAME_LENGTH < 11 then 11 else MAX_NAME_LENGTH
  }

  lemma ConditionTextFits(c: Condition)
    requires WellFormed(c)
    ensures |ConditionText(c)| <= LongestText()
  {
    IntTextShape(c.number);
  }

  function LongName(): (s: string)
    ensures |s| == MAX_NAME_LENGTH && forall i | 0 <= i < |s| :: s[i] == 'a'
  {
    seq(MAX_NAME_LENGTH, _ => 'a')
  }

  lemma LongNameIsAWord()
    ensures IsTrimmed(LongName()) && OperatorFree(LongName()) && IntOf(LongName()) == None
  {
    assert !IsDigit(LongName()[0]);
  }

  /** Some condition is that long. */
  lemma SomeConditionIsLongest() returns (c: Condition)
    ensures WellFormed(c) && |ConditionText(c)| == LongestText()
  {
    LongNameIsAWord();
    if MAX_NAME_LENGTH < 11 {
      c := Condition(LongName(), LessEqual, true, INT32_MIN, "");
      LongestInt();
    } else {
      c := Condition(LongName(), Equal, false, 0, LongName());
    }
  }

  /** Every condition that can be parsed is printed whole exactly when the message has room for
      the longest of them. */
  lemma MessagesHoldConditions()
    ensures (forall c | WellFormed(c) :: Clipped("", ConditionText(c), MAX_MESSAGE_LENGTH) == ConditionText(c)) <==>
            MAX_MESSAGE_LENGTH >= LongestText()
  {
    forall c | WellFormed(c)
      ensures |ConditionText(c)| <= LongestText()
      ensures "" + ConditionText(c) == ConditionText(c)
    {
      ConditionTextFits(c);
    }
    var longest := SomeConditionIsLongest();
    assert "" + ConditionText(longest) == ConditionText(longest);
  }

  /** Printing what was parsed is a normal form: it parses to the same condition. */
  lemma GuardNormalForm(text: string)
    requires ReadGuard(text).Guard?
    ensures WellFormed(ReadGuard(text).condition)
    ensures ReadGuard(ConditionText(ReadGuard(text).condition)) == ReadGuard(text)
  {
    var c := ReadGuard(text).condition;
    var l := LayoutOfGuard(text, c);
    GuardRoundTrip(c);
  }
}
