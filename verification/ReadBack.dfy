/** Reading a Dot graph back: what it gives of the machine it was drawn from. */
module DotReading {
  import opened Types
  import opened MachineTables
  import opened BuildPhase
  import opened Diagrams

  /** What a graph shows: its title, where it starts, and its edges. */
  datatype Graph = Graph(title: string, start: Option<string>, edges: seq<Edge>)

  function ReadBody(s: string, title: string): Option<Graph> {
    match ReadField(s, START_MARK)
    case None => Some(Graph(title, None, ReadEdges(s)))
    case Some((name, rest)) =>
      match Expect(rest, ";\n")
      case None => None
      case Some(edges) => Some(Graph(title, Some(name), ReadEdges(edges)))
  }

  function ReadGraph(s: string): Option<Graph> {
    match ReadField(s, "digraph \"")
    case None => None
    case Some((title, a)) =>
      match Expect(a, " {\n")
      case None => None
      case Some(b) =>
        match ExpectStyle(b)
        case None => None
        case Some(body) => ReadBody(body, title)
  }

  /** The three lines that say how nodes and edges look. */
  function ExpectStyle(s: string): Option<string> {
    match Expect(s, "  rankdir=LR;\n")
    case None => None
    case Some(a) =>
      match Expect(a, "  node [shape=box, style=rounded, fontname=\"sans-serif\"];\n")
      case None => None
      case Some(b) => Expect(b, "  edge [fontname=\"sans-serif\", fontsize=10];\n")
  }

  lemma StyleIsExpected(body: string)
    ensures ExpectStyle(StyleText() + body) == Some(body)
  {
    var first, second := "  rankdir=LR;\n", "  node [shape=box, style=rounded, fontname=\"sans-serif\"];\n";
    var third := "  edge [fontname=\"sans-serif\", fontsize=10];\n";
    Associates(first, second + third, body);
    Associates(second, third, body);
    ExpectFinds(first, second + (third + body));
    ExpectFinds(second, third + body);
    ExpectFinds(third, body);
  }

  // ---------------------------------------------------------------------------
  // the header

  lemma {:induction false} EdgesAreNotAStart(edges: seq<Edge>)
    ensures ReadField(EdgesText(edges) + "}\n", START_MARK) == None
  {
    var s := EdgesText(edges) + "}\n";
    if edges == [] {
      assert s[0] == '}';
    } else {
      EdgeStarts(edges[0], EdgesText(edges[1..]));
    }
    StartMarkStarts();
  }

  lemma StartMarkStarts()
    ensures |START_MARK| > 2 && START_MARK[0] == ' ' && START_MARK[2] == '_'
  {
    var head := "  __";
    assert head[0] == ' ' && head[2] == '_';
    assert START_NODE[0] == head[0] && START_NODE[2] == head[2];
    assert START_MARK[0] == START_NODE[0] && START_MARK[2] == START_NODE[2];
  }

  lemma EdgeStarts(e: Edge, rest: string)
    ensures var s := EdgeText(e) + rest + "}\n"; |s| > 2 && s[0] == ' ' && s[2] == '"'
  {
    var line := EdgeText(e);
    assert line[0] == ' ' && line[2] == '"';
  }

  lemma {:induction false} BodyReadsBack(start: Option<string>, edges: seq<Edge>, title: string)
    ensures var drawn := if start.Some? then StartText(start.value) else "";
            ReadBody(drawn + (EdgesText(edges) + "}\n"), title) ==
            Some(Graph(title, if start.Some? then Some(CString(start.value)) else None, CutEdges(edges)))
  {
    var rest := EdgesText(edges) + "}\n";
    EdgesReadBack(edges);
    if start.Some? {
      var escaped := Escape(CString(start.value), Dot);
      StartParts(escaped, rest);
      DotEscapingInverts(CString(start.value));
      FieldReadsBack(START_MARK, escaped, ";\n" + rest);
      ExpectFinds(";\n", rest);
    } else {
      assert "" + rest == rest;
      EdgesAreNotAStart(edges);
    }
  }

  lemma StartParts(escaped: string, rest: string)
    ensures START_MARK + (escaped + "\";\n") + rest == START_MARK + (escaped + "\"" + (";\n" + rest))
  {
    assert "\";\n" == "\"" + ";\n";
    Associates(START_MARK, escaped + "\";\n", rest);
    assert escaped + "\";\n" + rest == escaped + "\"" + (";\n" + rest);
  }

  lemma TitleParts(escaped: string, rest: string)
    ensures "digraph \"" + (escaped + "\" {\n") + rest == "digraph \"" + (escaped + "\"" + (" {\n" + rest))
  {
  }

  lemma HeaderReadsBack(title: string, body: string)
    ensures ReadGraph(TitleText(title) + (StyleText() + body)) == ReadBody(body, title)
  {
    var a := StyleText() + body;
    TitleParts(Escape(title, Dot), a);
    DotEscapingInverts(title);
    FieldReadsBack("digraph \"", Escape(title, Dot), " {\n" + a);
    ExpectFinds(" {\n", a);
    StyleIsExpected(body);
  }

  lemma HeaderParts(t: Tables, initial: StateId, body: string)
    ensures Header(t, initial) + body ==
            TitleText(TitleOf(t)) +
            (StyleText() + ((if StartOf(t, initial).Some? then StartText(StartOf(t, initial).value) else "") + body))
  {
    var start := if StartOf(t, initial).Some? then StartText(StartOf(t, initial).value) else "";
    Associates(TitleText(TitleOf(t)), StyleText() + start, body);
    Associates(StyleText(), start, body);
  }

  function TitleOf(t: Tables): string {
    if t.name == "" then "machine" else t.name
  }

  function StartOf(t: Tables, initial: StateId): Option<string> {
    if initial in t.states then Some(StateName(t.states, initial)) else None
  }

  function CutStart(t: Tables, initial: StateId): Option<string> {
    if initial in t.states then Some(CString(StateName(t.states, initial))) else None
  }

  /** A graph reads back as the title, the start and the edges of the machine, one for each
      alternative in order, with names cut at a NUL. */
  lemma {:induction false} GraphReadsBack(t: Tables, initial: StateId)
    requires Invariant(t)
    ensures |t.states| <= 0xFFFF && |t.triggers| <= 0xFFFF
    ensures ReadGraph(DotText(t, initial)) ==
            Some(Graph(TitleOf(t), CutStart(t, initial), CutEdges(MachineEdges(t, |t.states|))))
  {
    DrawableTables(t);
    var edges := MachineEdges(t, |t.states|);
    HeaderParts(t, initial, EdgesText(edges) + "}\n");
    BodyReadsBack(StartOf(t, initial), edges, TitleOf(t));
    var start := if StartOf(t, initial).Some? then StartText(StartOf(t, initial).value) else "";
    HeaderReadsBack(TitleOf(t), start + (EdgesText(edges) + "}\n"));
  }

  predicate Drawable(e: Edge) {
    '\0' !in e.source && '\0' !in e.target && '\0' !in e.trigger
  }

  /** Every name that is drawn can be: none has a NUL in it. */
  predicate AllDrawable(edges: seq<Edge>, start: Option<string>) {
    && (forall i | 0 <= i < |edges| :: Drawable(edges[i]))
    && (start.Some? ==> '\0' !in start.value)
  }

  lemma CutChangesNothing(edges: seq<Edge>)
    ensures CutEdges(edges) == edges <==> forall i | 0 <= i < |edges| :: Drawable(edges[i])
  {
    if CutEdges(edges) == edges {
      forall i | 0 <= i < |edges|
        ensures Drawable(edges[i])
      {
        assert CutEdges(edges)[i] == edges[i];
      }
    }
  }

  lemma NoneIsCut(title: string, start: Option<string>, edges: seq<Edge>)
    ensures Graph(title, if start.Some? then Some(CString(start.value)) else None, CutEdges(edges)) ==
            Graph(title, start, edges) <==>
            AllDrawable(edges, start)
  {
    CutChangesNothing(edges);
  }

  /** A graph gives back the machine's own names exactly when none that is drawn has a NUL. */
  lemma {:induction false} NamesReadBackExactly(t: Tables, initial: StateId)
    requires Invariant(t)
    ensures |t.states| <= 0xFFFF && |t.triggers| <= 0xFFFF
    ensures ReadGraph(DotText(t, initial)) ==
            Some(Graph(TitleOf(t), StartOf(t, initial), MachineEdges(t, |t.states|))) <==>
            AllDrawable(MachineEdges(t, |t.states|), StartOf(t, initial))
  {
    GraphReadsBack(t, initial);
    NoneIsCut(TitleOf(t), StartOf(t, initial), MachineEdges(t, |t.states|));
  }

  // ---------------------------------------------------------------------------
  // a machine whose names are cut

  const NAMED := DeclareState(NOTHING, "\0").1
  const TRIGGERED := DeclareTrigger(NAMED, "g", "").1
  const LOOPING := AddTransition(TRIGGERED, 0, 0, 0, []).1

  lemma LoopingIsBuilt()
    ensures DeclareState(NOTHING, "\0").0 == Ok && DeclareTrigger(NAMED, "g", "").0 == Ok
    ensures AddTransition(TRIGGERED, 0, 0, 0, []).0 == Ok
    ensures LOOPING.states == map[0 := StateNode("\0", map[0 := [Alternative(0, 0, 0)]])]
    ensures |LOOPING.triggers| == 1 && LOOPING.name == ""
  {
    var node := StateNode("\0", map[]);
    assert NAMED.states == map[0 := node];
    assert TRIGGERED.triggers == map[0 := TriggerDef("g", "g")];
    assert Listed(node, 0) + [Alternative(0, 0, 0)] == [Alternative(0, 0, 0)];
    assert LOOPING.states[0] == StateNode("\0", map[0 := [Alternative(0, 0, 0)]]);
  }

  lemma NamedIsSound()
    ensures Invariant(NAMED)
  {
    LoopingIsBuilt();
    NothingIsBuilt();
    DeclareStateKeeps(NOTHING, "\0");
  }

  lemma NothingIsBuilt()
    ensures Invariant(NOTHING)
  {
  }

  lemma TriggeredIsSound()
    ensures Invariant(TRIGGERED)
  {
    LoopingIsBuilt();
    NamedIsSound();
    DeclareTriggerKeeps(NAMED, "g", "");
  }

  lemma LoopingIsSound()
    ensures Invariant(LOOPING)
  {
    LoopingIsBuilt();
    TriggeredIsSound();
    AddTransitionKeeps(TRIGGERED, 0, 0, 0, []);
  }

  const LOOP := Edge("\0", "\0", "g", None)

  lemma LoopingEdges()
    ensures |LOOPING.triggers| == 1 && MachineEdges(LOOPING, 1) == [LOOP]
  {
    LoopingIsBuilt();
    assert LOOPING.triggers[0] == TriggerDef("g", "g");
    var list := ListAt(LOOPING, 0, 0);
    assert list == [Alternative(0, 0, 0)];
    assert ListEdges(LOOPING, 0, 0, list, 0) == [];
    assert ListEdges(LOOPING, 0, 0, list, 1) == [LOOP];
    assert StateEdges(LOOPING, 0, 1) == [LOOP];
  }

  lemma {:induction false} LoopIsCut()
    ensures CutEdges([LOOP]) == [Edge("", "", "g", None)]
  {
    assert CString("g") == "g";
  }

  lemma {:induction false} CutToNothing(t: Tables)
    requires Invariant(t) && |t.states| == 1 && |t.triggers| == 1 && t.name == ""
    requires MachineEdges(t, 1) == [LOOP]
    ensures ReadGraph(DotText(t, NO_STATE)) == Some(Graph("machine", None, [Edge("", "", "g", None)]))
  {
    GraphReadsBack(t, NO_STATE);
    DrawableTables(t);
    LoopIsCut();
  }

  /** One can be built: its one edge comes back between two empty names. */
  lemma SomeNamesAreCut() returns (t: Tables)
    ensures Invariant(t) && |t.states| == 1 && |t.triggers| == 1 && MachineEdges(t, 1) == [LOOP]
    ensures ReadGraph(DotText(t, NO_STATE)) == Some(Graph("machine", None, [Edge("", "", "g", None)]))
  {
    t := LOOPING;
    LoopingIsBuilt();
    LoopingIsSound();
    LoopingEdges();
    CutToNothing(t);
  }
}

/** Reading a note back: when the guard an edge shows can be told from others. */
module NoteReading {
  import opened Limits
  import opened Text
  import opened Conditions
  import opened Guards
  import opened Diagrams

  const AND := " and "

  /** Takes a text apart at each " and ", from the left. */
  function Split(s: string): (r: seq<string>)
    ensures r != []
  {
    if s == "" then [""]
    else if AND <= s then [""] + Split(s[5..])
    else
      var rest := Split(s[1..]);
      [[s[0]] + rest[0]] + rest[1..]
  }

  /** Nowhere in the text does an " and " start. */
  predicate NoAnd(text: string) {
    forall i | 0 <= i < |text| :: !(AND <= text[i..])
  }

  /** Nor does one when another follows: the text does not end in " and" either. */
  predicate NoAndBefore(text: string) {
    forall i | 0 <= i < |text| :: !(AND <= text[i..] + AND)
  }

  lemma NoAndRest(text: string)
    requires text != ""
    ensures NoAnd(text) <==> !(AND <= text) && NoAnd(text[1..])
  {
    assert text[0..] == text;
    assert forall i | 0 < i < |text| :: text[1..][i - 1..] == text[i..];
  }

  lemma NoAndBeforeRest(text: string)
    requires text != ""
    ensures NoAndBefore(text) <==> !(AND <= text + AND) && NoAndBefore(text[1..])
  {
    assert text[0..] == text;
    assert forall i | 0 < i < |text| :: text[1..][i - 1..] == text[i..];
  }

  lemma {:induction false} SplitsWhole(text: string)
    ensures Split(text) == [text] <==> NoAnd(text)
  {
    if text != "" {
      NoAndRest(text);
      if !(AND <= text) {
        SplitsWhole(text[1..]);
        var rest := Split(text[1..]);
        assert rest == [rest[0]] + rest[1..] && [text[0]] + text[1..] == text;
        assert Split(text)[0][1..] == rest[0] && Split(text)[1..] == rest[1..];
        if Split(text) == [text] {
          assert rest[1..] == [] && rest[0] == text[1..];
        }
      } else {
        assert |Split(text)| > 1;
      }
    }
  }

  lemma AndIsInFront(text: string, rest: string)
    requires text != ""
    ensures AND <= text + AND + rest <==> AND <= text + AND
  {
    assert (text + AND + rest)[..5] == (text + AND)[..5];
  }

  /** Splitting finds the end of a text exactly when nothing in it looks like it. */
  lemma {:induction false} SplitsAfter(text: string, rest: string)
    ensures NoAndBefore(text) ==> Split(text + AND + rest) == [text] + Split(rest)
    ensures !NoAndBefore(text) ==> |Split(text + AND + rest)[0]| < |text|
  {
    var whole := text + AND + rest;
    if text == "" {
      assert whole[5..] == rest && AND <= whole;
    } else {
      NoAndBeforeRest(text);
      AndIsInFront(text, rest);
      if !(AND <= whole) {
        assert whole[1..] == text[1..] + AND + rest;
        SplitsAfter(text[1..], rest);
        assert [text[0]] + text[1..] == text;
      }
    }
  }

  lemma {:induction false} JoinedFirst(words: seq<string>)
    requires |words| > 1
    ensures Joined(words) == words[0] + AND + Joined(words[1..])
  {
    var last := |words| - 1;
    assert words[1..][..last - 1] == words[..last][1..];
    if last == 1 {
      assert words[..1] == [words[0]] && words[1..] == [words[1]];
      assert Joined([words[0]]) == words[0] && Joined([words[1]]) == words[1];
    } else {
      JoinedFirst(words[..last]);
      JoinAssociates(words[0] + AND, Joined(words[1..][..last - 1]), words[last]);
    }
  }

  lemma JoinAssociates(a: string, b: string, c: string)
    ensures (a + b) + AND + c == a + (b + AND + c)
  {
  }

  /** Each text can be told apart from what follows it. */
  predicate Separable(words: seq<string>) {
    && words != [] && NoAnd(words[|words| - 1])
    && forall i | 0 <= i < |words| - 1 :: NoAndBefore(words[i])
  }

  lemma SeparableRest(words: seq<string>)
    requires |words| > 1
    ensures Separable(words) <==> NoAndBefore(words[0]) && Separable(words[1..])
  {
    assert forall i | 0 < i < |words| :: words[1..][i - 1] == words[i];
  }

  /** Joined texts come apart again exactly when each can be told from what follows. */
  lemma {:induction false} JoinedSplitsExactly(words: seq<string>)
    requires words != []
    ensures Split(Joined(words)) == words <==> Separable(words)
  {
    if |words| == 1 {
      assert words == [words[0]];
      assert Joined(words) == words[0];
      SplitsWhole(words[0]);
    } else {
      JoinedFirst(words);
      SeparableRest(words);
      SplitsAfter(words[0], Joined(words[1..]));
      JoinedSplitsExactly(words[1..]);
      if NoAndBefore(words[0]) {
        assert words == [words[0]] + words[1..];
      }
    }
  }

  lemma {:induction false} WordsAreWhole(guard: seq<Condition>)
    requires AllWellFormed(guard) && MAX_MESSAGE_LENGTH >= LongestText()
    ensures forall i | 0 <= i < |guard| :: ReadGuard(Words(guard)[i]) == Guard(guard[i])
  {
    forall i | 0 <= i < |guard|
      ensures ReadGuard(Words(guard)[i]) == Guard(guard[i])
    {
      ConditionTextFits(guard[i]);
      assert "" + ConditionText(guard[i]) == ConditionText(guard[i]);
      GuardRoundTrip(guard[i]);
    }
  }

  function ReadAll(words: seq<string>): (r: seq<Parsed>)
    ensures |r| == |words|
  {
    seq(|words|, i requires 0 <= i < |words| => ReadGuard(words[i]))
  }

  function AllParsed(guard: seq<Condition>): (r: seq<Parsed>)
    ensures |r| == |guard|
  {
    seq(|guard|, i requires 0 <= i < |guard| => Guard(guard[i]))
  }

  /** A parsed guard comes back from its note, condition by condition, when each can be told from
      what follows, and messages hold conditions. */
  lemma {:induction false} GuardReadsBack(guard: seq<Condition>)
    requires guard != [] && AllWellFormed(guard) && MAX_MESSAGE_LENGTH >= LongestText()
    requires Separable(Words(guard))
    ensures ReadAll(Split(Joined(Words(guard)))) == AllParsed(guard)
  {
    JoinedSplitsExactly(Words(guard));
    WordsAreWhole(guard);
  }

  const ONE_WORD := Condition("mode", Equal, false, 0, "a and b == c")
  const MODE_IS_A := Condition("mode", Equal, false, 0, "a")
  const B_IS_C := Condition("b", Equal, false, 0, "c")

  lemma LookAlikesParse()
    requires MAX_NAME_LENGTH >= 12
    ensures WellFormed(ONE_WORD) && WellFormed(MODE_IS_A) && WellFormed(B_IS_C)
  {
    assert !IsDigit("a and b == c"[0]) && !IsDigit("a"[0]) && !IsDigit("c"[0]);
  }

  lemma LookAlikeWords()
    requires MAX_MESSAGE_LENGTH >= 20
    ensures Words([ONE_WORD]) == ["mode == a and b == c"]
    ensures Words([MODE_IS_A, B_IS_C]) == ["mode == a", "b == c"]
    ensures "mode == a" + AND + "b == c" == "mode == a and b == c"
  {
    assert ConditionText(ONE_WORD) == "mode == a and b == c";
    assert ConditionText(MODE_IS_A) == "mode == a" && ConditionText(B_IS_C) == "b == c";
    assert "" + ConditionText(ONE_WORD) == ConditionText(ONE_WORD);
    assert "" + ConditionText(MODE_IS_A) == ConditionText(MODE_IS_A) &&
           "" + ConditionText(B_IS_C) == ConditionText(B_IS_C);
  }

  /** Otherwise it need not: these two guards load, are drawn alike, and mean different things. */
  lemma GuardsLookAlike()
    requires MAX_NAME_LENGTH >= 12 && MAX_MESSAGE_LENGTH >= 20
    ensures WellFormed(ONE_WORD) && WellFormed(MODE_IS_A) && WellFormed(B_IS_C)
    ensures Joined(Words([ONE_WORD])) == Joined(Words([MODE_IS_A, B_IS_C]))
  {
    LookAlikesParse();
    LookAlikeWords();
    JoinedAlike(Words([ONE_WORD])[0], Words([MODE_IS_A, B_IS_C])[0], Words([MODE_IS_A, B_IS_C])[1]);
  }

  lemma {:induction false} JoinedAlike(one: string, a: string, b: string)
    requires one == a + AND + b
    ensures Joined([one]) == Joined([a, b])
  {
    JoinedOne(one);
    JoinedTwo(a, b);
  }

  lemma {:induction false} JoinedOne(a: string)
    ensures Joined([a]) == a
  {
    assert "" + "" + a == a;
  }

  lemma {:induction false} JoinedTwo(a: string, b: string)
    ensures Joined([a, b]) == a + AND + b
  {
    assert [a, b][1..] == [b];
    JoinedFirst([a, b]);
    JoinedOne(b);
  }
}
