/** Drawing a machine: escaping, and the edges of a Dot graph. */
module Diagrams {
  import opened Limits
  import opened Types
  import opened Conditions
  import opened MachineTables
  import opened BuildPhase
  import opened Histories
  import opened Models

  datatype Format = Mermaid | Dot

  function Concat(fragments: seq<string>): string {
    if fragments == [] then "" else Concat(fragments[..|fragments| - 1]) + fragments[|fragments| - 1]
  }

  predicate NoneEmpty(fragments: seq<string>) {
    forall i | 0 <= i < |fragments| :: fragments[i] != ""
  }

  /** Where the text goes, one fragment at a time and never an empty one. */
  class Sink {
    var fragments: seq<string>

    constructor ()
      ensures fragments == [] && Text() == "" && NoneEmpty(fragments)
    {
      fragments := [];
    }

    function Text(): string
      reads this
    {
      Concat(fragments)
    }

    method Emit(text: string)
      requires NoneEmpty(fragments)
      modifies this
      ensures Text() == old(Text()) + text && NoneEmpty(fragments)
    {
      if text != "" {
        fragments := fragments + [text];
        assert fragments[..|fragments| - 1] == old(fragments);
      }
    }
  }

  // ---------------------------------------------------------------------------
  // escaping

  /** What has to be spelled out: markup in Mermaid, the quote and the backslash in Dot. */
  function Replacement(c: char, format: Format): Option<string> {
    if format == Mermaid then
      if c == '<' then Some("#lt;") else if c == '>' then Some("#gt;") else if c == '"' then Some("#quot;") else None
    else if c == '"' then Some("\\\"") else if c == '\\' then Some("\\\\") else None
  }

  function EscapeChar(c: char, format: Format): string {
    match Replacement(c, format)
    case Some(spelled) => spelled
    case None => [c]
  }

  function Escape(text: string, format: Format): string {
    if text == "" then "" else EscapeChar(text[0], format) + Escape(text[1..], format)
  }

  lemma {:induction false} EscapeMore(text: string, c: char, format: Format)
    ensures Escape(text + [c], format) == Escape(text, format) + EscapeChar(c, format)
  {
    if text == "" {
      assert text + [c] == [c];
      assert [c][1..] == "";
    } else {
      assert (text + [c])[1..] == text[1..] + [c];
      EscapeMore(text[1..], c, format);
    }
  }

  /** Emits stretches that need no escaping whole, and a replacement between them. */
  method EmitEscaped(out: Sink, text: string, format: Format)
    requires NoneEmpty(out.fragments)
    modifies out
    ensures out.Text() == old(out.Text()) + Escape(text, format) && NoneEmpty(out.fragments)
  {
    var run := 0;
    ghost var before, emitted := out.Text(), "";
    for i := 0 to |text|
      invariant 0 <= run <= i && NoneEmpty(out.fragments)
      invariant out.Text() == before + emitted
      invariant emitted + text[run..i] == Escape(text[..i], format)
    {
      RunGrows(text, run, i, emitted, format);
      var replacement := Replacement(text[i], format);
      if replacement.Some? {
        ghost var piece := text[run..i] + replacement.value;
        Associates(before, emitted, piece);
        EmitReplaced(out, text[run..i], replacement.value);
        emitted := emitted + piece;
        run := i + 1;
      }
    }
    assert text[..|text|] == text;
    Associates(before, emitted, text[run..|text|]);
    out.Emit(text[run..|text|]);
  }

  /** A character either joins the stretch that is still to be emitted, or ends it. */
  lemma {:induction false} RunGrows(text: string, run: nat, i: nat, emitted: string, format: Format)
    requires run <= i < |text| && emitted + text[run..i] == Escape(text[..i], format)
    ensures match Replacement(text[i], format)
            case None => emitted + text[run..i + 1] == Escape(text[..i + 1], format)
            case Some(spelled) =>
              emitted + (text[run..i] + spelled) + text[i + 1..i + 1] == Escape(text[..i + 1], format)
  {
    EscapeNext(text, i, format);
    Associates(emitted, text[run..i], EscapeChar(text[i], format));
    assert text[run..i + 1] == text[run..i] + [text[i]];
    assert text[i + 1..i + 1] == "";
  }

  method EmitReplaced(out: Sink, stretch: string, spelled: string)
    requires NoneEmpty(out.fragments)
    modifies out
    ensures out.Text() == old(out.Text()) + (stretch + spelled) && NoneEmpty(out.fragments)
  {
    out.Emit(stretch);
    out.Emit(spelled);
  }

  lemma {:induction false} EscapeNext(text: string, i: nat, format: Format)
    requires i < |text|
    ensures Escape(text[..i + 1], format) == Escape(text[..i], format) + EscapeChar(text[i], format)
  {
    assert text[..i + 1] == text[..i] + [text[i]];
    EscapeMore(text[..i], text[i], format);
  }

  /** Reads Dot text back in one pass: a backslash stands for the character after it. There is
      no reading when a bare quote or a dangling backslash is left. */
  function Unescape(s: string): Option<string> {
    if s == "" then Some("")
    else if s[0] == '"' then None
    else if s[0] == '\\' then
      if |s| < 2 then None else Prefixed(s[1], Unescape(s[2..]))
    else Prefixed(s[0], Unescape(s[1..]))
  }

  function Prefixed(c: char, rest: Option<string>): Option<string> {
    match rest
    case Some(s) => Some([c] + s)
    case None => None
  }

  lemma {:induction false} UnescapeAppends(a: string, b: string)
    requires Unescape(a).Some? && Unescape(b).Some?
    ensures Unescape(a + b) == Some(Unescape(a).value + Unescape(b).value)
  {
    if a == "" {
      assert a + b == b;
      assert "" + Unescape(b).value == Unescape(b).value;
    } else if a[0] == '\\' {
      assert (a + b)[2..] == a[2..] + b && (a + b)[1] == a[1];
      UnescapeAppends(a[2..], b);
      PrefixedAppends(a[1], Unescape(a[2..]).value, Unescape(b).value);
    } else {
      assert (a + b)[1..] == a[1..] + b;
      UnescapeAppends(a[1..], b);
      PrefixedAppends(a[0], Unescape(a[1..]).value, Unescape(b).value);
    }
  }

  lemma PrefixedAppends(c: char, x: string, y: string)
    ensures Prefixed(c, Some(x + y)) == Some(Prefixed(c, Some(x)).value + y)
  {
    assert [c] + (x + y) == ([c] + x) + y;
  }

  lemma {:induction false} DotCharInverts(c: char, tail: string, text: string)
    requires Unescape(tail) == Some(text)
    ensures Unescape(EscapeChar(c, Dot) + tail) == Some([c] + text)
  {
  }

  /** Dot escaping loses nothing, and leaves no bare quote. */
  lemma {:induction false} DotEscapingInverts(text: string)
    ensures Unescape(Escape(text, Dot)) == Some(text)
  {
    if text != "" {
      DotEscapingInverts(text[1..]);
      DotCharInverts(text[0], Escape(text[1..], Dot), text[1..]);
      assert [text[0]] + text[1..] == text;
    }
  }

  // ---------------------------------------------------------------------------
  // what Mermaid escaping loses

  predicate OccursAt(text: string, piece: string, i: int) {
    0 <= i <= |text| - |piece| && text[i..i + |piece|] == piece
  }

  ghost predicate Contains(text: string, piece: string) {
    exists i :: OccursAt(text, piece, i)
  }

  /** No markup, and nothing that looks like escaped markup. */
  ghost predicate Unmistakable(text: string) {
    && '<' !in text && '>' !in text && '"' !in text
    && !Contains(text, "#lt;") && !Contains(text, "#gt;") && !Contains(text, "#quot;")
  }

  lemma {:induction false} EscapeBoth(a: string, b: string, format: Format)
    ensures Escape(a + b, format) == Escape(a, format) + Escape(b, format)
  {
    if a == "" {
      assert a + b == b;
    } else {
      assert (a + b)[1..] == a[1..] + b;
      EscapeBoth(a[1..], b, format);
    }
  }

  lemma {:induction false} EscapeOne(c: char, format: Format)
    ensures Escape([c], format) == EscapeChar(c, format)
  {
    assert [c][1..] == "";
  }

  /** A character and what stands for it can be exchanged anywhere. */
  lemma {:induction false} EscapeAround(a: string, c: char, b: string, format: Format)
    ensures Escape(a + [c] + b, format) == Escape(a, format) + EscapeChar(c, format) + Escape(b, format)
  {
    EscapeBoth(a + [c], b, format);
    EscapeBoth(a, [c], format);
    EscapeOne(c, format);
  }

  lemma {:induction false} NothingToEscape(text: string)
    requires '<' !in text && '>' !in text && '"' !in text
    ensures Escape(text, Mermaid) == text
  {
    PlainText(text, Mermaid);
  }

  lemma SpellingStays(c: char)
    requires Replacement(c, Mermaid).Some?
    ensures Escape(Replacement(c, Mermaid).value, Mermaid) == Replacement(c, Mermaid).value
  {
    NothingToEscape(Replacement(c, Mermaid).value);
  }

  /** Text with a character of markup, and the same text with its spelling, look alike. */
  lemma {:induction false} MarkupIsLost(a: string, c: char, b: string)
    requires Replacement(c, Mermaid).Some?
    ensures Escape(a + Replacement(c, Mermaid).value + b, Mermaid) == Escape(a + [c] + b, Mermaid)
    ensures a + Replacement(c, Mermaid).value + b != a + [c] + b
  {
    var spelled := Replacement(c, Mermaid).value;
    EscapeAround(a, c, b, Mermaid);
    EscapeBoth(a + spelled, b, Mermaid);
    EscapeBoth(a, spelled, Mermaid);
    SpellingStays(c);
    assert |a + spelled + b| > |a + [c] + b|;
  }

  /** Escaping leaves a mark wherever there was markup. */
  lemma {:induction false} MarkupLeavesAMark(text: string, i: nat)
    requires i < |text| && Replacement(text[i], Mermaid).Some?
    ensures Contains(Escape(text, Mermaid), Replacement(text[i], Mermaid).value)
  {
    var a, c, b := text[..i], text[i], text[i + 1..];
    assert text == a + [c] + b;
    EscapeAround(a, c, b, Mermaid);
    var escaped, k := Escape(text, Mermaid), |Escape(a, Mermaid)|;
    assert escaped[k..k + |Replacement(c, Mermaid).value|] == Replacement(c, Mermaid).value;
    assert OccursAt(escaped, Replacement(c, Mermaid).value, k);
  }

  lemma SplitAt(text: string, piece: string) returns (a: string, b: string)
    requires Contains(text, piece)
    ensures text == a + piece + b
  {
    var i :| OccursAt(text, piece, i);
    a, b := text[..i], text[i + |piece|..];
  }

  lemma SplitAround(text: string, c: char) returns (a: string, b: string)
    requires c in text
    ensures text == a + [c] + b
  {
    var i :| 0 <= i < |text| && text[i] == c;
    a, b := text[..i], text[i + 1..];
  }

  /** A text that could be mistaken has a twin. */
  lemma MistakableHasTwin(text: string) returns (twin: string)
    requires !Unmistakable(text)
    ensures twin != text && Escape(twin, Mermaid) == Escape(text, Mermaid)
  {
    if c :| c in text && Replacement(c, Mermaid).Some? {
      var a, b := SplitAround(text, c);
      MarkupIsLost(a, c, b);
      twin := a + Replacement(c, Mermaid).value + b;
    } else {
      assert Replacement('<', Mermaid).Some? && Replacement('>', Mermaid).Some? && Replacement('"', Mermaid).Some?;
      var c := if Contains(text, "#lt;") then '<' else if Contains(text, "#gt;") then '>' else '"';
      var a, b := SplitAt(text, Replacement(c, Mermaid).value);
      MarkupIsLost(a, c, b);
      twin := a + [c] + b;
    }
  }

  lemma {:induction false} UnmistakableIsAlone(text: string, other: string)
    requires Unmistakable(text) && Escape(other, Mermaid) == Escape(text, Mermaid)
    ensures other == text
  {
    NothingToEscape(text);
    if i :| 0 <= i < |other| && Replacement(other[i], Mermaid).Some? {
      MarkupLeavesAMark(other, i);
    } else {
      forall c | c in other
        ensures Replacement(c, Mermaid) == None
      {
        var i :| 0 <= i < |other| && other[i] == c;
      }
      NothingToEscape(other);
    }
  }

  /** Exactly which texts can be told from all others by their Mermaid form. */
  lemma {:induction false} MermaidIsReadableExactly(text: string)
    ensures (forall other | Escape(other, Mermaid) == Escape(text, Mermaid) :: other == text) <==> Unmistakable(text)
  {
    if Unmistakable(text) {
      forall other | Escape(other, Mermaid) == Escape(text, Mermaid)
        ensures other == text
      {
        UnmistakableIsAlone(text, other);
      }
    } else {
      var twin := MistakableHasTwin(text);
    }
  }

  // ---------------------------------------------------------------------------
  // edges

  /** Names are handed over as C strings, which end at the first NUL. */
  function CString(s: string): (r: string)
    ensures r <= s && '\0' !in r
    ensures if '\0' in s then |r| < |s| && s[|r|] == '\0' else r == s
  {
    if s == "" || s[0] == '\0' then "" else [s[0]] + CString(s[1..])
  }

  /** What an edge shows: its two ends, its trigger, and a note about when it is taken. */
  datatype Edge = Edge(source: string, target: string, trigger: string, note: Option<string>)

  /** What follows the trigger, if anything does. */
  function NoteText(note: Option<string>, format: Format): string {
    match note
    case None => ""
    case Some(text) => Break(format) + Escape(text, format)
  }

  /** What parts the trigger from the note: a line break in Dot. */
  function Break(format: Format): string {
    if format == Mermaid then " " else "\\n"
  }

  function LabelText(trigger: string, note: Option<string>, format: Format): string {
    Escape(trigger, format) + NoteText(note, format)
  }

  function EdgeText(e: Edge): string {
    EdgeLine(Escape(CString(e.source), Dot), Escape(CString(e.target), Dot), LabelText(CString(e.trigger), e.note, Dot))
  }

  function EdgeLine(source: string, target: string, caption: string): string {
    "  \"" + source + "\" -> \"" + target + "\" [label=\"" + caption + "\"];\n"
  }

  function EdgesText(edges: seq<Edge>): string {
    if edges == [] then "" else EdgeText(edges[0]) + EdgesText(edges[1..])
  }

  /** Reads up to a bare quote. */
  function ReadQuoted(s: string): (r: Option<(string, string)>)
    ensures r.Some? ==> |r.value.1| < |s|
  {
    if s == "" then None
    else if s[0] == '"' then Some(("", s[1..]))
    else if s[0] == '\\' then
      if |s| < 2 then None
      else
        match ReadQuoted(s[2..])
        case Some((text, rest)) => Some(([s[1]] + text, rest))
        case None => None
    else
      match ReadQuoted(s[1..])
      case Some((text, rest)) => Some(([s[0]] + text, rest))
      case None => None
  }

  lemma {:induction false} ReadsEscaped(s: string, rest: string)
    requires Unescape(s).Some?
    ensures ReadQuoted(s + "\"" + rest) == Some((Unescape(s).value, rest))
  {
    var whole := s + "\"" + rest;
    if s == "" {
      assert whole[1..] == rest;
    } else {
      var n := if s[0] == '\\' then 2 else 1;
      assert whole[n..] == s[n..] + "\"" + rest;
      ReadsEscaped(s[n..], rest);
    }
  }

  /** Reads up to a bare quote without undoing the escaping. */
  function ReadRaw(s: string): (r: Option<(string, string)>)
    ensures r.Some? ==> |r.value.1| < |s|
  {
    if s == "" then None
    else if s[0] == '"' then Some(("", s[1..]))
    else if s[0] == '\\' then
      if |s| < 2 then None
      else
        match ReadRaw(s[2..])
        case Some((text, rest)) => Some((s[..2] + text, rest))
        case None => None
    else
      match ReadRaw(s[1..])
      case Some((text, rest)) => Some(([s[0]] + text, rest))
      case None => None
  }

  lemma {:induction false} ReadsRaw(s: string, rest: string)
    requires Unescape(s).Some?
    ensures ReadRaw(s + "\"" + rest) == Some((s, rest))
  {
    var whole := s + "\"" + rest;
    if s == "" {
      assert whole[1..] == rest;
    } else {
      var n := if s[0] == '\\' then 2 else 1;
      assert whole[n..] == s[n..] + "\"" + rest;
      ReadsRaw(s[n..], rest);
      if n == 2 {
        assert whole[..2] + s[2..] == s;
      } else {
        assert [whole[0]] + s[1..] == s;
      }
    }
  }

  /** Takes a label apart at its first line break. */
  function ReadLabel(s: string): Option<(string, Option<string>)> {
    if s == "" then Some(("", None))
    else if s[0] == '\\' then
      if |s| < 2 then None
      else if s[1] == 'n' then
        match Unescape(s[2..])
        case Some(text) => Some(("", Some(text)))
        case None => None
      else InFront(s[1], ReadLabel(s[2..]))
    else InFront(s[0], ReadLabel(s[1..]))
  }

  function InFront(c: char, read: Option<(string, Option<string>)>): Option<(string, Option<string>)> {
    match read
    case Some((trigger, note)) => Some(([c] + trigger, note))
    case None => None
  }

  lemma {:induction false} LabelReadsBack(trigger: string, note: Option<string>)
    ensures ReadLabel(LabelText(trigger, note, Dot)) == Some((trigger, note))
  {
    if trigger == "" {
      assert "" + NoteText(note, Dot) == NoteText(note, Dot);
      if note.Some? {
        assert NoteText(note, Dot)[2..] == Escape(note.value, Dot);
        DotEscapingInverts(note.value);
      }
    } else {
      LabelReadsBack(trigger[1..], note);
      var rest := LabelText(trigger[1..], note, Dot);
      assert LabelText(trigger, note, Dot) == EscapeChar(trigger[0], Dot) + rest;
      CharInFront(trigger[0], rest);
      assert [trigger[0]] + trigger[1..] == trigger;
    }
  }

  lemma {:induction false} CharInFront(c: char, rest: string)
    ensures ReadLabel(EscapeChar(c, Dot) + rest) == InFront(c, ReadLabel(rest))
  {
    var escaped := EscapeChar(c, Dot);
    assert (escaped + rest)[|escaped|..] == rest;
  }

  /** A label has no bare quote in it. */
  lemma LabelIsEscaped(trigger: string, note: Option<string>)
    ensures Unescape(LabelText(trigger, note, Dot)).Some?
  {
    DotEscapingInverts(trigger);
    if note.Some? {
      DotEscapingInverts(note.value);
      assert NoteText(note, Dot)[2..] == Escape(note.value, Dot);
    }
    UnescapeAppends(Escape(trigger, Dot), NoteText(note, Dot));
  }

  function Expect(s: string, prefix: string): Option<string> {
    if prefix <= s then Some(s[|prefix|..]) else None
  }

  /** Reads one quoted field that follows a fixed piece of text. */
  function ReadField(s: string, prefix: string): (r: Option<(string, string)>)
    ensures r.Some? ==> |r.value.1| < |s|
  {
    match Expect(s, prefix)
    case None => None
    case Some(quoted) => ReadQuoted(quoted)
  }

  function ReadRawField(s: string, prefix: string): (r: Option<(string, string)>)
    ensures r.Some? ==> |r.value.1| < |s|
  {
    match Expect(s, prefix)
    case None => None
    case Some(quoted) => ReadRaw(quoted)
  }

  /** Reads one edge line back, and what follows it. */
  function ReadEdge(s: string): (r: Option<(Edge, string)>)
    ensures r.Some? ==> |r.value.1| < |s|
  {
    match ReadField(s, "  \"")
    case None => None
    case Some((source, b)) =>
      match ReadField(b, " -> \"")
      case None => None
      case Some((target, c)) =>
        match ReadRawField(c, " [label=\"")
        case None => None
        case Some((text, d)) => ReadEdgeEnd(source, target, ReadLabel(text), d)
  }

  function ReadEdgeEnd(source: string, target: string, read: Option<(string, Option<string>)>, s: string)
    : (r: Option<(Edge, string)>)
    ensures r.Some? ==> |r.value.1| <= |s|
  {
    match read
    case None => None
    case Some((trigger, note)) =>
      match Expect(s, "];\n")
      case None => None
      case Some(rest) => Some((Edge(source, target, trigger, note), rest))
  }

  function ReadEdges(s: string): seq<Edge>
    decreases |s|
  {
    match ReadEdge(s)
    case None => []
    case Some((edge, rest)) => [edge] + ReadEdges(rest)
  }

  lemma ExpectFinds(prefix: string, rest: string)
    ensures Expect(prefix + rest, prefix) == Some(rest)
  {
  }

  lemma {:induction false} FieldReadsBack(prefix: string, escaped: string, rest: string)
    requires Unescape(escaped).Some?
    ensures ReadField(prefix + (escaped + "\"" + rest), prefix) == Some((Unescape(escaped).value, rest))
    ensures ReadRawField(prefix + (escaped + "\"" + rest), prefix) == Some((escaped, rest))
  {
    ExpectFinds(prefix, escaped + "\"" + rest);
    ReadsEscaped(escaped, rest);
    ReadsRaw(escaped, rest);
  }

  /** What is left of an edge whose names are cut at a NUL. */
  function Cut(e: Edge): Edge {
    Edge(CString(e.source), CString(e.target), CString(e.trigger), e.note)
  }

  /** An edge line reads back as its two ends, its trigger and its note. */
  lemma EdgeReadsBack(e: Edge, rest: string)
    ensures ReadEdge(EdgeText(e) + rest) == Some((Cut(e), rest))
  {
    var source, target := Escape(CString(e.source), Dot), Escape(CString(e.target), Dot);
    var caption := LabelText(CString(e.trigger), e.note, Dot);
    var d := "];\n" + rest;
    var c := " [label=\"" + (caption + "\"" + d);
    var b := " -> \"" + (target + "\"" + c);
    EdgeLineParts(source, target, caption, rest);
    DotEscapingInverts(CString(e.source));
    DotEscapingInverts(CString(e.target));
    LabelIsEscaped(CString(e.trigger), e.note);
    FieldReadsBack("  \"", source, b);
    FieldReadsBack(" -> \"", target, c);
    FieldReadsBack(" [label=\"", caption, d);
    LabelReadsBack(CString(e.trigger), e.note);
    ExpectFinds("];\n", rest);
  }

  lemma EdgeLineParts(source: string, target: string, caption: string, rest: string)
    ensures EdgeLine(source, target, caption) + rest ==
            "  \"" + (source + "\"" +
                      (" -> \"" + (target + "\"" + (" [label=\"" + (caption + "\"" + ("];\n" + rest))))))
  {
  }

  function CutEdges(edges: seq<Edge>): (r: seq<Edge>)
    ensures |r| == |edges|
  {
    seq(|edges|, i requires 0 <= i < |edges| => Cut(edges[i]))
  }

  lemma CutFirst(edges: seq<Edge>)
    requires edges != []
    ensures CutEdges(edges) == [Cut(edges[0])] + CutEdges(edges[1..])
  {
  }

  /** The edge section reads back as every edge, in order. */
  lemma {:induction false} EdgesReadBack(edges: seq<Edge>)
    ensures ReadEdges(EdgesText(edges) + "}\n") == CutEdges(edges)
  {
    if edges == [] {
      assert EdgesText(edges) + "}\n" == "}\n";
    } else {
      var rest := EdgesText(edges[1..]) + "}\n";
      assert EdgesText(edges) + "}\n" == EdgeText(edges[0]) + rest;
      EdgeReadsBack(edges[0], rest);
      EdgesReadBack(edges[1..]);
      CutFirst(edges);
    }
  }

  lemma {:induction false} EdgesTextAppends(a: seq<Edge>, b: seq<Edge>)
    ensures EdgesText(a + b) == EdgesText(a) + EdgesText(b)
  {
    if a == [] {
      assert a + b == b;
    } else {
      assert (a + b)[1..] == a[1..] + b;
      EdgesTextAppends(a[1..], b);
    }
  }

  lemma EdgesTextOne(e: Edge)
    ensures EdgesText([e]) == EdgeText(e)
  {
  }

  // ---------------------------------------------------------------------------
  // captions

  /** One condition, built in a bounded message and then escaped as a whole. */
  function ConditionCaption(c: Condition, format: Format): string {
    Escape(Clipped("", ConditionText(c), MAX_MESSAGE_LENGTH), format)
  }

  function GuardCaption(guard: seq<Condition>, format: Format): string {
    if guard == [] then ""
    else
      var last := |guard| - 1;
      GuardCaption(guard[..last], format) + (if last > 0 then " and " else "") + ConditionCaption(guard[last], format)
  }

  /** The part of a slice that lies in the pool, which is where drawing stops: the whole guard
      unless the slice dangles. */
  function SliceOf(pool: seq<Condition>, a: Alternative): (r: seq<Condition>)
    ensures a.first + a.count <= |pool| ==> r == GuardOf(pool, a)
    ensures |r| <= a.count && forall i | 0 <= i < |r| :: a.first + i < |pool| && r[i] == pool[a.first + i]
    ensures |r| < a.count ==> a.first + |r| >= |pool|
  {
    if a.first >= |pool| then []
    else if a.first + a.count <= |pool| then pool[a.first..a.first + a.count]
    else pool[a.first..]
  }

  /** What is emitted after an edge's trigger: the guard in brackets or, when it has none,
      whether there are others it falls back from. */
  function CaptionText(trigger: string, guarded: bool, guard: seq<Condition>, siblings: bool, format: Format): string {
    Escape(CString(trigger), format) + if guarded then Bracketed(guard, format) else Otherwise(siblings, format)
  }

  function Otherwise(siblings: bool, format: Format): string {
    if siblings then Break(format) + "[otherwise]" else ""
  }

  function Bracketed(guard: seq<Condition>, format: Format): string {
    Break(format) + ("[" + (GuardCaption(guard, format) + "]"))
  }

  /** A guard in words: its conditions as they are printed, each as far as a message goes. */
  function Words(guard: seq<Condition>): (r: seq<string>)
    ensures |r| == |guard|
  {
    seq(|guard|, i requires 0 <= i < |guard| => Clipped("", ConditionText(guard[i]), MAX_MESSAGE_LENGTH))
  }

  function Joined(words: seq<string>): string {
    if words == [] then ""
    else
      var last := |words| - 1;
      Joined(words[..last]) + (if last > 0 then " and " else "") + words[last]
  }

  /** The note on an edge: its guard, or that it is the fallback among several. */
  function NoteOf(guarded: bool, guard: seq<Condition>, siblings: bool): Option<string> {
    if guarded then Some("[" + Joined(Words(guard)) + "]") else if siblings then Some("[otherwise]") else None
  }

  lemma {:induction false} PlainText(text: string, format: Format)
    requires forall c | c in text :: Replacement(c, format) == None
    ensures Escape(text, format) == text
  {
    if text != "" {
      assert text[0] in text;
      PlainText(text[1..], format);
      assert [text[0]] + text[1..] == text;
    }
  }

  lemma {:induction false} GuardIsInWords(guard: seq<Condition>, format: Format)
    ensures GuardCaption(guard, format) == Escape(Joined(Words(guard)), format)
  {
    if guard != [] {
      var last := |guard| - 1;
      var words, joint := Words(guard), if last > 0 then " and " else "";
      GuardIsInWords(guard[..last], format);
      assert words[..last] == Words(guard[..last]);
      EscapeJoint(Joined(words[..last]), joint, words[last], format);
    }
  }

  lemma {:induction false} EscapeJoint(head: string, joint: string, word: string, format: Format)
    requires joint == "" || joint == " and "
    ensures Escape(head + joint + word, format) == Escape(head, format) + joint + Escape(word, format)
  {
    if joint == "" {
      assert head + joint == head && Escape(head, format) + joint == Escape(head, format);
    } else {
      PlainText(joint, format);
      EscapeBoth(head, joint, format);
    }
    EscapeBoth(head + joint, word, format);
  }

  /** What is emitted is the trigger and the note, each escaped. */
  lemma {:induction false} CaptionIs(trigger: string, guarded: bool, guard: seq<Condition>, siblings: bool,
                                     format: Format)
    ensures CaptionText(trigger, guarded, guard, siblings, format) ==
            LabelText(CString(trigger), NoteOf(guarded, guard, siblings), format)
  {
    if guarded {
      BracketsAreEscaped(guard, format);
    } else if siblings {
      PlainText("[otherwise]", format);
    }
  }

  /** A Mermaid label is one text escaped as a whole; so MermaidIsReadableExactly says when it
      can be told from other labels. */
  lemma {:induction false} MermaidLabelIs(trigger: string, note: Option<string>)
    ensures LabelText(trigger, note, Mermaid) ==
            Escape(trigger + if note.Some? then " " + note.value else "", Mermaid)
  {
    if note.Some? {
      PlainText(" ", Mermaid);
      EscapeBoth(" ", note.value, Mermaid);
      EscapeBoth(trigger, " " + note.value, Mermaid);
    } else {
      assert trigger + "" == trigger;
      assert Escape(trigger, Mermaid) + "" == Escape(trigger, Mermaid);
    }
  }

  lemma {:induction false} BracketsAreEscaped(guard: seq<Condition>, format: Format)
    ensures "[" + (GuardCaption(guard, format) + "]") == Escape("[" + Joined(Words(guard)) + "]", format)
  {
    var words := Joined(Words(guard));
    GuardIsInWords(guard, format);
    PlainText("[", format);
    PlainText("]", format);
    EscapeBoth("[" + words, "]", format);
    EscapeBoth("[", words, format);
    Associates("[", Escape(words, format), "]");
  }

  lemma {:induction false} GuardCaptionMore(guard: seq<Condition>, i: nat, format: Format)
    requires i < |guard|
    ensures GuardCaption(guard[..i + 1], format) ==
            GuardCaption(guard[..i], format) + (if i > 0 then " and " else "") + ConditionCaption(guard[i], format)
  {
    assert guard[..i + 1][..i] == guard[..i];
  }

  /** Emits the conditions of a slice, joined by "and", up to the end of the pool. */
  method EmitGuard(out: Sink, pool: seq<Condition>, a: Alternative, format: Format)
    requires NoneEmpty(out.fragments)
    modifies out
    ensures out.Text() == old(out.Text()) + GuardCaption(SliceOf(pool, a), format) && NoneEmpty(out.fragments)
  {
    ghost var guard, before := SliceOf(pool, a), out.Text();
    assert guard[..|guard|] == guard;
    assert before + "" == before;
    for i := 0 to a.count
      invariant i <= |guard| && NoneEmpty(out.fragments)
      invariant out.Text() == before + GuardCaption(guard[..i], format)
    {
      if a.first + i >= |pool| {
        assert i == |guard|;
        return;
      }
      assert guard[i] == pool[a.first + i];
      EmitNext(out, pool[a.first + i], i, format, before, guard);
    }
  }

  method EmitNext(out: Sink, c: Condition, i: nat, format: Format, ghost before: string, ghost guard: seq<Condition>)
    requires NoneEmpty(out.fragments) && i < |guard| && c == guard[i]
    requires out.Text() == before + GuardCaption(guard[..i], format)
    modifies out
    ensures NoneEmpty(out.fragments) && out.Text() == before + GuardCaption(guard[..i + 1], format)
  {
    GuardCaptionMore(guard, i, format);
    EmitJoined(out, c, i == 0, format, before, GuardCaption(guard[..i], format));
  }

  method EmitJoined(out: Sink, c: Condition, first: bool, format: Format, ghost before: string, ghost head: string)
    requires NoneEmpty(out.fragments) && out.Text() == before + head
    modifies out
    ensures out.Text() == before + (head + (if first then "" else " and ") + ConditionCaption(c, format))
    ensures NoneEmpty(out.fragments)
  {
    if first {
      assert head + "" == head;
      Associates(before, head, ConditionCaption(c, format));
    } else {
      out.Emit(" and ");
      Associates(before, head, " and ");
      Associates(before, head + " and ", ConditionCaption(c, format));
    }
    EmitCondition(out, c, format);
  }

  method EmitCondition(out: Sink, c: Condition, format: Format)
    requires NoneEmpty(out.fragments)
    modifies out
    ensures out.Text() == old(out.Text()) + ConditionCaption(c, format) && NoneEmpty(out.fragments)
  {
    var message := new FixedString(MAX_MESSAGE_LENGTH);
    AppendCondition(message, c);
    EmitEscaped(out, message.text, format);
  }

  method EmitBracketed(out: Sink, pool: seq<Condition>, a: Alternative, format: Format)
    requires NoneEmpty(out.fragments)
    modifies out
    ensures out.Text() == old(out.Text()) + Bracketed(SliceOf(pool, a), format) && NoneEmpty(out.fragments)
  {
    ghost var before, pause, inner := out.Text(), Break(format), GuardCaption(SliceOf(pool, a), format);
    out.Emit(if format == Mermaid then " " else "\\n");
    out.Emit("[");
    EmitGuard(out, pool, a, format);
    out.Emit("]");
    Associates(before + pause + "[", inner, "]");
    Associates(before + pause, "[", inner + "]");
    Associates(before, pause, "[" + (inner + "]"));
  }

  /** The label of one edge, in either format. */
  method EmitLabel(out: Sink, pool: seq<Condition>, trigger: string, a: Alternative, siblings: bool, format: Format)
    requires NoneEmpty(out.fragments)
    modifies out
    ensures out.Text() == old(out.Text()) + CaptionText(trigger, a.count > 0, SliceOf(pool, a), siblings, format)
    ensures NoneEmpty(out.fragments)
  {
    ghost var before, guard := out.Text(), SliceOf(pool, a);
    ghost var name := Escape(CString(trigger), format);
    Associates(before, name, if a.count > 0 then Bracketed(guard, format) else Otherwise(siblings, format));
    EmitEscaped(out, CString(trigger), format);
    if a.count == 0 {
      if siblings {
        EmitOtherwise(out, format);
      }
      return;
    }
    EmitBracketed(out, pool, a, format);
  }

  method EmitOtherwise(out: Sink, format: Format)
    requires NoneEmpty(out.fragments)
    modifies out
    ensures out.Text() == old(out.Text()) + Otherwise(true, format) && NoneEmpty(out.fragments)
  {
    Associates(out.Text(), Break(format), "[otherwise]");
    out.Emit(if format == Mermaid then " " else "\\n");
    out.Emit("[otherwise]");
  }

  // ---------------------------------------------------------------------------
  // the graph

  function StateName(states: map<StateId, StateNode>, id: StateId): string {
    if id in states then states[id].name else "<invalid>"
  }

  function TriggerName(triggers: map<TriggerId, TriggerDef>, id: TriggerId): string {
    if id in triggers then triggers[id].name else "<invalid>"
  }

  function EdgeOf(t: Tables, s: StateId, e: TriggerId, a: Alternative, siblings: bool): Edge {
    Edge(StateName(t.states, s), StateName(t.states, a.target), TriggerName(t.triggers, e),
         NoteOf(a.count > 0, SliceOf(t.conditions, a), siblings))
  }

  function ListEdges(t: Tables, s: StateId, e: TriggerId, list: seq<Alternative>, n: nat): (r: seq<Edge>)
    requires n <= |list|
    ensures |r| == n
  {
    seq(n, k requires 0 <= k < n => EdgeOf(t, s, e, list[k], |list| > 1))
  }

  lemma ListEdgesMore(t: Tables, s: StateId, e: TriggerId, list: seq<Alternative>, n: nat)
    requires n < |list|
    ensures ListEdges(t, s, e, list, n + 1) == ListEdges(t, s, e, list, n) + [EdgeOf(t, s, e, list[n], |list| > 1)]
  {
  }

  function ListAt(t: Tables, s: StateId, e: TriggerId): seq<Alternative> {
    if s in t.states then Listed(t.states[s], e) else []
  }

  function StateEdges(t: Tables, s: StateId, n: nat): seq<Edge>
    requires n <= 0xFFFF
  {
    if n == 0 then []
    else
      var list := ListAt(t, s, n - 1);
      StateEdges(t, s, n - 1) + ListEdges(t, s, n - 1, list, |list|)
  }

  /** One edge for every alternative, states and triggers ascending, alternatives in file order. */
  function MachineEdges(t: Tables, n: nat): seq<Edge>
    requires n <= 0xFFFF && |t.triggers| <= 0xFFFF
  {
    if n == 0 then [] else MachineEdges(t, n - 1) + StateEdges(t, n - 1, |t.triggers|)
  }

  /** What is drawn for each alternative of a list, in its place. One without a guard is marked
      when it is not the only one. */
  lemma {:induction false} ListEdgeAt(t: Tables, s: StateId, e: TriggerId, list: seq<Alternative>, n: nat, k: nat)
    requires k < n <= |list|
    ensures var edge, a := ListEdges(t, s, e, list, n)[k], list[k];
            && edge.source == StateName(t.states, s) && edge.target == StateName(t.states, a.target)
            && edge.trigger == TriggerName(t.triggers, e)
            && edge.note == if a.count > 0 then Some("[" + Joined(Words(SliceOf(t.conditions, a))) + "]")
                            else if list != [a] then Some("[otherwise]")
                            else None
  {
    assert |list| == 1 ==> list == [list[0]];
  }

  method EmitEdge(out: Sink, ghost t: Tables, pool: seq<Condition>, states: map<StateId, StateNode>,
                  triggers: map<TriggerId, TriggerDef>, s: StateId, e: TriggerId, a: Alternative, siblings: bool)
    requires NoneEmpty(out.fragments)
    requires pool == t.conditions && states == t.states && triggers == t.triggers
    modifies out
    ensures out.Text() == old(out.Text()) + EdgeText(EdgeOf(t, s, e, a, siblings)) && NoneEmpty(out.fragments)
  {
    ghost var edge := EdgeOf(t, s, e, a, siblings);
    ghost var before := out.Text();
    out.Emit("  \"");
    EmitEscaped(out, CString(StateName(states, s)), Dot);
    out.Emit("\" -> \"");
    EmitEscaped(out, CString(StateName(states, a.target)), Dot);
    out.Emit("\" [label=\"");
    EmitLabel(out, pool, TriggerName(triggers, e), a, siblings, Dot);
    out.Emit("\"];\n");
    CaptionIs(TriggerName(triggers, e), a.count > 0, SliceOf(pool, a), siblings, Dot);
    EdgeAssociates(before, Escape(CString(edge.source), Dot), Escape(CString(edge.target), Dot),
                   LabelText(CString(edge.trigger), edge.note, Dot));
  }

  lemma EdgeAssociates(before: string, source: string, target: string, caption: string)
    ensures before + "  \"" + source + "\" -> \"" + target + "\" [label=\"" + caption + "\"];\n" ==
            before + ("  \"" + source + "\" -> \"" + target + "\" [label=\"" + caption + "\"];\n")
  {
  }

  /** Adds one more part after the edges emitted so far. */
  lemma {:induction false} EdgesGrow(before: string, sofar: seq<Edge>, more: seq<Edge>)
    ensures (before + EdgesText(sofar)) + EdgesText(more) == before + EdgesText(sofar + more)
  {
    EdgesTextAppends(sofar, more);
    Associates(before, EdgesText(sofar), EdgesText(more));
  }

  lemma NoEdgesYet(before: string)
    ensures before + EdgesText([]) == before
  {
  }

  method EmitList(out: Sink, ghost t: Tables, pool: seq<Condition>, states: map<StateId, StateNode>,
                  triggers: map<TriggerId, TriggerDef>, s: StateId, e: TriggerId, list: seq<Alternative>)
    requires NoneEmpty(out.fragments)
    requires pool == t.conditions && states == t.states && triggers == t.triggers
    modifies out
    ensures NoneEmpty(out.fragments)
    ensures out.Text() == old(out.Text()) + EdgesText(ListEdges(t, s, e, list, |list|))
  {
    assert old(out.Text()) + "" == old(out.Text());
    for k := 0 to |list|
      invariant NoneEmpty(out.fragments)
      invariant out.Text() == old(out.Text()) + EdgesText(ListEdges(t, s, e, list, k))
    {
      ghost var edge := EdgeOf(t, s, e, list[k], |list| > 1);
      ListEdgesMore(t, s, e, list, k);
      EdgesGrow(old(out.Text()), ListEdges(t, s, e, list, k), [edge]);
      EdgesTextOne(edge);
      EmitEdge(out, t, pool, states, triggers, s, e, list[k], |list| > 1);
    }
  }

  method EmitState(out: Sink, ghost t: Tables, pool: seq<Condition>, states: map<StateId, StateNode>,
                   triggers: map<TriggerId, TriggerDef>, s: StateId)
    requires NoneEmpty(out.fragments) && s in states && |triggers| <= 0xFFFF
    requires pool == t.conditions && states == t.states && triggers == t.triggers
    modifies out
    ensures NoneEmpty(out.fragments)
    ensures out.Text() == old(out.Text()) + EdgesText(StateEdges(t, s, |triggers|))
  {
    ghost var before, edges := out.Text(), [];
    NoEdgesYet(before);
    for e := 0 to |triggers|
      invariant edges == StateEdges(t, s, e)
      invariant NoneEmpty(out.fragments) && out.Text() == before + EdgesText(edges)
    {
      edges := EmitTrigger(out, t, pool, states, triggers, s, e, before, edges);
    }
  }

  /** The edges of one more trigger of a state. */
  method EmitTrigger(out: Sink, ghost t: Tables, pool: seq<Condition>, states: map<StateId, StateNode>,
                     triggers: map<TriggerId, TriggerDef>, s: StateId, e: TriggerId, ghost before: string,
                     ghost sofar: seq<Edge>)
    returns (ghost edges: seq<Edge>)
    requires NoneEmpty(out.fragments) && s in states && e < 0xFFFF
    requires pool == t.conditions && states == t.states && triggers == t.triggers
    requires sofar == StateEdges(t, s, e) && out.Text() == before + EdgesText(sofar)
    modifies out
    ensures edges == StateEdges(t, s, e + 1)
    ensures NoneEmpty(out.fragments) && out.Text() == before + EdgesText(edges)
  {
    ghost var list := ListAt(t, s, e);
    edges := sofar + ListEdges(t, s, e, list, |list|);
    EdgesGrow(before, sofar, ListEdges(t, s, e, list, |list|));
    EmitListed(out, t, pool, states, triggers, s, e);
  }

  /** The edges of one state and trigger, if there are any. */
  method EmitListed(out: Sink, ghost t: Tables, pool: seq<Condition>, states: map<StateId, StateNode>,
                    triggers: map<TriggerId, TriggerDef>, s: StateId, e: TriggerId)
    requires NoneEmpty(out.fragments) && s in states
    requires pool == t.conditions && states == t.states && triggers == t.triggers
    modifies out
    ensures NoneEmpty(out.fragments)
    ensures var list := ListAt(t, s, e);
            out.Text() == old(out.Text()) + EdgesText(ListEdges(t, s, e, list, |list|))
  {
    if e in states[s].transitions {
      EmitList(out, t, pool, states, triggers, s, e, states[s].transitions[e]);
    } else {
      assert out.Text() + "" == out.Text();
    }
  }

  method EmitStates(out: Sink, ghost t: Tables, pool: seq<Condition>, states: map<StateId, StateNode>,
                    triggers: map<TriggerId, TriggerDef>)
    requires NoneEmpty(out.fragments) && |triggers| <= 0xFFFF && |states| <= 0xFFFF
    requires StatesIndexed(t)
    requires pool == t.conditions && states == t.states && triggers == t.triggers
    modifies out
    ensures NoneEmpty(out.fragments)
    ensures out.Text() == old(out.Text()) + EdgesText(MachineEdges(t, |states|))
  {
    ghost var before, edges := out.Text(), [];
    NoEdgesYet(before);
    for id := 0 to |states|
      invariant edges == MachineEdges(t, id)
      invariant NoneEmpty(out.fragments) && out.Text() == before + EdgesText(edges)
    {
      IdIsDeclared(t, id);
      edges := EmitNextState(out, t, pool, states, triggers, id, before, edges);
    }
  }

  lemma IdIsDeclared(t: Tables, id: nat)
    requires StatesIndexed(t) && id < |t.states|
    ensures id in t.states
  {
    assert id in StateNames(t.states);
  }

  /** The edges of one more state. */
  method EmitNextState(out: Sink, ghost t: Tables, pool: seq<Condition>, states: map<StateId, StateNode>,
                       triggers: map<TriggerId, TriggerDef>, s: StateId, ghost before: string, ghost sofar: seq<Edge>)
    returns (ghost edges: seq<Edge>)
    requires NoneEmpty(out.fragments) && s in states && s < 0xFFFF && |triggers| <= 0xFFFF
    requires pool == t.conditions && states == t.states && triggers == t.triggers
    requires sofar == MachineEdges(t, s) && out.Text() == before + EdgesText(sofar)
    modifies out
    ensures edges == MachineEdges(t, s + 1)
    ensures NoneEmpty(out.fragments) && out.Text() == before + EdgesText(edges)
  {
    edges := sofar + StateEdges(t, s, |triggers|);
    EdgesGrow(before, sofar, StateEdges(t, s, |triggers|));
    EmitState(out, t, pool, states, triggers, s);
  }

  /** Everything before the edges. */
  function Header(t: Tables, initial: StateId): string {
    TitleText(if t.name == "" then "machine" else t.name) +
    (StyleText() + if initial in t.states then StartText(StateName(t.states, initial)) else "")
  }

  function TitleText(title: string): string {
    "digraph \"" + (Escape(title, Dot) + "\" {\n")
  }

  function StyleText(): string {
    "  rankdir=LR;\n" + ("  node [shape=box, style=rounded, fontname=\"sans-serif\"];\n" +
                         "  edge [fontname=\"sans-serif\", fontsize=10];\n")
  }

  // in two pieces, so that a proof can look at the characters it starts with
  const START_NODE := "  __" + "start [shape=point, width=0.12, label=\"\"];\n"

  const START_MARK := START_NODE + "  __start -> \""

  function StartText(name: string): string {
    START_MARK + (Escape(CString(name), Dot) + "\";\n")
  }

  method EmitStart(out: Sink, name: string)
    requires NoneEmpty(out.fragments)
    modifies out
    ensures NoneEmpty(out.fragments) && out.Text() == old(out.Text()) + StartText(name)
  {
    ghost var before, escaped := out.Text(), Escape(CString(name), Dot);
    out.Emit(START_NODE);
    out.Emit("  __start -> \"");
    EmitEscaped(out, CString(name), Dot);
    out.Emit("\";\n");
    Associates(before, START_NODE, "  __start -> \"");
    Associates(before + START_MARK, escaped, "\";\n");
    Associates(before, START_MARK, escaped + "\";\n");
  }

  method EmitThree(out: Sink, a: string, b: string, c: string)
    requires NoneEmpty(out.fragments)
    modifies out
    ensures NoneEmpty(out.fragments) && out.Text() == old(out.Text()) + (a + (b + c))
  {
    ghost var before := out.Text();
    out.Emit(a);
    out.Emit(b);
    out.Emit(c);
    Associates(before + a, b, c);
    Associates(before, a, b + c);
  }

  method EmitTitle(out: Sink, title: string)
    requires NoneEmpty(out.fragments)
    modifies out
    ensures NoneEmpty(out.fragments) && out.Text() == old(out.Text()) + TitleText(title)
  {
    ghost var before, escaped := out.Text(), Escape(title, Dot);
    out.Emit("digraph \"");
    EmitEscaped(out, title, Dot);
    out.Emit("\" {\n");
    Associates(before + "digraph \"", escaped, "\" {\n");
    Associates(before, "digraph \"", escaped + "\" {\n");
  }

  method EmitHeader(out: Sink, name: string, states: map<StateId, StateNode>, initial: StateId, ghost t: Tables)
    requires NoneEmpty(out.fragments) && name == t.name && states == t.states && NO_STATE !in states
    modifies out
    ensures NoneEmpty(out.fragments) && out.Text() == old(out.Text()) + Header(t, initial)
  {
    var title := if name == "" then "machine" else name;
    ghost var before, first, style := out.Text(), TitleText(title), StyleText();
    ghost var start := if initial in states then StartText(StateName(states, initial)) else "";
    EmitTitle(out, title);
    EmitThree(out, "  rankdir=LR;\n", "  node [shape=box, style=rounded, fontname=\"sans-serif\"];\n",
              "  edge [fontname=\"sans-serif\", fontsize=10];\n");
    Associates(before + first, style, start);
    Associates(before, first, style + start);
    if initial != NO_STATE && initial in states {
      EmitStart(out, StateName(states, initial));
    } else {
      assert out.Text() + "" == out.Text();
    }
  }

  /** The whole text that RenderDot emits. */
  function DotText(t: Tables, initial: StateId): string
    requires |t.states| <= 0xFFFF && |t.triggers| <= 0xFFFF
  {
    Header(t, initial) + (EdgesText(MachineEdges(t, |t.states|)) + "}\n")
  }

  /** The whole graph. */
  method RenderDot(model: Model, initial: StateId, out: Sink)
    requires Invariant(model.View()) && NoneEmpty(out.fragments)
    modifies out
    ensures |model.states| <= 0xFFFF && |model.triggers| <= 0xFFFF
    ensures NoneEmpty(out.fragments)
    ensures var t := model.View();
            out.Text() == old(out.Text()) + DotText(t, initial)
  {
    ghost var t := model.View();
    DrawableTables(t);
    ghost var before, header := out.Text(), Header(t, initial);
    ghost var edges := EdgesText(MachineEdges(t, |t.states|));
    EmitHeader(out, model.name, model.states, initial, t);
    EmitStates(out, t, model.conditions, model.states, model.triggers);
    out.Emit("}\n");
    Associates(before + header, edges, "}\n");
    Associates(before, header, edges + "}\n");
  }

  lemma DrawableTables(t: Tables)
    requires Invariant(t)
    ensures |t.states| <= 0xFFFF && |t.triggers| <= 0xFFFF && NO_STATE !in t.states
  {
    NextIdIsNew(t);
  }
}
