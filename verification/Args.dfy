/** The arguments a trigger carries: white-space separated `key=value` pairs. */
module Arguments {
  import opened Limits
  import opened Types
  import opened Text

  type ArgMap = map<string, string>

  // ---------------------------------------------------------------------------
  // what an argument text means

  /** The length of the run of non-spaces a text starts with. */
  function WordLength(text: string): (n: nat)
    ensures n <= |text| && NoSpace(text[..n])
    ensures n < |text| ==> IsSpace(text[n])
  {
    if text == "" || IsSpace(text[0]) then 0 else 1 + WordLength(text[1..])
  }

  /** The maximal runs of non-spaces, in order. */
  function Tokens(text: string): seq<string>
    decreases |text|
  {
    if text == "" then []
    else if IsSpace(text[0]) then Tokens(text[1..])
    else
      var n := WordLength(text);
      [text[..n]] + Tokens(text[n..])
  }

  /** The position of the first `=`, or the length when there is none. */
  function FirstEquals(token: string): (k: nat)
    ensures k <= |token| && forall i | 0 <= i < k :: token[i] != '='
    ensures k < |token| ==> token[k] == '='
  {
    if token == "" || token[0] == '=' then 0 else 1 + FirstEquals(token[1..])
  }

  /** A token with an `=` that is not its first character. */
  predicate Shaped(token: string) {
    0 < FirstEquals(token) < |token|
  }

  function Key(token: string): string {
    token[..FirstEquals(token)]
  }

  function Val(token: string): string
    requires Shaped(token)
  {
    token[FirstEquals(token) + 1..]
  }

  function Keys(tokens: seq<string>): set<string> {
    if tokens == [] then {} else Keys(tokens[..|tokens| - 1]) + {Key(tokens[|tokens| - 1])}
  }

  /** Whether one more token may follow the tokens `before` it. */
  predicate Admissible(before: seq<string>, token: string) {
    Shaped(token) && |Key(token)| <= MAX_NAME_LENGTH && Key(token) !in Keys(before) && |before| < MAX_ARGUMENTS
  }

  /** Every token may follow the ones before it; LegalMeans says what that comes to. */
  predicate Legal(tokens: seq<string>) {
    tokens == [] ||
    var last := |tokens| - 1;
    Legal(tokens[..last]) && Admissible(tokens[..last], tokens[last])
  }

  function Pairs(tokens: seq<string>): (m: ArgMap)
    requires Legal(tokens)
    ensures m.Keys == Keys(tokens) && |m| == |tokens|
  {
    if tokens == [] then map[]
    else
      var last := |tokens| - 1;
      Pairs(tokens[..last])[Key(tokens[last]) := Val(tokens[last])]
  }

  /** Why `token` cannot follow the legal list `before`; the first reason that applies. */
  function Fault(before: seq<string>, token: string): Status {
    if !Shaped(token) then ArgumentError
    else if |Key(token)| > MAX_NAME_LENGTH then NameTooLong
    else if Key(token) in Keys(before) then DuplicateName
    else CapacityExceeded
  }

  /** How many tokens come before the leftmost one that breaks the rules. */
  function LegalPrefix(tokens: seq<string>): (k: nat)
    ensures k <= |tokens| && Legal(tokens[..k])
    ensures k < |tokens| ==> !Legal(tokens[..k + 1])
  {
    if Legal(tokens) then assert tokens[..|tokens|] == tokens; |tokens|
    else
      var shorter := tokens[..|tokens| - 1];
      var k := LegalPrefix(shorter);
      assert shorter[..k] == tokens[..k];
      assert k < |shorter| ==> shorter[..k + 1] == tokens[..k + 1];
      assert k == |shorter| ==> tokens[..k + 1] == tokens;
      k
  }

  /** The status of a text, and the map it leaves behind. */
  function ParseText(text: string): (Status, ArgMap) {
    var tokens := Tokens(text);
    var k := LegalPrefix(tokens);
    if k == |tokens| then (Ok, Pairs(tokens[..k])) else (Fault(tokens[..k], tokens[k]), map[])
  }

  // ---------------------------------------------------------------------------
  // the parser

  /** Advances over white space, which separates tokens and means nothing else. */
  method SkipSpaces(text: string, from: nat) returns (i: nat)
    requires from <= |text|
    ensures from <= i <= |text| && (i < |text| ==> !IsSpace(text[i]))
    ensures Tokens(text[from..]) == Tokens(text[i..])
  {
    i := from;
    while i < |text| && IsSpace(text[i])
      invariant from <= i <= |text|
      invariant Tokens(text[from..]) == Tokens(text[i..])
    {
      assert text[i..][1..] == text[i + 1..];
      i := i + 1;
    }
  }

  /** Advances over one token. */
  method SkipWord(text: string, from: nat) returns (i: nat)
    requires from < |text| && !IsSpace(text[from])
    ensures from < i <= |text|
    ensures Tokens(text[from..]) == [text[from..i]] + Tokens(text[i..])
  {
    i := from;
    while i < |text| && !IsSpace(text[i])
      invariant from <= i <= |text|
      invariant WordLength(text[from..]) == (i - from) + WordLength(text[i..])
    {
      assert text[i..][1..] == text[i + 1..];
      i := i + 1;
    }
    assert WordLength(text[i..]) == 0;
    var rest := text[from..];
    assert WordLength(rest) == i - from > 0;
    assert rest[..i - from] == text[from..i];
    assert rest[i - from..] == text[i..];
  }

  lemma NextToken(tokens: seq<string>, k: nat, token: string, rest: seq<string>)
    requires k <= |tokens| && tokens[k..] == [token] + rest
    ensures k < |tokens| && tokens[k] == token && tokens[k + 1..] == rest
    ensures tokens[..k + 1] == tokens[..k] + [token]
  {
    assert token == tokens[k..][0] && rest == tokens[k..][1..];
  }

  lemma {:induction false} NoneLeft(text: string, tokens: seq<string>, k: nat)
    requires tokens == Tokens(text) && k <= |tokens| && tokens[k..] == [] && Legal(tokens[..k])
    ensures ParseText(text) == (Ok, Pairs(tokens[..k]))
  {
    LegalPrefixIs(tokens, k);
  }

  class Args {
    var entries: ArgMap
    var raw: string

    constructor ()
      ensures entries == map[] && raw == ""
    {
      entries, raw := map[], "";
    }

    method Clear()
      modifies this
      ensures entries == map[] && raw == ""
    {
      entries, raw := map[], "";
    }

    method Parse(text: string) returns (status: Status)
      modifies this
      ensures (status, entries) == ParseText(text)
      ensures raw == if status == Ok then text else ""
    {
      Clear();
      raw := text;

      var i := 0;
      ghost var tokens := Tokens(text);
      ghost var k := 0;
      assert text[0..] == text;
      while i < |text|
        invariant i <= |text| && raw == text
        invariant k <= |tokens| && tokens[k..] == Tokens(text[i..])
        invariant Legal(tokens[..k]) && entries == Pairs(tokens[..k])
      {
        i := SkipSpaces(text, i);
        if i >= |text| {
          break;
        }
        status, i := Take(text, i, tokens, k);
        if status != Ok {
          return;
        }
        k := k + 1;
      }
      assert text[i..] == "";
      NoneLeft(text, tokens, k);
      status := Ok;
    }

    /** Takes the token that starts at `start`, which is the one with number `k`. */
    method Take(text: string, start: nat, ghost tokens: seq<string>, ghost k: nat) returns (status: Status, i: nat)
      requires start < |text| && !IsSpace(text[start])
      requires k <= |tokens| && tokens[k..] == Tokens(text[start..])
      requires Legal(tokens[..k]) && entries == Pairs(tokens[..k])
      modifies this
      ensures start < i <= |text| && k < |tokens| && tokens[k + 1..] == Tokens(text[i..])
      ensures status == Ok ==> Legal(tokens[..k + 1]) && entries == Pairs(tokens[..k + 1]) && raw == old(raw)
      ensures status != Ok ==> LegalPrefix(tokens) == k && status == Fault(tokens[..k], tokens[k])
      ensures status != Ok ==> entries == map[] && raw == ""
    {
      i := SkipWord(text, start);
      var token := text[start..i];
      NextToken(tokens, k, token, Tokens(text[i..]));
      status := Admit(token, tokens[..k]);
      if status != Ok {
        LegalPrefixIs(tokens, k);
      }
    }

    /** Takes one more pair into the map, or clears everything. */
    method Admit(token: string, ghost done: seq<string>) returns (status: Status)
      requires Legal(done) && entries == Pairs(done)
      modifies this
      ensures status == Ok <==> Legal(done + [token])
      ensures status == Ok ==> entries == Pairs(done + [token]) && raw == old(raw)
      ensures status != Ok ==> status == Fault(done, token) && entries == map[] && raw == ""
    {
      LegalAppend(done, token);
      var equals := FirstEquals(token);
      if equals == |token| || equals == 0 {
        Clear();
        return ArgumentError;
      }
      var key, value := token[..equals], token[equals + 1..];
      if |key| > MAX_NAME_LENGTH {
        Clear();
        return NameTooLong;
      }
      if key in entries {
        Clear();
        return DuplicateName;
      }
      if |entries| == MAX_ARGUMENTS {
        Clear();
        return CapacityExceeded;
      }
      entries := entries[key := value];
      return Ok;
    }
  }

  lemma {:induction false} LegalAppend(done: seq<string>, token: string)
    requires Legal(done)
    ensures Legal(done + [token]) <==> Admissible(done, token)
    ensures Admissible(done, token) ==> Pairs(done + [token]) == Pairs(done)[Key(token) := Val(token)]
  {
  }

  /** Legality is closed under prefixes, so the leftmost bad token is determined. */
  lemma {:induction false} LegalMonotone(tokens: seq<string>, a: nat, b: nat)
    requires a <= b <= |tokens| && Legal(tokens[..b])
    ensures Legal(tokens[..a])
  {
    if a < b {
      assert tokens[..b][..b - 1] == tokens[..b - 1];
      LegalMonotone(tokens, a, b - 1);
    }
  }

  lemma {:induction false} LegalPrefixIs(tokens: seq<string>, k: nat)
    requires k <= |tokens| && Legal(tokens[..k])
    requires k < |tokens| ==> !Legal(tokens[..k + 1])
    ensures LegalPrefix(tokens) == k
  {
    var p := LegalPrefix(tokens);
    if p < k {
      LegalMonotone(tokens, p + 1, k);
    } else if k < p {
      LegalMonotone(tokens, k + 1, p);
    }
  }

  // ---------------------------------------------------------------------------
  // what is accepted, said once for the whole list

  /** The list fits, every key is non-empty and fits, and no key comes twice. */
  predicate EachOwnKey(tokens: seq<string>) {
    && |tokens| <= MAX_ARGUMENTS
    && (forall i | 0 <= i < |tokens| :: Shaped(tokens[i]) && |Key(tokens[i])| <= MAX_NAME_LENGTH)
    && (forall i, j | 0 <= i < j < |tokens| :: Key(tokens[i]) != Key(tokens[j]))
  }

  lemma OwnKeyGrows(before: seq<string>, token: string)
    ensures EachOwnKey(before + [token]) <==>
            && EachOwnKey(before) && |before| < MAX_ARGUMENTS && Shaped(token) && |Key(token)| <= MAX_NAME_LENGTH
            && forall i | 0 <= i < |before| :: Key(before[i]) != Key(token)
  {
    var tokens := before + [token];
    assert tokens[|before|] == token;
    assert forall i | 0 <= i < |before| :: tokens[i] == before[i];
  }

  /** A list of tokens is legal exactly when each has its own usable key. */
  lemma {:induction false} LegalMeans(tokens: seq<string>)
    ensures Legal(tokens) <==> EachOwnKey(tokens)
  {
    if tokens != [] {
      var last := |tokens| - 1;
      LegalMeans(tokens[..last]);
      KeysMeans(tokens[..last]);
      OwnKeyGrows(tokens[..last], tokens[last]);
      assert tokens[..last] + [tokens[last]] == tokens;
    }
  }

  lemma {:induction false} KeysMeans(tokens: seq<string>)
    ensures forall k :: k in Keys(tokens) <==> exists i :: 0 <= i < |tokens| && Key(tokens[i]) == k
  {
    if tokens != [] {
      var last := |tokens| - 1;
      KeysMeans(tokens[..last]);
      forall i | 0 <= i < |tokens|
        ensures Key(tokens[i]) in Keys(tokens)
      {
        if i < last {
          assert tokens[..last][i] == tokens[i];
        }
      }
    }
  }

  /** The map holds exactly the pairs that were written: one entry a token, each with its
      own value. */
  lemma {:induction false} PairsMeans(tokens: seq<string>, i: nat)
    requires Legal(tokens) && i < |tokens|
    ensures Shaped(tokens[i]) && |Key(tokens[i])| <= MAX_NAME_LENGTH
    ensures Key(tokens[i]) in Keys(tokens) && Pairs(tokens)[Key(tokens[i])] == Val(tokens[i])
    ensures |Pairs(tokens)| == |tokens|
  {
    var last := |tokens| - 1;
    if i < last {
      PairsMeans(tokens[..last], i);
    }
  }

  /** Tokens are never empty, and hold none of the four characters of white space. */
  lemma {:induction false} TokensAreWords(text: string)
    ensures forall i | 0 <= i < |Tokens(text)| :: Tokens(text)[i] != "" && NoSpace(Tokens(text)[i])
    ensures forall i | 0 <= i < |Tokens(text)| ::
              ' ' !in Tokens(text)[i] && '\t' !in Tokens(text)[i] && '\r' !in Tokens(text)[i] &&
                '\n' !in Tokens(text)[i]
    decreases |text|
  {
    if text != "" {
      if IsSpace(text[0]) {
        TokensAreWords(text[1..]);
      } else {
        TokensAreWords(text[WordLength(text)..]);
      }
    }
  }

  lemma {:induction false} WordLengthBefore(word: string, rest: string)
    requires NoSpace(word) && (rest == "" || IsSpace(rest[0]))
    ensures WordLength(word + rest) == |word|
  {
    if word == "" {
      assert word + rest == rest;
    } else {
      assert (word + rest)[1..] == word[1..] + rest;
      WordLengthBefore(word[1..], rest);
    }
  }

  /** Any of those characters anywhere splits a text in two that are read independently. */
  lemma {:induction false} TokensSplit(a: string, space: char, b: string)
    requires space in {' ', '\t', '\r', '\n'}
    ensures Tokens(a + [space] + b) == Tokens(a) + Tokens(b)
    decreases |a|
  {
    var whole := a + [space] + b;
    if a == "" {
      assert whole[1..] == b;
    } else if IsSpace(a[0]) {
      assert whole[1..] == a[1..] + [space] + b;
      TokensSplit(a[1..], space, b);
    } else {
      var n := WordLength(a);
      var rest := a[n..] + [space] + b;
      assert whole == a[..n] + rest;
      WordLengthBefore(a[..n], rest);
      assert whole[..n] == a[..n];
      assert whole[n..] == rest;
      TokensSplit(a[n..], space, b);
      assert Tokens(whole) == [a[..n]] + Tokens(rest);
    }
  }

  lemma {:induction false} TokensOfWord(word: string)
    requires word != "" && NoSpace(word)
    ensures Tokens(word) == [word]
  {
    WordLengthBefore(word, "");
    assert word + "" == word;
    assert word[..|word|] == word;
  }

  // ---------------------------------------------------------------------------
  // rendering, and what can be delivered at all

  predicate SendableKey(key: string) {
    0 < |key| <= MAX_NAME_LENGTH && NoSpace(key) && '=' !in key
  }

  /** An argument map some text can carry. */
  predicate Deliverable(m: ArgMap) {
    |m| <= MAX_ARGUMENTS && forall k | k in m :: SendableKey(k) && NoSpace(m[k])
  }

  function RenderPair(pair: (string, string)): string {
    pair.0 + "=" + pair.1
  }

  function Render(pairs: seq<(string, string)>): string {
    if pairs == [] then ""
    else Render(pairs[..|pairs| - 1]) + " " + RenderPair(pairs[|pairs| - 1])
  }

  function RenderedTokens(pairs: seq<(string, string)>): seq<string> {
    if pairs == [] then []
    else RenderedTokens(pairs[..|pairs| - 1]) + [RenderPair(pairs[|pairs| - 1])]
  }

  function MapOf(pairs: seq<(string, string)>): ArgMap {
    if pairs == [] then map[]
    else MapOf(pairs[..|pairs| - 1])[pairs[|pairs| - 1].0 := pairs[|pairs| - 1].1]
  }

  /** Pairs that can be written down: sendable keys, values without white space, no key
      twice, and not too many. */
  predicate Writable(pairs: seq<(string, string)>) {
    pairs == [] ||
    var last := |pairs| - 1;
    && Writable(pairs[..last])
    && SendableKey(pairs[last].0) && NoSpace(pairs[last].1)
    && pairs[last].0 !in MapOf(pairs[..last])
    && |pairs| <= MAX_ARGUMENTS
  }

  lemma {:induction false} FirstEqualsOf(key: string, value: string)
    requires '=' !in key
    ensures FirstEquals(key + "=" + value) == |key|
  {
    var token := key + "=" + value;
    if key != "" {
      assert token[1..] == key[1..] + "=" + value;
      FirstEqualsOf(key[1..], value);
    }
  }

  lemma RenderPairShape(key: string, value: string)
    requires SendableKey(key) && NoSpace(value)
    ensures var token := RenderPair((key, value));
            Shaped(token) && Key(token) == key && Val(token) == value && NoSpace(token)
  {
    FirstEqualsOf(key, value);
  }

  lemma {:induction false} RenderTokens(pairs: seq<(string, string)>)
    requires Writable(pairs)
    ensures Tokens(Render(pairs)) == RenderedTokens(pairs)
  {
    if pairs != [] {
      var last := |pairs| - 1;
      var before := pairs[..last];
      RenderTokens(before);
      RenderPairShape(pairs[last].0, pairs[last].1);
      var token := RenderPair(pairs[last]);
      TokensOfWord(token);
      TokensSplit(Render(before), ' ', token);
      assert Render(pairs) == Render(before) + [' '] + token;
    }
  }

  lemma {:induction false} RenderLegal(pairs: seq<(string, string)>)
    requires Writable(pairs)
    ensures |RenderedTokens(pairs)| == |pairs|
    ensures Legal(RenderedTokens(pairs)) && Pairs(RenderedTokens(pairs)) == MapOf(pairs)
  {
    if pairs != [] {
      var last := |pairs| - 1;
      RenderLegal(pairs[..last]);
      RenderPairShape(pairs[last].0, pairs[last].1);
      LegalAppend(RenderedTokens(pairs[..last]), RenderPair(pairs[last]));
    }
  }

  /** Writing pairs out and parsing the text gives exactly those pairs back. */
  lemma {:induction false} RenderRoundTrip(pairs: seq<(string, string)>)
    requires Writable(pairs)
    ensures ParseText(Render(pairs)) == (Ok, MapOf(pairs))
  {
    RenderTokens(pairs);
    RenderLegal(pairs);
    var tokens := RenderedTokens(pairs);
    assert tokens[..|tokens|] == tokens;
    LegalPrefixIs(tokens, |tokens|);
  }

  lemma {:induction false} Listing(m: ArgMap) returns (pairs: seq<(string, string)>)
    requires Deliverable(m)
    ensures Writable(pairs) && MapOf(pairs) == m && |pairs| == |m|
    decreases |m|
  {
    if m == map[] {
      return [];
    }
    var k :| k in m;
    var smaller := m - {k};
    assert smaller.Keys == m.Keys - {k};
    assert |smaller.Keys| == |m| - 1;
    var before := Listing(smaller);
    pairs := before + [(k, m[k])];
    assert pairs[..|before|] == before;
    assert smaller[k := m[k]] == m;
  }

  /** The maps an argument text can produce are exactly the deliverable ones. */
  lemma ParsedMapsAreDeliverable(m: ArgMap)
    ensures (exists text :: ParseText(text) == (Ok, m)) <==> Deliverable(m)
  {
    if Deliverable(m) {
      var pairs := Listing(m);
      RenderRoundTrip(pairs);
    }
    forall text | ParseText(text) == (Ok, m)
      ensures Deliverable(m)
    {
      ParsedIsDeliverable(text);
    }
  }

  lemma ParsedIsDeliverable(text: string)
    requires ParseText(text).0 == Ok
    ensures Deliverable(ParseText(text).1)
  {
    AcceptedIsLegal(text);
    TokensAreWords(text);
    LegalWordsAreDeliverable(Tokens(text));
  }

  lemma {:induction false} LegalWordsAreDeliverable(tokens: seq<string>)
    requires Legal(tokens) && forall i | 0 <= i < |tokens| :: NoSpace(tokens[i])
    ensures Deliverable(Pairs(tokens))
  {
    KeysMeans(tokens);
    if tokens != [] {
      PairsMeans(tokens, 0);
    }
    forall key | key in Pairs(tokens)
      ensures SendableKey(key) && NoSpace(Pairs(tokens)[key])
    {
      var i :| 0 <= i < |tokens| && Key(tokens[i]) == key;
      PairsMeans(tokens, i);
      WordParts(tokens[i]);
    }
    LegalFits(tokens);
  }

  lemma {:induction false} AcceptedIsLegal(text: string)
    ensures ParseText(text).0 == Ok <==> Legal(Tokens(text))
    ensures ParseText(text).0 == Ok ==> ParseText(text).1 == Pairs(Tokens(text))
    ensures ParseText(text).0 != Ok ==> ParseText(text).1 == map[]
  {
    var tokens := Tokens(text);
    assert tokens[..|tokens|] == tokens;
    if Legal(tokens) {
      LegalPrefixIs(tokens, |tokens|);
    }
  }

  lemma WordParts(token: string)
    requires Shaped(token) && NoSpace(token)
    ensures NoSpace(Key(token)) && NoSpace(Val(token)) && Key(token) != "" && '=' !in Key(token)
  {
  }

  lemma {:induction false} LegalFits(tokens: seq<string>)
    requires Legal(tokens)
    ensures |tokens| <= MAX_ARGUMENTS
  {
  }

  lemma {:induction false} FaultIsOfLeftmost(text: string, k: nat)
    requires LeftmostBad(text, k)
    ensures ParseText(text) == (Fault(Tokens(text)[..k], Tokens(text)[k]), map[])
  {
    LegalMeans(Tokens(text)[..k]);
    LegalMeans(Tokens(text)[..k + 1]);
    LegalPrefixIs(Tokens(text), k);
  }

  /** Up to a token each has its own usable key, and with it they do not. */
  predicate LeftmostBad(text: string, k: nat) {
    k < |Tokens(text)| && EachOwnKey(Tokens(text)[..k]) && !EachOwnKey(Tokens(text)[..k + 1])
  }

  lemma {:induction false} CutAtEquals(key: string, value: string)
    requires '=' !in key
    ensures Key(key + "=" + value) == key
    ensures Shaped(key + "=" + value) <==> key != ""
  {
    FirstEqualsOf(key, value);
  }

  lemma KeyStarts(token: string, key: string)
    requires '=' !in key && Shaped(token)
    ensures Key(token) == key <==> key + "=" <= token
  {
    if key + "=" <= token {
      assert token == key + "=" + token[|key| + 1..];
      CutAtEquals(key, token[|key| + 1..]);
    }
  }

  lemma {:induction false} NoEqualsIsUnshaped(token: string)
    requires '=' !in token
    ensures !Shaped(token)
  {
  }

  lemma {:induction false} KeyTaken(tokens: seq<string>, key: string)
    requires EachOwnKey(tokens) && '=' !in key
    ensures key in Keys(tokens) <==> exists j :: 0 <= j < |tokens| && key + "=" <= tokens[j]
  {
    KeysMeans(tokens);
    forall j | 0 <= j < |tokens|
      ensures Key(tokens[j]) == key <==> key + "=" <= tokens[j]
    {
      KeyStarts(tokens[j], key);
    }
  }

  /** Why a text is refused: the leftmost token that cannot be taken has no `=`, or nothing
      before it; or what is before it is too long, or is before one already; or there are too
      many. Nothing of the text is kept. */
  lemma {:induction false} LeftmostFault(text: string, k: nat, key: string, value: string)
    requires LeftmostBad(text, k) && '=' !in key
    requires Tokens(text)[k] == key + "=" + value || (Tokens(text)[k] == key && value == "")
    ensures ParseText(text).1 == map[]
    ensures ParseText(text).0 ==
            if '=' !in Tokens(text)[k] || key == "" then ArgumentError
            else if |key| > MAX_NAME_LENGTH then NameTooLong
            else if exists j :: 0 <= j < k && key + "=" <= Tokens(text)[j] then DuplicateName
            else CapacityExceeded
  {
    var token, before := Tokens(text)[k], Tokens(text)[..k];
    FaultIsOfLeftmost(text, k);
    KeyTaken(before, key);
    assert forall j | 0 <= j < k :: before[j] == Tokens(text)[j];
    if token == key {
      NoEqualsIsUnshaped(token);
    } else {
      CutAtEquals(key, value);
      assert token[|key|] == '=';
    }
  }

  /** One entry for each token, under its key and with its value, and no others. */
  predicate HoldsEach(m: ArgMap, tokens: seq<string>) {
    |m| == |tokens| && forall i | 0 <= i < |tokens| ::
      Shaped(tokens[i]) && Key(tokens[i]) in m && m[Key(tokens[i])] == Val(tokens[i])
  }

  /** A text is accepted exactly when each of its tokens has its own usable key. The map is
      then those pairs and nothing else, and otherwise empty. */
  lemma {:induction false} ParseTextAccepts(text: string)
    ensures ParseText(text).0 == Ok <==> EachOwnKey(Tokens(text))
    ensures ParseText(text).0 == Ok ==> HoldsEach(ParseText(text).1, Tokens(text))
    ensures ParseText(text).0 != Ok ==> ParseText(text).1 == map[]
  {
    var tokens := Tokens(text);
    AcceptedIsLegal(text);
    LegalMeans(tokens);
    if Legal(tokens) {
      EachIsHeld(tokens);
    }
  }

  lemma {:induction false} EachIsHeld(tokens: seq<string>)
    requires Legal(tokens)
    ensures HoldsEach(Pairs(tokens), tokens)
  {
    if tokens != [] {
      PairsMeans(tokens, 0);
    }
    forall i | 0 <= i < |tokens|
      ensures Shaped(tokens[i]) && Key(tokens[i]) in Pairs(tokens) && Pairs(tokens)[Key(tokens[i])] == Val(tokens[i])
    {
      PairsMeans(tokens, i);
    }
  }

  // ---------------------------------------------------------------------------
  // lookup

  /** The raw value, or nothing when the argument is absent. */
  function TextOf(m: ArgMap, name: string): string {
    if |name| <= MAX_NAME_LENGTH && name in m then m[name] else ""
  }
}
