/** Text at the lowest level: white space, and decimal integers in both directions. */
module Text {
  import opened Types

  predicate IsSpace(c: char) {
    c == ' ' || c == '\t' || c == '\r' || c == '\n'
  }

  predicate NoSpace(s: string) {
    forall i | 0 <= i < |s| :: !IsSpace(s[i])
  }

  // ---------------------------------------------------------------------------
  // decimal digits

  predicate IsDigit(c: char) {
    '0' <= c <= '9'
  }

  predicate AllDigits(s: string) {
    forall i | 0 <= i < |s| :: IsDigit(s[i])
  }

  function Value(digits: string): nat
    requires AllDigits(digits)
  {
    if digits == "" then 0
    else
      var last := |digits| - 1;
      Value(digits[..last]) * 10 + (digits[last] as int - '0' as int)
  }

  /** What a piece of text denotes: an optional sign and at least one digit, naming a number
      that fits in 32 bits. */
  function IntOf(text: string): Option<int32> {
    var signed := text != "" && (text[0] == '+' || text[0] == '-');
    var digits := if signed then text[1..] else text;
    if digits == "" || !AllDigits(digits) then None
    else
      var value: int := if signed && text[0] == '-' then 0 - Value(digits) else Value(digits);
      if INT32_MIN <= value <= INT32_MAX then Some(value) else None
  }

  lemma {:induction false} ValueGrows(digits: string, k: nat)
    requires AllDigits(digits) && k <= |digits|
    ensures Value(digits[..k]) <= Value(digits)
  {
    if k == |digits| {
      assert digits[..k] == digits;
    } else {
      var last := |digits| - 1;
      ValueGrows(digits[..last], k);
      assert digits[..last][..k] == digits[..k];
    }
  }

  lemma ValueMore(digits: string, k: nat)
    requires k < |digits| && AllDigits(digits[..k]) && IsDigit(digits[k])
    ensures AllDigits(digits[..k + 1])
    ensures Value(digits[..k + 1]) == Value(digits[..k]) * 10 + (digits[k] as int - '0' as int)
  {
    assert digits[..k + 1][..k] == digits[..k];
  }

  predicate IsNumeral(digits: string) {
    digits != "" && AllDigits(digits)
  }

  /** The three ways to write a number: digits alone, or after a plus or a minus. */
  ghost predicate Denotes(text: string, n: int) {
    exists digits :: IsNumeral(digits) && Writes(text, digits, n)
  }

  predicate Writes(text: string, digits: string, n: int)
    requires IsNumeral(digits)
  {
    || (n == Value(digits) && (text == digits || text == "+" + digits))
    || (n == 0 - Value(digits) && text == "-" + digits)
  }

  /** A text reads as a number exactly when it is a way to write it. */
  lemma IntOfMeans(text: string, n: int32)
    ensures IntOf(text) == Some(n) <==> Denotes(text, n)
  {
    if Denotes(text, n) {
      var digits :| IsNumeral(digits) && Writes(text, digits, n);
      assert IsDigit(digits[0]);
      assert text != digits ==> text[1..] == digits;
    }
    if IntOf(text) == Some(n) {
      var signed := text[0] == '+' || text[0] == '-';
      var digits := if signed then text[1..] else text;
      assert IsNumeral(digits);
      assert signed ==> text == [text[0]] + digits;
    }
  }

  lemma NumberHasNoSpace(text: string)
    requires IntOf(text).Some?
    ensures text != "" && NoSpace(text)
  {
    assert forall i | 0 < i < |text| :: text[1..][i - 1] == text[i];
  }

  lemma DenotesOnce(text: string)
    ensures IntOf(text).Some? <==> exists n: int32 :: Denotes(text, n)
  {
    if IntOf(text).Some? {
      IntOfMeans(text, IntOf(text).value);
    }
    forall n: int32 | Denotes(text, n)
      ensures IntOf(text).Some?
    {
      IntOfMeans(text, n);
    }
  }

  /** Reads an integer. The accumulator is 64 bits wide and never gets near its bounds,
      however long the text is. */
  method ParseInt(text: string) returns (ok: bool, out: int32)
    ensures ok <==> exists n: int32 :: Denotes(text, n)
    ensures ok ==> Denotes(text, out)
    ensures IntOf(text) == if ok then Some(out) else None
  {
    ok, out := ScanInt(text);
    DenotesOnce(text);
    if ok {
      IntOfMeans(text, out);
    }
  }

  method ScanInt(text: string) returns (ok: bool, out: int32)
    ensures IntOf(text) == if ok then Some(out) else None
  {
    out := 0;
    if text == "" {
      return false, out;
    }
    var i := 0;
    var negative := false;
    if text[0] == '+' || text[0] == '-' {
      negative := text[0] == '-';
      i := 1;
      if |text| == 1 {
        return false, out;
      }
    }
    ghost var digits := text[i..];
    ghost var start := i;

    var value: int64 := 0;
    while i < |text|
      invariant start <= i <= |text| && digits == text[start..]
      invariant AllDigits(digits[..i - start])
      invariant value as int == Value(digits[..i - start]) <= 2147483648
    {
      var c := text[i];
      if c < '0' || c > '9' {
        assert digits[i - start] == c;
        return false, out;
      }
      ValueMore(digits, i - start);
      value := value * 10 + (c as int - '0' as int) as int64;
      if value > 2147483648 {
        if AllDigits(digits) {
          ValueGrows(digits, i - start + 1);
        }
        return false, out;
      }
      i := i + 1;
    }
    assert digits[..i - start] == digits;

    if negative {
      value := -value;
    }
    if value > 2147483647 || value < -2147483648 {
      return false, out;
    }
    return true, value as int;
  }

  // ---------------------------------------------------------------------------
  // printing integers

  function DigitChar(d: nat): (c: char)
    requires d < 10
    ensures IsDigit(c) && c as int - '0' as int == d
  {
    '0' + d as char
  }

  function Decimal(n: nat): (r: string)
    ensures r != ""
  {
    (if n < 10 then "" else Decimal(n / 10)) + [DigitChar(n % 10)]
  }

  /** How an integer is written. */
  function IntText(value: int): string {
    if value < 0 then "-" + Decimal(-value) else Decimal(value)
  }

  lemma {:induction false} DecimalValue(n: nat)
    ensures AllDigits(Decimal(n)) && Decimal(n) != "" && Value(Decimal(n)) == n
  {
    var front := if n < 10 then "" else Decimal(n / 10);
    if n >= 10 {
      DecimalValue(n / 10);
    }
    ValuePushed(front, DigitChar(n % 10));
  }

  lemma {:induction false} ValuePushed(digits: string, c: char)
    requires AllDigits(digits) && IsDigit(c)
    ensures AllDigits(digits + [c]) && Value(digits + [c]) == Value(digits) * 10 + (c as int - '0' as int)
  {
    assert (digits + [c])[..|digits|] == digits;
  }

  function Pow10(k: nat): nat {
    if k == 0 then 1 else 10 * Pow10(k - 1)
  }

  lemma {:induction false} DecimalLength(n: nat, k: nat)
    requires n < Pow10(k + 1)
    ensures |Decimal(n)| <= k + 1
  {
    if n >= 10 {
      DecimalLength(n / 10, k - 1);
    }
  }

  lemma {:induction false} DecimalIsLong(n: nat, k: nat)
    requires Pow10(k) <= n
    ensures |Decimal(n)| > k
  {
    if k > 0 {
      DecimalIsLong(n / 10, k - 1);
    }
  }

  /** The longest printed integer. */
  lemma LongestInt()
    ensures |IntText(INT32_MIN)| == 11
  {
    assert Pow10(3) == 1_000 && Pow10(6) == 1_000_000;
    DecimalIsLong(2147483648, 9);
    IntTextShape(INT32_MIN);
  }

  lemma {:induction false} Int32Digits(magnitude: nat)
    requires magnitude <= 2147483648
    ensures |Decimal(magnitude)| <= 10
  {
    assert Pow10(2) == 100;
    assert Pow10(4) == 10_000;
    assert Pow10(6) == 1_000_000;
    assert Pow10(8) == 100_000_000;
    DecimalLength(magnitude, 9);
  }

  /** Reading back what was printed gives the number, for every 32-bit number. */
  lemma IntTextRoundTrip(value: int32)
    ensures IntOf(IntText(value)) == Some(value)
  {
    var magnitude: nat := if value < 0 then 0 - value else value;
    DecimalValue(magnitude);
    var digits := Decimal(magnitude);
    if value < 0 {
      assert IntText(value)[1..] == digits;
    } else {
      assert IsDigit(digits[0]);
    }
  }

  function Zeros(k: nat): (r: string)
    ensures |r| == k
  {
    seq(k, _ => '0')
  }

  lemma {:induction false} ZerosAreNothing(k: nat, digits: string)
    requires AllDigits(digits)
    ensures AllDigits(Zeros(k) + digits) && Value(Zeros(k) + digits) == Value(digits)
    decreases |digits|, k
  {
    var padded := Zeros(k) + digits;
    if digits != "" {
      var last := |digits| - 1;
      ZerosAreNothing(k, digits[..last]);
      assert padded[..|padded| - 1] == Zeros(k) + digits[..last];
    } else if k > 0 {
      ZerosAreNothing(k - 1, "");
      assert padded[..|padded| - 1] == Zeros(k - 1) + "";
    }
  }

  /** One of the many ways to write a number: with leading zeros. */
  function Padded(value: int, k: nat): string {
    if value < 0 then "-" + (Zeros(k) + Decimal(-value)) else Zeros(k) + Decimal(value)
  }

  lemma DigitsHaveNoSpace(digits: string)
    requires AllDigits(digits)
    ensures NoSpace(digits) && NoSpace("-" + digits)
  {
    assert forall i | 0 <= i < |digits| :: IsDigit(digits[i]);
  }

  lemma {:induction false} SignedDigits(digits: string, negative: bool)
    requires digits != "" && AllDigits(digits)
    requires INT32_MIN <= (if negative then 0 - Value(digits) else Value(digits)) <= INT32_MAX
    ensures IntOf(if negative then "-" + digits else digits) ==
            Some(if negative then 0 - Value(digits) else Value(digits))
  {
    if negative {
      assert ("-" + digits)[1..] == digits;
    } else {
      assert IsDigit(digits[0]);
    }
  }

  /** Each of them denotes the number, and they get as long as one likes. */
  lemma PaddedMeans(value: int32, k: nat)
    ensures IntOf(Padded(value, k)) == Some(value) && |Padded(value, k)| > k && NoSpace(Padded(value, k))
  {
    var magnitude: nat := if value < 0 then 0 - value else value;
    var digits := Zeros(k) + Decimal(magnitude);
    DecimalValue(magnitude);
    ZerosAreNothing(k, Decimal(magnitude));
    SignedDigits(digits, value < 0);
    DigitsHaveNoSpace(digits);
  }

  /** A printed integer is at most eleven characters, none of them a space. */
  lemma IntTextShape(value: int32)
    ensures 0 < |IntText(value)| <= 11 && NoSpace(IntText(value))
  {
    var magnitude: nat := if value < 0 then 0 - value else value;
    DecimalValue(magnitude);
    Int32Digits(magnitude);
    DigitsHaveNoSpace(Decimal(magnitude));
  }

  function Reversed(s: string): (r: string)
    ensures |r| == |s|
  {
    if s == "" then "" else [s[|s| - 1]] + Reversed(s[..|s| - 1])
  }

  /** What is still to be written of a number; nothing once it is down to zero. */
  function StillToCome(left: nat): string {
    if left > 0 then Decimal(left) else ""
  }

  lemma {:induction false} ReversedMore(written: string, d: char)
    ensures Reversed(written + [d]) == [d] + Reversed(written)
  {
    assert (written + [d])[..|written|] == written;
  }

  lemma {:induction false} DecimalSplits(n: nat)
    ensures Decimal(n) == StillToCome(n / 10) + [DigitChar(n % 10)]
  {
  }

  /** Moving the last digit of what is left to the end of what is written. */
  lemma {:induction false} DigitMoves(left: nat, written: string)
    ensures Decimal(left) + Reversed(written) == StillToCome(left / 10) + Reversed(written + [DigitChar(left % 10)])
  {
    DecimalSplits(left);
    ReversedMore(written, DigitChar(left % 10));
    Associates(StillToCome(left / 10), [DigitChar(left % 10)], Reversed(written));
  }

  /** Writes the last digit of a number after the `count` characters already there. */
  method PutDigit(digits: array<char>, count: nat, value: int64)
    requires count < digits.Length && 0 <= value
    modifies digits
    ensures digits[..count + 1] == old(digits[..count]) + [DigitChar(value as int % 10)]
  {
    digits[count] := DigitChar((value % 10) as int);
  }

  /** Writes the digits of a number backwards into a buffer of twelve characters, which is
      never filled. */
  method DigitsBackwards(magnitude: int64, digits: array<char>) returns (count: nat)
    requires 0 <= magnitude <= 2147483648 && digits.Length == 12
    modifies digits
    ensures 1 <= count <= 10
    ensures Decimal(magnitude as int) == Reversed(digits[..count])
  {
    ghost var whole := Decimal(magnitude as int);
    Int32Digits(magnitude as int);
    DigitMoves(magnitude as int, "");
    assert whole + "" == whole && digits[..0] == "";
    PutDigit(digits, 0, magnitude);
    count := 1;
    var left := magnitude / 10;
    while left > 0 && count < digits.Length
      invariant 0 <= left && 1 <= count <= 10
      invariant whole == StillToCome(left as int) + Reversed(digits[..count])
      decreases left
    {
      DigitMoves(left as int, digits[..count]);
      PutDigit(digits, count, left);
      count := count + 1;
      left := left / 10;
    }
  }

  /** Appends the first `count` characters of a buffer, last one first, one at a time. */
  method AppendBackwards(out: FixedString, digits: array<char>, count: nat)
    requires out.Valid() && count <= digits.Length
    modifies out
    ensures out.Valid() && out.text == Clipped(old(out.text), Reversed(digits[..count]), out.capacity)
  {
    ghost var before, whole, printed := out.text, Reversed(digits[..count]), "";
    var left := count;
    while left > 0
      invariant 0 <= left <= count && out.Valid()
      invariant whole == printed + Reversed(digits[..left])
      invariant out.text == Clipped(before, printed, out.capacity)
    {
      left := left - 1;
      var digit := digits[left];
      assert digits[..left + 1] == digits[..left] + [digit];
      ClippedTwice(before, printed, [digit], out.capacity);
      out.AppendClipped([digit]);
      printed := printed + [digit];
    }
    assert printed == whole;
  }

  lemma {:induction false} SignAndDigits(value: int, magnitude: nat)
    requires magnitude == if value < 0 then 0 - value else value
    ensures IntText(value) == (if value < 0 then "-" else "") + Decimal(magnitude)
  {
  }

  /** Appends an integer to a bounded string, the sign first and then digit by digit. */
  method AppendInt(out: FixedString, value: int32)
    requires out.Valid()
    modifies out
    ensures out.Valid() && out.text == Clipped(old(out.text), IntText(value), out.capacity)
  {
    var digits := new char[12];
    var magnitude: int64 := value as int64;
    ghost var before, sign := out.text, "";
    if magnitude < 0 {
      out.AppendClipped("-");
      sign := "-";
      magnitude := -magnitude;
    }
    SignAndDigits(value, magnitude as int);
    assert out.text == Clipped(before, sign, out.capacity);
    var count := DigitsBackwards(magnitude, digits);
    AppendBackwards(out, digits, count);
    ClippedTwice(before, sign, Reversed(digits[..count]), out.capacity);
  }

  // ---------------------------------------------------------------------------
  // the order of keys

  /** One text is the beginning of the other, or smaller where they first differ. */
  lemma {:induction false} PrecedesMeans(a: string, b: string)
    ensures Precedes(a, b) <==>
            a <= b || exists i :: 0 <= i < |a| && i < |b| && a[..i] == b[..i] && a[i] < b[i]
  {
    if a != "" && b != "" && a[0] == b[0] {
      PrecedesMeans(a[1..], b[1..]);
      if i :| 0 <= i < |a| && i < |b| && a[..i] == b[..i] && a[i] < b[i] {
        assert i > 0 && a[1..][..i - 1] == a[..i][1..] == b[1..][..i - 1];
        assert a[1..][i - 1] < b[1..][i - 1];
      }
      if i :| 0 <= i < |a[1..]| && i < |b[1..]| && a[1..][..i] == b[1..][..i] && a[1..][i] < b[1..][i] {
        assert a[..i + 1] == [a[0]] + a[1..][..i] && b[..i + 1] == [b[0]] + b[1..][..i];
        assert a[i + 1] < b[i + 1];
      }
      assert a <= b <==> a[1..] <= b[1..];
    } else if a != "" && b != "" && a[0] < b[0] {
      assert a[..0] == b[..0] && a[0] < b[0];
    }
  }

  /** The order in which a map is walked: the first difference decides, and a text comes after
      its own beginnings. */
  predicate Precedes(a: string, b: string) {
    a == "" || (b != "" && (a[0] < b[0] || (a[0] == b[0] && Precedes(a[1..], b[1..]))))
  }

  lemma {:induction false} PrecedesIsTotal(a: string, b: string)
    ensures Precedes(a, b) || Precedes(b, a)
    ensures Precedes(a, b) && Precedes(b, a) ==> a == b
  {
    if a != "" && b != "" && a[0] == b[0] {
      PrecedesIsTotal(a[1..], b[1..]);
      assert a == [a[0]] + a[1..] && b == [b[0]] + b[1..];
    }
  }

  lemma {:induction false} PrecedesIsTransitive(a: string, b: string, c: string)
    requires Precedes(a, b) && Precedes(b, c)
    ensures Precedes(a, c)
  {
    if a != "" && a[0] == b[0] == c[0] {
      PrecedesIsTransitive(a[1..], b[1..], c[1..]);
    }
  }

  lemma {:induction false} LeastExists(keys: set<string>) returns (least: string)
    requires keys != {}
    ensures least in keys && forall other | other in keys :: Precedes(least, other)
  {
    var key :| key in keys;
    var rest := keys - {key};
    least := key;
    PrecedesIsTotal(key, key);
    if rest != {} {
      var first := LeastExists(rest);
      PrecedesIsTotal(key, first);
      if Precedes(first, key) {
        least := first;
      } else {
        forall other | other in rest
          ensures Precedes(key, other)
        {
          PrecedesIsTransitive(key, first, other);
        }
      }
    }
  }

  lemma LeastIsFirst(keys: set<string>)
    requires keys != {}
    ensures exists least :: least in keys && forall other | other in keys :: Precedes(least, other)
  {
    var least := LeastExists(keys);
  }

  /** The first key of a map. */
  ghost function Least(keys: set<string>): (least: string)
    requires keys != {}
    ensures least in keys && forall other | other in keys :: Precedes(least, other)
  {
    LeastIsFirst(keys);
    var least :| least in keys && forall other | other in keys :: Precedes(least, other);
    least
  }

  lemma {:induction false} LeastIsUnique(keys: set<string>, key: string)
    requires key in keys && forall other | other in keys :: Precedes(key, other)
    ensures key == Least(keys)
  {
    PrecedesIsTotal(key, Least(keys));
  }
}
