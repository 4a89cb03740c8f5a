/** The capacities every table is sized from. They are fixed when the program is built, and
    every result here holds for any choice of them within these bounds. */
module Limits {

  type IdCapacity = x: nat | 0 < x < 0xFFFF witness 32

  type ByteCapacity = x: nat | 0 < x <= 0xFF witness 4

  type PoolCapacity = x: nat | 0 < x <= 0xFFFF witness 64

  type Capacity = x: nat | 0 < x witness 31

  const MAX_STATES: IdCapacity
  const MAX_TRIGGERS: IdCapacity
  const MAX_TRANSITIONS_PER_STATE: Capacity
  const MAX_NAME_LENGTH: Capacity
  const MAX_CHANNEL_LENGTH: Capacity
  const MAX_ARGUMENTS: Capacity
  const MAX_ALTERNATIVES: ByteCapacity
  const MAX_CONDITIONS_PER_GUARD: ByteCapacity
  const MAX_CONDITIONS: PoolCapacity
  const MAX_MESSAGE_LENGTH: Capacity
}

/** Status codes, ids and the containers the rest of the system is written in. */
module Types {

  datatype Option<+T> = None | Some(value: T)

  datatype Status =
    | Ok
    | ParseError
    | SchemaError
    | DuplicateName
    | UnknownState
    | UnknownTrigger
    | NameTooLong
    | ChannelTooLong
    | CapacityExceeded
    | NotInitialised
    | AlreadyInitialised
    | InvalidArgument
    | NoTransition
    | GuardRejected
    | ArgumentError
    | PortError
    | NotOpen
    | Timeout
    | EndOfInput

  /** Any status but success. */
  type Problem = s: Status | s != Ok witness ParseError

  /** Sixteen bits: a state id or a trigger id. */
  type Id = x: nat | x <= 0xFFFF

  type StateId = Id
  type TriggerId = Id

  const NO_STATE: StateId := 0xFFFF
  const NO_TRIGGER: TriggerId := 0xFFFF

  newtype int64 = x: int | -0x8000_0000_0000_0000 <= x < 0x8000_0000_0000_0000

  type int32 = x: int | -0x8000_0000 <= x <= 0x7FFF_FFFF

  const INT32_MIN: int := -0x8000_0000
  const INT32_MAX: int := 0x7FFF_FFFF

  /** A 32-bit counter: it wraps. */
  type uint32 = x: nat | x < 0x1_0000_0000

  function Increment(x: uint32): uint32 {
    (x + 1) % 0x1_0000_0000
  }

  lemma WrapsOnce(x: uint32, rest: nat)
    ensures (Increment(x) + rest) % 0x1_0000_0000 == (x + 1 + rest) % 0x1_0000_0000
  {
  }

  lemma BothMore(x: nat, y: nat)
    requires x % 0x1_0000_0000 == y % 0x1_0000_0000
    ensures (x + 1) % 0x1_0000_0000 == (y + 1) % 0x1_0000_0000
  {
  }

  /** What is left of `out` followed by `source` in a buffer of `capacity` characters. */
  function Clipped<T>(out: seq<T>, source: seq<T>, capacity: nat): (r: seq<T>)
    requires |out| <= capacity
    ensures |r| <= capacity && out <= r <= out + source
    ensures r == out + source <==> |out| + |source| <= capacity
  {
    out + source[..if |source| <= capacity - |out| then |source| else capacity - |out|]
  }

  lemma ClippedTwice<T>(out: seq<T>, a: seq<T>, b: seq<T>, capacity: nat)
    requires |out| <= capacity
    ensures Clipped(Clipped(out, a, capacity), b, capacity) == Clipped(out, a + b, capacity)
  {
  }

  lemma Associates<T>(a: seq<T>, b: seq<T>, c: seq<T>)
    ensures (a + b) + c == a + (b + c)
  {
  }

  /** A vector with a fixed capacity. Pushing onto a full one aborts the program, so every
      push has to show there is room. */
  class BoundedVector<T> {
    const capacity: nat
    var items: seq<T>

    predicate Valid()
      reads this
    {
      |items| <= capacity
    }

    constructor (capacity: nat)
      ensures this.capacity == capacity && items == [] && Valid()
    {
      this.capacity := capacity;
      items := [];
    }

    predicate Full()
      reads this
    {
      |items| == capacity
    }

    method PushBack(item: T)
      requires Valid() && !Full()
      modifies this
      ensures Valid() && items == old(items) + [item]
    {
      items := items + [item];
    }

    method PopBack() returns (item: T)
      requires Valid() && items != []
      modifies this
      ensures Valid() && old(items) == items + [item]
    {
      item := items[|items| - 1];
      items := items[..|items| - 1];
    }
  }

  /** A string with a fixed capacity. */
  class FixedString {
    const capacity: nat
    var text: string

    predicate Valid()
      reads this
    {
      |text| <= capacity
    }

    constructor (capacity: nat)
      ensures this.capacity == capacity && text == "" && Valid()
    {
      this.capacity := capacity;
      text := "";
    }

    /** What does not fit any more is dropped. */
    method AppendClipped(source: string)
      requires Valid()
      modifies this
      ensures Valid() && text == Clipped(old(text), source, capacity)
    {
      var room := capacity - |text|;
      var take := if |source| < room then |source| else room;
      if take == 0 {
        return;
      }
      text := text + source[..take];
    }
  }
}

/** Counting finite sets. */
module Finite {

  function Range(low: int, high: int): (r: set<int>)
    ensures forall x :: x in r <==> low <= x <= high
    decreases high - low
  {
    if low > high then {} else Range(low, high - 1) + {high}
  }

  lemma {:induction false} RangeSize(low: int, high: int)
    requires low <= high + 1
    ensures |Range(low, high)| == high - low + 1
    decreases high - low
  {
    if low <= high {
      RangeSize(low, high - 1);
    }
  }

  lemma {:induction false} SubsetSize<T>(a: set<T>, b: set<T>)
    requires a <= b
    ensures |a| <= |b|
    ensures |a| == |b| ==> a == b
  {
    if a != {} {
      var x :| x in a;
      SubsetSize(a - {x}, b - {x});
    }
  }

  ghost predicate Distinct<T>(s: seq<T>) {
    forall i, j | 0 <= i < j < |s| :: s[i] != s[j]
  }

  ghost function Elements<T>(s: seq<T>): set<T> {
    set x | x in s
  }

  lemma {:induction false} DistinctSize<T>(s: seq<T>)
    requires Distinct(s)
    ensures |Elements(s)| == |s|
  {
    if s != [] {
      var last := |s| - 1;
      DistinctSize(s[..last]);
      assert Elements(s) == Elements(s[..last]) + {s[last]};
    }
  }

  /** Distinct numbers below a bound are no more than the bound. */
  lemma DistinctFits(s: seq<nat>, n: nat)
    requires Distinct(s) && forall i | 0 <= i < |s| :: s[i] < n
    ensures |s| <= n
  {
    DistinctSize(s);
    var elements: set<int> := set x: int | x in Elements(s);
    assert elements == Elements(s);
    RangeSize(0, n - 1);
    SubsetSize(elements, Range(0, n - 1));
  }
}
