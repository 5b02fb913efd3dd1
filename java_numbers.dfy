/** Java's 64-bit `long` and 32-bit `int` arithmetic as it matters to the models:
    the value ranges, two's-complement wrap-around of `+`, `Long.parseLong`,
    `Integer.toUnsignedLong` and `TimeUnit.SECONDS.toMillis` (which saturates). */
module JavaNumbers {
  import opened Wrappers
  import opened Strings

  const LongMin: int := -0x8000_0000_0000_0000
  const LongMax: int := 0x7fff_ffff_ffff_ffff
  const IntMin: int := -0x8000_0000
  const IntMax: int := 0x7fff_ffff
  const TwoTo32: int := 0x1_0000_0000
  const TwoTo64: int := 0x1_0000_0000_0000_0000

  predicate IsLong(x: int) {
    LongMin <= x <= LongMax
  }

  predicate IsInt(x: int) {
    IntMin <= x <= IntMax
  }

  /** The `long` that an out-of-range mathematical result wraps around to. */
  function WrapLong(x: int): (r: int)
    ensures IsLong(r)
    ensures (r - x) % TwoTo64 == 0
    ensures IsLong(x) ==> r == x
  {
    (x - LongMin) % TwoTo64 + LongMin
  }

  /** Java's `a + b` on two longs. */
  function AddLong(a: int, b: int): (r: int)
    requires IsLong(a) && IsLong(b)
    ensures IsLong(r)
    ensures IsLong(a + b) ==> r == a + b
    ensures a >= 0 && b >= 0 && !IsLong(a + b) ==> r < 0
  {
    WrapLong(a + b)
  }

  /** Java's `a - b` on two longs. */
  function SubLong(a: int, b: int): (r: int)
    requires IsLong(a) && IsLong(b)
    ensures IsLong(r)
    ensures IsLong(a - b) ==> r == a - b
    ensures (r - (a - b)) % TwoTo64 == 0
  {
    WrapLong(a - b)
  }

  /** `Math.max` and `Math.min` on longs. */
  function Max(a: int, b: int): (r: int)
    ensures r >= a && r >= b && (r == a || r == b)
  {
    if a >= b then a else b
  }

  function Min(a: int, b: int): (r: int)
    ensures r <= a && r <= b && (r == a || r == b)
  {
    if a <= b then a else b
  }

  /** `TimeUnit.SECONDS.toMillis(d)`: multiplies by 1000, saturating at the long bounds. */
  function SecondsToMillis(d: int): (r: int)
    requires IsLong(d)
    ensures IsLong(r)
    ensures IsLong(d * 1000) ==> r == d * 1000
    ensures d > LongMax / 1000 ==> r == LongMax
    ensures d < -(LongMax / 1000) ==> r == LongMin
  {
    if d > LongMax / 1000 then LongMax
    else if d < -(LongMax / 1000) then LongMin
    else d * 1000
  }

  /** `Integer.toUnsignedLong(i)`: the int's bits read as an unsigned number. */
  function ToUnsignedLong(i: int): (r: int)
    requires IsInt(i)
    ensures 0 <= r < TwoTo32
    ensures (r - i) % TwoTo32 == 0
    ensures i >= 0 ==> r == i
  {
    if i < 0 then i + TwoTo32 else i
  }

  /** `Long.parseLong(s)` in radix 10: an optional '+' or '-' and at least one
      ASCII digit, with a value inside the long range; anything else is a
      `NumberFormatException`, modelled as None. */
  function ParseLong(s: string): (r: Option<int>)
    ensures r.Some? ==> IsLong(r.value)
    ensures r.Some? ==> |s| >= 1
  {
    if |s| == 0 then None
    else
      var signed := s[0] == '-' || s[0] == '+';
      var digits := if signed then s[1..] else s;
      if |digits| == 0 || !AllDigits(digits) then None
      else
        var magnitude: int := DecimalValue(digits);
        var v := if s[0] == '-' then -magnitude else magnitude;
        if IsLong(v) then Some(v) else None
  }

  /** A rendered non-negative long parses back to itself. */
  lemma ParseLongOfDigits(n: nat)
    requires n <= LongMax
    ensures ParseLong(Digits(n)) == Some(n)
  {
    DecimalValueOfDigits(n);
  }

  /** A rendered negative long (including Long.MIN_VALUE) parses back to itself. */
  lemma ParseLongOfNegated(n: nat)
    requires n <= -LongMin
    ensures ParseLong(['-'] + Digits(n)) == Some(-(n as int))
  {
    DecimalValueOfDigits(n);
    assert (['-'] + Digits(n))[1..] == Digits(n);
  }

  /** A digit run whose value leaves the long range is rejected, not truncated. */
  lemma ParseLongRejectsOverflow(s: string)
    requires |s| >= 1 && AllDigits(s) && DecimalValue(s) > LongMax
    ensures ParseLong(s) == None
  {
  }
}
