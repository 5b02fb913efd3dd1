/** `java.time.Instant`: seconds since 1970-01-01T00:00:00Z plus a nanosecond
    adjustment, with its natural ordering `compareTo`. */
module Instants {

  const NanosPerSecond: int := 1_000_000_000

  datatype Instant = Instant(epochSecond: int, nano: int) {

    /** The nanosecond adjustment lies in 0..999,999,999, as Instant guarantees. */
    predicate Valid() {
      0 <= nano < NanosPerSecond
    }

    /** The position of the instant on a single nanosecond time line. */
    function EpochNanos(): int {
      epochSecond * NanosPerSecond + nano
    }

    /** `plusSeconds(s)`. */
    function PlusSeconds(s: int): (r: Instant)
      ensures r.EpochNanos() == EpochNanos() + s * NanosPerSecond
      ensures Valid() ==> r.Valid()
    {
      Instant(epochSecond + s, nano)
    }
  }

  function Sign(x: int): int {
    if x < 0 then -1 else if x == 0 then 0 else 1
  }

  /** `Long.compare(x, y)`. */
  function CompareLong(x: int, y: int): (r: int)
    ensures Sign(r) == Sign(x - y)
  {
    if x < y then -1 else if x == y then 0 else 1
  }

  /** `a.compareTo(b)`: compares the seconds, then subtracts the nanoseconds. */
  function CompareTo(a: Instant, b: Instant): int {
    var c := CompareLong(a.epochSecond, b.epochSecond);
    if c != 0 then c else a.nano - b.nano
  }

  /** compareTo orders instants as the time line does. */
  lemma CompareToFollowsTimeLine(a: Instant, b: Instant)
    requires a.Valid() && b.Valid()
    ensures Sign(CompareTo(a, b)) == Sign(a.EpochNanos() - b.EpochNanos())
  {
    var d := a.epochSecond - b.epochSecond;
    assert a.EpochNanos() - b.EpochNanos() == d * NanosPerSecond + (a.nano - b.nano);
    if d >= 1 {
      assert d * NanosPerSecond >= NanosPerSecond;
    } else if d <= -1 {
      assert d * NanosPerSecond <= -NanosPerSecond;
    }
  }

  /** compareTo is antisymmetric in sign and zero exactly on equal instants. */
  lemma CompareToAntisymmetric(a: Instant, b: Instant)
    requires a.Valid() && b.Valid()
    ensures Sign(CompareTo(a, b)) == -Sign(CompareTo(b, a))
    ensures CompareTo(a, b) == 0 <==> a == b
  {
    CompareToFollowsTimeLine(a, b);
    CompareToFollowsTimeLine(b, a);
  }
}
