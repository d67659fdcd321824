/** .NET time values as integers.

    A timestamp (`DateTimeOffset`) is its UTC tick count: 100-nanosecond ticks since
    0001-01-01, between 0 and the tick count of `DateTimeOffset.MaxValue`. A span
    (`TimeSpan`) is a signed 64-bit tick count. C#'s integer `/` and `%` truncate toward
    zero, so they are written out here rather than borrowed from Dafny's Euclidean
    operators; `Math.Round` rounds half to even and is modelled exactly on rationals. */
module Time {
  import opened Wrappers

  const TicksPerMillisecond: int := 10_000
  const TicksPerSecond: int := 10_000_000

  /** UTC ticks of `DateTimeOffset.MaxValue` (9999-12-31T23:59:59.9999999Z). */
  const MaxTimestamp: int := 3_155_378_975_999_999_999
  /** UTC ticks of 1970-01-01T00:00:00Z. */
  const UnixEpochTicks: int := 621_355_968_000_000_000
  /** The range `DateTimeOffset.FromUnixTimeMilliseconds` accepts. */
  const MinUnixMilliseconds: int := -62_135_596_800_000
  const MaxUnixMilliseconds: int := 253_402_300_799_999

  const LongMin: int := -0x8000_0000_0000_0000
  const LongMax: int := 0x7FFF_FFFF_FFFF_FFFF

  predicate IsTimestamp(t: int) { 0 <= t <= MaxTimestamp }
  predicate IsLong(x: int) { LongMin <= x <= LongMax }

  /** A `DateTimeOffset`, as UTC ticks. */
  type Timestamp = t: int | IsTimestamp(t)
  /** A `TimeSpan`, as signed 64-bit ticks. */
  type Span = x: int | IsLong(x)
  /** A span that is a whole number of milliseconds. */
  predicate IsWholeMilliseconds(span: int) { span % TicksPerMillisecond == 0 }

  function Abs(x: int): nat { if x < 0 then -x else x }

  /** C#'s `a / b` for a positive divisor: the quotient truncated toward zero. */
  function TruncDiv(a: int, b: int): (q: int)
    requires b > 0
    ensures Abs(q) * b <= Abs(a) < (Abs(q) + 1) * b
    ensures a >= 0 ==> q >= 0
    ensures a <= 0 ==> q <= 0
  {
    if a >= 0 then a / b else -((-a) / b)
  }

  /** C#'s `a % b` for a positive divisor: the remainder takes the sign of `a`. */
  function TruncRem(a: int, b: int): (r: int)
    requires b > 0
    ensures a == b * TruncDiv(a, b) + r
    ensures Abs(r) < b
    ensures a >= 0 ==> r >= 0
    ensures a <= 0 ==> r <= 0
  {
    if a >= 0 then a % b else -((-a) % b)
  }

  /** `TimeSpan.Seconds`: the seconds COMPONENT of a span (not its total seconds),
      between -59 and 59 and carrying the sign of the span. */
  function SecondsComponent(span: int): (s: int)
    ensures -59 <= s <= 59
    ensures span >= 0 ==> s >= 0
    ensures span <= 0 ==> s <= 0
  {
    TruncRem(TruncDiv(span, TicksPerSecond), 60)
  }

  /** The seconds component is positive exactly when the span holds at least one whole
      second and its whole seconds are not a multiple of a minute. */
  lemma SecondsComponentPositive(span: int)
    ensures SecondsComponent(span) > 0
            <==> span >= TicksPerSecond && (span / TicksPerSecond) % 60 != 0
  {
    if span >= 0 {
      assert TruncDiv(span, TicksPerSecond) == span / TicksPerSecond;
      assert span >= TicksPerSecond <==> span / TicksPerSecond >= 1;
    }
  }

  /** `Math.Round(n / d)` with the default `MidpointRounding.ToEven`, computed exactly. */
  function RoundHalfEven(n: int, d: int): int
    requires d > 0
  {
    var q, r := n / d, n % d;
    if 2 * r < d then q
    else if 2 * r > d then q + 1
    else if q % 2 == 0 then q
    else q + 1
  }

  lemma MulMonotone(d: int, m: int)
    requires d > 0 && m >= 1
    ensures d * m >= d
  {
  }

  /** `RoundHalfEven(n, d)` is an integer nearest to `n / d`: it is within half a unit,
      no integer is nearer, and on an exact tie it is even. */
  lemma {:induction false} RoundHalfEvenNearest(n: int, d: int, k: int)
    requires d > 0
    ensures 2 * Abs(n - d * RoundHalfEven(n, d)) <= d
    ensures Abs(n - d * RoundHalfEven(n, d)) <= Abs(n - d * k)
    ensures 2 * Abs(n - d * RoundHalfEven(n, d)) == d ==> RoundHalfEven(n, d) % 2 == 0
  {
    var q, r := n / d, n % d;
    var x := RoundHalfEven(n, d);
    assert n == d * q + r;
    assert x == q || x == q + 1;
    assert n - d * (q + 1) == r - d;
    if k <= q {
      MulMonotone(d, q - k + 1);
      assert n - d * k == d * (q - k) + r;
      assert d * (q - k) >= 0 by { if q - k >= 1 { MulMonotone(d, q - k); } }
    } else {
      MulMonotone(d, k - q);
      assert n - d * k == r - d * (k - q);
    }
  }

  /** The only multiple of `d` strictly closer to 0 than `d` is 0. */
  lemma ZeroMultiple(d: int, m: int)
    requires d > 0 && Abs(d * m) < d
    ensures m == 0
  {
    if m >= 1 {
      MulMonotone(d, m);
      assert false;
    } else if m <= -1 {
      MulMonotone(d, -m);
      assert false;
    }
  }

  /** A value strictly nearer than half a unit to `k * d` rounds to `k`. */
  lemma {:induction false} RoundHalfEvenUnique(n: int, d: int, k: int)
    requires d > 0
    requires 2 * Abs(n - d * k) < d
    ensures RoundHalfEven(n, d) == k
  {
    var x := RoundHalfEven(n, d);
    RoundHalfEvenNearest(n, d, k);
    var a, b := n - d * x, n - d * k;
    assert d * (x - k) == b - a;
    ZeroMultiple(d, x - k);
  }

  /** `DateTimeOffset.ToUnixTimeMilliseconds`: whole milliseconds since the Unix epoch,
      sub-millisecond ticks dropped. */
  function ToUnixTimeMilliseconds(t: int): (ms: int)
    requires IsTimestamp(t)
    ensures MinUnixMilliseconds <= ms <= MaxUnixMilliseconds
  {
    t / TicksPerMillisecond - UnixEpochTicks / TicksPerMillisecond
  }

  /** `DateTimeOffset.FromUnixTimeMilliseconds`: `None` stands for the
      `ArgumentOutOfRangeException` it throws outside the representable range. */
  function FromUnixTimeMilliseconds(ms: int): (t: Option<int>)
    ensures t.Some? <==> MinUnixMilliseconds <= ms <= MaxUnixMilliseconds
    ensures t.Some? ==> IsTimestamp(t.value) && ToUnixTimeMilliseconds(t.value) == ms
  {
    if ms < MinUnixMilliseconds || ms > MaxUnixMilliseconds then None
    else Some(ms * TicksPerMillisecond + UnixEpochTicks)
  }

  /** `TimeSpan.FromMilliseconds` of a parsed `long`: `None` stands for the
      `OverflowException` it throws when the span would not fit in 64-bit ticks. */
  function SpanFromMilliseconds(ms: int): (span: Option<int>)
    ensures span.Some? ==> IsLong(span.value) && IsWholeMilliseconds(span.value)
    ensures span.Some? ==> span.value / TicksPerMillisecond == ms
  {
    if ms > LongMax / TicksPerMillisecond || ms < -(-LongMin / TicksPerMillisecond) then None
    else Some(ms * TicksPerMillisecond)
  }

  /** A timestamp survives the millisecond encoding up to its sub-millisecond ticks. */
  lemma UnixMillisecondsRoundTrip(t: int)
    requires IsTimestamp(t)
    ensures FromUnixTimeMilliseconds(ToUnixTimeMilliseconds(t)) == Some(t - t % TicksPerMillisecond)
  {
  }

  /** Every whole-millisecond span in range survives the millisecond encoding exactly. */
  lemma SpanMillisecondsRoundTrip(span: int)
    requires IsLong(span) && IsWholeMilliseconds(span)
    ensures SpanFromMilliseconds(span / TicksPerMillisecond) == Some(span)
  {
  }
}
