/** Ticks of any timebase as nanoseconds and back, and what the rounding costs. */
module ReplayTime {
  import opened Bytes

  /** `num / den` seconds per tick; both positive in a registered stream. */
  datatype Rational = Rational(num: nat, den: nat)

  type Timebase = r: Rational | r.num > 0 && r.den > 0 witness Rational(1, 1)

  const NANOS_PER_SEC: int := 1_000_000_000

  /** Ticks per second's nanoseconds: a tick lasts `Scale / den` nanoseconds. */
  function Scale(tb: Timebase): (s: int)
    ensures s >= NANOS_PER_SEC && s % 2 == 0
  {
    assert (tb.num - 1) * NANOS_PER_SEC >= 0;
    assert tb.num * NANOS_PER_SEC == 2 * (tb.num * 500_000_000);
    tb.num * NANOS_PER_SEC
  }

  /** The last whole nanosecond not after the tick. */
  function ToNanos(ticks: int, tb: Timebase): int
  {
    ticks * Scale(tb) / tb.den
  }

  /** The closest tick, whether or not it fits 64 bits. */
  function NearestTicks(nanos: int, tb: Timebase): int
  {
    (nanos * tb.den + Scale(tb) / 2) / Scale(tb)
  }

  function ToTicks(nanos: int, tb: Timebase): int
  {
    ClampI64(NearestTicks(nanos, tb))
  }

  lemma DivMonotone(a: int, b: int, d: int)
    requires a <= b && d > 0
    ensures a / d <= b / d
  {
    var q, p := a / d, b / d;
    assert q * d <= a && b < p * d + d;
    if q >= p + 1 {
      MulMonotone(p + 1, q, d);
    }
  }

  lemma NanosMonotone(a: int, b: int, tb: Timebase)
    requires a <= b
    ensures ToNanos(a, tb) <= ToNanos(b, tb)
  {
    MulMonotone(a, b, Scale(tb));
    DivMonotone(a * Scale(tb), b * Scale(tb), tb.den);
  }

  lemma TicksMonotone(a: int, b: int, tb: Timebase)
    requires a <= b
    ensures ToTicks(a, tb) <= ToTicks(b, tb)
  {
    MulMonotone(a, b, tb.den);
    DivMonotone(a * tb.den + Scale(tb) / 2, b * tb.den + Scale(tb) / 2, Scale(tb));
  }

  /** What the rounding to nanoseconds cuts off, in units of 1 / den nanoseconds. */
  function Lost(ticks: int, tb: Timebase): int
  {
    ticks * Scale(tb) % tb.den
  }

  /**
   Going to nanoseconds and back gives the tick again exactly when the nanoseconds lost are at most half a tick, or the
   tick is the least of all, which nothing falls below; and never a later one.
   */
  lemma {:induction false} TicksOfNanos(t: I64, tb: Timebase)
    ensures ToTicks(ToNanos(t, tb), tb) == t <==> Lost(t, tb) <= Scale(tb) / 2 || t == -I64_LIMIT
    ensures ToTicks(ToNanos(t, tb), tb) <= t
  {
    hide ToNanos, Scale;
    NearestOfNanos(t, tb);
  }

  lemma NearestOfNanos(t: I64, tb: Timebase)
    ensures NearestTicks(ToNanos(t, tb), tb) == t <==> Lost(t, tb) <= Scale(tb) / 2
    ensures NearestTicks(ToNanos(t, tb), tb) <= t
  {
    var s, r, n := Scale(tb), Lost(t, tb), ToNanos(t, tb);
    assert n * tb.den == t * s - r;
    var v := t * s - r + s / 2;
    if r <= s / 2 {
      DivUnique(v, s, t, s / 2 - r);
    } else {
      assert t * s == (t - 1) * s + s;
      DivMonotone(v, (t - 1) * s + s - 1, s);
      DivUnique((t - 1) * s + s - 1, s, t - 1, s - 1);
    }
  }

  /** Every timebase with a denominator up to 500,000,001 makes the round trip for every tick. */
  lemma {:induction false} TicksRoundTrip(t: I64, tb: Timebase)
    requires tb.den <= 500_000_001
    ensures ToTicks(ToNanos(t, tb), tb) == t
  {
    TicksOfNanos(t, tb);
  }

  /** Rounding to ticks is off by at most half a tick, unless the tick leaves 64 bits. */
  lemma HalfATick(nanos: int, tb: Timebase)
    ensures var err := NearestTicks(nanos, tb) * Scale(tb) - nanos * tb.den; -Scale(tb) <= 2 * err <= Scale(tb)
    ensures -I64_LIMIT <= NearestTicks(nanos, tb) < I64_LIMIT ==> ToTicks(nanos, tb) == NearestTicks(nanos, tb)
  {
    var s := Scale(tb);
    var v := nanos * tb.den + s / 2;
    assert v == (v / s) * s + v % s;
  }

  const I128_LIMIT: int := 0x8000_0000_0000_0000_0000_0000_0000_0000

  /** The 128-bit product behind `ToNanos` is exact for every 64-bit tick exactly up to this numerator. */
  lemma ProductFits(tb: Timebase)
    ensures tb.num <= 18_446_744_073 <==> forall t: I64 :: -I128_LIMIT <= t * Scale(tb) < I128_LIMIT
  {
    var s := Scale(tb);
    if tb.num <= 18_446_744_073 {
      forall t: I64
        ensures -I128_LIMIT <= t * s < I128_LIMIT
      {
        MulMonotone(-I64_LIMIT, t, s);
        MulMonotone(t, I64_LIMIT - 1, s);
      }
    } else {
      var t: I64 := -I64_LIMIT;
      assert t * s < -I128_LIMIT;
    }
  }

  /** The 128-bit arithmetic behind `ToTicks` is exact for a tick of `a`, as nanoseconds, told in ticks of `tb`. */
  predicate RebaseFits(t: I64, a: Timebase, tb: Timebase)
  {
    -I128_LIMIT <= ToNanos(t, a) * tb.den && ToNanos(t, a) * tb.den + Scale(tb) / 2 < I128_LIMIT
  }

  /** It is exact for every 64-bit tick if and only if it is for the first and the last. */
  lemma {:induction false} RebaseFitsExactly(a: Timebase, tb: Timebase)
    ensures (forall t: I64 :: RebaseFits(t, a, tb)) <==>
              RebaseFits(-I64_LIMIT, a, tb) && RebaseFits(I64_LIMIT - 1, a, tb)
  {
    hide ToNanos, Scale;
    if RebaseFits(-I64_LIMIT, a, tb) && RebaseFits(I64_LIMIT - 1, a, tb) {
      forall t: I64
        ensures RebaseFits(t, a, tb)
      {
        NanosMonotone(-I64_LIMIT, t, a);
        NanosMonotone(t, I64_LIMIT - 1, a);
        MulMonotone(ToNanos(-I64_LIMIT, a), ToNanos(t, a), tb.den);
        MulMonotone(ToNanos(t, a), ToNanos(I64_LIMIT - 1, a), tb.den);
      }
    }
  }

  /** An easy case of it: timebases that are not billions apart. */
  lemma {:induction false} RebaseProductFits(t: I64, a: Timebase, tb: Timebase)
    requires a.num * tb.den <= 9_223_372_036 * a.den && tb.den < 0x1_0000_0000 && tb.num < U64_LIMIT
    ensures RebaseFits(t, a, tb)
  {
    hide ToNanos;
    var n, reach := ToNanos(t, a), I64_LIMIT * NANOS_PER_SEC * 9_223_372_036;
    NanosWithin(t, a);
    ProductWithin(n, a, tb.den);
    assert Scale(tb) / 2 <= U64_LIMIT * NANOS_PER_SEC;
  }

  lemma NanosWithin(t: I64, a: Timebase)
    ensures -I64_LIMIT * Scale(a) - a.den <= ToNanos(t, a) * a.den <= I64_LIMIT * Scale(a)
  {
    MulMonotone(-I64_LIMIT, t, Scale(a));
    MulMonotone(t, I64_LIMIT, Scale(a));
  }

  lemma ProductWithin(n: int, a: Timebase, den: nat)
    requires a.num * den <= 9_223_372_036 * a.den
    requires -I64_LIMIT * Scale(a) - a.den <= n * a.den <= I64_LIMIT * Scale(a)
    ensures var reach := I64_LIMIT * NANOS_PER_SEC * 9_223_372_036; -reach - den <= n * den <= reach
  {
    var reach, far := I64_LIMIT * NANOS_PER_SEC * 9_223_372_036, I64_LIMIT * NANOS_PER_SEC * (a.num * den);
    MulMonotone(a.num * den, 9_223_372_036 * a.den, I64_LIMIT * NANOS_PER_SEC);
    assert far <= reach * a.den;
    MulMonotone(n * a.den, I64_LIMIT * Scale(a), den);
    MulMonotone(-I64_LIMIT * Scale(a) - a.den, n * a.den, den);
    assert I64_LIMIT * Scale(a) * den == far;
    assert (n * den) * a.den == n * a.den * den;
    assert (-reach - den) * a.den <= (n * den) * a.den <= reach * a.den;
    DividedOut(n * den, reach, a.den);
    DividedOut(-reach - den, n * den, a.den);
  }

  lemma DividedOut(x: int, y: int, d: nat)
    requires d > 0 && x * d <= y * d
    ensures x <= y
  {
    if x > y {
      MulMonotone(y + 1, x, d);
    }
  }
}
