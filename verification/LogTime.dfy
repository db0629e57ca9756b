/** Time stamps in log records: the split into a second and microseconds, and the decimal digits of the latter. A time
  * stamp is a signed count of nanoseconds since the epoch. */
module LogTime {
  import opened Numerals

  /** C++ division and remainder: the quotient is truncated, the remainder has the sign of the dividend. */
  function TruncDiv(a: int, b: int): int
    requires b > 0
  {
    if a >= 0 then a / b else -((-a) / b)
  }

  function TruncRem(a: int, b: int): int
    requires b > 0
  {
    a - TruncDiv(a, b) * b
  }

  /** The quotient is nearest to zero: the remainder is smaller than the divisor and on the side of the dividend. */
  lemma TruncatesExactly(a: int, b: int, q: int)
    requires b > 0
    ensures q == TruncDiv(a, b) <==> if a >= 0 then 0 <= a - q * b < b else -b < a - q * b <= 0
  {
    if a < 0 {
      var r := -a;
      assert r == r / b * b + r % b;
      if -b < a - q * b <= 0 {
        UniqueQuotient(r, b, -q);
      }
    } else if 0 <= a - q * b < b {
      UniqueQuotient(a, b, q);
    }
  }

  /** std::chrono::floor: convert by truncation, then step back if that went up. */
  function Floor(stamp: int, unit: int): int
    requires unit > 0
  {
    var t := TruncDiv(stamp, unit);
    if t * unit > stamp then t - 1 else t
  }

  const NANOS_PER_MICRO := 1000
  const NANOS_PER_SECOND := 1_000_000_000
  const MICROS_PER_SECOND := 1_000_000

  function WholeSeconds(stamp: int): int {
    Floor(stamp, NANOS_PER_SECOND)
  }

  predicate Int64(n: int) {
    -0x8000_0000_0000_0000 <= n <= 0x7FFF_FFFF_FFFF_FFFF
  }

  /** Two's-complement arithmetic on 64 bits. */
  function Wrap64(n: int): int {
    (n + 0x8000_0000_0000_0000) % 0x1_0000_0000_0000_0000 - 0x8000_0000_0000_0000
  }

  /** The time_t that %d shows: the floored seconds go through a time point of the system clock, which counts
    * nanoseconds in 64 bits, and to_time_t truncates that. */
  function Second(stamp: int): int {
    TruncDiv(Wrap64(WholeSeconds(stamp) * NANOS_PER_SECOND), NANOS_PER_SECOND)
  }

  function TotalMicros(stamp: int): int {
    Floor(stamp, NANOS_PER_MICRO)
  }

  /** The value that %u prints. */
  function Micros(stamp: int): int {
    var r := TruncRem(TotalMicros(stamp), MICROS_PER_SECOND);
    if r < 0 then r + MICROS_PER_SECOND else r
  }

  lemma FloorIsGreatest(stamp: int, unit: int)
    requires unit > 0
    ensures Floor(stamp, unit) * unit <= stamp < (Floor(stamp, unit) + 1) * unit
    ensures Floor(stamp, unit) == stamp / unit
  {
    var t := TruncDiv(stamp, unit);
    if stamp < 0 {
      assert (-stamp) / unit * unit <= -stamp < ((-stamp) / unit + 1) * unit;
    }
    var q := Floor(stamp, unit);
    assert q * unit <= stamp < q * unit + unit;
    UniqueQuotient(stamp, unit, q);
  }

  lemma UniqueQuotient(a: int, b: int, q: int)
    requires b > 0 && q * b <= a < q * b + b
    ensures q == a / b
  {
    var d := a / b - q;
    assert a == a / b * b + a % b;
    assert d * b == a - a % b - q * b;
    Multiples(d, b);
  }

  /** Only the zero multiple of `b` lies strictly between -b and b. */
  lemma Multiples(d: int, b: int)
    requires b > 0
    ensures d > 0 ==> d * b >= b
    ensures d < 0 ==> d * b <= -b
  {
    if d > 0 {
      assert (d - 1) * b >= 0;
    } else if d < 0 {
      assert (-d - 1) * b >= 0;
    }
  }

  lemma FloorMultiple(k: int)
    ensures TruncDiv(k * NANOS_PER_SECOND, NANOS_PER_SECOND) == k
  {
  }

  lemma Wraps(n: int)
    ensures Int64(n) ==> Wrap64(n) == n
    ensures -0x1_0000_0000_0000_0000 <= n < -0x8000_0000_0000_0000 ==> Wrap64(n) == n + 0x1_0000_0000_0000_0000
  {
  }

  /** The second shown is the one that the time stamp lies in, unless that second begins before the range of the
    * clock. */
  lemma SecondExactly(stamp: int)
    requires Int64(stamp)
    ensures Second(stamp) == stamp / 1_000_000_000 <==> stamp >= -9_223_372_036_000_000_000
  {
    hide Floor, TruncDiv, Wrap64;
    var whole := WholeSeconds(stamp);
    FloorIsGreatest(stamp, NANOS_PER_SECOND);
    Wraps(whole * NANOS_PER_SECOND);
    if stamp >= -9_223_372_036_000_000_000 {
      FloorMultiple(whole);
    } else {
      PositiveQuotient(Wrap64(whole * NANOS_PER_SECOND));
    }
  }

  lemma PositiveQuotient(n: int)
    requires n >= 0
    ensures TruncDiv(n, NANOS_PER_SECOND) >= 0
  {
  }

  /** The earliest time stamp is shown as a second in the far future. */
  lemma EarliestStamp()
    ensures var stamp := -0x8000_0000_0000_0000;
            && stamp / 1_000_000_000 == -9223372037 && Second(stamp) == 9223372036
            && Second(stamp) * 1_000_000 + Micros(stamp) != stamp / 1000
  {
  }

  /** The value of %u lies within the second, and completes the second that the time stamp lies in. */
  lemma MicrosComplete(stamp: int)
    ensures 0 <= Micros(stamp) < 1_000_000
    ensures stamp / 1_000_000_000 * 1_000_000 + Micros(stamp) == stamp / 1000
  {
    hide Floor, TruncDiv, TruncRem;
    FloorIsGreatest(stamp, NANOS_PER_SECOND);
    FloorIsGreatest(stamp, NANOS_PER_MICRO);
    var total := TotalMicros(stamp);
    DivisionsCompose(stamp);
    assert total == MICROS_PER_SECOND * WholeSeconds(stamp) + total % MICROS_PER_SECOND;
    RemainderOf(total);
  }

  /** The second that %d shows and the microseconds that %u prints together are the time stamp, for negative ones too,
    * exactly from the first second that the clock can hold. */
  lemma SecondAndMicros(stamp: int)
    requires Int64(stamp)
    ensures Second(stamp) * 1_000_000 + Micros(stamp) == stamp / 1000 <==> stamp >= -9_223_372_036_000_000_000
  {
    hide Second, WholeSeconds, Micros, TotalMicros;
    SecondExactly(stamp);
    MicrosComplete(stamp);
  }

  lemma DivisionsCompose(stamp: int)
    ensures stamp / NANOS_PER_MICRO / MICROS_PER_SECOND == stamp / NANOS_PER_SECOND
  {
  }

  /** The adjusted C++ remainder is the remainder of floored division. */
  lemma RemainderOf(total: int)
    ensures var r := TruncRem(total, MICROS_PER_SECOND);
            (if r < 0 then r + MICROS_PER_SECOND else r) == total % MICROS_PER_SECOND
  {
  }

  /** The last `width` decimal digits of `n`. */
  function Padded(n: nat, width: nat): string {
    if width == 0 then "" else Padded(n / 10, width - 1) + [Digit(n % 10)]
  }

  /** A number that fits is what its padded digits denote. */
  lemma {:induction false} PaddedDenotes(n: nat, width: nat)
    requires n < Power(10, width)
    ensures |Padded(n, width)| == width && AllDigits(Padded(n, width), 10)
    ensures Number(Padded(n, width), 10) == n
  {
    if width > 0 {
      PaddedDenotes(n / 10, width - 1);
      var front := Padded(n / 10, width - 1);
      assert Padded(n, width)[..width - 1] == front;
    }
  }

  function MicrosText(stamp: int): string {
    MicrosComplete(stamp);
    Padded(Micros(stamp), 6)
  }

  /** %u prints six digits, and they read back as the microseconds within the second. */
  lemma MicrosReadBack(stamp: int)
    ensures |MicrosText(stamp)| == 6 && AllDigits(MicrosText(stamp), 10)
    ensures stamp / 1_000_000_000 * 1_000_000 + Number(MicrosText(stamp), 10) == stamp / 1000
  {
    MicrosComplete(stamp);
    assert Power(10, 6) == MICROS_PER_SECOND by {
      assert Power(10, 3) == 1000;
    }
    PaddedDenotes(Micros(stamp), 6);
  }

  /** MicrosecondsFormatItem: a loop that writes the digits from right to left. */
  method WriteMicros(stamp: int) returns (text: string)
    ensures text == MicrosText(stamp)
  {
    hide Floor, TruncDiv, TruncRem;
    MicrosComplete(stamp);
    var total := Floor(stamp, NANOS_PER_MICRO);
    var microseconds := TruncRem(total, MICROS_PER_SECOND);
    if microseconds < 0 {
      microseconds := microseconds + MICROS_PER_SECOND;
    }
    var digits := new char[6];
    var remaining := microseconds;
    var index := 6;
    while index > 0
      invariant 0 <= index <= 6 && remaining >= 0
      invariant Padded(remaining, index) + digits[index..] == MicrosText(stamp)
    {
      index := index - 1;
      ghost var written := digits[index + 1..];
      digits[index] := Digit(remaining % 10);
      assert digits[index..] == [Digit(remaining % 10)] + written;
      remaining := remaining / 10;
    }
    text := digits[..];
    assert digits[0..] == digits[..];
  }
}
