/** The delays of the Go client's retry policy: exponential backoff in int64 nanoseconds, and Retry-After. */
module RetryPolicy {
  import opened Basics

  const MAX_INT64: int := 0x7FFF_FFFF_FFFF_FFFF
  const MIN_INT64: int := -0x8000_0000_0000_0000
  const TWO_64: int := 0x1_0000_0000_0000_0000
  const SECOND: int := 1_000_000_000
  const DEFAULT_BASE_DELAY: int := 200_000_000

  predicate IsInt64(x: int) { MIN_INT64 <= x <= MAX_INT64 }

  /** What int64 arithmetic makes of an integer result. */
  function Wrap64(x: int): (w: int)
    ensures IsInt64(w) && (IsInt64(x) ==> w == x)
    ensures MAX_INT64 < x <= 2 * MAX_INT64 ==> w < 0
  {
    (x - MIN_INT64) % TWO_64 + MIN_INT64
  }

  function Pow2(n: nat): (p: int)
    ensures p >= 1
  {
    if n == 0 then 1 else 2 * Pow2(n - 1)
  }

  datatype Policy = Policy(
    maxRetries: int, baseDelay: int, maxDelay: int, retryableStatuses: Option<seq<int>>, respectRetryAfter: bool)

  ghost predicate ValidPolicy(p: Policy) { IsInt64(p.baseDelay) && IsInt64(p.maxDelay) }

  predicate RetryableStatus(p: Policy, status: int) {
    status in (if p.retryableStatuses.Some? then p.retryableStatuses.value else [429, 500, 502, 503, 504])
  }

  function EffectiveBase(p: Policy): int { if p.baseDelay <= 0 then DEFAULT_BASE_DELAY else p.baseDelay }

  // ----- backoff -----

  /** `n` more turns of the doubling loop from delay `d`. */
  function Doubling(max: int, d: int, n: nat): int
    decreases n
  {
    if n == 0 then (if max > 0 && d > max then max else d)
    else
      var d2 := Wrap64(d * 2);
      if max > 0 && d2 >= max then max else Doubling(max, d2, n - 1)
  }

  function Delay(p: Policy, attempt: nat): int { Doubling(p.maxDelay, EffectiveBase(p), attempt) }

  method Backoff(p: Policy, attempt: nat) returns (d: int)
    requires ValidPolicy(p)
    ensures d == Delay(p, attempt) && IsInt64(d)
  {
    d := if p.baseDelay <= 0 then DEFAULT_BASE_DELAY else p.baseDelay;
    var i := 0;
    while i < attempt
      invariant 0 <= i <= attempt && IsInt64(d)
      invariant Doubling(p.maxDelay, d, attempt - i) == Delay(p, attempt)
    {
      d := Wrap64(d * 2);
      if p.maxDelay > 0 && d >= p.maxDelay {
        return p.maxDelay;
      }
      i := i + 1;
    }
    if p.maxDelay > 0 && d > p.maxDelay {
      return p.maxDelay;
    }
  }

  /** The first retry waits for the base delay, 200 ms when none is set, or for the cap when that is less. */
  lemma FirstDelay(p: Policy)
    ensures var base := if p.baseDelay > 0 then p.baseDelay else 200_000_000;
      Delay(p, 0) == if p.maxDelay > 0 then Min(base, p.maxDelay) else base
  {
  }

  /** The first value, doubling at least once, that reaches the cap. */
  function FirstReach(base: int, max: int): (r: int)
    requires 0 < base
    ensures r >= max && r >= 2 * base
    decreases max - base
  {
    if 2 * base >= max then 2 * base else FirstReach(2 * base, max)
  }

  /** The doubled base reaches the cap without leaving int64. */
  predicate ReachesInRange(base: int, max: int)
    requires 0 < base
  {
    FirstReach(base, max) <= MAX_INT64
  }

  lemma OneDoubling(d: int, n: nat)
    requires 0 < d && 0 < n
    ensures d * Pow2(n) == (2 * d) * Pow2(n - 1) >= 2 * d
  {
    calc {
      d * Pow2(n);
    ==
      d * (2 * Pow2(n - 1));
    ==
      (2 * d) * Pow2(n - 1);
    }
  }

  lemma {:induction false} CappedDoubling(max: int, d: int, n: nat)
    requires 0 < max && 0 < d && ReachesInRange(d, max)
    ensures Doubling(max, d, n) == Min(d * Pow2(n), max)
    decreases n
  {
    if n > 0 {
      OneDoubling(d, n);
      if 2 * d < max {
        CappedDoubling(max, 2 * d, n - 1);
      }
    }
  }

  /** When the cap is out of reach of int64, some attempt gets a negative delay instead of the cap. */
  lemma {:induction false} OverflowingDoubling(max: int, d: int) returns (n: nat)
    requires 0 < max <= MAX_INT64 && 0 < d <= MAX_INT64 && !ReachesInRange(d, max)
    ensures Doubling(max, d, n) < 0 && d * Pow2(n) >= max
    decreases max - d
  {
    if 2 * d >= max {
      n := 1;
      assert Wrap64(2 * d) < 0;
      assert Doubling(max, d, 1) == Doubling(max, Wrap64(d * 2), 0);
      OneDoubling(d, 1);
    } else {
      var k := OverflowingDoubling(max, 2 * d);
      n := k + 1;
      OneDoubling(d, n);
    }
  }

  /**
   * The documented delay, BaseDelay * 2^attempt capped at MaxDelay, is what every attempt gets
   * exactly when doubling the base (once at least) reaches the cap inside int64.
   */
  lemma BackoffIsCappedIff(p: Policy)
    requires ValidPolicy(p) && p.maxDelay > 0
    ensures (forall n: nat :: Delay(p, n) == Min(EffectiveBase(p) * Pow2(n), p.maxDelay))
       <==> ReachesInRange(EffectiveBase(p), p.maxDelay)
  {
    var base := EffectiveBase(p);
    if ReachesInRange(base, p.maxDelay) {
      forall n: nat ensures Delay(p, n) == Min(base * Pow2(n), p.maxDelay) {
        CappedDoubling(p.maxDelay, base, n);
      }
    } else {
      var n := OverflowingDoubling(p.maxDelay, base);
      assert Delay(p, n) != Min(base * Pow2(n), p.maxDelay);
    }
  }

  /** Below 2^62 ns the doubling always reaches the cap in range. */
  lemma {:induction false} HalfRangeReaches(base: int, max: int)
    requires 0 < base < 0x4000_0000_0000_0000 && max <= 0x4000_0000_0000_0000
    ensures ReachesInRange(base, max)
    decreases max - base
  {
    if 2 * base < max { HalfRangeReaches(2 * base, max); }
  }

  /** With no cap the delay is exact as long as it fits in int64, and only then. */
  lemma UncappedBackoffIff(p: Policy, n: nat)
    requires ValidPolicy(p) && p.maxDelay <= 0
    ensures Delay(p, n) == EffectiveBase(p) * Pow2(n) <==> EffectiveBase(p) * Pow2(n) <= MAX_INT64
  {
    UncappedDoubling(p.maxDelay, EffectiveBase(p), n);
  }

  lemma {:induction false} UncappedDoubling(max: int, d: int, n: nat)
    requires max <= 0 && 0 < d <= MAX_INT64
    ensures d * Pow2(n) <= MAX_INT64 ==> Doubling(max, d, n) == d * Pow2(n)
    ensures IsInt64(Doubling(max, d, n))
    decreases n
  {
    DoublingInRange(max, d, n);
    if n > 0 {
      OneDoubling(d, n);
      if d * Pow2(n) <= MAX_INT64 {
        UncappedDoubling(max, 2 * d, n - 1);
      }
    }
  }

  lemma {:induction false} DoublingInRange(max: int, d: int, n: nat)
    requires max <= MAX_INT64 && IsInt64(d)
    ensures IsInt64(Doubling(max, d, n))
    decreases n
  {
    if n > 0 { DoublingInRange(max, Wrap64(d * 2), n - 1); }
  }

  /** Later retries never wait less. */
  lemma BackoffMonotone(p: Policy, m: nat, n: nat)
    requires ValidPolicy(p) && p.maxDelay > 0 && ReachesInRange(EffectiveBase(p), p.maxDelay) && m <= n
    ensures Delay(p, m) <= Delay(p, n)
  {
    CappedDoubling(p.maxDelay, EffectiveBase(p), m);
    CappedDoubling(p.maxDelay, EffectiveBase(p), n);
    Pow2Monotone(m, n);
    LargerFactor(EffectiveBase(p), Pow2(m), Pow2(n));
  }

  lemma {:induction false} UncappedOverflows(max: int, d: int) returns (n: nat)
    requires max <= 0 && 0 < d <= MAX_INT64
    ensures Doubling(max, d, n) < 0
    decreases MAX_INT64 - d
  {
    if 2 * d > MAX_INT64 {
      n := 1;
      assert Doubling(max, d, 1) == Doubling(max, Wrap64(d * 2), 0);
    } else {
      var k := UncappedOverflows(max, 2 * d);
      n := k + 1;
    }
  }

  /** Over all attempts that holds exactly with a cap that doubling reaches inside int64. */
  lemma BackoffMonotoneIff(p: Policy)
    requires ValidPolicy(p)
    ensures (forall m: nat, n: nat :: m <= n ==> Delay(p, m) <= Delay(p, n))
       <==> p.maxDelay > 0 && ReachesInRange(EffectiveBase(p), p.maxDelay)
  {
    var base := EffectiveBase(p);
    assert Delay(p, 0) > 0;
    if p.maxDelay > 0 && ReachesInRange(base, p.maxDelay) {
      forall m: nat, n: nat | m <= n ensures Delay(p, m) <= Delay(p, n) { BackoffMonotone(p, m, n); }
    } else if p.maxDelay > 0 {
      var n := OverflowingDoubling(p.maxDelay, base);
      assert Delay(p, n) < Delay(p, 0);
    } else {
      var n := UncappedOverflows(p.maxDelay, base);
      assert Delay(p, n) < Delay(p, 0);
    }
  }

  lemma {:induction false} Pow2Monotone(m: nat, n: nat)
    requires m <= n
    ensures Pow2(m) <= Pow2(n)
  {
    if m < n { Pow2Monotone(m, n - 1); }
  }

  // ----- Retry-After -----

  predicate IsDigit(c: char) { '0' <= c <= '9' }

  predicate AllDigits(s: string) { forall i :: 0 <= i < |s| ==> IsDigit(s[i]) }

  /** The number a digit string writes in base 10. */
  function Value(s: string): (n: int)
    requires AllDigits(s)
    ensures n >= 0
  {
    if s == "" then 0 else 10 * Value(s[..|s| - 1]) + (s[|s| - 1] as int - '0' as int)
  }

  /** strconv.ParseInt(v, 10, 64): a sign and digits whose value is in range. */
  function ParseInt(v: string): Option<int> {
    var signed := v != "" && (v[0] == '+' || v[0] == '-');
    var digits := if signed then v[1..] else v;
    if digits == "" || !AllDigits(digits) then None
    else
      var n := if signed && v[0] == '-' then -Value(digits) else Value(digits);
      if IsInt64(n) then Some(n) else None
  }

  /** Retry-After as a delay; `date` is the wait until the HTTP date the header may spell instead. */
  function RetryAfter(v: string, date: Option<int>): Option<int> {
    var secs := ParseInt(v);
    var unsigned := if v != "" && v[0] == '+' then v[1..] else v;
    if v == "" then None
    else if secs.Some? && secs.value >= 0 then
      Some(if secs.value > MAX_INT64 / SECOND then MAX_INT64 else secs.value * SECOND)
    else if unsigned != "" && AllDigits(unsigned) then Some(MAX_INT64)
    else if date.Some? && date.value > 0 then date
    else None
  }

  /** A count of seconds of any length is that many nanoseconds, held at the largest int64 and never wrapped. */
  lemma RetryAfterSeconds(digits: string, plus: bool, date: Option<int>)
    requires digits != "" && AllDigits(digits)
    ensures RetryAfter(if plus then "+" + digits else digits, date) == Some(Min(Value(digits) * 1_000_000_000, 0x7FFF_FFFF_FFFF_FFFF))
  {
    var v := if plus then "+" + digits else digits;
    assert plus ==> v[1..] == digits;
    assert !plus ==> IsDigit(v[0]);
    if Value(digits) > MAX_INT64 / SECOND {
      assert Value(digits) * SECOND >= MAX_INT64;
    }
  }

  const DIGITS: string := "0123456789"

  /** A number as it is written out. */
  function Decimal(n: nat): (s: string)
    ensures s != ""
  {
    if n < 10 then [DIGITS[n]] else Decimal(n / 10) + [DIGITS[n % 10]]
  }

  lemma DigitAt(d: nat)
    requires d < 10
    ensures IsDigit(DIGITS[d]) && DIGITS[d] as int - '0' as int == d
  {
  }

  /** Writing a number out and reading it gives the number, and only these ten characters are digits. */
  lemma {:induction false} DecimalReads(n: nat)
    ensures AllDigits(Decimal(n)) && Value(Decimal(n)) == n
    ensures forall c :: IsDigit(c) <==> c in DIGITS
  {
    DigitAt(n % 10);
    if n >= 10 {
      DecimalReads(n / 10);
      var s := Decimal(n);
      assert s[..|s| - 1] == Decimal(n / 10);
    }
  }

  /** A count of seconds as servers write it. */
  lemma DecimalRetryAfter(n: nat, plus: bool, date: Option<int>)
    ensures RetryAfter(if plus then "+" + Decimal(n) else Decimal(n), date) ==
      Some(Min(n * 1_000_000_000, 0x7FFF_FFFF_FFFF_FFFF))
  {
    DecimalReads(n);
    RetryAfterSeconds(Decimal(n), plus, date);
  }

  /** A negative count is no delay, whatever its length, unless the same text is also a date. */
  lemma NegativeRetryAfter(digits: string, date: Option<int>)
    requires digits != "" && AllDigits(digits) && Value(digits) > 0
    ensures RetryAfter("-" + digits, date) == if date.Some? && date.value > 0 then date else None
  {
    var v := "-" + digits;
    assert v[1..] == digits && v[0] == '-';
    assert !AllDigits(v);
  }

  /** Anything but a sign and digits is read as a date, and is no delay when it is none or has passed. */
  lemma OtherRetryAfter(v: string, date: Option<int>)
    requires var digits := if v != "" && (v[0] == '+' || v[0] == '-') then v[1..] else v; digits == "" || !AllDigits(digits)
    ensures RetryAfter(v, date) == if v != "" && date.Some? && date.value > 0 then date else None
  {
    if v != "" && v[0] == '-' { assert !AllDigits(v); }
  }
}
