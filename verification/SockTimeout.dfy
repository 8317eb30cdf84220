/**
 * Socket timeouts (net/core/sock.c): SO_RCVTIMEO and SO_SNDTIMEO between ticks and seconds with
 * microseconds. `hz` is the tick rate, any from 1 to a million.
 */
module SockTimeout {

  const USEC_PER_SEC: nat := 1_000_000
  const MAX_SCHEDULE_TIMEOUT: nat := 0x7FFF_FFFF_FFFF_FFFF   // LONG_MAX
  const EINVAL := 22
  const EFAULT := 14
  const EDOM := 33

  datatype TimeVal = TimeVal(sec: int, usec: int)

  /** The three layouts of the option: 32-bit compat, the old and the new struct. */
  datatype Layout = Compat | OldTimeval | NewTimeval {
    function Size(): nat {
      if Compat? then 8 else 16
    }

    /** What fits the fields. */
    predicate Fits(tv: TimeVal) {
      && (if Compat? then -0x8000_0000 <= tv.sec < 0x8000_0000
          else -0x8000_0000_0000_0000 <= tv.sec < 0x8000_0000_0000_0000)
    }
  }

  /** A 32-bit signed field keeps the low 32 bits. */
  function Truncate32(x: int): int {
    (x + 0x8000_0000) % 0x1_0000_0000 - 0x8000_0000
  }

  predicate Rate(hz: nat) {
    0 < hz <= USEC_PER_SEC
  }

  function DivRoundUp(n: nat, d: nat): nat
    requires d > 0
  {
    (n + d - 1) / d
  }

  /** USEC_PER_SEC / HZ, rounded down. */
  function Tick(hz: nat): nat
    requires Rate(hz)
  {
    USEC_PER_SEC / hz
  }

  /** The seconds from which a timeout counts as infinite. */
  function Cutoff(hz: nat): int
    requires Rate(hz)
  {
    MAX_SCHEDULE_TIMEOUT / hz - 1
  }

  /** The ticks that sock_set_timeout stores for a time that is in range. */
  function Stored(hz: nat, tv: TimeVal): (t: int)
    requires Rate(hz) && 0 <= tv.usec < USEC_PER_SEC
  {
    if tv.sec < 0 then 0
    else if tv.sec == 0 && tv.usec == 0 then MAX_SCHEDULE_TIMEOUT
    else if tv.sec < Cutoff(hz) then tv.sec * hz + DivRoundUp(tv.usec, Tick(hz))
    else MAX_SCHEDULE_TIMEOUT
  }

  /** sock_set_timeout: the new value of *timeo_p and the return value. */
  method SetTimeout(hz: nat, timeo0: int, layout: Layout, optlen: nat, fault: bool, tv: TimeVal)
    returns (timeo: int, ret: int)
    requires Rate(hz) && layout.Fits(tv)
    ensures ret == (if optlen < layout.Size() then -EINVAL else if fault then -EFAULT
                    else if !(0 <= tv.usec < USEC_PER_SEC) then -EDOM else 0)
    ensures ret != 0 ==> timeo == timeo0
    ensures ret == 0 ==> timeo == Stored(hz, tv) && 0 <= timeo <= MAX_SCHEDULE_TIMEOUT
    ensures ret == 0 ==> (timeo == 0 <==> tv.sec < 0)
    ensures ret == 0 ==> (timeo == MAX_SCHEDULE_TIMEOUT <==> tv == TimeVal(0, 0) || tv.sec >= Cutoff(hz))
  {
    timeo := timeo0;
    if optlen < layout.Size() {
      return timeo, -EINVAL;
    }
    if fault {
      return timeo, -EFAULT;
    }
    if tv.usec < 0 || tv.usec >= USEC_PER_SEC {
      return timeo, -EDOM;
    }
    CutoffPositive(hz);
    if tv.sec < 0 {
      return 0, 0;
    }
    timeo := MAX_SCHEDULE_TIMEOUT;
    if tv.sec == 0 && tv.usec == 0 {
      return timeo, 0;
    }
    if tv.sec < MAX_SCHEDULE_TIMEOUT / hz - 1 {
      timeo := tv.sec * hz + DivRoundUp(tv.usec, USEC_PER_SEC / hz);
      StoredIsFinite(hz, tv);
    }
    return timeo, 0;
  }

  /** sock_get_timeout, in 64 bits. */
  function GetTimeout(hz: nat, timeo: nat): TimeVal
    requires Rate(hz)
  {
    if timeo == MAX_SCHEDULE_TIMEOUT then TimeVal(0, 0)
    else TimeVal(timeo / hz, timeo % hz * USEC_PER_SEC / hz)
  }

  function Micros(tv: TimeVal): int {
    tv.sec * USEC_PER_SEC + tv.usec
  }

  lemma MulMono(a: int, b: int, c: int)
    requires a <= b && 0 <= c
    ensures a * c <= b * c
  {
  }

  lemma MulAdd(a: int, b: int, c: int)
    ensures (a + b) * c == a * c + b * c
  {
  }

  lemma AtMost(a: int, b: int, c: nat)
    ensures a <= b ==> a * c <= b * c
  {
    if a <= b {
      MulMono(a, b, c);
    }
  }

  lemma QuotientUnique(d: int, q: int, r: int, q': int, r': int)
    requires q * d + r == q' * d + r' && 0 <= r < d && 0 <= r' < d
    ensures q == q' && r == r'
  {
    MulAdd(q, 1, d);
    MulAdd(q', 1, d);
    if q < q' {
      MulMono(q + 1, q', d);
    } else if q' < q {
      MulMono(q' + 1, q, d);
    }
  }

  lemma DivUnique(n: int, d: int, q: int, r: int)
    requires d > 0 && n == q * d + r && 0 <= r < d
    ensures n / d == q && n % d == r
  {
    QuotientUnique(d, n / d, n % d, q, r);
  }

  lemma RoundUpBounds(n: nat, d: nat)
    requires d > 0
    ensures n <= DivRoundUp(n, d) * d < n + d
  {
    var q, r := (n + d - 1) / d, (n + d - 1) % d;
    assert q * d + r == n + d - 1;
  }

  lemma TickBounds(hz: nat)
    requires Rate(hz)
    ensures Tick(hz) >= 1
    ensures hz * Tick(hz) + USEC_PER_SEC % hz == USEC_PER_SEC
  {
    AtMost(Tick(hz), 0, hz);
  }

  lemma CutoffPositive(hz: nat)
    requires Rate(hz)
    ensures Cutoff(hz) > 1_000_000 && (Cutoff(hz) + 1) * hz <= MAX_SCHEDULE_TIMEOUT
  {
    var q, r := MAX_SCHEDULE_TIMEOUT / hz, MAX_SCHEDULE_TIMEOUT % hz;
    assert q * hz + r == MAX_SCHEDULE_TIMEOUT;
    AtMost(q, 2_000_000, hz);
  }

  /** A second's worth of microseconds never counts as two seconds of ticks. */
  lemma FewTicks(hz: nat, usec: nat)
    requires Rate(hz) && usec < USEC_PER_SEC
    ensures DivRoundUp(usec, Tick(hz)) < 2 * hz
    ensures USEC_PER_SEC % hz == 0 ==> DivRoundUp(usec, Tick(hz)) <= hz
    ensures DivRoundUp(usec, Tick(hz)) == 0 <==> usec == 0
  {
    TickBounds(hz);
    RoundUpBounds(usec, Tick(hz));
    TickCount(hz, Tick(hz), usec, DivRoundUp(usec, Tick(hz)));
  }

  lemma TickCount(hz: nat, t: nat, usec: nat, c: nat)
    requires 0 < hz && 1 <= t && hz * t <= USEC_PER_SEC < hz * t + hz && usec < USEC_PER_SEC && usec <= c * t < usec + t
    ensures c < 2 * hz && (hz * t == USEC_PER_SEC ==> c <= hz) && (c == 0 <==> usec == 0)
  {
    TickProduct(hz, t);
    ManyTicks(2 * hz, c, t);
    ManyTicks(hz + 1, c, t);
    ManyTicks(1, c, t);
    MulAdd(hz, hz, t);
    MulAdd(hz, 1, t);
  }

  lemma ManyTicks(n: nat, c: nat, t: nat)
    ensures c >= n ==> c * t >= n * t
  {
    if c >= n {
      MulMono(n, c, t);
    }
  }

  lemma TickProduct(hz: nat, t: nat)
    requires 1 <= hz && 1 <= t
    ensures hz * t >= hz + t - 1
  {
    MulMono(1, hz, t - 1);
    MulAdd(-1, t, hz);
  }

  lemma StoredIsFinite(hz: nat, tv: TimeVal)
    requires Rate(hz) && 0 <= tv.usec < USEC_PER_SEC && 0 <= tv.sec < Cutoff(hz) && tv != TimeVal(0, 0)
    ensures 0 < tv.sec * hz + DivRoundUp(tv.usec, Tick(hz)) < MAX_SCHEDULE_TIMEOUT
  {
    FewTicks(hz, tv.usec);
    CutoffPositive(hz);
    MulMono(tv.sec + 2, Cutoff(hz) + 1, hz);
    MulAdd(tv.sec, 2, hz);
    if tv.sec > 0 {
      MulMono(1, tv.sec, hz);
    }
  }

  lemma Swap(a: int, b: int, c: int)
    ensures a * b * c == a * (b * c) == a * c * b == b * c * a
  {
  }

  /** The microseconds of `k` ticks below a second: whole ticks, and what rounding the tick down has left. */
  lemma MicrosOfTicks(hz: nat, k: nat)
    requires Rate(hz) && k < hz
    ensures k * USEC_PER_SEC / hz == k * Tick(hz) + k * (USEC_PER_SEC % hz) / hz
    ensures k * USEC_PER_SEC / hz < USEC_PER_SEC
  {
    var t, r := Tick(hz), USEC_PER_SEC % hz;
    TickBounds(hz);
    var v, w := k * r / hz, k * r % hz;
    TickRemainder(hz, t, r, k, v, w);
    DivUnique(k * USEC_PER_SEC, hz, k * t + v, w);
    Quotient(k * USEC_PER_SEC, hz, k * t + v, w);
  }

  lemma TickRemainder(hz: nat, t: nat, r: nat, k: nat, v: int, w: int)
    requires hz * t + r == USEC_PER_SEC && k * r == v * hz + w
    ensures k * USEC_PER_SEC == (k * t + v) * hz + w
  {
    MulAdd(hz * t, r, k);
    Swap(hz, t, k);
    MulAdd(k * t, v, hz);
  }

  lemma Quotient(n: int, d: nat, q: int, w: int)
    requires n == q * d + w && 0 <= w < d && n < d * USEC_PER_SEC
    ensures q < USEC_PER_SEC
  {
    if q >= USEC_PER_SEC {
      MulMono(USEC_PER_SEC, q, d);
    }
  }

  lemma NoShorter(hz: nat, t: nat, sec: int, usec: nat, c: nat, q: int, k: nat, u: int)
    requires hz > 0 && sec * hz + c == q * hz + k && k * USEC_PER_SEC < u * hz + hz
    requires usec <= c * t && hz * t <= USEC_PER_SEC
    ensures sec * USEC_PER_SEC + usec <= q * USEC_PER_SEC + u
  {
    var asked, got := sec * USEC_PER_SEC + usec, q * USEC_PER_SEC + u;
    if got <= asked - 1 {
      MulMono(got, asked - 1, hz);
      MulAdd(q * USEC_PER_SEC, u, hz);
      MulAdd(sec * USEC_PER_SEC, usec - 1, hz);
      Swap(q, USEC_PER_SEC, hz);
      Swap(sec, USEC_PER_SEC, hz);
      MulAdd(usec, -1, hz);
      MulMono(usec, c * t, hz);
      Swap(c, t, hz);
      MulMono(hz * t, USEC_PER_SEC, c);
      Products(hz * sec, hz * q, usec * hz, c, k, u * hz, hz);
    }
  }

  lemma Products(a: int, b: int, d: int, c: int, k: int, e: int, hz: int)
    requires a + c == b + k && k * USEC_PER_SEC < e + hz && d <= c * USEC_PER_SEC
    ensures b * USEC_PER_SEC + e > a * USEC_PER_SEC + d - hz
  {
  }

  lemma NotMuchLonger(hz: nat, t: nat, sec: int, usec: nat, c: nat, q: int, k: nat)
    requires sec * hz + c == q * hz + k && c * t < usec + t && hz * t == USEC_PER_SEC
    ensures q * USEC_PER_SEC + k * t < sec * USEC_PER_SEC + usec + t
  {
    MulAdd(sec * hz, c, t);
    MulAdd(q * hz, k, t);
    Swap(sec, hz, t);
    Swap(q, hz, t);
  }

  /**
   * A timeout below the cutoff reads back as at least what was asked for and, where the tick is a whole
   * number of microseconds, as less than one tick more.
   */
  lemma SetThenGet(hz: nat, tv: TimeVal)
    requires Rate(hz) && 0 <= tv.usec < USEC_PER_SEC && 0 <= tv.sec < Cutoff(hz) && tv != TimeVal(0, 0)
    ensures Stored(hz, tv) >= 0
    ensures Micros(tv) <= Micros(GetTimeout(hz, Stored(hz, tv)))
    ensures USEC_PER_SEC % hz == 0 ==> Micros(GetTimeout(hz, Stored(hz, tv))) < Micros(tv) + Tick(hz)
  {
    StoredIsFinite(hz, tv);
    var t, c := Tick(hz), DivRoundUp(tv.usec, Tick(hz));
    var x := tv.sec * hz + c;
    var q, k := x / hz, x % hz;
    var u := k * USEC_PER_SEC / hz;
    TickBounds(hz);
    RoundUpBounds(tv.usec, t);
    assert k * USEC_PER_SEC == u * hz + k * USEC_PER_SEC % hz;
    NoShorter(hz, t, tv.sec, tv.usec, c, q, k, u);
    if USEC_PER_SEC % hz == 0 {
      MicrosOfTicks(hz, k);
      NotMuchLonger(hz, t, tv.sec, tv.usec, c, q, k);
    }
  }

  /** Reading a stored value and setting what was read stores the same value again. */
  predicate Stable(hz: nat, timeo: nat)
    requires Rate(hz)
  {
    var got := GetTimeout(hz, timeo);
    0 <= got.usec < USEC_PER_SEC && Stored(hz, got) == timeo
  }

  lemma RoundUpOfTicks(t: nat, k: nat, v: nat)
    requires t > 0
    ensures DivRoundUp(k * t + v, t) == k <==> v == 0
  {
    var c := DivRoundUp(k * t + v, t);
    RoundUpBounds(k * t + v, t);
    MulAdd(k, 1, t);
    if c > k {
      MulMono(k + 1, c, t);
    } else {
      MulMono(c, k, t);
      if c < k {
        MulMono(c + 1, k, t);
        MulAdd(c, 1, t);
      }
    }
  }

  lemma SmallQuotient(n: nat, d: nat)
    requires d > 0
    ensures n / d == 0 <==> n < d
  {
  }

  lemma ReadBack(hz: nat, timeo: nat)
    requires Rate(hz) && 0 < timeo < MAX_SCHEDULE_TIMEOUT
    ensures var got := GetTimeout(hz, timeo);
      && got.sec == timeo / hz && got != TimeVal(0, 0) && 0 <= got.usec < USEC_PER_SEC
      && got.sec * hz + timeo % hz == timeo
      && (DivRoundUp(got.usec, Tick(hz)) == timeo % hz <==> timeo % hz * (USEC_PER_SEC % hz) < hz)
  {
    var k, t := timeo % hz, Tick(hz);
    var v := k * (USEC_PER_SEC % hz) / hz;
    TickBounds(hz);
    MicrosOfTicks(hz, k);
    SmallQuotient(k * (USEC_PER_SEC % hz), hz);
    RoundUpOfTicks(t, k, v);
    ManyTicks(1, k, t);
  }

  /** No wait reads back as no timeout, which is stored as infinite. */
  lemma ZeroIsUnstable(hz: nat)
    requires Rate(hz)
    ensures GetTimeout(hz, 0) == TimeVal(0, 0) && !Stable(hz, 0)
  {
    DivUnique(0, hz, 0, 0);
  }

  lemma FiniteStable(hz: nat, timeo: nat)
    requires Rate(hz) && 0 < timeo < MAX_SCHEDULE_TIMEOUT
    ensures Stable(hz, timeo) <==> timeo / hz < Cutoff(hz) && timeo % hz * (USEC_PER_SEC % hz) < hz
  {
    ReadBack(hz, timeo);
    var got := GetTimeout(hz, timeo);
    var c, k := DivRoundUp(got.usec, Tick(hz)), timeo % hz;
    NotNegative(timeo, hz);
    StoredPositive(hz, got);
    Compare(Stored(hz, got), timeo, got.sec * hz, c, k, got.sec < Cutoff(hz), k * (USEC_PER_SEC % hz) < hz);
  }

  lemma NotNegative(n: nat, d: nat)
    requires d > 0
    ensures n / d >= 0
  {
    AtMost(n / d, -1, d);
  }

  lemma StoredPositive(hz: nat, tv: TimeVal)
    requires Rate(hz) && 0 <= tv.sec && 0 <= tv.usec < USEC_PER_SEC && tv != TimeVal(0, 0)
    ensures Stored(hz, tv) == if tv.sec < Cutoff(hz) then tv.sec * hz + DivRoundUp(tv.usec, Tick(hz)) else MAX_SCHEDULE_TIMEOUT
  {
  }

  lemma Compare(stored: int, timeo: int, p: int, c: int, k: int, below: bool, exact: bool)
    requires timeo == p + k < MAX_SCHEDULE_TIMEOUT && stored == (if below then p + c else MAX_SCHEDULE_TIMEOUT)
    requires c == k <==> exact
    ensures stored == timeo <==> below && exact
  {
  }

  /**
   * Exactly when setting the value that was read changes nothing: for the infinite timeout, and for a
   * positive one whose seconds are below the cutoff and whose ticks below a second lose nothing to the
   * rounding of the tick.
   */
  lemma StableExactly(hz: nat, timeo: nat)
    requires Rate(hz) && timeo <= MAX_SCHEDULE_TIMEOUT
    ensures Stable(hz, timeo) <==>
      timeo == MAX_SCHEDULE_TIMEOUT ||
      (timeo > 0 && timeo / hz < Cutoff(hz) && timeo % hz * (USEC_PER_SEC % hz) < hz)
  {
    if timeo == 0 {
      ZeroIsUnstable(hz);
    } else if timeo < MAX_SCHEDULE_TIMEOUT {
      FiniteStable(hz, timeo);
    }
  }

  /** Where the tick is a whole number of microseconds, or falls short of it by one in a second, only the ends are not stable. */
  lemma StableForWholeTicks(hz: nat, timeo: nat)
    requires Rate(hz) && USEC_PER_SEC % hz <= 1 && 0 < timeo <= MAX_SCHEDULE_TIMEOUT
    ensures Stable(hz, timeo) <==> timeo == MAX_SCHEDULE_TIMEOUT || timeo / hz < Cutoff(hz)
  {
    StableExactly(hz, timeo);
    MulMono(USEC_PER_SEC % hz, 1, timeo % hz);
  }

  /** At any other rate some timeout of less than a second can be set and is not stable. */
  lemma UnstableForOtherTicks(hz: nat)
    requires Rate(hz) && USEC_PER_SEC % hz > 1
    ensures 0 <= (hz - 1) * Tick(hz) < USEC_PER_SEC
    ensures Stored(hz, TimeVal(0, (hz - 1) * Tick(hz))) == hz - 1
    ensures !Stable(hz, hz - 1)
  {
    LastTickUnstable(hz);
    StoresTicks(hz, hz - 1);
  }

  lemma LastTickUnstable(hz: nat)
    requires Rate(hz) && USEC_PER_SEC % hz > 1
    ensures hz > 1 && !Stable(hz, hz - 1)
  {
    DivUnique(hz - 1, hz, 0, hz - 1);
    StableExactly(hz, hz - 1);
    MulMono(2, USEC_PER_SEC % hz, hz - 1);
  }

  /** Whole ticks below a second are stored as they are. */
  lemma StoresTicks(hz: nat, k: nat)
    requires Rate(hz) && 0 < k < hz
    ensures 0 < k * Tick(hz) < USEC_PER_SEC && Stored(hz, TimeVal(0, k * Tick(hz))) == k
  {
    var t := Tick(hz);
    TickBounds(hz);
    MulMono(k + 1, hz, t);
    MulAdd(k, 1, t);
    ManyTicks(1, k, t);
    RoundUpOfTicks(t, k, 0);
    CutoffPositive(hz);
    StoredPositive(hz, TimeVal(0, k * t));
  }

  /** Three ends: no wait reads back as no timeout, and the last second before the cutoff can round up to it. */
  lemma EndsAreNotStable()
    ensures Stored(100, TimeVal(-1, 0)) == 0 && !Stable(100, 0)
    ensures var tv := TimeVal(Cutoff(100) - 1, 999_999);
      Stored(100, tv) < MAX_SCHEDULE_TIMEOUT && Stored(100, GetTimeout(100, Stored(100, tv))) == MAX_SCHEDULE_TIMEOUT
  {
    assert Tick(100) == 10_000 && DivRoundUp(999_999, 10_000) == 100;
  }

  /** In the 32-bit layout the seconds read back are the stored ones exactly below 2^31. */
  lemma CompatSeconds(hz: nat, timeo: nat)
    requires Rate(hz) && timeo < MAX_SCHEDULE_TIMEOUT
    ensures Truncate32(GetTimeout(hz, timeo).sec) == GetTimeout(hz, timeo).sec <==> timeo / hz < 0x8000_0000
  {
  }
}
