/** The Linux time syscalls, answered from the host's clock. The host's readings
    (gettimeofday, time, select) are inputs; what a handler stores through the caller's
    pointers is returned as a value. */
module TimeCalls {
  import opened Errno
  import opened Optional

  const CLOCK_REALTIME: int := 0
  const CLOCK_MONOTONIC: int := 1

  const USEC_PER_SEC: int := 1000000
  const NSEC_PER_USEC: int := 1000
  const NSEC_PER_SEC: int := 1000000000

  /** Number of values of an unsigned 32-bit and 64-bit integer. */
  const U32_RANGE: int := 0x1_0000_0000
  const U64_RANGE: int := 0x1_0000_0000_0000_0000

  /** `struct timeval`: seconds and microseconds. */
  datatype TimeVal = TimeVal(sec: int, usec: int)
  /** `struct timespec`: seconds and nanoseconds. */
  datatype TimeSpec = TimeSpec(sec: int, nsec: int)

  /** The clock ids the layer services; both read the host's wall clock. */
  predicate IsClock(which: int)
  {
    which == CLOCK_REALTIME || which == CLOCK_MONOTONIC
  }

  /** What time(2) produces: its return value, and what it stored through the caller's
      pointer, if one was passed. */
  datatype TimeOutput = TimeOutput(ret: int, stored: Option<int>)

  /** time(2) at host time `now`: returns `now`, and stores it through a 32-bit unsigned
      pointer only when the caller passed one. */
  function SysTime(now: int, hasTp: bool): (out: TimeOutput)
    ensures out.ret == now
    ensures out.stored.Some? <==> hasTp
    ensures hasTp ==> 0 <= out.stored.value < U32_RANGE && (now - out.stored.value) % U32_RANGE == 0
    ensures hasTp && 0 <= now < U32_RANGE ==> out.stored.value == now
  {
    TimeOutput(now, if hasTp then Some(now % U32_RANGE) else None)
  }

  /** clock_gettime(2): both clock ids get the host's gettimeofday reading `tod` in
      nanoseconds; any other id, and a failed gettimeofday, raise EINVAL. */
  function ClockGettime(which: int, tod: Result<TimeVal>): (r: Result<TimeSpec>)
    ensures r.Ok? <==> IsClock(which) && tod.Ok?
    ensures r.Err? ==> r.code == EINVAL
    ensures r.Ok? ==> r.value.sec == tod.value.sec
                      && r.value.nsec % NSEC_PER_USEC == 0
                      && r.value.nsec / NSEC_PER_USEC == tod.value.usec
    ensures r.Ok? && 0 <= tod.value.usec < USEC_PER_SEC ==> 0 <= r.value.nsec < NSEC_PER_SEC
  {
    if !IsClock(which) then Err(EINVAL)
    else if tod.Err? then Err(EINVAL)
    else Ok(TimeSpec(tod.value.sec, tod.value.usec * NSEC_PER_USEC))
  }

  /** clock_getres(2): both clock ids report the length of one host clock tick, given the
      host's ticks per second; any other id raises EINVAL. */
  function ClockGetres(which: int, clocksPerSec: int): (r: Result<TimeSpec>)
    requires clocksPerSec > 0
    ensures r.Ok? <==> IsClock(which)
    ensures r.Err? ==> r.code == EINVAL
    ensures r.Ok? ==> r.value.sec == 0
                      && r.value.nsec * clocksPerSec <= NSEC_PER_SEC
                      && NSEC_PER_SEC < (r.value.nsec + 1) * clocksPerSec
  {
    if IsClock(which) then
      var tick := NSEC_PER_SEC / clocksPerSec;
      TickBounds(clocksPerSec);
      Ok(TimeSpec(0, tick))
    else
      Err(EINVAL)
  }

  /** One second divided into `n` ticks, rounded down, fits `n` times into a second and
      `n` ticks of one more nanosecond do not. */
  lemma TickBounds(n: int)
    requires n > 0
    ensures (NSEC_PER_SEC / n) * n <= NSEC_PER_SEC < (NSEC_PER_SEC / n + 1) * n
  {
  }

  /** The wait nanosleep hands to select: whole seconds unchanged, nanoseconds divided by
      1000 with C's truncation toward zero. */
  function SleepTimeout(req: TimeSpec): (tv: TimeVal)
    ensures tv.sec == req.sec
    ensures 0 <= req.nsec ==> tv.usec * NSEC_PER_USEC <= req.nsec < tv.usec * NSEC_PER_USEC + NSEC_PER_USEC
    ensures req.nsec < 0 ==> tv.usec * NSEC_PER_USEC - NSEC_PER_USEC < req.nsec <= tv.usec * NSEC_PER_USEC
    ensures 0 <= req.nsec < NSEC_PER_SEC ==> 0 <= tv.usec < USEC_PER_SEC
  {
    var usec := if req.nsec >= 0 then req.nsec / NSEC_PER_USEC else -((-req.nsec) / NSEC_PER_USEC);
    TimeVal(req.sec, usec)
  }

  /** A timeval as a count of microseconds. */
  function Micros(tv: TimeVal): int
  {
    tv.sec * USEC_PER_SEC + tv.usec
  }

  /** `(u64)tv.tv_sec * 1000000 + (u64)tv.tv_usec` in unsigned 64-bit arithmetic: the
      microsecond count modulo 2^64. */
  function MicrosU64(tv: TimeVal): (us: int)
    ensures 0 <= us < U64_RANGE
    ensures (us - Micros(tv)) % U64_RANGE == 0
  {
    var sec := tv.sec % U64_RANGE;
    var scaled := sec * USEC_PER_SEC % U64_RANGE;
    var usec := tv.usec % U64_RANGE;
    var us := (scaled + usec) % U64_RANGE;
    DivMod64(tv.sec);
    DivMod64(sec * USEC_PER_SEC);
    DivMod64(tv.usec);
    DivMod64(scaled + usec);
    MultipleOf64(-(tv.sec / U64_RANGE) * USEC_PER_SEC - (sec * USEC_PER_SEC) / U64_RANGE
                 - tv.usec / U64_RANGE - (scaled + usec) / U64_RANGE, us - Micros(tv));
    us
  }

  /** Euclidean division by 2^64. */
  lemma DivMod64(x: int)
    ensures x == (x / U64_RANGE) * U64_RANGE + x % U64_RANGE
    ensures 0 <= x % U64_RANGE < U64_RANGE
  {
  }

  /** A whole multiple of 2^64 is 0 modulo 2^64. */
  lemma MultipleOf64(q: int, x: int)
    requires x == q * U64_RANGE
    ensures x % U64_RANGE == 0
  {
  }

  /** The microseconds from `start` to `now`, subtracted in unsigned 64-bit arithmetic: the
      true difference modulo 2^64, and exactly it whenever both counts fit and the clock
      did not step back. */
  function ElapsedMicros(start: TimeVal, now: TimeVal): (d: int)
    ensures 0 <= d < U64_RANGE
    ensures (d - (Micros(now) - Micros(start))) % U64_RANGE == 0
    ensures 0 <= Micros(start) <= Micros(now) < U64_RANGE ==> d == Micros(now) - Micros(start)
  {
    var a, b := MicrosU64(now), MicrosU64(start);
    var d := (a - b) % U64_RANGE;
    DivMod64(a - b);
    DivMod64(a - Micros(now));
    DivMod64(b - Micros(start));
    MultipleOf64((a - Micros(now)) / U64_RANGE - (b - Micros(start)) / U64_RANGE - (a - b) / U64_RANGE,
                 d - (Micros(now) - Micros(start)));
    SmallCongruent(d, Micros(now) - Micros(start));
    d
  }

  /** Two numbers in [0, 2^64) that are congruent modulo 2^64 are equal. */
  lemma SmallCongruent(x: int, y: int)
    ensures 0 <= x < U64_RANGE && 0 <= y < U64_RANGE && (x - y) % U64_RANGE == 0 ==> x == y
  {
  }

  /** A microsecond count as a timespec: whole seconds and the rest in nanoseconds. */
  function SplitMicros(delta: int): (ts: TimeSpec)
    requires 0 <= delta
    ensures ts.sec * USEC_PER_SEC + ts.nsec / NSEC_PER_USEC == delta
    ensures 0 <= ts.sec && 0 <= ts.nsec < NSEC_PER_SEC && ts.nsec % NSEC_PER_USEC == 0
  {
    TimeSpec(delta / USEC_PER_SEC, (delta % USEC_PER_SEC) * NSEC_PER_USEC)
  }

  /** What nanosleep(2) produces: its result, and what it stored through `rem`, if the
      caller passed one. */
  datatype SleepOutput = SleepOutput(result: Result<int>, rem: Option<TimeSpec>)

  /** nanosleep(2) as written: `start` and `now` are the host clock before and after the
      wait, and `wait` is select's outcome for a given timeout. When the caller passed
      `rem`, the time elapsed since `start` is stored there whether or not the wait failed;
      the wait's failure is then raised. */
  function Nanosleep(req: TimeSpec, hasRem: bool, start: TimeVal, wait: TimeVal -> Status, now: TimeVal)
    : (out: SleepOutput)
    ensures out.result == match wait(SleepTimeout(req))
                          case Success => Ok(0)
                          case Error(e) => Err(e)
    ensures out.rem.Some? <==> hasRem
    ensures hasRem ==>
              var rem := out.rem.value;
              && rem.sec * USEC_PER_SEC + rem.nsec / NSEC_PER_USEC == ElapsedMicros(start, now)
              && 0 <= rem.nsec < NSEC_PER_SEC && rem.nsec % NSEC_PER_USEC == 0
  {
    var waited := wait(SleepTimeout(req));
    var rem := if hasRem then Some(SplitMicros(ElapsedMicros(start, now))) else None;
    match waited
    case Success => SleepOutput(Ok(0), rem)
    case Error(e) => SleepOutput(Err(e), rem)
  }

  /** A timespec as a count of nanoseconds. */
  function Nanos(ts: TimeSpec): int
  {
    ts.sec * NSEC_PER_SEC + ts.nsec
  }

  /** The time left of a valid request `req` after `elapsed` microseconds: what nanosleep's
      `rem` is meant to receive. */
  function RemainingAfter(req: TimeSpec, elapsed: int): (rem: TimeSpec)
    requires 0 <= req.sec && 0 <= req.nsec < NSEC_PER_SEC && 0 <= elapsed
    ensures 0 <= rem.sec && 0 <= rem.nsec < NSEC_PER_SEC
    ensures elapsed * NSEC_PER_USEC <= Nanos(req) ==> Nanos(rem) + elapsed * NSEC_PER_USEC == Nanos(req)
    ensures elapsed * NSEC_PER_USEC >= Nanos(req) ==> rem == TimeSpec(0, 0)
  {
    var left := Nanos(req) - elapsed * NSEC_PER_USEC;
    if left <= 0 then TimeSpec(0, 0) else TimeSpec(left / NSEC_PER_SEC, left % NSEC_PER_SEC)
  }

  /** A ten-second sleep interrupted after two seconds stores two seconds in `rem`, where
      eight seconds remain. */
  lemma NanosleepStoresElapsed()
    ensures var out := Nanosleep(TimeSpec(10, 0), true, TimeVal(100, 0),
                                 (tv: TimeVal) => Error(EINTR), TimeVal(102, 0));
            && out.result == Err(EINTR)
            && out.rem == Some(TimeSpec(2, 0))
            && RemainingAfter(TimeSpec(10, 0), ElapsedMicros(TimeVal(100, 0), TimeVal(102, 0))) == TimeSpec(8, 0)
  {
  }
}
