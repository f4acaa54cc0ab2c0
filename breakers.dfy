/** The guard conditions ("breakers") of a paw motion and the factory that
    builds them from a type tag (CCKPaw.py, lines 17-102).

    Python's `shouldBreak()` either returns a boolean or raises; here it
    returns a Verdict: Continue (False), Stop (True) or Fail(fault) (raised).
    The clock `perf_counter_ns` is an injected Clock: reading number t
    returns ticks(t). */
module Breakers {
  import opened Outcomes

  const MILLISECOND_IN_NANOSECOND: int := 1000000
  const TIMEOUT_MESSAGE: string := "Motor took to long to reach limit"
  const ERROR_MESSAGE: string := "Error"

  /** The exception classes: CCKException and its two subclasses. */
  datatype Fault =
    | CCKException(message: string)
    | MotorTimeout(message: string)
    | UnknownBreaker(key: string)

  datatype Verdict = Continue | Stop | Fail(fault: Fault)

  /** The four Breaker subclasses of the source. */
  datatype BreakerClass =
    | NullBreakerClass
    | ErrorBreakerClass
    | LimitSwitchClass
    | TimeExpiredClass

  /** `TimeExpired.Config`: a dictionary with an optional `totalTimeMs`. */
  datatype TimerConfig = TimerConfig(totalTimeMs: Option<int>)

  /** The budget a TimeExpired stores, in nanoseconds; 0 ms by default. */
  function TotalTimeNs(config: TimerConfig): int
  {
    config.totalTimeMs.GetOr(0) * MILLISECOND_IN_NANOSECOND
  }

  /** `perf_counter_ns`: the t-th call returns ticks(t). */
  class Clock {
    const ticks: nat -> nat
    var now: nat

    constructor (ticks: nat -> nat)
      ensures this.ticks == ticks && now == 0
    {
      this.ticks := ticks;
      now := 0;
    }

    method PerfCounterNs() returns (t: nat)
      modifies this
      ensures t == ticks(old(now)) && now == old(now) + 1
    {
      t := ticks(now);
      now := now + 1;
    }
  }

  /** A monotonic clock never runs backwards. */
  ghost predicate Monotone(ticks: nat -> nat)
  {
    forall i: nat, j: nat :: i <= j ==> ticks(i) <= ticks(j)
  }

  // ---------------------------------------------------------------------
  // TimeExpired, as a function of its state and the clock

  /** What one `shouldBreak()` of a TimeExpired leaves behind: its verdict,
      its new `_time`, and the index of the next clock reading. */
  datatype TimerStep = TimerStep(verdict: Verdict, time: nat, next: nat)

  /** The start a poll uses: `_time`, or the first reading when `_time` is 0. */
  function StartOf(time: nat, ticks: nat -> nat, at: nat): nat
  {
    if time == 0 then ticks(at) else time
  }

  /** One poll of a TimeExpired with start `time` (0: not started) and budget
      `total`, its clock readings starting at index `at`. */
  function TimerPoll(time: nat, total: int, ticks: nat -> nat, at: nat): (r: TimerStep)
    ensures r.verdict == Continue || r.verdict == Fail(MotorTimeout(TIMEOUT_MESSAGE))
    ensures r.verdict.Fail? ==> r.time == 0
    ensures r.next == at + (if time == 0 then 2 else 1)
  {
    var start := StartOf(time, ticks, at);
    var reading := if time == 0 then at + 1 else at;
    if ticks(reading) - start >= total then
      TimerStep(Fail(MotorTimeout(TIMEOUT_MESSAGE)), 0, reading + 1)
    else
      TimerStep(Continue, start, reading + 1)
  }

  /** Polling a TimeExpired n times in a row, stopping at its first fault. */
  function TimerRun(time: nat, total: int, ticks: nat -> nat, at: nat, n: nat): TimerStep
    decreases n
  {
    if n == 0 then TimerStep(Continue, time, at)
    else
      var s := TimerPoll(time, total, ticks, at);
      if s.verdict.Fail? then s else TimerRun(s.time, total, ticks, s.next, n - 1)
  }

  /** A running timer (started at `start`) polled n times: it faults at the
      first reading that is `total` or more past its start, never before,
      and while it keeps going it keeps its start. */
  lemma {:induction false} RunningTimer(start: nat, total: int, ticks: nat -> nat, at: nat, n: nat)
    requires start > 0
    ensures var r := TimerRun(start, total, ticks, at, n);
      && at <= r.next <= at + n
      && (forall j :: at <= j < r.next - 1 ==> ticks(j) - start < total)
      && (r.verdict.Fail? ==> r.next > at && ticks(r.next - 1) - start >= total && r.time == 0)
      && (!r.verdict.Fail? ==> r.verdict == Continue && r.next == at + n && r.time == start
                               && forall j :: at <= j < r.next ==> ticks(j) - start < total)
    decreases n
  {
    if n > 0 {
      var s := TimerPoll(start, total, ticks, at);
      if !s.verdict.Fail? {
        assert s.time == start && s.next == at + 1 && ticks(at) - start < total;
        RunningTimer(start, total, ticks, at + 1, n - 1);
      }
    }
  }

  /** A fresh timer (`_time == 0`) polled n > 0 times: its clock starts at
      the first reading, and it faults exactly at the first later reading
      that is `total` or more past that start, never earlier.  (A first
      reading of 0 would leave it unstarted: see ZeroReadingLeavesTimerIdle.) */
  lemma FreshTimer(total: int, ticks: nat -> nat, at: nat, n: nat)
    requires n > 0 && ticks(at) > 0
    ensures var r := TimerRun(0, total, ticks, at, n);
      var start := ticks(at);
      && at + 2 <= r.next <= at + n + 1
      && (forall j :: at < j < r.next - 1 ==> ticks(j) - start < total)
      && (r.verdict.Fail? ==> ticks(r.next - 1) - start >= total && r.time == 0)
      && (!r.verdict.Fail? ==> r.verdict == Continue && r.next == at + n + 1 && r.time == start
                               && forall j :: at < j < r.next ==> ticks(j) - start < total)
  {
    var s := TimerPoll(0, total, ticks, at);
    if !s.verdict.Fail? {
      RunningTimer(ticks(at), total, ticks, at + 2, n - 1);
    }
  }

  /** With a budget of 0 ms or less (the default), a fresh timer on a
      monotonic clock faults on its very first poll. */
  lemma ZeroBudgetFaultsAtOnce(total: int, ticks: nat -> nat, at: nat)
    requires Monotone(ticks) && total <= 0
    ensures TimerPoll(0, total, ticks, at).verdict == Fail(MotorTimeout(TIMEOUT_MESSAGE))
  {
    assert ticks(at) <= ticks(at + 1);
  }

  /** `_time == 0` means "not started": a first reading of 0 that does not
      time out leaves the timer unstarted, so the next poll starts again. */
  lemma ZeroReadingLeavesTimerIdle(total: int, ticks: nat -> nat, at: nat)
    requires ticks(at) == 0
    ensures TimerPoll(0, total, ticks, at).time == 0
  {
  }

  // ---------------------------------------------------------------------
  // Breakers

  /** The verdict of the breakers that do not look at the clock: NullBreaker
      and LimitSwitch always break, ErrorBreaker always raises. */
  function ConstantVerdict(cls: BreakerClass): (v: Verdict)
    requires cls != TimeExpiredClass
    ensures v == Stop <==> cls != ErrorBreakerClass
    ensures v.Fail? <==> cls == ErrorBreakerClass
    ensures cls == ErrorBreakerClass ==> v == Fail(CCKException(ERROR_MESSAGE))
  {
    if cls == ErrorBreakerClass then Fail(CCKException(ERROR_MESSAGE)) else Stop
  }

  class Breaker {
    const cls: BreakerClass
    /** LimitSwitch only: which limit. */
    const name: string
    /** TimeExpired only: `_totalTimeNs`. */
    const totalTimeNs: int
    /** TimeExpired only: `_time`, the start of the running clock, 0 when idle. */
    var time: nat

    constructor NullBreaker()
      ensures cls == NullBreakerClass && name == "" && totalTimeNs == 0 && time == 0
    {
      cls, name, totalTimeNs, time := NullBreakerClass, "", 0, 0;
    }

    constructor ErrorBreaker()
      ensures cls == ErrorBreakerClass && name == "" && totalTimeNs == 0 && time == 0
    {
      cls, name, totalTimeNs, time := ErrorBreakerClass, "", 0, 0;
    }

    constructor LimitSwitch(name: string)
      ensures cls == LimitSwitchClass && this.name == name && totalTimeNs == 0 && time == 0
    {
      cls, this.name, totalTimeNs, time := LimitSwitchClass, name, 0, 0;
    }

    /** `TimeExpired.__init__`: budget in ns, clock idle. */
    constructor TimeExpired(config: TimerConfig)
      ensures cls == TimeExpiredClass && name == "" && time == 0
      ensures totalTimeNs == TotalTimeNs(config)
    {
      cls, name, totalTimeNs, time := TimeExpiredClass, "", TotalTimeNs(config), 0;
    }

    /** `shouldBreak()`.  A TimeExpired starts its clock on the first poll
        (when `_time` is 0), raises MotorTimeout and resets once the budget
        is used up, and otherwise returns False; the other classes give
        their constant verdict and touch nothing. */
    method ShouldBreak(clock: Clock) returns (v: Verdict)
      modifies this, clock
      ensures cls == TimeExpiredClass ==>
        var s := TimerPoll(old(time), totalTimeNs, clock.ticks, old(clock.now));
        v == s.verdict && time == s.time && clock.now == s.next
      ensures cls != TimeExpiredClass ==>
        v == ConstantVerdict(cls) && time == old(time) && clock.now == old(clock.now)
      ensures var s := Poll(this, old(time), clock.ticks, old(clock.now));
        v == s.verdict && time == s.time && clock.now == s.next
    {
      if cls == TimeExpiredClass {
        if time == 0 {
          time := clock.PerfCounterNs();
        }
        var reading := clock.PerfCounterNs();
        if reading - time >= totalTimeNs {
          Reset();
          v := Fail(MotorTimeout(TIMEOUT_MESSAGE));
          return;
        }
        v := Continue;
      } else if cls == ErrorBreakerClass {
        v := Fail(CCKException(ERROR_MESSAGE));
      } else {
        v := Stop;
      }
    }

    /** `cleanup()`: a TimeExpired idles its clock; the others do nothing. */
    method Cleanup()
      modifies this
      ensures cls == TimeExpiredClass ==> time == 0
      ensures cls != TimeExpiredClass ==> time == old(time)
    {
      if cls == TimeExpiredClass {
        Reset();
      }
    }

    /** `_reset()`. */
    method Reset()
      modifies this
      ensures time == 0
    {
      time := 0;
    }
  }

  /** One `shouldBreak()` of b as a function of its clock field `time` and
      of the clock: its verdict, its new `time`, the next clock index. */
  function Poll(b: Breaker, time: nat, ticks: nat -> nat, at: nat): TimerStep
  {
    if b.cls == TimeExpiredClass then TimerPoll(time, b.totalTimeNs, ticks, at)
    else TimerStep(ConstantVerdict(b.cls), time, at)
  }

  /** Python's `==` between breakers, which `in` and `list.remove` use:
      identity, except that LimitSwitch is a dataclass and compares by name. */
  predicate Same(a: Breaker, b: Breaker)
  {
    a == b || (a.cls == LimitSwitchClass && b.cls == LimitSwitchClass && a.name == b.name)
  }

  // ---------------------------------------------------------------------
  // breakerFactory

  /** The class name the factory's table files each class under. */
  function Tag(c: BreakerClass): string
  {
    match c
    case TimeExpiredClass => "TimeExpired"
    case LimitSwitchClass => "LimitSwitch"
    case NullBreakerClass => "NullBreaker"
    case ErrorBreakerClass => "ErrorBreaker"
  }

  const TAGS: set<string> := {"TimeExpired", "LimitSwitch", "NullBreaker", "ErrorBreaker"}

  /** The class `breakerFactory` selects for a type tag: the one filed under
      that tag, and NullBreaker for any tag the table does not know. */
  function FactoryClass(typ: string): (c: BreakerClass)
    ensures typ in TAGS ==> Tag(c) == typ
    ensures typ !in TAGS ==> c == NullBreakerClass
  {
    if typ == "TimeExpired" then TimeExpiredClass
    else if typ == "LimitSwitch" then LimitSwitchClass
    else if typ == "NullBreaker" then NullBreakerClass
    else if typ == "ErrorBreaker" then ErrorBreakerClass
    else NullBreakerClass
  }

  /** Every class is reachable through its own tag, and the tags are distinct. */
  lemma FactoryRoundTrip(c: BreakerClass)
    ensures Tag(c) in TAGS && FactoryClass(Tag(c)) == c
  {
  }

  /** `breakerFactory(typ, config)`: a new, idle breaker of the selected class;
      a TimeExpired takes its budget from the configuration (0 ms when
      absent). */
  method BreakerFactory(typ: string, config: Option<TimerConfig>) returns (b: Breaker)
    ensures fresh(b) && b.cls == FactoryClass(typ) && b.time == 0 && b.name == ""
    ensures b.totalTimeNs == if b.cls == TimeExpiredClass then TotalTimeNs(config.GetOr(TimerConfig(None))) else 0
  {
    var c := FactoryClass(typ);
    if c == TimeExpiredClass {
      b := new Breaker.TimeExpired(config.GetOr(TimerConfig(None)));
    } else if c == LimitSwitchClass {
      b := new Breaker.LimitSwitch("");
    } else if c == ErrorBreakerClass {
      b := new Breaker.ErrorBreaker();
    } else {
      b := new Breaker.NullBreaker();
    }
  }
}
