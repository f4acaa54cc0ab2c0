/** The paw controller (CCKPaw.py, class CCKPaw): a per-phase registry of
    breakers, and the guarded motions `present()` / `retract()`, each of
    which drives the motor, polls that phase's breakers until a limit switch
    trips or a breaker intervenes, then backs off the limit it drove toward.

    The two busy-wait loops of the source run until the world makes them
    stop.  Here each takes a `fuel` bound on its number of iterations and
    reports running out of it separately (OutOfFuel / Stalled); nothing
    here claims the source's loops terminate.  A ghost trace `calls`
    records every `shouldBreak()` and `cleanup()` the controller issues. */
module Paw {
  import opened Outcomes
  import opened Driver
  import opened Breakers

  /** The two registry keys, the only phases there are. */
  const PRESENT: string := "present"
  const RETRACT: string := "retract"

  /** Declared by the source and not used by it. */
  const MAX_MOTOR_RUN_TIME_MS: int := 1400

  predicate IsPhase(key: string)
  {
    key == PRESENT || key == RETRACT
  }

  // ---------------------------------------------------------------------
  // The trace of breaker calls

  datatype Call = ShouldBreakCall(brk: Breaker) | CleanupCall(brk: Breaker)

  /** One `shouldBreak()` per breaker of bs, in list order. */
  ghost function Polls(bs: seq<Breaker>): (cs: seq<Call>)
  {
    seq(|bs|, i requires 0 <= i < |bs| => ShouldBreakCall(bs[i]))
  }

  /** One `cleanup()` per breaker of bs, in list order: `_breakerCleanup`. */
  ghost function Cleanups(bs: seq<Breaker>): (cs: seq<Call>)
  {
    seq(|bs|, i requires 0 <= i < |bs| => CleanupCall(bs[i]))
  }

  /** n full passes of the guard loop's `for` over bs. */
  ghost function Rounds(bs: seq<Breaker>, n: nat): seq<Call>
  {
    if n == 0 then [] else Rounds(bs, n - 1) + Polls(bs)
  }

  /** Every call in cs is addressed to a breaker of bs. */
  ghost predicate CallsTo(cs: seq<Call>, bs: seq<Breaker>)
  {
    forall i :: 0 <= i < |cs| ==> cs[i].brk in bs
  }

  /** No call in cs is a cleanup. */
  ghost predicate NoCleanup(cs: seq<Call>)
  {
    forall i :: 0 <= i < |cs| ==> cs[i].ShouldBreakCall?
  }

  lemma AppendAssoc<T>(a: seq<T>, b: seq<T>, c: seq<T>)
    ensures a + b + c == a + (b + c)
  {
  }

  /** One step of moving a pass p from the front of a trace to its back. */
  lemma ShiftStep<T>(a: seq<T>, p: seq<T>, r: seq<T>, r': seq<T>)
    requires a + p + r == a + r'
    ensures a + p + (r + p) == a + (r' + p)
  {
    calc {
      a + p + (r + p);
      { AppendAssoc(a + p, r, p); }
      a + p + r + p;
      a + r' + p;
      { AppendAssoc(a, r', p); }
      a + (r' + p);
    }
  }

  /** A pass of polls in front of n more passes is n passes and then that
      pass. */
  lemma {:induction false} TraceShift(acc: seq<Call>, bs: seq<Breaker>, n: nat)
    ensures acc + Polls(bs) + Rounds(bs, n) == acc + Rounds(bs, n + 1)
  {
    var p := Polls(bs);
    assert Rounds(bs, n + 1) == Rounds(bs, n) + p;
    if n > 0 {
      TraceShift(acc, bs, n - 1);
      assert Rounds(bs, n) == Rounds(bs, n - 1) + p;
      ShiftStep(acc, p, Rounds(bs, n - 1), Rounds(bs, n));
    } else {
      assert Rounds(bs, 0) == [];
      assert acc + p + [] == acc + p;
      assert [] + p == p;
    }
  }

  lemma PollsSnoc(bs: seq<Breaker>, i: nat)
    requires i < |bs|
    ensures Polls(bs[..i + 1]) == Polls(bs[..i]) + [ShouldBreakCall(bs[i])]
  {
    assert Polls(bs[..i + 1])[i] == ShouldBreakCall(bs[i]);
  }

  /** The guard loop only ever addresses the list it was given. */
  lemma {:induction false} GuardCallsTo(bs: seq<Breaker>, n: nat, k: nat)
    requires k <= |bs|
    ensures CallsTo(Rounds(bs, n) + Polls(bs[..k]), bs)
    ensures CallsTo(Rounds(bs, n) + Polls(bs[..k]) + Cleanups(bs), bs)
    ensures CallsTo(Rounds(bs, n) + Cleanups(bs), bs)
    ensures NoCleanup(Rounds(bs, n) + Polls(bs[..k]))
    decreases n
  {
    if n > 0 {
      GuardCallsTo(bs, n - 1, |bs|);
      assert bs[..|bs|] == bs;
      assert Rounds(bs, n) + Polls(bs[..k]) == Rounds(bs, n - 1) + Polls(bs) + Polls(bs[..k]);
      GuardCallsTo(bs, n - 1, k);
      var a, b, c := Rounds(bs, n - 1), Polls(bs), Polls(bs[..k]);
      assert forall i :: 0 <= i < |b| ==> b[i].brk in bs;
      assert forall i :: 0 <= i < |c| ==> c[i].brk in bs;
    }
  }

  // ---------------------------------------------------------------------
  // Reading the limit switches in a loop condition

  /** A loop condition evaluated from read t: its value and the next read. */
  datatype Check = Check(holds: bool, next: nat)

  /** `not pressed(a) and not pressed(b)`, reading a at t and, only when a
      is not pressed, b at t + 1 (Python's `and` short-circuits). */
  function BothClear(a: nat -> bool, b: nat -> bool, t: nat): Check
  {
    if Pressed(a(t)) then Check(false, t + 1)
    else if Pressed(b(t + 1)) then Check(false, t + 2)
    else Check(true, t + 2)
  }

  /** `pressed(a) and not pressed(b)`, with the same short circuit. */
  function HeldOnly(a: nat -> bool, b: nat -> bool, t: nat): Check
  {
    if !Pressed(a(t)) then Check(false, t + 1)
    else if Pressed(b(t + 1)) then Check(false, t + 2)
    else Check(true, t + 2)
  }

  // ---------------------------------------------------------------------
  // The loops as functions of the inputs

  /** The clock field of every breaker in bs. */
  ghost function Times(bs: seq<Breaker>): (times: map<Breaker, nat>)
    reads set b | b in bs
    ensures Tracks(bs, times)
  {
    map b | b in bs :: b.time
  }

  /** times holds a clock field for every breaker of bs. */
  predicate Tracks(bs: seq<Breaker>, times: map<Breaker, nat>)
  {
    forall j :: 0 <= j < |bs| ==> bs[j] in times
  }

  /** The clock fields after `_breakerCleanup(bs)`: every TimeExpired of bs
      is idle again, every other breaker keeps its field. */
  function CleanedUp(bs: seq<Breaker>, times: map<Breaker, nat>): map<Breaker, nat>
  {
    map b | b in times :: if b in bs && b.cls == TimeExpiredClass then 0 else times[b]
  }

  /** What one pass of the guard's `for` loop does: the verdict that ended it
      (Continue when every breaker continued), the position of the breaker
      that gave it, the clock fields and the next clock index. */
  datatype Round = Round(verdict: Verdict, last: nat, times: map<Breaker, nat>, next: nat)

  /** The pass over bs from position i on: poll each breaker in turn and
      stop at the first one that does not answer Continue. */
  function RoundFrom(bs: seq<Breaker>, i: nat, times: map<Breaker, nat>, ticks: nat -> nat, at: nat): (r: Round)
    requires i <= |bs| && Tracks(bs, times)
    ensures Tracks(bs, r.times)
    ensures !r.verdict.Continue? ==> i <= r.last < |bs|
    decreases |bs| - i
  {
    if i == |bs| then Round(Continue, 0, times, at)
    else
      var b := bs[i];
      var s := Poll(b, times[b], ticks, at);
      if !s.verdict.Continue? then Round(s.verdict, i, times[b := s.time], s.next)
      else RoundFrom(bs, i + 1, times[b := s.time], ticks, s.next)
  }

  /** A pass only goes on past timers that are still running: the breakers
      before the one that decided it are all TimeExpired, a breaking one is a
      NullBreaker or a LimitSwitch, a raising one an ErrorBreaker or a timer
      that ran out. */
  lemma {:induction false} RoundPassesOnlyTimers(bs: seq<Breaker>, i: nat, times: map<Breaker, nat>, ticks: nat -> nat, at: nat)
    requires i <= |bs| && Tracks(bs, times)
    ensures var r := RoundFrom(bs, i, times, ticks, at);
      && (forall j :: i <= j < (if r.verdict.Continue? then |bs| else r.last) ==> bs[j].cls == TimeExpiredClass)
      && (r.verdict.Stop? ==> bs[r.last].cls == NullBreakerClass || bs[r.last].cls == LimitSwitchClass)
      && (r.verdict.Fail? ==>
            || (bs[r.last].cls == ErrorBreakerClass && r.verdict.fault == CCKException(ERROR_MESSAGE))
            || (bs[r.last].cls == TimeExpiredClass && r.verdict.fault == MotorTimeout(TIMEOUT_MESSAGE)))
    decreases |bs| - i
  {
    if i < |bs| {
      var b := bs[i];
      var s := Poll(b, times[b], ticks, at);
      if s.verdict.Continue? {
        RoundPassesOnlyTimers(bs, i + 1, times[b := s.time], ticks, s.next);
      }
    }
  }

  /** What `_wait_for_any_limit_and_stop` does: how it ended, the number of
      full passes before that, the position of the deciding breaker, the
      clock fields, the next limit-switch read and clock index, the read
      index of the last test of its loop condition, and the trace of
      breaker calls once it is over. */
  datatype WaitRun = WaitRun(out: Guard, rounds: nat, last: nat, times: map<Breaker, nat>, read: nat, clockAt: nat,
                             check: nat, calls: seq<Call>)

  /** The guard loop over bs for at most fuel tests of its condition, the
      condition read from index t of the switch schedules, its calls
      appended to the trace acc. */
  ghost function Wait(bs: seq<Breaker>, front: nat -> bool, rear: nat -> bool, t: nat, times: map<Breaker, nat>,
                      ticks: nat -> nat, at: nat, fuel: nat, acc: seq<Call>): (w: WaitRun)
    requires Tracks(bs, times)
    decreases fuel, 2
  {
    if fuel == 0 then WaitRun(OutOfFuel, 0, 0, times, t, at, t, acc)
    else WaitTest(bs, front, rear, t, times, ticks, at, fuel, acc)
  }

  /** One test of the loop condition: a pressed limit ends the run (the
      breakers are cleaned up and the name is read from the front switch
      once more), two clear ones lead to a pass over the breakers. */
  ghost function WaitTest(bs: seq<Breaker>, front: nat -> bool, rear: nat -> bool, t: nat, times: map<Breaker, nat>,
                          ticks: nat -> nat, at: nat, fuel: nat, acc: seq<Call>): (w: WaitRun)
    requires Tracks(bs, times) && fuel > 0
    decreases fuel, 1
  {
    var c := BothClear(front, rear, t);
    if !c.holds then
      WaitRun(Tripped(if Pressed(front(c.next)) then "front" else "rear"), 0, 0, CleanedUp(bs, times), c.next + 1, at, t,
              acc + Cleanups(bs))
    else WaitRound(bs, front, rear, t, c.next, times, ticks, at, fuel, acc)
  }

  /** One pass over the breakers after the test made at index check: a
      breaker that stops or raises ends the run (a raise cleans every
      breaker up), a pass in which all continue leaves the rest to fuel - 1
      further tests from index t. */
  ghost function WaitRound(bs: seq<Breaker>, front: nat -> bool, rear: nat -> bool, check: nat, t: nat,
                           times: map<Breaker, nat>, ticks: nat -> nat, at: nat, fuel: nat, acc: seq<Call>): (w: WaitRun)
    requires Tracks(bs, times) && fuel > 0
    decreases fuel, 0
  {
    var r := RoundFrom(bs, 0, times, ticks, at);
    if r.verdict.Stop? then
      WaitRun(Broke(bs[r.last]), 0, r.last, r.times, t, r.next, check, acc + Polls(bs[..r.last + 1]))
    else if r.verdict.Fail? then
      WaitRun(Raised(r.verdict.fault), 0, r.last, CleanedUp(bs, r.times), t, r.next, check,
              acc + Polls(bs[..r.last + 1]) + Cleanups(bs))
    else
      var w := Wait(bs, front, rear, t, r.times, ticks, r.next, fuel - 1, acc + Polls(bs));
      w.(rounds := w.rounds + 1)
  }

  /** A pass whose loop condition fails ends the run with a trip. */
  lemma WaitTrip(bs: seq<Breaker>, front: nat -> bool, rear: nat -> bool, t: nat, times: map<Breaker, nat>,
                 ticks: nat -> nat, at: nat, fuel: nat, acc: seq<Call>)
    requires Tracks(bs, times) && fuel > 0 && !BothClear(front, rear, t).holds
    ensures var c := BothClear(front, rear, t);
      Wait(bs, front, rear, t, times, ticks, at, fuel, acc)
        == WaitRun(Tripped(if Pressed(front(c.next)) then "front" else "rear"), 0, 0, CleanedUp(bs, times), c.next + 1, at, t,
                   acc + Cleanups(bs))
  {
  }

  /** A loop test that finds both limits clear is followed by a pass. */
  lemma WaitOpens(bs: seq<Breaker>, front: nat -> bool, rear: nat -> bool, t: nat, times: map<Breaker, nat>,
                  ticks: nat -> nat, at: nat, fuel: nat, acc: seq<Call>)
    requires Tracks(bs, times) && fuel > 0 && BothClear(front, rear, t).holds
    ensures Wait(bs, front, rear, t, times, ticks, at, fuel, acc) == WaitRound(bs, front, rear, t, t + 2, times, ticks, at, fuel, acc)
  {
  }

  /** A pass in which a breaker answers Stop or raises ends the run there. */
  lemma WaitVerdict(bs: seq<Breaker>, front: nat -> bool, rear: nat -> bool, ticks: nat -> nat, fuel: nat,
                    t: nat, times: map<Breaker, nat>, at: nat, acc: seq<Call>,
                    v: Verdict, last: nat, times': map<Breaker, nat>, at': nat, acc': seq<Call>, w0: WaitRun, n: nat)
    requires Tracks(bs, times) && fuel > 0 && BothClear(front, rear, t).holds
    requires var r := RoundFrom(bs, 0, times, ticks, at);
      !r.verdict.Continue? && v == r.verdict && last == r.last && times' == r.times && at' == r.next
    requires last < |bs| && acc' == acc + Polls(bs[..last + 1])
    requires var w := Wait(bs, front, rear, t, times, ticks, at, fuel, acc); w0 == w.(rounds := n + w.rounds)
    ensures w0 == WaitRun(if v.Stop? then Broke(bs[last]) else Raised(v.fault), n, last,
                          if v.Fail? then CleanedUp(bs, times') else times', t + 2, at', t,
                          if v.Fail? then acc' + Cleanups(bs) else acc')
  {
    WaitOpens(bs, front, rear, t, times, ticks, at, fuel, acc);
  }

  /** A pass in which the limits read clear and every breaker answers
      Continue leaves the rest of the run, one round later, to the
      remaining fuel, its polls added to the trace (w0 being the run from an
      earlier point, n rounds before this pass). */
  lemma WaitPass(bs: seq<Breaker>, front: nat -> bool, rear: nat -> bool, ticks: nat -> nat, fuel: nat,
                 t: nat, times: map<Breaker, nat>, at: nat, acc: seq<Call>,
                 t': nat, times': map<Breaker, nat>, at': nat, acc': seq<Call>, w0: WaitRun, n: nat)
    requires Tracks(bs, times) && fuel > 0 && BothClear(front, rear, t).holds
    requires var r := RoundFrom(bs, 0, times, ticks, at);
      r.verdict.Continue? && t' == t + 2 && times' == r.times && at' == r.next && acc' == acc + Polls(bs)
    requires var w := Wait(bs, front, rear, t, times, ticks, at, fuel, acc); w0 == w.(rounds := n + w.rounds)
    ensures Tracks(bs, times')
    ensures var w := Wait(bs, front, rear, t', times', ticks, at', fuel - 1, acc'); w0 == w.(rounds := n + 1 + w.rounds)
  {
    WaitOpens(bs, front, rear, t, times, ticks, at, fuel, acc);
  }

  /** How every guard run ends: it runs out of fuel only after fuel full
      passes; a breaking breaker is a NullBreaker or a LimitSwitch, a raising one an ErrorBreaker or a timer that ran out;
      a trip follows a failed loop test, read from t on, and is named after
      one more read of the front switch. */
  lemma {:induction false} WaitEnds(bs: seq<Breaker>, front: nat -> bool, rear: nat -> bool, t: nat, times: map<Breaker, nat>,
                                    ticks: nat -> nat, at: nat, fuel: nat, acc: seq<Call>)
    requires Tracks(bs, times)
    ensures var w := Wait(bs, front, rear, t, times, ticks, at, fuel, acc);
      && (w.out.Broke? || w.out.Raised? ==> w.last < |bs|)
      && (w.out.OutOfFuel? ==> w.rounds == fuel)
      && (w.out.Broke? ==>
            && w.out.brk == bs[w.last]
            && (bs[w.last].cls == NullBreakerClass || bs[w.last].cls == LimitSwitchClass))
      && (w.out.Raised? ==>
            || (bs[w.last].cls == ErrorBreakerClass && w.out.fault == CCKException(ERROR_MESSAGE))
            || (bs[w.last].cls == TimeExpiredClass && w.out.fault == MotorTimeout(TIMEOUT_MESSAGE)))
      && (w.out.Tripped? ==>
            && t <= w.check && w.check + 1 < w.read
            && BothClear(front, rear, w.check) == Check(false, w.read - 1)
            && (w.out.name == "front" <==> Pressed(front(w.read - 1)))
            && (w.out.name == "front" || w.out.name == "rear"))
    decreases fuel
  {
    if fuel > 0 && BothClear(front, rear, t).holds {
      var r := RoundFrom(bs, 0, times, ticks, at);
      WaitOpens(bs, front, rear, t, times, ticks, at, fuel, acc);
      RoundPassesOnlyTimers(bs, 0, times, ticks, at);
      if r.verdict.Continue? {
        var c := BothClear(front, rear, t);
        WaitEnds(bs, front, rear, c.next, r.times, ticks, r.next, fuel - 1, acc + Polls(bs));
      }
    }
  }

  /** The trace of every guard run: acc, its full passes, the deciding pass
      up to the deciding breaker and, on a raise or a trip, one cleanup of
      the whole list. */
  lemma {:induction false} WaitTrace(bs: seq<Breaker>, front: nat -> bool, rear: nat -> bool, t: nat, times: map<Breaker, nat>,
                                     ticks: nat -> nat, at: nat, fuel: nat, acc: seq<Call>)
    requires Tracks(bs, times)
    ensures var w := Wait(bs, front, rear, t, times, ticks, at, fuel, acc);
      && (w.out.Broke? || w.out.Raised? ==> w.last < |bs|)
      && (w.out.OutOfFuel? ==> w.calls == acc + Rounds(bs, w.rounds))
      && (w.out.Tripped? ==> w.calls == acc + Rounds(bs, w.rounds) + Cleanups(bs))
      && (w.out.Broke? ==> w.calls == acc + Rounds(bs, w.rounds) + Polls(bs[..w.last + 1]))
      && (w.out.Raised? ==> w.calls == acc + Rounds(bs, w.rounds) + Polls(bs[..w.last + 1]) + Cleanups(bs))
    decreases fuel
  {
    if fuel > 0 && BothClear(front, rear, t).holds {
      var r := RoundFrom(bs, 0, times, ticks, at);
      WaitOpens(bs, front, rear, t, times, ticks, at, fuel, acc);
      if r.verdict.Continue? {
        var c := BothClear(front, rear, t);
        WaitTrace(bs, front, rear, c.next, r.times, ticks, r.next, fuel - 1, acc + Polls(bs));
        var w' := Wait(bs, front, rear, c.next, r.times, ticks, r.next, fuel - 1, acc + Polls(bs));
        TraceShift(acc, bs, w'.rounds);
      }
    }
  }

  /** With both limits clear, a guard list that starts with a breaker that
      is not a timer ends on the first poll: a NullBreaker or LimitSwitch is
      returned, an ErrorBreaker's fault is raised. */
  lemma FirstBreakerDecides(bs: seq<Breaker>, front: nat -> bool, rear: nat -> bool, t: nat, times: map<Breaker, nat>,
                            ticks: nat -> nat, at: nat, fuel: nat, acc: seq<Call>)
    requires Tracks(bs, times) && fuel > 0 && BothClear(front, rear, t).holds
    requires |bs| > 0 && bs[0].cls != TimeExpiredClass
    ensures var w := Wait(bs, front, rear, t, times, ticks, at, fuel, acc);
      && w.rounds == 0 && w.last == 0 && w.clockAt == at
      && w.out == if bs[0].cls == ErrorBreakerClass then Raised(CCKException(ERROR_MESSAGE)) else Broke(bs[0])
  {
    WaitOpens(bs, front, rear, t, times, ticks, at, fuel, acc);
  }

  /** A pressed limit at the loop test ends the guard before any breaker is
      polled; the name is taken from one more read of the front switch. */
  lemma PressedLimitTrips(bs: seq<Breaker>, front: nat -> bool, rear: nat -> bool, t: nat, times: map<Breaker, nat>,
                          ticks: nat -> nat, at: nat, fuel: nat, acc: seq<Call>)
    requires Tracks(bs, times) && fuel > 0
    requires Pressed(front(t)) || Pressed(rear(t + 1))
    ensures var w := Wait(bs, front, rear, t, times, ticks, at, fuel, acc);
      && w.rounds == 0 && w.clockAt == at && w.times == CleanedUp(bs, times)
      && w.read == (if Pressed(front(t)) then t + 2 else t + 3)
      && w.out == Tripped(if Pressed(front(w.read - 1)) then "front" else "rear")
  {
  }

  /** With both limits never pressed, a guard whose only breaker is a timer
      runs exactly as that timer polled fuel times: it raises exactly when
      the timer runs out, and otherwise runs out of fuel. */
  lemma {:induction false} LoneTimerWait(b: Breaker, front: nat -> bool, rear: nat -> bool, t: nat, times: map<Breaker, nat>,
                                         ticks: nat -> nat, at: nat, fuel: nat, acc: seq<Call>)
    requires b.cls == TimeExpiredClass && b in times
    requires forall j: nat :: front(j) && rear(j)
    ensures var w := Wait([b], front, rear, t, times, ticks, at, fuel, acc);
      var r := TimerRun(times[b], b.totalTimeNs, ticks, at, fuel);
      && (w.out.Raised? <==> r.verdict.Fail?)
      && (w.out.Raised? ==> w.out.fault == MotorTimeout(TIMEOUT_MESSAGE))
      && (!w.out.Raised? ==> w.out.OutOfFuel?)
      && w.clockAt == r.next && b in w.times && w.times[b] == r.time
    decreases fuel
  {
    if fuel > 0 {
      assert BothClear(front, rear, t) == Check(true, t + 2);
      WaitOpens([b], front, rear, t, times, ticks, at, fuel, acc);
      var s := TimerPoll(times[b], b.totalTimeNs, ticks, at);
      assert RoundFrom([b], 0, times, ticks, at) == if s.verdict.Fail? then Round(s.verdict, 0, times[b := s.time], s.next)
        else Round(Continue, 0, times[b := s.time], s.next);
      if !s.verdict.Fail? {
        LoneTimerWait(b, front, rear, t + 2, times[b := s.time], ticks, s.next, fuel - 1, acc + Polls([b]));
      }
    }
  }

  /** The motion timeout: with both limits never pressed, a guard whose only
      breaker is an idle timer with budget T raises MotorTimeout once any
      reading within its fuel is T or more past its first one, and the
      reading it raises on is the first such reading. */
  lemma LoneTimerTimesOut(b: Breaker, front: nat -> bool, rear: nat -> bool, t: nat,
                          ticks: nat -> nat, at: nat, fuel: nat, k: nat, acc: seq<Call>)
    requires b.cls == TimeExpiredClass
    requires forall j: nat :: front(j) && rear(j)
    requires ticks(at) > 0 && 1 <= k <= fuel && ticks(at + k) - ticks(at) >= b.totalTimeNs
    ensures var w := Wait([b], front, rear, t, map[b := 0], ticks, at, fuel, acc);
      && w.out == Raised(MotorTimeout(TIMEOUT_MESSAGE))
      && at + 2 <= w.clockAt <= at + k + 1
      && ticks(w.clockAt - 1) - ticks(at) >= b.totalTimeNs
      && forall j :: at < j < w.clockAt - 1 ==> ticks(j) - ticks(at) < b.totalTimeNs
  {
    LoneTimerWait(b, front, rear, t, map[b := 0], ticks, at, fuel, acc);
    FreshTimer(b.totalTimeNs, ticks, at, fuel);
  }

  /** What a back-off loop does: whether its test came out false within its
      fuel, how many tests held before that, and the next read index. */
  datatype BackOffRun = BackOffRun(ok: bool, tests: nat, read: nat)

  /** `while pressed(a) and not pressed(b): pass` for at most fuel tests,
      reading from index t. */
  function BackOff(a: nat -> bool, b: nat -> bool, t: nat, fuel: nat): BackOffRun
    decreases fuel
  {
    if fuel == 0 then BackOffRun(false, 0, t)
    else
      var c := HeldOnly(a, b, t);
      if !c.holds then BackOffRun(true, 0, c.next)
      else
        var s := BackOff(a, b, c.next, fuel - 1);
        s.(tests := s.tests + 1)
  }

  /** A back-off loop stops at the first test that comes out false: every
      earlier test (two reads each) held, and it gives up only when all fuel
      tests held. */
  lemma BackOffStopsAtFirstRelease(a: nat -> bool, b: nat -> bool, t: nat, fuel: nat)
    ensures var s := BackOff(a, b, t, fuel);
      && s.tests <= fuel
      && (forall j :: 0 <= j < s.tests ==> HeldOnly(a, b, t + 2 * j).holds)
      && (s.ok <==> s.tests < fuel)
      && (s.ok ==> !HeldOnly(a, b, t + 2 * s.tests).holds && s.read == HeldOnly(a, b, t + 2 * s.tests).next)
      && (!s.ok ==> s.read == t + 2 * fuel)
  {
    BackOffEnds(a, b, t, fuel);
    BackOffHeld(a, b, t, fuel);
  }

  /** Where a back-off loop ends: at the failing test, or with the fuel spent. */
  lemma {:induction false} BackOffEnds(a: nat -> bool, b: nat -> bool, t: nat, fuel: nat)
    ensures var s := BackOff(a, b, t, fuel);
      && s.tests <= fuel
      && (s.ok <==> s.tests < fuel)
      && (s.ok ==> !HeldOnly(a, b, t + 2 * s.tests).holds && s.read == HeldOnly(a, b, t + 2 * s.tests).next)
      && (!s.ok ==> s.read == t + 2 * fuel)
    decreases fuel
  {
    if fuel > 0 && HeldOnly(a, b, t).holds {
      BackOffEnds(a, b, t + 2, fuel - 1);
      var s := BackOff(a, b, t + 2, fuel - 1);
      assert BackOff(a, b, t, fuel) == s.(tests := s.tests + 1);
      assert t + 2 * (s.tests + 1) == (t + 2) + 2 * s.tests;
      assert t + 2 * fuel == (t + 2) + 2 * (fuel - 1);
    }
  }

  /** Every test before the last one of a back-off loop held. */
  lemma {:induction false} BackOffHeld(a: nat -> bool, b: nat -> bool, t: nat, fuel: nat)
    ensures var s := BackOff(a, b, t, fuel);
      forall j :: 0 <= j < s.tests ==> HeldOnly(a, b, t + 2 * j).holds
    decreases fuel
  {
    if fuel > 0 && HeldOnly(a, b, t).holds {
      BackOffHeld(a, b, t + 2, fuel - 1);
      var s := BackOff(a, b, t + 2, fuel - 1);
      assert BackOff(a, b, t, fuel).tests == s.tests + 1;
      forall j | 0 <= j < s.tests + 1
        ensures HeldOnly(a, b, t + 2 * j).holds
      {
        if j > 0 {
          assert t + 2 * j == (t + 2) + 2 * (j - 1);
        }
      }
    }
  }

  /** How a motion ends, given how its guard ended and whether the back-off
      that follows it completed. */
  function MotionOf(out: Guard, backedOff: bool): Motion
  {
    match out
    case OutOfFuel => Stalled
    case Raised(f) => Faulted(f)
    case _ => if backedOff then Done else Stalled
  }

  // ---------------------------------------------------------------------
  // list.remove

  /** Python's `b in lst` for breakers. */
  predicate Has(lst: seq<Breaker>, b: Breaker)
    decreases |lst|
  {
    lst != [] && (Same(lst[0], b) || Has(lst[1..], b))
  }

  /** How many elements of lst are equal to b. */
  function Occurrences(lst: seq<Breaker>, b: Breaker): nat
    decreases |lst|
  {
    if lst == [] then 0 else (if Same(lst[0], b) then 1 else 0) + Occurrences(lst[1..], b)
  }

  /** The position `list.remove(b)` removes: the first element equal to b. */
  function FirstIndex(lst: seq<Breaker>, b: Breaker): (i: nat)
    requires Has(lst, b)
    ensures i < |lst| && Same(lst[i], b)
    ensures forall j :: 0 <= j < i ==> !Same(lst[j], b)
    decreases |lst|
  {
    if Same(lst[0], b) then 0
    else
      var i := 1 + FirstIndex(lst[1..], b);
      assert forall j :: 1 <= j < i ==> lst[j] == lst[1..][j - 1];
      i
  }

  /** `if b in lst: lst.remove(b)`: drop the first element equal to b, or
      nothing when there is none. */
  function Remove(lst: seq<Breaker>, b: Breaker): (r: seq<Breaker>)
    ensures !Has(lst, b) ==> r == lst
    ensures Has(lst, b) ==> r == lst[..FirstIndex(lst, b)] + lst[FirstIndex(lst, b) + 1..]
    decreases |lst|
  {
    if lst == [] then []
    else if Same(lst[0], b) then lst[1..]
    else
      var rest := Remove(lst[1..], b);
      assert Has(lst, b) ==> [lst[0]] + rest == lst[..FirstIndex(lst, b)] + lst[FirstIndex(lst, b) + 1..] by {
        if Has(lst, b) {
          var i := FirstIndex(lst[1..], b);
          assert FirstIndex(lst, b) == i + 1;
          ConsSplice(lst[0], lst[1..], i);
          assert [lst[0]] + lst[1..] == lst;
        }
      }
      [lst[0]] + rest
  }

  /** Putting x in front commutes with cutting out the element at i. */
  lemma ConsSplice<T>(x: T, s: seq<T>, i: nat)
    requires i < |s|
    ensures [x] + (s[..i] + s[i + 1..]) == ([x] + s)[..i + 1] + ([x] + s)[i + 2..]
  {
    assert ([x] + s)[..i + 1] == [x] + s[..i];
    assert ([x] + s)[i + 2..] == s[i + 1..];
  }

  /** One remove takes away exactly one occurrence and keeps the order of
      the rest. */
  lemma {:induction false} RemoveOne(lst: seq<Breaker>, b: Breaker)
    requires Has(lst, b)
    ensures |Remove(lst, b)| == |lst| - 1
    ensures multiset(Remove(lst, b)) + multiset{lst[FirstIndex(lst, b)]} == multiset(lst)
    decreases |lst|
  {
    assert lst == [lst[0]] + lst[1..];
    if !Same(lst[0], b) {
      RemoveOne(lst[1..], b);
      var i := FirstIndex(lst[1..], b);
      assert FirstIndex(lst, b) == i + 1;
      assert lst[i + 1] == lst[1..][i];
      assert Remove(lst, b) == [lst[0]] + Remove(lst[1..], b);
      assert multiset(Remove(lst, b)) == multiset{lst[0]} + multiset(Remove(lst[1..], b));
    } else {
      assert FirstIndex(lst, b) == 0;
      assert Remove(lst, b) == lst[1..];
    }
  }

  /** b is in lst exactly when it occurs in it. */
  lemma {:induction false} HasOccurs(lst: seq<Breaker>, b: Breaker)
    ensures Has(lst, b) <==> Occurrences(lst, b) > 0
    decreases |lst|
  {
    if lst != [] {
      HasOccurs(lst[1..], b);
    }
  }

  /** One remove lowers the number of occurrences by one, if there is any. */
  lemma {:induction false} RemoveOccurrences(lst: seq<Breaker>, b: Breaker)
    ensures Occurrences(Remove(lst, b), b) == if Has(lst, b) then Occurrences(lst, b) - 1 else Occurrences(lst, b)
    decreases |lst|
  {
    if lst != [] && !Same(lst[0], b) {
      RemoveOccurrences(lst[1..], b);
      assert Remove(lst, b) == [lst[0]] + Remove(lst[1..], b);
      assert ([lst[0]] + Remove(lst[1..], b))[1..] == Remove(lst[1..], b);
    }
    HasOccurs(lst, b);
  }

  /** After one remove, b is gone from a list exactly when it occurred in it
      at most once. */
  lemma RemoveClears(lst: seq<Breaker>, b: Breaker)
    ensures !Has(Remove(lst, b), b) <==> Occurrences(lst, b) <= 1
  {
    RemoveOccurrences(lst, b);
    HasOccurs(lst, b);
    HasOccurs(Remove(lst, b), b);
  }

  /** A breaker registered two or more times in one list is still in it
      after one remove, one occurrence fewer. */
  lemma RemoveLeavesDuplicate(lst: seq<Breaker>, b: Breaker)
    requires Occurrences(lst, b) >= 2
    ensures Has(Remove(lst, b), b)
    ensures Occurrences(Remove(lst, b), b) == Occurrences(lst, b) - 1
  {
    HasOccurs(lst, b);
    RemoveOccurrences(lst, b);
    RemoveClears(lst, b);
  }

  /** Unregistering right after registering gives back the list when the
      breaker was not in it yet; otherwise the earlier copy goes and the
      new one stays at the end. */
  lemma {:induction false} RemoveAppended(lst: seq<Breaker>, b: Breaker)
    ensures Remove(lst + [b], b) == if Has(lst, b) then Remove(lst, b) + [b] else lst
    decreases |lst|
  {
    assert Same(b, b);
    if lst == [] {
      assert [b][1..] == [];
    } else {
      var l := lst + [b];
      assert l[0] == lst[0];
      assert l[1..] == lst[1..] + [b];
      RemoveAppended(lst[1..], b);
      if Same(lst[0], b) {
        assert Remove(l, b) == lst[1..] + [b];
        assert Remove(lst, b) == lst[1..];
      } else {
        assert Remove(l, b) == [lst[0]] + Remove(lst[1..] + [b], b);
        assert Has(lst, b) == Has(lst[1..], b);
        if Has(lst, b) {
          assert Remove(lst, b) == [lst[0]] + Remove(lst[1..], b);
        } else {
          assert [lst[0]] + lst[1..] == lst;
        }
      }
    }
  }

  // ---------------------------------------------------------------------
  // Configuration

  /** `CCKPaw._BreakerDef`: a breaker type tag, the phase to register it
      for, and its configuration. */
  datatype BreakerDef = BreakerDef(typ: string, breakerFor: string, config: Option<TimerConfig>)

  datatype PawConfig = PawConfig(
    motorConfig: MotorConfig,
    motorLimitsConfig: LimitsConfig,
    breakers: seq<BreakerDef>)

  /** The kind of breaker a descriptor yields: its class and its budget. */
  datatype Shape = Shape(cls: BreakerClass, totalTimeNs: int)

  function DefShape(d: BreakerDef): Shape
  {
    var c := FactoryClass(d.typ);
    Shape(c, if c == TimeExpiredClass then TotalTimeNs(d.config.GetOr(TimerConfig(None))) else 0)
  }

  function ShapeOf(b: Breaker): Shape
  {
    Shape(b.cls, b.totalTimeNs)
  }

  function Shapes(bs: seq<Breaker>): (r: seq<Shape>)
    ensures |r| == |bs|
  {
    seq(|bs|, i requires 0 <= i < |bs| => ShapeOf(bs[i]))
  }

  /** The shapes registered for `key`, descriptor by descriptor in order. */
  function ShapesFor(defs: seq<BreakerDef>, key: string): seq<Shape>
    decreases |defs|
  {
    if defs == [] then []
    else
      var last := defs[|defs| - 1];
      ShapesFor(defs[..|defs| - 1], key) + (if last.breakerFor == key then [DefShape(last)] else [])
  }

  /** p and q hold separate objects: no breaker occurs twice in one list,
      and no breaker is in both. */
  predicate Distinct(p: seq<Breaker>, q: seq<Breaker>)
  {
    && (forall i, j :: 0 <= i < j < |p| ==> p[i] != p[j])
    && (forall i, j :: 0 <= i < j < |q| ==> q[i] != q[j])
    && (forall i, j :: 0 <= i < |p| && 0 <= j < |q| ==> p[i] != q[j])
  }

  /** Registering a breaker that is in neither list, for one phase at
      most, keeps the two lists' objects separate. */
  lemma DistinctAppend(p: seq<Breaker>, q: seq<Breaker>, b: Breaker, toP: bool, toQ: bool)
    requires Distinct(p, q) && b !in p && b !in q && !(toP && toQ)
    ensures Distinct(if toP then p + [b] else p, if toQ then q + [b] else q)
  {
  }

  /** Every descriptor before position n names a phase. */
  predicate PhasesKnown(defs: seq<BreakerDef>, n: nat)
    requires n <= |defs|
  {
    forall i :: 0 <= i < n ==> IsPhase(defs[i].breakerFor)
  }

  // ---------------------------------------------------------------------
  // CCKPaw

  datatype Guard =
    | Broke(brk: Breaker)      // a breaker's shouldBreak() returned True
    | Tripped(name: string)    // a limit switch stopped the loop: LimitSwitch(name)
    | Raised(fault: Fault)     // a breaker raised; re-raised to the caller
    | OutOfFuel

  datatype Motion = Done | Faulted(fault: Fault) | Stalled

  /** A fault a breaker's poll can raise. */
  predicate MotionFault(f: Fault)
  {
    f == CCKException(ERROR_MESSAGE) || f == MotorTimeout(TIMEOUT_MESSAGE)
  }

  class CCKPaw {
    const motor: MotorDriver
    const limits: MotorLimits
    /** `_motorBreakChecks`. */
    var checks: map<string, seq<Breaker>>
    /** Every shouldBreak() and cleanup() this controller has issued. */
    ghost var calls: seq<Call>

    ghost predicate Valid()
      reads this, motor
    {
      checks.Keys == {PRESENT, RETRACT} && motor.Valid()
    }

    /** The driver, the limit switches and an empty registry; the
        configured breakers are registered by Create. */
    constructor (motorConfig: MotorConfig, limitsConfig: LimitsConfig, gpio: LimitInputs)
      ensures Valid() && fresh(motor) && fresh(limits)
      ensures limits.gpio == gpio
      ensures motor.in1Pin == motorConfig.motorIN1Pin.GetOr(MOTOR_IN1_PIN)
      ensures motor.in2Pin == motorConfig.motorIN2Pin.GetOr(MOTOR_IN2_PIN)
      ensures limits.frontPin == limitsConfig.frontLimitSwitchPin.GetOr(FRONT_LIMIT_SWITCH_PIN)
      ensures limits.rearPin == limitsConfig.rearLimitSwitchPin.GetOr(REAR_LIMIT_SWITCH_PIN)
      ensures motor.state == State.Stop && motor.outputs == Writes(State.Stop)
      ensures checks == map[PRESENT := [], RETRACT := []]
      ensures calls == []
    {
      motor := new MotorDriver(motorConfig);
      limits := new MotorLimits(limitsConfig, gpio);
      checks := map[PRESENT := [], RETRACT := []];
      calls := [];
    }

    /** `registerBreaker`: append b to the list of a known phase; any other
        key raises UnknownBreaker and changes nothing. */
    method RegisterBreaker(key: string, b: Breaker) returns (r: Result<(), Fault>)
      requires Valid()
      modifies this`checks
      ensures Valid()
      ensures IsPhase(key) ==> r.Success? && checks == old(checks)[key := old(checks)[key] + [b]]
      ensures !IsPhase(key) ==> r == Failure(UnknownBreaker(key)) && checks == old(checks)
    {
      if key in checks {
        checks := checks[key := checks[key] + [b]];
        r := Success(());
      } else {
        r := Failure(UnknownBreaker(key));
      }
    }

    /** The registration loop of `__init__`: build each descriptor's breaker
        with the factory and register it for its phase, in order, stopping
        at the first descriptor whose phase is unknown. */
    method Load(defs: seq<BreakerDef>) returns (r: Result<(), Fault>, ghost bad: nat)
      requires Valid() && checks == map[PRESENT := [], RETRACT := []]
      modifies this`checks
      ensures Valid()
      ensures r.Success? <==> PhasesKnown(defs, |defs|)
      ensures r.Failure? ==>
        && bad < |defs| && PhasesKnown(defs, bad)
        && !IsPhase(defs[bad].breakerFor)
        && r.error == UnknownBreaker(defs[bad].breakerFor)
      ensures r.Success? ==>
        && Shapes(checks[PRESENT]) == ShapesFor(defs, PRESENT)
        && Shapes(checks[RETRACT]) == ShapesFor(defs, RETRACT)
        && (forall b :: b in checks[PRESENT] ==> fresh(b) && b.time == 0)
        && (forall b :: b in checks[RETRACT] ==> fresh(b) && b.time == 0)
        && Distinct(checks[PRESENT], checks[RETRACT])
    {
      bad := 0;
      for i := 0 to |defs|
        invariant Valid() && PhasesKnown(defs, i)
        invariant Shapes(checks[PRESENT]) == ShapesFor(defs[..i], PRESENT)
        invariant Shapes(checks[RETRACT]) == ShapesFor(defs[..i], RETRACT)
        invariant forall b :: b in checks[PRESENT] ==> fresh(b) && b.time == 0
        invariant forall b :: b in checks[RETRACT] ==> fresh(b) && b.time == 0
        invariant Distinct(checks[PRESENT], checks[RETRACT])
      {
        var res, _ := RegisterNew(defs, i);
        if res.Failure? {
          bad := i;
          r := Failure(res.error);
          return;
        }
      }
      assert defs[..|defs|] == defs;
      r := Success(());
    }

    /** One step of the registration loop: build d's breaker with the factory
        and register it for d's phase. The new breaker is a separate object,
        so the lists stay `Distinct`. */
    method RegisterNew(defs: seq<BreakerDef>, i: nat) returns (r: Result<(), Fault>, ghost nb: Breaker)
      requires Valid() && i < |defs| && Distinct(checks[PRESENT], checks[RETRACT])
      requires Shapes(checks[PRESENT]) == ShapesFor(defs[..i], PRESENT)
      requires Shapes(checks[RETRACT]) == ShapesFor(defs[..i], RETRACT)
      modifies this`checks
      ensures Valid() && Distinct(checks[PRESENT], checks[RETRACT])
      ensures IsPhase(defs[i].breakerFor) <==> r.Success?
      ensures !IsPhase(defs[i].breakerFor) ==> r == Failure(UnknownBreaker(defs[i].breakerFor)) && checks == old(checks)
      ensures r.Success? ==>
        && fresh(nb) && nb.time == 0 && ShapeOf(nb) == DefShape(defs[i])
        && checks == old(checks)[defs[i].breakerFor := old(checks)[defs[i].breakerFor] + [nb]]
        && Shapes(checks[PRESENT]) == ShapesFor(defs[..i + 1], PRESENT)
        && Shapes(checks[RETRACT]) == ShapesFor(defs[..i + 1], RETRACT)
        && (forall b :: b in checks[PRESENT] ==> b in old(checks[PRESENT]) || (fresh(b) && b.time == 0))
        && (forall b :: b in checks[RETRACT] ==> b in old(checks[RETRACT]) || (fresh(b) && b.time == 0))
    {
      var d := defs[i];
      var b := BreakerFactory(d.typ, d.config);
      nb := b;
      ghost var before := checks;
      assert b !in before[PRESENT] && b !in before[RETRACT];
      r := RegisterBreaker(d.breakerFor, b);
      DistinctAppend(before[PRESENT], before[RETRACT], b, r.Success? && d.breakerFor == PRESENT, r.Success? && d.breakerFor == RETRACT);
      if r.Success? {
        RegisteredShapes(defs, i, PRESENT, before[PRESENT], checks[PRESENT], b);
        RegisteredShapes(defs, i, RETRACT, before[RETRACT], checks[RETRACT], b);
      }
    }

    /** `unregisterBreaker`: one `remove` of b from each list that has it. */
    method UnregisterBreaker(b: Breaker)
      requires Valid()
      modifies this`checks
      ensures Valid()
      ensures checks[PRESENT] == Remove(old(checks)[PRESENT], b)
      ensures checks[RETRACT] == Remove(old(checks)[RETRACT], b)
    {
      var keys := [PRESENT, RETRACT];
      assert PRESENT != RETRACT;
      for k := 0 to |keys|
        invariant Valid()
        invariant forall j :: 0 <= j < k ==> checks[keys[j]] == Remove(old(checks)[keys[j]], b)
        invariant forall j :: k <= j < |keys| ==> checks[keys[j]] == old(checks)[keys[j]]
      {
        var lst := checks[keys[k]];
        if Has(lst, b) {
          checks := checks[keys[k] := Remove(lst, b)];
        }
      }
      assert keys[0] == PRESENT && keys[1] == RETRACT;
    }

    /** `_breakerCleanup`: `cleanup()` on every breaker of the list, in order. */
    method BreakerCleanup(breakers: seq<Breaker>)
      modifies this`calls, set b | b in breakers
      ensures calls == old(calls) + Cleanups(breakers)
      ensures forall b :: b in breakers && b.cls == TimeExpiredClass ==> b.time == 0
      ensures forall b :: b in breakers && b.cls != TimeExpiredClass ==> b.time == old(b.time)
      ensures Times(breakers) == CleanedUp(breakers, old(Times(breakers)))
    {
      for i := 0 to |breakers|
        invariant calls == old(calls) + Cleanups(breakers[..i])
        invariant forall j :: 0 <= j < i && breakers[j].cls == TimeExpiredClass ==> breakers[j].time == 0
        invariant forall b :: b in breakers && b.cls != TimeExpiredClass ==> b.time == old(b.time)
      {
        assert Cleanups(breakers[..i + 1]) == Cleanups(breakers[..i]) + [CleanupCall(breakers[i])];
        calls := calls + [CleanupCall(breakers[i])];
        breakers[i].Cleanup();
      }
      assert breakers[..|breakers|] == breakers;
      assert forall b :: b in breakers && b.cls == TimeExpiredClass ==> b.time == 0;
    }

    /** One `brk.shouldBreak()` of the pass, logged in the trace; only the
        polled breaker's clock field and the clock change. */
    method PollOne(breakers: seq<Breaker>, i: nat, clock: Clock) returns (v: Verdict)
      requires i < |breakers|
      modifies this`calls, clock, breakers[i]
      ensures calls == old(calls) + [ShouldBreakCall(breakers[i])]
      ensures var s := Poll(breakers[i], old(breakers[i].time), clock.ticks, old(clock.now));
        && v == s.verdict && clock.now == s.next
        && Times(breakers) == old(Times(breakers))[breakers[i] := s.time]
    {
      var brk := breakers[i];
      calls := calls + [ShouldBreakCall(brk)];
      v := brk.ShouldBreak(clock);
    }

    /** The `for brk in breakers` pass of the guard loop: poll the breakers
        in list order up to the first one that does not answer Continue. */
    method PollRound(breakers: seq<Breaker>, clock: Clock) returns (v: Verdict, last: nat)
      modifies this`calls, clock, set b | b in breakers
      ensures v.Continue? ==> calls == old(calls) + Polls(breakers)
      ensures !v.Continue? ==> last < |breakers| && calls == old(calls) + Polls(breakers[..last + 1])
      ensures v.Stop? ==> breakers[last].cls == NullBreakerClass || breakers[last].cls == LimitSwitchClass
      ensures v.Fail? ==>
        || (breakers[last].cls == ErrorBreakerClass && v.fault == CCKException(ERROR_MESSAGE))
        || (breakers[last].cls == TimeExpiredClass && v.fault == MotorTimeout(TIMEOUT_MESSAGE))
      ensures var r := RoundFrom(breakers, 0, old(Times(breakers)), clock.ticks, old(clock.now));
        && v == r.verdict && (!v.Continue? ==> last == r.last)
        && Times(breakers) == r.times && clock.now == r.next
    {
      ghost var r0 := RoundFrom(breakers, 0, Times(breakers), clock.ticks, clock.now);
      RoundPassesOnlyTimers(breakers, 0, Times(breakers), clock.ticks, clock.now);
      var i := 0;
      while i < |breakers|
        invariant 0 <= i <= |breakers|
        invariant calls == old(calls) + Polls(breakers[..i])
        invariant r0 == RoundFrom(breakers, i, Times(breakers), clock.ticks, clock.now)
      {
        PollsSnoc(breakers, i);
        v := PollOne(breakers, i, clock);
        if !v.Continue? {
          last := i;
          return;
        }
        i := i + 1;
      }
      assert breakers[..|breakers|] == breakers;
      v, last := Continue, 0;
    }

    /** The guard loop's condition `not pressed(front) and not
        pressed(rear)`, the rear switch read only when front is clear. */
    method LoopTest() returns (clear: bool)
      modifies limits.gpio
      ensures var c := BothClear(limits.gpio.front, limits.gpio.rear, old(limits.gpio.now));
        clear == c.holds && limits.gpio.now == c.next
    {
      var front := limits.IsFrontLimitPressed();
      if front {
        return false;
      }
      var rear := limits.IsRearLimitPressed();
      clear := !rear;
    }

    /** The front back-off loop's condition `pressed(front) and not
        pressed(rear)`, the rear switch read only when front is pressed. */
    method FrontHeld() returns (held: bool)
      modifies limits.gpio
      ensures var c := HeldOnly(limits.gpio.front, limits.gpio.rear, old(limits.gpio.now));
        held == c.holds && limits.gpio.now == c.next
    {
      var front := limits.IsFrontLimitPressed();
      if !front {
        return false;
      }
      var rear := limits.IsRearLimitPressed();
      held := !rear;
    }

    /** The rear back-off loop's condition `pressed(rear) and not
        pressed(front)`, the front switch read only when rear is pressed. */
    method RearHeld() returns (held: bool)
      modifies limits.gpio
      ensures var c := HeldOnly(limits.gpio.rear, limits.gpio.front, old(limits.gpio.now));
        held == c.holds && limits.gpio.now == c.next
    {
      var rear := limits.IsRearLimitPressed();
      if !rear {
        return false;
      }
      var front := limits.IsFrontLimitPressed();
      held := !front;
    }

    /** One test of the guard loop's condition and, when it holds, one
        `for` pass over the breakers (PollRound).  The condition reads the
        front switch and, only when front is clear, the rear switch.  w0 is
        the run of the whole loop and n the full passes before this one: the
        pass either completes w0, exit actions aside, or leaves the rest of
        it to the remaining fuel. */
    method GuardPass(breakers: seq<Breaker>, clock: Clock, ghost fuel: nat, ghost w0: WaitRun, ghost n: nat)
      returns (clear: bool, v: Verdict, last: nat)
      requires fuel > 0
      requires var w := Wait(breakers, limits.gpio.front, limits.gpio.rear, limits.gpio.now, Times(breakers),
                             clock.ticks, clock.now, fuel, calls);
        w0 == w.(rounds := n + w.rounds)
      modifies this`calls, limits.gpio, clock, set b | b in breakers
      ensures !clear ==>
        w0 == WaitRun(Tripped(if Pressed(limits.gpio.front(limits.gpio.now)) then "front" else "rear"),
                      n, 0, CleanedUp(breakers, Times(breakers)), limits.gpio.now + 1, clock.now,
                      old(limits.gpio.now), calls + Cleanups(breakers))
      ensures clear && !v.Continue? ==>
        && last < |breakers|
        && w0 == WaitRun(if v.Stop? then Broke(breakers[last]) else Raised(v.fault), n, last,
                         if v.Fail? then CleanedUp(breakers, Times(breakers)) else Times(breakers),
                         limits.gpio.now, clock.now, old(limits.gpio.now),
                         if v.Fail? then calls + Cleanups(breakers) else calls)
      ensures clear && v.Continue? ==>
        var w := Wait(breakers, limits.gpio.front, limits.gpio.rear, limits.gpio.now, Times(breakers),
                      clock.ticks, clock.now, fuel - 1, calls);
        w0 == w.(rounds := n + 1 + w.rounds)
    {
      ghost var t, times, at, acc := limits.gpio.now, Times(breakers), clock.now, calls;
      v, last := Continue, 0;
      clear := LoopTest();
      if !clear {
        WaitTrip(breakers, limits.gpio.front, limits.gpio.rear, t, times, clock.ticks, at, fuel, acc);
        return;
      }
      v, last := PollRound(breakers, clock);
      if !v.Continue? {
        WaitVerdict(breakers, limits.gpio.front, limits.gpio.rear, clock.ticks, fuel, t, times, at, acc,
                    v, last, Times(breakers), clock.now, calls, w0, n);
      } else {
        WaitPass(breakers, limits.gpio.front, limits.gpio.rear, clock.ticks, fuel, t, times, at, acc,
                 limits.gpio.now, Times(breakers), clock.now, calls, w0, n);
      }
    }

    /** The guard loop's exit: `self._motor.stop()` and, on a raise or a
        tripped limit, `_breakerCleanup(breakers)`. */
    method Halt(breakers: seq<Breaker>, cleanup: bool)
      modifies this`calls, motor, set b | b in breakers
      ensures motor.Valid() && motor.state == State.Stop
      ensures motor.outputs == old(motor.outputs) + Writes(State.Stop)
      ensures calls == if cleanup then old(calls) + Cleanups(breakers) else old(calls)
      ensures Times(breakers) == if cleanup then CleanedUp(breakers, old(Times(breakers))) else old(Times(breakers))
      ensures cleanup ==> forall b :: b in breakers && b.cls == TimeExpiredClass ==> b.time == 0
    {
      motor.Stop();
      if cleanup {
        BreakerCleanup(breakers);
      }
    }

    /** The `while` of `_wait_for_any_limit_and_stop` up to the point where
        it leaves: the loop condition fails (`clear` is false), a breaker
        answers something other than Continue, or the fuel is spent.  Each
        exit is stated as the run of Wait it completes, exit actions aside. */
    method GuardLoop(breakers: seq<Breaker>, clock: Clock, fuel: nat)
      returns (spent: bool, clear: bool, v: Verdict, last: nat, ghost rounds: nat, ghost checkAt: nat,
               ghost w0: WaitRun)
      modifies this`calls, limits.gpio, clock, set b | b in breakers
      ensures w0 == Wait(breakers, limits.gpio.front, limits.gpio.rear, old(limits.gpio.now), old(Times(breakers)),
                         clock.ticks, old(clock.now), fuel, old(calls))
      ensures !spent && clear ==> !v.Continue? && last < |breakers|
      ensures spent ==> w0 == WaitRun(OutOfFuel, rounds, 0, Times(breakers), limits.gpio.now, clock.now, checkAt, calls)
      ensures !spent && !clear ==>
        w0 == WaitRun(Tripped(if Pressed(limits.gpio.front(limits.gpio.now)) then "front" else "rear"),
                      rounds, 0, CleanedUp(breakers, Times(breakers)), limits.gpio.now + 1, clock.now, checkAt,
                      calls + Cleanups(breakers))
      ensures !spent && clear ==>
        w0 == WaitRun(if v.Stop? then Broke(breakers[last]) else Raised(v.fault), rounds, last,
                      if v.Fail? then CleanedUp(breakers, Times(breakers)) else Times(breakers),
                      limits.gpio.now, clock.now, checkAt, if v.Fail? then calls + Cleanups(breakers) else calls)
    {
      rounds, checkAt := 0, 0;
      spent, clear, v, last := false, true, Continue, 0;
      var budget := fuel;
      w0 := Wait(breakers, limits.gpio.front, limits.gpio.rear, limits.gpio.now, Times(breakers),
                 clock.ticks, clock.now, fuel, calls);
      while true
        invariant var w := Wait(breakers, limits.gpio.front, limits.gpio.rear, limits.gpio.now, Times(breakers),
                                clock.ticks, clock.now, budget, calls);
          w0 == w.(rounds := rounds + w.rounds)
        decreases budget
      {
        if budget == 0 {
          spent, checkAt := true, limits.gpio.now;
          return;
        }
        checkAt := limits.gpio.now;
        clear, v, last := GuardPass(breakers, clock, budget, w0, rounds);
        budget := budget - 1;
        if !clear || !v.Continue? {
          return;
        }
        rounds := rounds + 1;
      }
    }

    /** The body of `_wait_for_any_limit_and_stop`: the guard loop, then its
        exit actions.  Every exit is the end of the run Wait describes. */
    method RunGuard(breakers: seq<Breaker>, clock: Clock, fuel: nat)
      returns (out: Guard, ghost rounds: nat, ghost last: nat, ghost checkAt: nat)
      modifies this`calls, motor, limits.gpio, clock, set b | b in breakers
      ensures out.OutOfFuel? ==> unchanged(motor)
      ensures !out.OutOfFuel? ==> motor.Valid() && motor.state == State.Stop
      ensures !out.OutOfFuel? ==> motor.outputs == old(motor.outputs) + Writes(State.Stop)
      ensures out.Raised? || out.Tripped? ==>
        forall b :: b in breakers && b.cls == TimeExpiredClass ==> b.time == 0
      ensures var w := Wait(breakers, limits.gpio.front, limits.gpio.rear, old(limits.gpio.now), old(Times(breakers)),
                            clock.ticks, old(clock.now), fuel, old(calls));
        && out == w.out && rounds == w.rounds && last == w.last && calls == w.calls && checkAt == w.check
        && Times(breakers) == w.times && limits.gpio.now == w.read && clock.now == w.clockAt
    {
      var spent, clear, v, i;
      ghost var w0;
      spent, clear, v, i, rounds, checkAt, w0 := GuardLoop(breakers, clock, fuel);
      last := i;
      if spent {
        out, last := OutOfFuel, 0;
      } else if !clear {
        Halt(breakers, true);
        var front := limits.IsFrontLimitPressed();
        out, last := Tripped(if front then "front" else "rear"), 0;
      } else if v.Stop? {
        Halt(breakers, false);
        out := Broke(breakers[i]);
      } else {
        Halt(breakers, true);
        out := Raised(v.fault);
      }
    }

    /** `_wait_for_any_limit_and_stop`.  While neither limit is pressed,
        poll the breakers in list order.  A breaker that breaks stops the
        motor and is returned, and nobody is cleaned up; a breaker that
        raises stops the motor, has every breaker of the list cleaned up
        once, in order, and its fault re-raised; a pressed limit stops the
        motor, has every breaker cleaned up, and yields
        `LimitSwitch("front")` if front reads pressed afterwards, else
        `LimitSwitch("rear")`. */
    method WaitForAnyLimitAndStop(breakers: seq<Breaker>, clock: Clock, fuel: nat)
      returns (out: Guard, ghost rounds: nat, ghost last: nat, ghost checkAt: nat)
      modifies this`calls, motor, limits.gpio, clock, set b | b in breakers
      ensures out.OutOfFuel? ==> unchanged(motor) && rounds == fuel && calls == old(calls) + Rounds(breakers, rounds)
      ensures !out.OutOfFuel? ==> motor.Valid() && motor.state == State.Stop
      ensures !out.OutOfFuel? ==> motor.outputs == old(motor.outputs) + Writes(State.Stop)
      ensures out.Broke? ==>
        && last < |breakers| && out.brk == breakers[last]
        && (out.brk.cls == NullBreakerClass || out.brk.cls == LimitSwitchClass)
        && calls == old(calls) + Rounds(breakers, rounds) + Polls(breakers[..last + 1])
      ensures out.Raised? ==>
        && last < |breakers|
        && (breakers[last].cls == ErrorBreakerClass ==> out.fault == CCKException(ERROR_MESSAGE))
        && (breakers[last].cls == TimeExpiredClass ==> out.fault == MotorTimeout(TIMEOUT_MESSAGE))
        && (breakers[last].cls == ErrorBreakerClass || breakers[last].cls == TimeExpiredClass)
        && calls == old(calls) + Rounds(breakers, rounds) + Polls(breakers[..last + 1]) + Cleanups(breakers)
      ensures out.Tripped? ==>
        && calls == old(calls) + Rounds(breakers, rounds) + Cleanups(breakers)
        && old(limits.gpio.now) <= checkAt < limits.gpio.now
        && BothClear(limits.gpio.front, limits.gpio.rear, checkAt) == Check(false, limits.gpio.now - 1)
        && (out.name == "front" <==> Pressed(limits.gpio.front(limits.gpio.now - 1)))
        && (out.name == "front" || out.name == "rear")
      ensures out.Raised? || out.Tripped? ==>
        forall b :: b in breakers && b.cls == TimeExpiredClass ==> b.time == 0
      ensures var w := Wait(breakers, limits.gpio.front, limits.gpio.rear, old(limits.gpio.now), old(Times(breakers)),
                            clock.ticks, old(clock.now), fuel, old(calls));
        && out == w.out && rounds == w.rounds && last == w.last && calls == w.calls
        && Times(breakers) == w.times && limits.gpio.now == w.read && clock.now == w.clockAt
    {
      WaitEnds(breakers, limits.gpio.front, limits.gpio.rear, limits.gpio.now, Times(breakers), clock.ticks, clock.now,
               fuel, calls);
      WaitTrace(breakers, limits.gpio.front, limits.gpio.rear, limits.gpio.now, Times(breakers), clock.ticks, clock.now,
                fuel, calls);
      out, rounds, last, checkAt := RunGuard(breakers, clock, fuel);
    }

    /** `_back_off_front_limit`: stop, drive backward while the front limit
        is pressed and the rear one is not, stop. */
    method BackOffFrontLimit(fuel: nat) returns (ok: bool, ghost checkAt: nat)
      modifies motor, limits.gpio
      ensures motor.Valid()
      ensures ok ==>
        && motor.state == State.Stop
        && motor.outputs == old(motor.outputs) + Writes(State.Stop) + Writes(State.Backward) + Writes(State.Stop)
        && old(limits.gpio.now) <= checkAt
        && HeldOnly(limits.gpio.front, limits.gpio.rear, checkAt) == Check(false, limits.gpio.now)
      ensures !ok ==>
        && motor.state == State.Backward
        && motor.outputs == old(motor.outputs) + Writes(State.Stop) + Writes(State.Backward)
      ensures var run := BackOff(limits.gpio.front, limits.gpio.rear, old(limits.gpio.now), fuel);
        ok == run.ok && limits.gpio.now == run.read
    {
      motor.Stop();
      motor.Backward();
      checkAt := limits.gpio.now;
      var budget := fuel;
      ghost var run0 := BackOff(limits.gpio.front, limits.gpio.rear, limits.gpio.now, fuel);
      while true
        invariant motor.Valid() && motor.state == State.Backward
        invariant motor.outputs == old(motor.outputs) + Writes(State.Stop) + Writes(State.Backward)
        invariant old(limits.gpio.now) <= limits.gpio.now
        invariant var run := BackOff(limits.gpio.front, limits.gpio.rear, limits.gpio.now, budget);
          run0.ok == run.ok && run0.read == run.read
        decreases budget
      {
        if budget == 0 {
          ok := false;
          return;
        }
        budget := budget - 1;
        checkAt := limits.gpio.now;
        var held := FrontHeld();
        if !held {
          break;
        }
      }
      motor.Stop();
      ok := true;
    }

    /** `_back_off_rear_limit`: stop, drive forward while the rear limit is
        pressed and the front one is not, stop. */
    method BackOffRearLimit(fuel: nat) returns (ok: bool, ghost checkAt: nat)
      modifies motor, limits.gpio
      ensures motor.Valid()
      ensures ok ==>
        && motor.state == State.Stop
        && motor.outputs == old(motor.outputs) + Writes(State.Stop) + Writes(State.Forward) + Writes(State.Stop)
        && old(limits.gpio.now) <= checkAt
        && HeldOnly(limits.gpio.rear, limits.gpio.front, checkAt) == Check(false, limits.gpio.now)
      ensures !ok ==>
        && motor.state == State.Forward
        && motor.outputs == old(motor.outputs) + Writes(State.Stop) + Writes(State.Forward)
      ensures var run := BackOff(limits.gpio.rear, limits.gpio.front, old(limits.gpio.now), fuel);
        ok == run.ok && limits.gpio.now == run.read
    {
      motor.Stop();
      motor.Forward();
      checkAt := limits.gpio.now;
      var budget := fuel;
      ghost var run0 := BackOff(limits.gpio.rear, limits.gpio.front, limits.gpio.now, fuel);
      while true
        invariant motor.Valid() && motor.state == State.Forward
        invariant motor.outputs == old(motor.outputs) + Writes(State.Stop) + Writes(State.Forward)
        invariant old(limits.gpio.now) <= limits.gpio.now
        invariant var run := BackOff(limits.gpio.rear, limits.gpio.front, limits.gpio.now, budget);
          run0.ok == run.ok && run0.read == run.read
        decreases budget
      {
        if budget == 0 {
          ok := false;
          return;
        }
        budget := budget - 1;
        checkAt := limits.gpio.now;
        var held := RearHeld();
        if !held {
          break;
        }
      }
      motor.Stop();
      ok := true;
    }

    /** `present()`: drive forward, guard on the "present" list only, back
        off the front limit.  Ends with the motor stopped whether it
        completes or a breaker's fault propagates. */
    method Present(clock: Clock, fuel: nat) returns (m: Motion, ghost cause: Guard)
      requires Valid()
      modifies this`calls, motor, limits.gpio, clock, set b | b in checks[PRESENT]
      ensures Valid() && checks == old(checks)
      ensures |old(calls)| <= |calls| && CallsTo(calls[|old(calls)|..], checks[PRESENT])
      ensures m.Done? ==>
        && (cause.Broke? || cause.Tripped?) && motor.state == State.Stop
        && motor.outputs == old(motor.outputs) + Writes(State.Forward) + Writes(State.Stop)
                            + Writes(State.Stop) + Writes(State.Backward) + Writes(State.Stop)
      ensures m.Faulted? ==>
        && cause == Raised(m.fault) && MotionFault(m.fault) && motor.state == State.Stop
        && motor.outputs == old(motor.outputs) + Writes(State.Forward) + Writes(State.Stop)
      ensures cause.Broke? ==> NoCleanup(calls[|old(calls)|..])
      ensures cause.Raised? || cause.Tripped? ==>
        && |calls| >= |old(calls)| + |checks[PRESENT]|
        && calls[|calls| - |checks[PRESENT]|..] == Cleanups(checks[PRESENT])
        && forall b :: b in checks[PRESENT] && b.cls == TimeExpiredClass ==> b.time == 0
      ensures var w := Wait(checks[PRESENT], limits.gpio.front, limits.gpio.rear, old(limits.gpio.now),
                            old(Times(checks[PRESENT])), clock.ticks, old(clock.now), fuel, old(calls));
        var back := BackOff(limits.gpio.front, limits.gpio.rear, w.read, fuel);
        && cause == w.out && m == MotionOf(w.out, back.ok) && calls == w.calls
        && Times(checks[PRESENT]) == w.times && clock.now == w.clockAt
        && limits.gpio.now == if w.out.OutOfFuel? || w.out.Raised? then w.read else back.read
    {
      var breakers := checks[PRESENT];
      motor.Forward();
      var g, rounds, last, _ := WaitForAnyLimitAndStop(breakers, clock, fuel);
      cause := g;
      GuardTrace(breakers, g, rounds, last, old(calls), calls);
      if g.OutOfFuel? {
        m := Stalled;
        return;
      } else if g.Raised? {
        m := Faulted(g.fault);
        return;
      }
      var ok, _ := BackOffFrontLimit(fuel);
      m := if ok then Done else Stalled;
    }

    /** `retract()`: the mirror image, on the "retract" list and the rear
        limit. */
    method Retract(clock: Clock, fuel: nat) returns (m: Motion, ghost cause: Guard)
      requires Valid()
      modifies this`calls, motor, limits.gpio, clock, set b | b in checks[RETRACT]
      ensures Valid() && checks == old(checks)
      ensures |old(calls)| <= |calls| && CallsTo(calls[|old(calls)|..], checks[RETRACT])
      ensures m.Done? ==>
        && (cause.Broke? || cause.Tripped?) && motor.state == State.Stop
        && motor.outputs == old(motor.outputs) + Writes(State.Backward) + Writes(State.Stop)
                            + Writes(State.Stop) + Writes(State.Forward) + Writes(State.Stop)
      ensures m.Faulted? ==>
        && cause == Raised(m.fault) && MotionFault(m.fault) && motor.state == State.Stop
        && motor.outputs == old(motor.outputs) + Writes(State.Backward) + Writes(State.Stop)
      ensures cause.Broke? ==> NoCleanup(calls[|old(calls)|..])
      ensures cause.Raised? || cause.Tripped? ==>
        && |calls| >= |old(calls)| + |checks[RETRACT]|
        && calls[|calls| - |checks[RETRACT]|..] == Cleanups(checks[RETRACT])
        && forall b :: b in checks[RETRACT] && b.cls == TimeExpiredClass ==> b.time == 0
      ensures var w := Wait(checks[RETRACT], limits.gpio.front, limits.gpio.rear, old(limits.gpio.now),
                            old(Times(checks[RETRACT])), clock.ticks, old(clock.now), fuel, old(calls));
        var back := BackOff(limits.gpio.rear, limits.gpio.front, w.read, fuel);
        && cause == w.out && m == MotionOf(w.out, back.ok) && calls == w.calls
        && Times(checks[RETRACT]) == w.times && clock.now == w.clockAt
        && limits.gpio.now == if w.out.OutOfFuel? || w.out.Raised? then w.read else back.read
    {
      var breakers := checks[RETRACT];
      motor.Backward();
      var g, rounds, last, _ := WaitForAnyLimitAndStop(breakers, clock, fuel);
      cause := g;
      GuardTrace(breakers, g, rounds, last, old(calls), calls);
      if g.OutOfFuel? {
        m := Stalled;
        return;
      } else if g.Raised? {
        m := Faulted(g.fault);
        return;
      }
      var ok, _ := BackOffRearLimit(fuel);
      m := if ok then Done else Stalled;
    }

    /** `reset()`: the same as `retract()`. */
    method Reset(clock: Clock, fuel: nat) returns (m: Motion, ghost cause: Guard)
      requires Valid()
      modifies this`calls, motor, limits.gpio, clock, set b | b in checks[RETRACT]
      ensures Valid() && checks == old(checks)
      ensures |old(calls)| <= |calls| && CallsTo(calls[|old(calls)|..], checks[RETRACT])
      ensures m.Done? ==>
        && (cause.Broke? || cause.Tripped?) && motor.state == State.Stop
        && motor.outputs == old(motor.outputs) + Writes(State.Backward) + Writes(State.Stop)
                            + Writes(State.Stop) + Writes(State.Forward) + Writes(State.Stop)
      ensures m.Faulted? ==>
        && cause == Raised(m.fault) && MotionFault(m.fault) && motor.state == State.Stop
        && motor.outputs == old(motor.outputs) + Writes(State.Backward) + Writes(State.Stop)
      ensures cause.Broke? ==> NoCleanup(calls[|old(calls)|..])
      ensures cause.Raised? || cause.Tripped? ==>
        && |calls| >= |old(calls)| + |checks[RETRACT]|
        && calls[|calls| - |checks[RETRACT]|..] == Cleanups(checks[RETRACT])
        && forall b :: b in checks[RETRACT] && b.cls == TimeExpiredClass ==> b.time == 0
      ensures var w := Wait(checks[RETRACT], limits.gpio.front, limits.gpio.rear, old(limits.gpio.now),
                            old(Times(checks[RETRACT])), clock.ticks, old(clock.now), fuel, old(calls));
        var back := BackOff(limits.gpio.rear, limits.gpio.front, w.read, fuel);
        && cause == w.out && m == MotionOf(w.out, back.ok) && calls == w.calls
        && Times(checks[RETRACT]) == w.times && clock.now == w.clockAt
        && limits.gpio.now == if w.out.OutOfFuel? || w.out.Raised? then w.read else back.read
    {
      m, cause := Retract(clock, fuel);
    }
  }

  /** What the guard loop's trace says about the calls a motion adds. */
  lemma GuardTrace(bs: seq<Breaker>, g: Guard, rounds: nat, last: nat, before: seq<Call>, after: seq<Call>)
    requires g.OutOfFuel? ==> after == before + Rounds(bs, rounds)
    requires g.Broke? ==> last < |bs| && after == before + Rounds(bs, rounds) + Polls(bs[..last + 1])
    requires g.Raised? ==> last < |bs| && after == before + Rounds(bs, rounds) + Polls(bs[..last + 1]) + Cleanups(bs)
    requires g.Tripped? ==> after == before + Rounds(bs, rounds) + Cleanups(bs)
    ensures |before| <= |after| && CallsTo(after[|before|..], bs)
    ensures g.Broke? ==> NoCleanup(after[|before|..])
    ensures g.Raised? || g.Tripped? ==>
      |after| >= |before| + |bs| && after[|after| - |bs|..] == Cleanups(bs)
  {
    var tail := after[|before|..];
    var r := Rounds(bs, rounds);
    assert bs[..0] == [] && Polls(bs[..0]) == [];
    if g.OutOfFuel? {
      assert tail == r + Polls(bs[..0]);
      GuardCallsTo(bs, rounds, 0);
    } else if g.Broke? {
      assert tail == r + Polls(bs[..last + 1]);
      GuardCallsTo(bs, rounds, last + 1);
    } else if g.Raised? {
      assert tail == r + Polls(bs[..last + 1]) + Cleanups(bs);
      GuardCallsTo(bs, rounds, last + 1);
    } else {
      assert tail == r + Cleanups(bs);
      GuardCallsTo(bs, rounds, 0);
    }
  }

  /** `CCKPaw.__init__`: build the controller, then register each configured
      breaker, built by the factory, for its phase, in order.  The first
      descriptor naming an unknown phase aborts construction with
      UnknownBreaker. */
  method Create(config: PawConfig, gpio: LimitInputs) returns (r: Result<CCKPaw, Fault>, ghost bad: nat)
    ensures r.Success? <==> PhasesKnown(config.breakers, |config.breakers|)
    ensures r.Failure? ==>
      && bad < |config.breakers| && PhasesKnown(config.breakers, bad)
      && !IsPhase(config.breakers[bad].breakerFor)
      && r.error == UnknownBreaker(config.breakers[bad].breakerFor)
    ensures r.Success? ==>
      var paw := r.value;
      && fresh(paw) && fresh(paw.motor) && fresh(paw.limits) && paw.Valid() && paw.limits.gpio == gpio
      && paw.motor.in1Pin == config.motorConfig.motorIN1Pin.GetOr(MOTOR_IN1_PIN)
      && paw.motor.in2Pin == config.motorConfig.motorIN2Pin.GetOr(MOTOR_IN2_PIN)
      && paw.limits.frontPin == config.motorLimitsConfig.frontLimitSwitchPin.GetOr(FRONT_LIMIT_SWITCH_PIN)
      && paw.limits.rearPin == config.motorLimitsConfig.rearLimitSwitchPin.GetOr(REAR_LIMIT_SWITCH_PIN)
      && paw.motor.state == State.Stop && paw.motor.outputs == Writes(State.Stop) && paw.calls == []
      && Shapes(paw.checks[PRESENT]) == ShapesFor(config.breakers, PRESENT)
      && Shapes(paw.checks[RETRACT]) == ShapesFor(config.breakers, RETRACT)
      && (forall b :: b in paw.checks[PRESENT] ==> fresh(b) && b.time == 0)
      && (forall b :: b in paw.checks[RETRACT] ==> fresh(b) && b.time == 0)
      && Distinct(paw.checks[PRESENT], paw.checks[RETRACT])
  {
    var paw := new CCKPaw(config.motorConfig, config.motorLimitsConfig, gpio);
    var res;
    res, bad := paw.Load(config.breakers);
    if res.Failure? {
      r := Failure(res.error);
    } else {
      r := Success(paw);
    }
  }

  /** Registering the breaker built from descriptor i extends the shapes of
      the list of its phase, and of no other. */
  lemma RegisteredShapes(defs: seq<BreakerDef>, i: nat, key: string, before: seq<Breaker>, after: seq<Breaker>, b: Breaker)
    requires i < |defs| && ShapeOf(b) == DefShape(defs[i])
    requires Shapes(before) == ShapesFor(defs[..i], key)
    requires after == if defs[i].breakerFor == key then before + [b] else before
    ensures Shapes(after) == ShapesFor(defs[..i + 1], key)
  {
    assert defs[..i + 1][..i] == defs[..i];
    if defs[i].breakerFor == key {
      assert Shapes(before + [b])[|before|] == ShapeOf(b);
    }
  }
}
