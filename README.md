# Paw actuator: guarded motion, in Dafny

This project models the guarded-motion core of the BeagleBone "HAMBone" presenter driver and proves properties of it:

- the two-pin direction driver of the paw motor (`MotorDriver`) and its two active-low limit switches (`MotorLimits`);
- the paw controller `CCKPaw`. It keeps a per-phase registry of guard "breakers" (`"present"` / `"retract"`). Its guarded motions drive the motor until a limit switch trips or a breaker intervenes, then back off the limit;
- the breaker family (`NullBreaker`, `ErrorBreaker`, `LimitSwitch`, `TimeExpired`) and `breakerFactory`;
- the NeoPixel colour-word channel extractors `RED`, `GREEN`, `BLUE`.

Files:

- `outcomes.dfy` (module `Outcomes`): `Option` and `Result`. They stand in for `None` defaults and for raised exceptions.
- `color.dfy` (module `Color`): the extractors on unbounded integers. It also defines a bit-by-bit reference meaning of "bits lo..lo+7" and a GRB packing function.
- `driver.dfy` (module `Driver`): the pin truth table, the order of the output calls of `set_state`, and the classes `MotorDriver`, `LimitInputs` (the injected GPIO inputs) and `MotorLimits`.
- `breakers.dfy` (module `Breakers`): faults, verdicts, the injected `perf_counter_ns` clock, `TimeExpired` as a function of its state and the clock, the `Breaker` class, `Same` (Python `==` between breakers) and the factory.
- `paw.dfy` (module `Paw`): `list.remove`, the registry and the `CCKPaw` class, with a ghost trace of every `shouldBreak()` and `cleanup()` call.

How the model represents the environment:

- `GPIO.output` becomes two pin-level fields plus an ordered log `outputs` of every call.
- `GPIO.input` becomes a `LimitInputs` object. It holds two raw level schedules `front, rear: nat -> bool`, indexed by a read counter `now` that every input read of either switch advances. So "the world moves on between two reads" is modelled by the schedule.
- `perf_counter_ns` becomes a `Clock` with a schedule `ticks: nat -> nat` and a counter of readings. Where a property needs a clock that never runs backwards, it requires `Monotone(ticks)`.
- `shouldBreak()` returns a `Verdict`: `Continue` (False), `Stop` (True) or `Fail(fault)` (raised).
- The two busy-wait loops (the guard loop and the back-off loops) take a `fuel` bound on their number of iterations. Running out of it is reported separately (`OutOfFuel` from the guard, `Stalled` from a motion). Nothing here claims that the source's loops terminate.
- The guard loop and the back-off loops are also written as functions of the inputs: `RoundFrom` (one `for` pass), `Wait` (the whole guard) and `BackOff`. Each loop method is proved to end exactly as its function says, and the properties of the loops are lemmas about these functions.

## Model

| member | source | states |
|---|---|---|
| Color.Red | src/presenter_drivers/neopixel/Color.py:64-65 | the result is in 0..255 and equals bits 8-15 of the colour word (the reference `Bits`), negative words included |
| Color.Green | src/presenter_drivers/neopixel/Color.py:68-69 | the result is in 0..255 and equals bits 16-23 of the word |
| Color.Blue | src/presenter_drivers/neopixel/Color.py:72-73 | the result is in 0..255 and equals bits 0-7 of the word |
| Color.MaskShiftIsByte | src/presenter_drivers/neopixel/Color.py:64-73 | masking a byte in place and shifting it down is the byte-wide window of the word at that bit |
| Color.BitsWindow | src/presenter_drivers/neopixel/Color.py:64-73 | the bit-by-bit field equals the quotient/remainder window `(c / 2^lo) % 2^n` |
| Color.PackUnpack | src/presenter_drivers/neopixel/Color.py:64-73 | for bytes g, r, b, GREEN, RED and BLUE of `g*65536 + r*256 + b` give back g, r and b (GRB layout) |
| Color.UnpackPack | src/presenter_drivers/neopixel/Color.py:64-73 | packing the three extracted channels of any word gives its low 24 bits, so the channels cover bits 0-23 and nothing more |
| Driver.Writes | src/presenter_drivers/motor/driver.py:56-70 | the `GPIO.output` calls `set_state(s)` issues, in the source's order: FORWARD IN1 low then IN2 high, BACKWARD IN2 low then IN1 high, BREAK IN2 high then IN1 high, STOP IN2 low then IN1 low |
| Driver.SetStateEncodes | src/presenter_drivers/motor/driver.py:55-71 | whatever the pins were, after the writes of `set_state(s)` they command exactly s, and s alone determines them |
| Driver.SetStateIdempotent | src/presenter_drivers/motor/driver.py:55-71 | a second `set_state(s)` leaves the pins where the first left them |
| Driver.SetStateInjective | src/presenter_drivers/motor/driver.py:55-71 | distinct states drive distinct pin levels |
| Driver.NoTransientBrake | src/presenter_drivers/motor/driver.py:55-71 | between its two writes, `set_state` of a non-brake state never passes through brake (both pins high) unless the pins already did |
| Driver.ReversalPassesThroughStop | src/presenter_drivers/motor/driver.py:56-63 | reversing between forward and backward lowers the driven pin first, so the bridge coasts before it drives the other way |
| Driver.MotorDriver.constructor | src/presenter_drivers/motor/driver.py:32-41 | pins come from the configuration or the defaults P8_7/P8_9; a fresh driver is in STOP with both pins low, having issued just the two STOP writes |
| Driver.MotorDriver.GpioSetup | src/presenter_drivers/motor/driver.py:38-41 | setup ends with the driver stopped and both pins low |
| Driver.MotorDriver.SetState | src/presenter_drivers/motor/driver.py:55-71 | the stored state becomes s; the pins become the levels of s's writes applied to the old pins; exactly those two writes are appended to the output log, in the source's order |
| Driver.MotorDriver.Forward | src/presenter_drivers/motor/driver.py:43-44 | FORWARD: IN1 low, IN2 high, the two writes of `set_state(FORWARD)` appended |
| Driver.MotorDriver.Backward | src/presenter_drivers/motor/driver.py:46-47 | BACKWARD: IN1 high, IN2 low, the two writes of `set_state(BACKWARD)` appended |
| Driver.MotorDriver.Stop | src/presenter_drivers/motor/driver.py:49-50 | STOP: both pins low, the two writes of `set_state(STOP)` appended |
| Driver.MotorDriver.GetState | src/presenter_drivers/motor/driver.py:52-53 | returns the state recorded by the latest `set_state`, which is what the pins command |
| Driver.MotorDriver.Output | src/presenter_drivers/motor/driver.py:57-70 | one output call sets one pin and is appended to the log; the stored state is untouched |
| Driver.LimitInputs.Input | src/presenter_drivers/motor/driver.py:95-98 | a read returns the scheduled level of that switch at the current read index and advances the index by one |
| Driver.MotorLimits.constructor | src/presenter_drivers/motor/driver.py:80-88 | switch pins come from the configuration or the defaults P8_12/P8_10 |
| Driver.Pressed | src/presenter_drivers/motor/driver.py:94-98 | `not GPIO.input(pin)`: a switch is pressed exactly when its input level is low (active-low) |
| Driver.MotorLimits.IsFrontLimitPressed | src/presenter_drivers/motor/driver.py:94-95 | pressed exactly when the front input reads low; only the input schedule's read index moves |
| Driver.MotorLimits.IsRearLimitPressed | src/presenter_drivers/motor/driver.py:97-98 | pressed exactly when the rear input reads low; only the read index moves |
| Breakers.TimerPoll | src/presenter_drivers/motor/CCKPaw.py:71-79 | one TimeExpired poll either continues or raises MotorTimeout("Motor took to long to reach limit"); raising leaves the clock reset to 0; it reads the clock twice when idle, once when running |
| Breakers.TimerRun | src/presenter_drivers/motor/CCKPaw.py:71-79 | a TimeExpired polled n times in a row, each poll as `TimerPoll` from where the previous one left the clock field and the clock, stopping at the first MotorTimeout |
| Breakers.TotalTimeNs | src/presenter_drivers/motor/CCKPaw.py:67-68 | the stored budget: `totalTimeMs` (0 when absent) times 1000000 ns |
| Breakers.RunningTimer | src/presenter_drivers/motor/CCKPaw.py:71-85 | a running timer polled n times raises exactly at the first reading that is `total` or more past its start, never earlier, and keeps its start while it continues |
| Breakers.FreshTimer | src/presenter_drivers/motor/CCKPaw.py:71-79 | an idle timer starts its clock at its first reading, then raises exactly at the first later reading `total` or more past that start (the first reading non-zero; a first reading of 0 leaves the timer idle, see `Breakers.ZeroReadingLeavesTimerIdle`) |
| Breakers.ZeroBudgetFaultsAtOnce | src/presenter_drivers/motor/CCKPaw.py:66-79 | with a budget of 0 ms or less (the default), a fresh timer on a monotonic clock raises on its first poll |
| Breakers.ZeroReadingLeavesTimerIdle | src/presenter_drivers/motor/CCKPaw.py:72-73 | 0 doubles as "not started": a first reading of 0 that does not time out leaves the timer idle |
| Breakers.ConstantVerdict | src/presenter_drivers/motor/CCKPaw.py:39-52 | NullBreaker and LimitSwitch always break and never raise; ErrorBreaker always raises, and what it raises is CCKException("Error") |
| Breakers.Poll | src/presenter_drivers/motor/CCKPaw.py:39-79 | one `shouldBreak()` of a breaker as a function of its clock field and the clock: `TimerPoll` for a TimeExpired, the class's constant verdict with nothing changed otherwise |
| Breakers.Same | src/presenter_drivers/motor/CCKPaw.py:55-57 | Python `==` between breakers: identity, except that two LimitSwitch dataclass instances are equal when their names are |
| Breakers.Breaker.NullBreaker | src/presenter_drivers/motor/CCKPaw.py:39-44 | a NullBreaker, idle |
| Breakers.Breaker.ErrorBreaker | src/presenter_drivers/motor/CCKPaw.py:47-52 | an ErrorBreaker, idle |
| Breakers.Breaker.LimitSwitch | src/presenter_drivers/motor/CCKPaw.py:55-57 | a LimitSwitch carrying its name |
| Breakers.Breaker.TimeExpired | src/presenter_drivers/motor/CCKPaw.py:66-69 | stores `totalTimeMs * 1000000` ns, 0 ms when absent, with the clock idle |
| Breakers.Breaker.ShouldBreak | src/presenter_drivers/motor/CCKPaw.py:39-79 | a TimeExpired does exactly what `TimerPoll` says to its verdict, its clock field and the clock; the other classes give their constant verdict and change nothing; in both cases the step is `Poll` of the breaker, its old clock field and the clock |
| Breakers.Breaker.Cleanup | src/presenter_drivers/motor/CCKPaw.py:43-44 | a TimeExpired resets its clock to 0 (lines 81-85); the other classes change nothing |
| Breakers.Breaker.Reset | src/presenter_drivers/motor/CCKPaw.py:84-85 | the clock field becomes 0 |
| Breakers.Clock.PerfCounterNs | src/presenter_drivers/motor/CCKPaw.py:73-75 | the t-th reading returns the t-th scheduled tick |
| Breakers.FactoryClass | src/presenter_drivers/motor/CCKPaw.py:91-102 | a known tag selects the class filed under it; any other tag selects NullBreaker rather than failing |
| Breakers.Tag | src/presenter_drivers/motor/CCKPaw.py:94-99 | the key each class is filed under in the factory's table |
| Breakers.FactoryRoundTrip | src/presenter_drivers/motor/CCKPaw.py:94-99 | every class is filed under its own tag and the four tags are distinct |
| Breakers.BreakerFactory | src/presenter_drivers/motor/CCKPaw.py:91-102 | a new, idle breaker of the selected class with the empty name; a TimeExpired gets its budget from the configuration, 0 ms when there is none |
| Paw.FirstIndex | src/presenter_drivers/motor/CCKPaw.py:162-163 | the position `list.remove` takes away holds an element equal to b, and no earlier element is equal to b |
| Paw.Has | src/presenter_drivers/motor/CCKPaw.py:162 | `b in lst`: some element of the list is `Same` as b |
| Paw.Remove | src/presenter_drivers/motor/CCKPaw.py:162-163 | a list without b is unchanged; otherwise exactly the first element equal to b is cut out |
| Paw.RemoveOne | src/presenter_drivers/motor/CCKPaw.py:162-163 | one remove shortens the list by one and removes one element from its multiset |
| Paw.HasOccurs | src/presenter_drivers/motor/CCKPaw.py:162 | `b in lst` holds exactly when b occurs in the list |
| Paw.RemoveOccurrences | src/presenter_drivers/motor/CCKPaw.py:162-163 | one remove lowers the number of elements equal to b by one if there is one, else by none |
| Paw.RemoveClears | src/presenter_drivers/motor/CCKPaw.py:160-165 | after unregistering, b is gone from a list exactly when the list held it at most once |
| Paw.RemoveLeavesDuplicate | src/presenter_drivers/motor/CCKPaw.py:160-165 | for every list holding b two or more times, b is still in it after unregistering, with one occurrence fewer |
| Paw.RemoveAppended | src/presenter_drivers/motor/CCKPaw.py:152-165 | unregistering right after registering gives back the list when the breaker was not in it; otherwise the earlier copy goes and the new one stays last |
| Paw.GuardCallsTo | src/presenter_drivers/motor/CCKPaw.py:167-186 | the guard loop addresses only breakers of its list, and before any exit it only polls |
| Paw.GuardTrace | src/presenter_drivers/motor/CCKPaw.py:167-186 | on every exit the calls a guard added go to its own list; a breaking breaker leaves no cleanup; a fault or a limit trip ends with one cleanup per breaker, in list order |
| Paw.Cleanups | src/presenter_drivers/motor/CCKPaw.py:214-217 | the calls `_breakerCleanup` issues: one `cleanup()` per breaker of the list, in list order |
| Paw.CleanedUp | src/presenter_drivers/motor/CCKPaw.py:214-217 | the clock fields after `_breakerCleanup`: every TimeExpired of the list is reset to 0 (lines 81-85), every other breaker keeps its field |
| Paw.BothClear | src/presenter_drivers/motor/CCKPaw.py:168-171 | the guard loop's condition `not front pressed and not rear pressed`, read at consecutive indices, the second read made only when the first switch is clear, with the read index after it |
| Paw.RoundFrom | src/presenter_drivers/motor/CCKPaw.py:172-182 | one pass of the `for` loop from a position on: each breaker polled in list order as `Poll` says, stopping at the first verdict other than Continue and reporting that verdict and position, the clock fields and the clock index |
| Paw.Wait | src/presenter_drivers/motor/CCKPaw.py:167-186 | the whole guard for at most fuel loop tests: with no fuel left the run is OutOfFuel, otherwise it goes on as `WaitTest` |
| Paw.WaitTest | src/presenter_drivers/motor/CCKPaw.py:168-171 | one loop test: a pressed limit ends the run as Tripped, with every breaker cleaned up and the name read from the front switch once more (lines 184-186); two clear readings lead to `WaitRound` |
| Paw.WaitRound | src/presenter_drivers/motor/CCKPaw.py:172-182 | one pass as `RoundFrom` computes it: a breaking breaker ends the run as Broke of that breaker with no cleanup, a raising one as Raised of its fault after one cleanup per breaker, and a pass in which all continue counts one round and hands over to `Wait` with one fuel less |
| Paw.RoundPassesOnlyTimers | src/presenter_drivers/motor/CCKPaw.py:172-182 | a pass goes on only past TimeExpired breakers that continue; a breaking breaker is a NullBreaker or LimitSwitch; a raising one is an ErrorBreaker with CCKException("Error") or a TimeExpired with MotorTimeout |
| Paw.WaitTrip | src/presenter_drivers/motor/CCKPaw.py:168-186 | a loop test that comes out false ends the run before any poll: every breaker is cleaned up once, in order, and the name comes from one more read of the front switch |
| Paw.WaitVerdict | src/presenter_drivers/motor/CCKPaw.py:168-182 | a pass that ends on a breaking or raising breaker ends the run at that breaker: its polls up to it, and one cleanup per breaker only on a raise |
| Paw.WaitPass | src/presenter_drivers/motor/CCKPaw.py:168-182 | a pass in which every breaker continues hands the rest of the run, one pass later, to the next loop test, with that pass's polls added to the trace |
| Paw.WaitEnds | src/presenter_drivers/motor/CCKPaw.py:167-186 | on every run: it runs out of fuel only after fuel full passes; a breaking breaker is a NullBreaker or LimitSwitch and is the one returned; a raising one is an ErrorBreaker with CCKException("Error") or a timer that ran out with MotorTimeout; a trip follows a loop test that came out false, and "front" is returned exactly when the extra front read is pressed |
| Paw.WaitTrace | src/presenter_drivers/motor/CCKPaw.py:167-186 | the trace of every run: the full passes, then the deciding pass up to the deciding breaker, then, on a raise or a trip, one cleanup per breaker of the list, in order |
| Paw.FirstBreakerDecides | src/presenter_drivers/motor/CCKPaw.py:172-182 | with both limits clear, a list whose first breaker is not a timer ends on that first poll: a NullBreaker or LimitSwitch is returned, an ErrorBreaker raises CCKException("Error") |
| Paw.PressedLimitTrips | src/presenter_drivers/motor/CCKPaw.py:168-186 | a pressed limit at the loop test ends the guard before any poll, with every breaker cleaned up and the name read from the front switch once more; the rear switch is read only when front is clear |
| Paw.LoneTimerWait | src/presenter_drivers/motor/CCKPaw.py:71-182 | with neither limit ever pressed, a guard on a single timer runs exactly as that timer polled once per pass: it raises MotorTimeout exactly when the timer runs out, otherwise it runs out of fuel |
| Paw.LoneTimerTimesOut | src/presenter_drivers/motor/CCKPaw.py:66-182 | the motion timeout: with neither limit ever pressed, a guard on one idle timer with budget T raises MotorTimeout once some reading within the fuel is T or more past the first one, and it raises at the first such reading, never earlier (the first reading non-zero; a first reading of 0 leaves the timer idle, see `Breakers.ZeroReadingLeavesTimerIdle`) |
| Paw.HeldOnly | src/presenter_drivers/motor/CCKPaw.py:192-195 | the back-off condition `pressed(a) and not pressed(b)` (front and rear here, rear and front at lines 205-208), the second read made only when the first switch is pressed, with the read index after it |
| Paw.BackOff | src/presenter_drivers/motor/CCKPaw.py:192-196 | the back-off `while` loop for at most fuel tests of `HeldOnly`: whether a test came out false, how many held before it, and the read index it leaves at |
| Paw.BackOffStopsAtFirstRelease | src/presenter_drivers/motor/CCKPaw.py:192-196 | a back-off loop stops at the first test that comes out false: every earlier test, two reads each, held; it gives up only when all its fuel tests held |
| Paw.BackOffEnds | src/presenter_drivers/motor/CCKPaw.py:192-196 | where a back-off loop leaves: at a failing test, with the read index just after it, or with the fuel spent |
| Paw.BackOffHeld | src/presenter_drivers/motor/CCKPaw.py:192-196 | every test before the last one of a back-off loop held |
| Paw.MotionOf | src/presenter_drivers/motor/CCKPaw.py:140-150 | how `present()`/`retract()` end: a raised fault propagates (no back-off), a guard that returned a breaker or a limit switch is followed by the back-off and the call returns, and a loop that runs past its fuel bound is reported as stalled |
| Paw.CCKPaw.constructor | src/presenter_drivers/motor/CCKPaw.py:119-127 | a fresh driver in STOP and fresh limit switches on the given inputs, their pins taken from the configuration or the defaults (P8_7/P8_9 for the motor, P8_12/P8_10 for the switches), and both phase lists empty |
| Paw.CCKPaw.RegisterBreaker | src/presenter_drivers/motor/CCKPaw.py:152-158 | for "present" or "retract" the breaker is appended to the end of that list and nothing else changes; any other key fails with UnknownBreaker(key) and both lists stay as they were |
| Paw.CCKPaw.UnregisterBreaker | src/presenter_drivers/motor/CCKPaw.py:160-165 | each phase list becomes `Remove` of itself: one remove where b occurs, unchanged where it does not |
| Paw.CCKPaw.BreakerCleanup | src/presenter_drivers/motor/CCKPaw.py:214-217 | exactly one cleanup per breaker, in list order; every TimeExpired of the list ends idle and the other breakers are untouched |
| Paw.CCKPaw.PollOne | src/presenter_drivers/motor/CCKPaw.py:174-175 | one `shouldBreak()` logged in the trace; its verdict, the polled breaker's new clock field and the clock are `Poll` of its old field and the clock; no other breaker changes |
| Paw.CCKPaw.PollRound | src/presenter_drivers/motor/CCKPaw.py:172-182 | polls the breakers in list order up to the first that does not continue, one `shouldBreak()` each in the trace; the verdict, the deciding position, the clock fields and the clock are those of `RoundFrom` of the old clock fields and the clock, so the inputs fix which breaker ends the pass; a breaking one is a NullBreaker or LimitSwitch, a raising one an ErrorBreaker with CCKException("Error") or a TimeExpired with MotorTimeout |
| Paw.CCKPaw.LoopTest | src/presenter_drivers/motor/CCKPaw.py:168-171 | the guard loop's condition holds exactly when `BothClear` of the schedules says so, with the rear switch read only when front is clear; the read index ends where `BothClear` says |
| Paw.CCKPaw.GuardPass | src/presenter_drivers/motor/CCKPaw.py:168-182 | one loop test and, when it holds, one pass: a failed test completes the run as a trip, a deciding pass completes it at the deciding breaker, and a pass that continues leaves the rest of the run to the remaining fuel |
| Paw.CCKPaw.GuardLoop | src/presenter_drivers/motor/CCKPaw.py:168-182 | the guard loop up to its exit, stated as the `Wait` run of the inputs that it completes, exit actions aside |
| Paw.CCKPaw.Halt | src/presenter_drivers/motor/CCKPaw.py:177-185 | the exit actions: `stop()`, then one cleanup per breaker, in order, exactly when asked; every TimeExpired of the list is then idle |
| Paw.CCKPaw.RunGuard | src/presenter_drivers/motor/CCKPaw.py:167-186 | the guard loop followed by its exit actions: every piece of state it touches ends as the `Wait` run of the inputs says |
| Paw.CCKPaw.WaitForAnyLimitAndStop | src/presenter_drivers/motor/CCKPaw.py:167-186 | the outcome, the number of passes, the deciding breaker, the whole trace, the clock fields and both read indices are those of `Wait` of the inputs, so the switch schedules, the clock and the list decide which exit is taken; it runs out of fuel only after `fuel` full passes; a breaking breaker stops the motor and is returned, with no cleanup; a raising one stops the motor, has every breaker cleaned up once in order, and its fault is re-raised; a limit trip (the short-circuit loop test came out false) stops the motor, cleans every breaker up, and yields "front" exactly when a fresh read of front is pressed, else "rear" |
| Paw.CCKPaw.BackOffFrontLimit | src/presenter_drivers/motor/CCKPaw.py:188-199 | stop, drive backward, and once "front pressed and rear not" reads false, stop again; the output log records exactly STOP, BACKWARD, STOP; whether the loop leaves and the read index it leaves at are those of `BackOff` of the switch schedules |
| Paw.CCKPaw.BackOffRearLimit | src/presenter_drivers/motor/CCKPaw.py:201-212 | the mirror image: stop, forward, stop once "rear pressed and front not" reads false, as `BackOff` of the rear and front schedules decides |
| Paw.CCKPaw.FrontHeld | src/presenter_drivers/motor/CCKPaw.py:192-195 | the front back-off test holds exactly when `HeldOnly(front, rear)` does, the rear switch read only when front is pressed |
| Paw.CCKPaw.RearHeld | src/presenter_drivers/motor/CCKPaw.py:205-208 | the rear back-off test holds exactly when `HeldOnly(rear, front)` does, the front switch read only when rear is pressed |
| Paw.CCKPaw.Present | src/presenter_drivers/motor/CCKPaw.py:146-150 | drives forward, guards on the "present" list only, backs off the front limit and ends in STOP; a breaker's fault propagates with the motor stopped after FORWARD, STOP; the registry is unchanged; the outcome, the trace, the clock fields and the read index are fixed by `Wait` of the inputs followed by `BackOff` from the read index where the guard left off |
| Paw.CCKPaw.Retract | src/presenter_drivers/motor/CCKPaw.py:140-144 | the mirror image on the "retract" list and the rear limit, fixed by `Wait` and `BackOff` in the same way |
| Paw.CCKPaw.Reset | src/presenter_drivers/motor/CCKPaw.py:137-138 | exactly the contract of `retract()` |
| Paw.Create | src/presenter_drivers/motor/CCKPaw.py:119-132 | construction succeeds exactly when every configured breaker names a known phase; then each phase list holds, in configuration order, a breaker of the class and budget the factory selects for each descriptor of that phase, all new and idle and all separate objects (none twice in a list, none in both lists), with a fresh driver stopped after just its two STOP writes, fresh limit switches, the pins of both taken from their configurations or the defaults, and the trace empty; otherwise the first descriptor with an unknown phase fails construction with UnknownBreaker. Source errors that also abort construction are not modelled: see the two `Paw.Create` lines under "## Left out" |
| Paw.CCKPaw.Load | src/presenter_drivers/motor/CCKPaw.py:128-132 | the registration loop: succeeds exactly when every descriptor names a known phase, fails at the first one that does not with UnknownBreaker, and otherwise leaves each phase list holding the factory-selected shapes of that phase's descriptors, in order, all new and idle, each descriptor's breaker a separate object |
| Paw.CCKPaw.RegisterNew | src/presenter_drivers/motor/CCKPaw.py:130-131 | one registration step: the factory builds a new, idle breaker of the descriptor's shape, which is appended to the end of its phase's list, every earlier entry kept in place and the other list unchanged, so that list's shapes become those of the descriptors up to this one, and the two lists still hold separate objects; an unknown phase fails with UnknownBreaker and leaves both lists unchanged |
| Paw.RegisteredShapes | src/presenter_drivers/motor/CCKPaw.py:128-132 | registering the breaker built from one descriptor extends the list of its phase, and of no other |

## Left out

- GPIO setup, pull-up/pull-down settings and the `AdaGPIOSingleton` metaclass (driver.py lines 8-10, 21, 38-40, 74, 90-92). These are hardware I/O and hidden global state. Two `MotorDriver` objects here are two drivers, not one shared instance.
- Logging: the `logger` configuration entries and every log call.
- `perf_counter_ns` is a caller-supplied tick schedule. Whether it is monotone is stated as a requirement where it matters (`ZeroBudgetFaultsAtOnce`). It is not assumed elsewhere.
- Driver.LimitInputs.Input: reading a switch changes no pin and no motor state. It does advance the read index. That index is how the model lets the inputs change between reads.
- Driver.MotorDriver.SetState: it takes a `State`, so "any other value" (a non-enum argument, which the source routes to STOP) is not modelled.
- Breakers.BreakerFactory: the model only selects the class, and differs from the source's call `f.get(typ, NullBreaker)(config if config else None)` (CCKPaw.py:102) on these inputs:
  - TimeExpired with no configuration or an empty one: the source passes `None` and `config.get` raises AttributeError (CCKPaw.py:67). The model builds a timer with the 0 ms default.
  - NullBreaker, ErrorBreaker, and every unknown tag: their classes take no constructor argument, so the source raises TypeError. The model builds the breaker.
  - LimitSwitch: the source stores the configuration object as the switch's name. The model gives every factory-built LimitSwitch the empty name, so all of them are `Same` to each other. In the source, `==` between two of them compares their configuration objects.
- Paw.Create: "succeeds exactly when every phase is known" holds of the model only. In the source, the factory errors above also abort construction.
- Paw.Create: a breaker descriptor without a `type`, `breakerFor` or `config` entry is not modelled. `_BreakerDef` is a `total=False` dictionary (CCKPaw.py:108-111), so in the source each such descriptor raises `KeyError` at CCKPaw.py:130-131 and aborts construction before `registerBreaker` runs. Here every descriptor has a tag and a phase, and carries an optional configuration.
- User-defined `Breaker` subclasses, and exceptions other than the source's own fault classes: `shouldBreak()` is one of the four source classes, dispatched on a class tag.
- Termination of the busy loops: they take a fuel bound. `OutOfFuel`/`Stalled` are model-only outcomes, reported when the bound is spent before the loop leaves. Every exit that happens within the bound is the one the inputs force: `Wait` and `BackOff` compute it from the switch schedules, the clock and the breaker list, and the methods end exactly as they say.
- Paw.CCKPaw.Present, Paw.CCKPaw.Retract, Paw.CCKPaw.Reset, Paw.CCKPaw.RegisterBreaker, Paw.CCKPaw.UnregisterBreaker: the returned `self` (CCKPaw.py:144, 150, 158, 165) is not modelled.
- Paw.CCKPaw.WaitForAnyLimitAndStop: the returned breaker is a `Guard` value (`Broke(b)`, `Tripped(name)`, `Raised(fault)` or `OutOfFuel`). `Present`, `Retract` and `Reset` keep it only as a ghost `cause` and otherwise discard it, as `present()`/`retract()` do. A limit trip yields the name of a new `LimitSwitch` rather than the object.
- The for-loop of the guard is its own method (`PollRound`). The source's early `return`/`raise` from inside that loop becomes a verdict the outer loop acts on. The order of polls, the motor stop and the cleanups is the same.
- `MAX_MOTOR_RUN_TIME_MS` is declared and not used by the source. It is declared here too.
- `HSVtoRGB` and `Color.__str__`: floating-point numerics with `floor`/`round`.
- The demo programs, scripts, configuration declarations and the writer interface: interactive I/O and declarations with no behaviour of the core.

## Notes on the code

- `unregisterBreaker` (CCKPaw.py:160-165) does one `list.remove` per phase list. A breaker registered twice for one phase therefore stays registered once after one unregistration. See `Paw.RemoveClears` and `Paw.RemoveLeavesDuplicate`.
