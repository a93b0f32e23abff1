# jitter: a verified model of the measurement loop

`jitter` is a Linux tool that measures execution-time jitter. It times a
fixed workload (`dummyop`) with the processor's cycle counter, over and over.
It keeps the minimum and maximum duration since start (the *absolute* range)
and within each display interval (the *transient* or interval range). Each
display interval holds `displayUpdate` samples (one when `displayUpdate` is
0) and ends with one statistics line. The first interval is the exception:
it holds `displayUpdate + 1` samples and prints no line (lines 265-268). SIGUSR1 asks it to reset the
absolute range. A build with processor-trace support can send SIGUSR2 to a
`perf` process. It does so when a duration exceeds the interval minimum by
more than a threshold. It sends at most one SIGUSR2 between two resets, and
only while the display counter `SampleNo` exceeds 5 (lines 259 and 291).

This project models the core of `jitter/jitter.c`:

- `clockdiff` becomes module `Clock`. Unsigned 64-bit values are bounded
  integers, and every subtraction wraps explicitly.
- `dummyop` becomes module `Workload`. The method `DummyOp` keeps the
  source's loop and is proved against the function `Value`. The mask
  `& 0x7f0f0000` is written as the two bit fields it keeps: bits 16-19 and
  bits 24-30. The wrapping `tmp +=` is `Add32`.
- The min/max bookkeeping becomes module `Stats`. It keeps the source's
  28-bit sentinel `MINVAL`, the strict `<` for the minimum and the `>=` for
  the maximum.
- One pass of the `do … while` loop in `main` becomes module `Measure`. A
  pass is a function from the loop's state to a new state plus the events
  emitted on the way. An event is a statistics line (its values, not its
  text), the column title, or `kill(perf_pid, SIGUSR2)`.
  - Signal deliveries are `Deliver` ticks between passes. The handler only
    sets `resetStats`. The loop tests that flag at line 284 and clears it at
    line 288, in a pass that ends an interval, and touches it nowhere else.
    So every delivery during a pass has the effect of a `Deliver` tick
    either just before or just after that pass:
    - a delivery before the test at line 284 acts like one before the pass;
    - a delivery after the clear at line 288, after a test at line 284 that
      found no request pending, or during a pass that does not end an
      interval, acts like one after the pass;
    - a delivery between the test and the clear, while a request is already
      pending, is absorbed by that request. This is the same as a delivery
      before the pass, because a second request changes nothing.
  - `Run` applies a sequence of ticks.
- Module `Properties` proves what the loop guarantees. It covers single
  passes, whole display intervals, and runs between two resets. A reset is
  a pass that ends an interval with a request pending. SIGUSR1 deliveries
  and a pending request may occur inside such a run.
- Module `Jitter` holds the loop as the source writes it: class `Meter`.
  - The class's fields are the loop's variables, updated in place.
  - `RecordSample` is one pass and `SignalHandler` is the handler.
  - `Measure` is the `do … while` loop itself.
  - A ghost `log` holds the emitted events.
  - Each method is proved against the functions of `Measure`.

The code prints the column title right after `SampleNo` is incremented
(line 278) and found to be a multiple of 40 (line 296). The next statistics
line reports exactly that counter. So the title comes before the 40th,
80th, … statistics line. `Properties.StepBoundary` and `Properties.StepLine`
state the two halves of this. The title printed
once before measuring starts, at line 224, is the first event of the
`Meter`'s log.

## Model

| member | source | states |
|---|---|---|
| Clock.Sub64 | jitter/jitter.c:269-275 | `uint64_t` subtraction: the plain difference when it does not underflow, otherwise the difference plus 2^64 |
| Clock.ClockDiff | jitter/jitter.c:108-118 | the elapsed cycles are max(start, end) − min(start, end), so the unsigned subtraction never wraps; the result is at most the larger timestamp |
| Clock.ClockDiffSymmetric | jitter/jitter.c:108-118 | swapping the two timestamps gives the same difference |
| Clock.ClockDiffZero | jitter/jitter.c:108-118 | the difference is 0 exactly when the two timestamps are equal |
| Workload.MaskBitsBounded | jitter/jitter.c:77 | a masked value is between 0 and 0x7f0f0000, and masking it again leaves it unchanged |
| Workload.DummyOp | jitter/jitter.c:69-81 | the loop computes `Value(loops, startval)`, all `loops` rounds of add-then-mask; with no rounds it returns `startval` unchanged, otherwise a value with no bit outside the mask and at most 0x7f0f0000 |
| Workload.ValueMasked | jitter/jitter.c:69-81 | with at least one round, the result has no bit outside 0x7f0f0000 and survives the conversion to `int` as the same non-negative number |
| Workload.ValueNoRounds | jitter/jitter.c:69-81 | with `loops == 0` the result is `startval` |
| Workload.RepeatIsProduct | jitter/jitter.c:229-232 | adding the workload's value n times to a zero `unsigned` `tmp` gives n times the value modulo 2^32 |
| Stats.Record | jitter/jitter.c:247-256 | after recording d the range contains d; its minimum has not grown and its maximum not shrunk; each bound is either its old value or d |
| Stats.RecordAllBounds | jitter/jitter.c:247-256 | after recording a sequence of durations, every one of them lies within the range; the range only widened; each bound is the old bound or one of the durations |
| Stats.FirstRecord | jitter/jitter.c:247-250 | after a reset, the first duration below the sentinel MINVAL becomes both minimum and maximum; a duration at or above MINVAL leaves the minimum at MINVAL |
| Stats.RecordOrdered | jitter/jitter.c:247-256 | recording keeps a range either reset or ordered (min ≤ max), and a recorded range is always ordered |
| Stats.ExampleInterval | jitter/jitter.c:247-256 | durations 100, 50, 200, 75 recorded into a reset range give minimum 50 and maximum 200 |
| Measure.Advance | jitter/jitter.c:265-299 | the interval bookkeeping never signals the tracing process |
| Measure.Step | jitter/jitter.c:237-301 | one pass keeps the invariant of reachable states: a non-zero `SampleNo` means `lasttime` is set, both ranges are reset or ordered, and `tref` stays at most `displayUpdate`, or at most 1 when `displayUpdate` is 0 |
| Measure.Apply | jitter/jitter.c:237-301 | a pass of the loop (jitter.c lines 237-301) or one run of the handler (jitter.c lines 120-127) keeps the invariant of reachable states |
| Measure.Run | jitter/jitter.c:237-301 | any sequence of passes and deliveries keeps the invariant of reachable states |
| Properties.InitialState | jitter/jitter.c:226-235 | measuring starts in a reachable state: counters zero, ranges reset, trigger armed, no reset pending, and `tmp` equal to 1000 times the workload's value modulo 2^32 |
| Properties.StepRecords | jitter/jitter.c:247-256 | after a pass the duration lies within the absolute range and the range only widened, unless the pass ended an interval with a reset pending; likewise for the interval range, unless the pass ended the interval |
| Properties.StepTrigger | jitter/jitter.c:258-263 | SIGUSR2 is sent to `perf_pid` exactly when a pid was given, `SampleNo > 5`, the trigger is armed and the duration minus the interval minimum exceeds the threshold; it is sent at most once per pass, nothing else is signalled, and firing disarms the trigger |
| Properties.StepQuiet | jitter/jitter.c:265 | a pass that does not end the interval only advances `tref`: `SampleNo`, `lasttime` and the reset request are unchanged, both ranges record the duration, and no line or title is printed |
| Properties.StepBoundary | jitter/jitter.c:265-299 | a pass that ends the interval restarts `tref` at 1, resets the interval range, sets `lasttime`, and advances `SampleNo` (wrapping at 2^32) or sets it to 1 on a pending reset; the reset clears the absolute range and re-arms the trigger; without a reset the absolute range keeps what the pass recorded; the title follows exactly when the new `SampleNo` is a multiple of 40 |
| Properties.StepLine | jitter/jitter.c:268-276 | at an interval's end a line is printed exactly when `SampleNo > 0`; it reports the interval min/max with this duration included, their difference (which does not underflow), this duration, the absolute range before any reset, `tmp`, the cycles since the previous interval ended (its `lasttime`), and the counter before it advanced |
| Properties.QuietRun | jitter/jitter.c:265-299 | passes inside one interval count up `tref`, leave `SampleNo`, `lasttime` and the request alone, record exactly their durations in both ranges, and print nothing |
| Properties.IntervalReport | jitter/jitter.c:265-282 | starting at `tref ≤ displayUpdate`, the interval ends after exactly `displayUpdate − tref + 1` passes (so when `displayUpdate > 0` the first interval, which starts at `tref == 0`, has one more sample than the later ones; with `displayUpdate == 0` every interval has one sample); its line exists exactly when `SampleNo > 0` and reports the record of exactly those durations from the reset range: the smaller of their minimum and the sentinel MINVAL (so an interval whose durations are all at least 0xfffffff reports MINVAL), their maximum, and the spread; every duration lies between the two reported bounds |
| Properties.ExampleReport | jitter/jitter.c:268-276 | an interval of four passes lasting 100, 50, 200 and 75 cycles, after a reset, is reported as min 50, max 200, jitter 150, absolute 50 to 200 |
| Properties.ResetThenSample | jitter/jitter.c:284-293 | a pending reset is acted on at the interval's end: absolute range reset, request cleared, `SampleNo` 1, trigger re-armed; the next duration below MINVAL becomes both absolute min and max |
| Properties.AbsoluteBetweenResets | jitter/jitter.c:247-250 | over a run in which no pass acts on a reset request (SIGUSR1 deliveries and a pending request allowed), every duration lies within the final absolute range; the absolute minimum never grew and the maximum never shrank |
| Properties.EpochRecords | jitter/jitter.c:247-293 | over a run in which no pass acts on a reset request, the absolute range is exactly the record of all the run's durations |
| Properties.NoRequestNoReset | jitter/jitter.c:284-293 | a run that starts with no request pending and delivers no SIGUSR1 contains no pass that acts on a reset |
| Properties.NoResetRecords | jitter/jitter.c:284-293 | without a reset request, no reset becomes pending, and the absolute range is exactly the record of all the run's durations |
| Properties.TriggerAtMostOnce | jitter/jitter.c:259-262 | over a run in which no pass acts on a reset request (SIGUSR1 deliveries and a pending request allowed), SIGUSR2 is sent at most once, and not at all when the trigger was already disarmed; a signal sent leaves the trigger disarmed |
| Properties.StepHandleQuiet | jitter/jitter.c:120-127 | inside an interval, a reset request before a pass has the same effect as one after it |
| Properties.QuietHandle | jitter/jitter.c:120-127 | the same holds for any run of passes inside one interval |
| Properties.RepeatedRequests | jitter/jitter.c:284-293 | any number (at least one) of SIGUSR1 deliveries among the passes of one interval has the same effect as a single request before the first pass |
| Jitter.Meter.constructor | jitter/jitter.c:224-235 | prints the title, primes with 1000 workload runs summed into `tmp`, and leaves the fields equal to the initial state |
| Jitter.Meter.SignalHandler | jitter/jitter.c:120-127 | SIGUSR1 sets `resetStats`; any other signal changes nothing; no other field changes |
| Jitter.Meter.RecordSample | jitter/jitter.c:240-299 | one pass updates the fields to `Step` of the old state and appends its events to the log, keeping the invariant |
| Jitter.Meter.Track | jitter/jitter.c:240-256 | adds the workload's value to `tmp` and records the duration in both ranges |
| Jitter.Meter.Trigger | jitter/jitter.c:258-263 | when the trigger condition holds, logs `kill(perf_pid, SIGUSR2)` and disarms; otherwise changes nothing |
| Jitter.Meter.EndPass | jitter/jitter.c:265-299 | advances `tref`, or ends the interval when `tref` has reached `displayUpdate` |
| Jitter.Meter.EndInterval | jitter/jitter.c:266-298 | the fields and log become those of `Boundary`: report, restart, consume a reset, title |
| Jitter.Meter.PrintStats | jitter/jitter.c:268-276 | logs the statistics line when `SampleNo > 0`, nothing otherwise |
| Jitter.Meter.StartNextInterval | jitter/jitter.c:278-282 | `tref` 1, `SampleNo` incremented with wrap-around, `lasttime` set, interval range reset |
| Jitter.Meter.ResetIfRequested | jitter/jitter.c:284-293 | a pending request resets the absolute range, clears the request, sets `SampleNo` to 1 and re-arms the trigger |
| Jitter.Meter.PrintTitle | jitter/jitter.c:296-297 | logs the title exactly when `SampleNo` is a multiple of 40 |
| Jitter.Meter.Observe | jitter/jitter.c:237-301 | a tick updates the fields and log as `Apply` prescribes |
| Jitter.Meter.Measure | jitter/jitter.c:237-301 | the loop leaves the fields and log as `Run` over the ticks it consumed; it stops right after the first pass that leaves `SampleNo > iterations`, and no earlier pass did |

## Left out

- The timestamp reads `TimeStampCounter` and `TimeStampCounterEnd`, and the `timestampclock` union (lines 47-55, 83-106). They are inline `mfence`/`rdtsc`/`rdtscp` assembly. Timestamps are arbitrary unsigned 64-bit inputs (`Sample`), and the seed is a parameter of `Config`.
- Registering the handler with `signal()`, and the error message when that fails (lines 218-222). Asynchronous delivery is modelled as `Deliver` ticks between passes. This is exact on the assumption that the compiled loop reads the flag once, at line 284, and writes it once, at line 288, as the source is written; then every delivery during a pass acts like a tick just before or just after it. The C program does not guarantee that: `resetStats` is a plain `int`, not a `volatile sig_atomic_t`, and the handler calls `printf`, which is not async-signal-safe; the model does not capture what a compiler or the C library may do beyond that. The handler's `printf` is not modelled.
- Signals other than SIGUSR1. The handler is installed for SIGUSR1 only (line 218), so any other signal takes its default action, which for SIGUSR2 or SIGTERM ends the process. A `Deliver` tick with another number stands for a call of `signalHandler` with that number, which changes nothing.
- `kill(perf_pid, SIGUSR2)` is not performed. It becomes a `Kill` event in the log.
- Option parsing with `getopt`/`strtoul`, `showhelp`, `displayInfo` and the banner lines (lines 129-215). `Config` holds the values they set, and `DefaultConfig` holds the defaults.
- The text layout of the statistics line and the title (`printf` widths). A line is its tuple of values.
- The timing purpose of the priming loop, which is to warm the caches. Only its effect on `tmp` is modelled.
- The register width of `currentExectime`. It is a `long` holding a `clockdiff` result, and every comparison and subtraction converts it back to unsigned 64 bits. So the model keeps the unsigned value.
- Jitter.Meter.Measure: a run consumes a finite sequence of ticks. The loop's behaviour when `iterations` is `UINT_MAX` is therefore modelled only up to the last tick. In that case `SampleNo > iterations` can never hold, and the program never stops.
- Workload.MaskBits: the mask is stated arithmetically, on the two bit fields of 0x7f0f0000. It is not proved equal to a bitwise `&` on 32-bit vectors.
