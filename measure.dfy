/**
 * One pass of the measurement loop of the jitter meter, as a function of the
 * loop's state: record the duration of one timed workload run in the
 * absolute and interval statistics, possibly notify the tracing process, and
 * at the end of every display interval report the interval, start the next
 * one and act on a pending reset request. The reset request itself is set by
 * the SIGUSR1 handler. Output lines are recorded as events, not as text.
 */
module Measure {
  import opened Clock
  import opened Workload
  import opened Stats

  datatype Option<T> = None | Some(value: T)

  /** Linux signal numbers of the two user signals. */
  const SIGUSR1: int := 10
  const SIGUSR2: int := 12

  /** `perf_pid` when no tracing process was named. */
  const NO_PERF: int := -1

  /** `skip`: display intervals that must pass before the trigger may fire. */
  const SKIP: nat := 5

  /** The column title is repeated whenever the display counter is a multiple of this. */
  const TITLE_EVERY: nat := 40

  /** Workload runs before measuring starts, to prime the caches. */
  const PRIMING_RUNS: nat := 1000

  /**
   * The values the command line sets: `loopcount`, the seed derived from the
   * first timestamp, `displayUpdate`, `iterations`, `perf_pid` and
   * `jitter_threshold`. A build without processor-trace support behaves as
   * one with `perfPid == NO_PERF`.
   */
  datatype Config = Config(
    loopCount: Uint32,
    seed: Uint32,
    displayUpdate: Uint32,
    iterations: Uint32,
    perfPid: int,
    jitterThreshold: Uint32)

  /** `(uint32_t) seedtime`: the low 32 bits of the first timestamp. */
  function Seed(seedtime: Uint64): Uint32
  {
    seedtime % TWO32
  }

  /** The defaults of the command line: 80000 rounds, 20000 samples per line, 200 lines, no tracing. */
  function DefaultConfig(seedtime: Uint64): Config
  {
    Config(80000, Seed(seedtime), 20000, 200, NO_PERF, 15000)
  }

  /**
   * The loop's state: `absoluteMin/absoluteMax`, `TransientMin/TransientMax`,
   * the interval sample counter `tref`, the display counter `SampleNo`, the
   * workload accumulator `tmp`, `lasttime` (uninitialised until the first
   * interval ends), the trigger's `signaled` and the global `resetStats`.
   */
  datatype State = State(
    absolute: Range,
    transient: Range,
    tref: Uint32,
    sampleNo: Uint32,
    tmp: Uint32,
    lastTime: Option<Uint64>,
    signaled: bool,
    resetStats: bool)

  /** The values of one statistics line, in the order of its columns. */
  datatype Line = Line(
    instMin: Uint64,
    instMax: Uint64,
    instJitter: Uint64,
    lastExec: Uint64,
    absMin: Uint64,
    absMax: Uint64,
    tmp: Uint32,
    interval: Uint64,
    sampleNo: Uint32)

  /** What the loop emits: a statistics line, the column title, or a signal to the tracing process. */
  datatype Event = StatsLine(line: Line) | Title | Kill(pid: int, signo: int)

  /** A new state together with what was emitted on the way to it. */
  datatype Outcome = Outcome(state: State, events: seq<Event>)

  /** The two timestamps taken around one workload run. */
  datatype Sample = Sample(startTime: Uint64, endTime: Uint64)

  /**
   * What the loop observes: a timed workload run, or one run of
   * `signalHandler(signo)` between two passes. The handler is installed for
   * SIGUSR1 only, so any other signal number here stands for a call of the
   * handler, not for a signal the process receives (which would take its
   * default action).
   */
  datatype Tick = Timed(sample: Sample) | Deliver(signo: int)

  function Duration(x: Sample): Uint64
  {
    ClockDiff(x.startTime, x.endTime)
  }

  /** `SampleNo++` on an `unsigned int`. */
  function Inc32(n: Uint32): Uint32
  {
    (n + 1) % TWO32
  }

  /** `tmp` after the priming loop: the workload's value added PRIMING_RUNS times. */
  function Primed(cfg: Config): Uint32
  {
    Repeat(Value(cfg.loopCount, cfg.seed), PRIMING_RUNS)
  }

  /** The state when measuring starts. */
  function Initial(cfg: Config): State
  {
    State(Empty, Empty, 0, 0, Primed(cfg), None, false, false)
  }

  /**
   * What every reachable state satisfies: a display counter above zero means
   * an interval has ended, so `lasttime` is set; both pairs are either reset
   * or ordered; and `tref` never exceeds the display interval (or 1).
   */
  predicate Inv(cfg: Config, s: State)
  {
    && (s.sampleNo > 0 ==> s.lastTime.Some?)
    && Ordered(s.transient)
    && Ordered(s.absolute)
    && s.tref <= Max(cfg.displayUpdate, 1)
  }

  /** `signalHandler`: SIGUSR1 sets the reset request and nothing else. */
  function Handle(s: State, signo: int): State
  {
    if signo == SIGUSR1 then s.(resetStats := true) else s
  }

  /** `tref++ >= displayUpdate`: whether this pass ends the display interval. */
  predicate Fires(cfg: Config, s: State)
  {
    s.tref >= cfg.displayUpdate
  }

  /**
   * The trigger's condition, on the state after the duration d was recorded.
   * `currentExectime - TransientMin` is an unsigned 64-bit subtraction.
   */
  predicate Triggers(cfg: Config, s: State, d: Uint64)
  {
    cfg.perfPid != NO_PERF && s.sampleNo > SKIP && !s.signaled
    && Sub64(d, s.transient.min) > cfg.jitterThreshold
  }

  /**
   * jitter.c lines 268-276: the line reporting the interval, printed unless the
   * display counter is still zero; d is the duration just recorded.
   */
  function Report(s: State, d: Uint64, endTime: Uint64): seq<Event>
    requires s.sampleNo > 0 ==> s.lastTime.Some?
  {
    if s.sampleNo > 0 then
      [StatsLine(Line(s.transient.min, s.transient.max, Sub64(s.transient.max, s.transient.min),
                      d, s.absolute.min, s.absolute.max, s.tmp,
                      Sub64(endTime, s.lastTime.value), s.sampleNo))]
    else []
  }

  /**
   * jitter.c lines 267 and 278-282: restart `tref` at 1, count the line, remember the
   * end timestamp and reset the interval range.
   */
  function Restart(s: State, endTime: Uint64): State
  {
    s.(tref := 1, sampleNo := Inc32(s.sampleNo), lastTime := Some(endTime), transient := Empty)
  }

  /**
   * jitter.c lines 284-293: a pending reset request resets the absolute range, is
   * cleared, sets the display counter to 1 and re-arms the trigger.
   */
  function ConsumeReset(s: State): State
  {
    if s.resetStats then s.(absolute := Empty, resetStats := false, sampleNo := 1, signaled := false)
    else s
  }

  /** jitter.c lines 296-297: the title, repeated when the display counter is a multiple of TITLE_EVERY. */
  function TitleIfDue(s: State): seq<Event>
  {
    if s.sampleNo % TITLE_EVERY == 0 then [Title] else []
  }

  /**
   * The end of a display interval, after d was recorded with end timestamp
   * endTime: report, restart, act on a pending reset, repeat the title.
   */
  function Boundary(s: State, d: Uint64, endTime: Uint64): Outcome
    requires s.sampleNo > 0 ==> s.lastTime.Some?
  {
    var u := ConsumeReset(Restart(s, endTime));
    Outcome(u, Report(s, d, endTime) + TitleIfDue(u))
  }

  /** jitter.c lines 240-256: run and time the workload, then record its duration in both ranges. */
  function Recorded(cfg: Config, s: State, d: Uint64): State
  {
    s.(tmp := Add32(s.tmp, Value(cfg.loopCount, cfg.seed)),
       absolute := Record(s.absolute, d),
       transient := Record(s.transient, d))
  }

  /**
   * jitter.c lines 265-299: count the pass in `tref` and end the display interval
   * when it is due. Nothing here signals the tracing process.
   */
  function Advance(cfg: Config, s: State, d: Uint64, endTime: Uint64): (o: Outcome)
    requires s.sampleNo > 0 ==> s.lastTime.Some?
    ensures forall e :: e in o.events ==> !e.Kill?
  {
    if Fires(cfg, s) then Boundary(s, d, endTime)
    else Outcome(s.(tref := s.tref + 1), [])
  }

  /** One pass of the measurement loop for the workload run timed by x. */
  function Step(cfg: Config, s: State, x: Sample): (o: Outcome)
    requires Inv(cfg, s)
    ensures Inv(cfg, o.state)
  {
    var d := Duration(x);
    var recorded := Recorded(cfg, s, d);
    var fire := Triggers(cfg, recorded, d);
    var armed := if fire then recorded.(signaled := true) else recorded;
    var rest := Advance(cfg, armed, d, x.endTime);
    Outcome(rest.state, (if fire then [Kill(cfg.perfPid, SIGUSR2)] else []) + rest.events)
  }

  /** What one tick does to the state. */
  function Apply(cfg: Config, s: State, t: Tick): (o: Outcome)
    requires Inv(cfg, s)
    ensures Inv(cfg, o.state)
  {
    match t
    case Timed(x) => Step(cfg, s, x)
    case Deliver(signo) => Outcome(Handle(s, signo), [])
  }

  /** The ticks applied in order; the events are concatenated. */
  function Run(cfg: Config, s: State, ticks: seq<Tick>): (o: Outcome)
    requires Inv(cfg, s)
    ensures Inv(cfg, o.state)
    decreases |ticks|
  {
    if ticks == [] then Outcome(s, [])
    else
      var prev := Run(cfg, s, ticks[..|ticks| - 1]);
      var last := Apply(cfg, prev.state, ticks[|ticks| - 1]);
      Outcome(last.state, prev.events + last.events)
  }

  /** `SampleNo <= iterations` fails: the loop stops after this pass. */
  predicate Done(cfg: Config, s: State)
  {
    s.sampleNo > cfg.iterations
  }

  /** Tick j of ticks is a pass after which the loop stops. */
  predicate StopsAt(cfg: Config, s: State, ticks: seq<Tick>, j: nat)
    requires Inv(cfg, s)
    requires j < |ticks|
  {
    ticks[j].Timed? && Done(cfg, Run(cfg, s, ticks[..j + 1]).state)
  }
}
