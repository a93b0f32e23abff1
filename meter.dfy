/**
 * The measurement loop of `main` as an object: the loop's variables are the
 * fields of a Meter, the signal handler and one pass of the loop are methods
 * that update them in place, and Measure is the `do ... while` loop itself.
 * Every method is specified by the functions of module Measure, whose
 * properties module Properties proves.
 */
module Jitter {
  import opened Clock
  import opened Workload
  import opened Stats
  import opened Measure
  import Properties

  class Meter {
    const cfg: Config
    var absoluteMin: Uint64
    var absoluteMax: Uint64
    var transientMin: Uint64
    var transientMax: Uint64
    var tref: Uint32
    var sampleNo: Uint32
    var tmp: Uint32
    var lastTime: Option<Uint64>
    var signaled: bool
    var resetStats: bool
    /** Everything printed or signalled so far, in order. */
    ghost var log: seq<Event>

    /** The fields as a value of the loop's state. */
    function Snapshot(): State
      reads this
    {
      State(Range(absoluteMin, absoluteMax), Range(transientMin, transientMax),
            tref, sampleNo, tmp, lastTime, signaled, resetStats)
    }

    ghost predicate Valid()
      reads this
    {
      Inv(cfg, Snapshot())
    }

    /**
     * The start of `main` after the options are read: print the column title,
     * prime the caches with PRIMING_RUNS workload runs (only their sum in
     * `tmp` is observable), and start with nothing counted.
     */
    constructor (cfg: Config)
      ensures this.cfg == cfg
      ensures Valid() && Snapshot() == Initial(cfg)
      ensures log == [Title]
    {
      var acc: Uint32 := 0;
      var n := 0;
      while n < PRIMING_RUNS
        invariant n <= PRIMING_RUNS
        invariant acc == Repeat(Value(cfg.loopCount, cfg.seed), n)
      {
        var w := DummyOp(cfg.loopCount, cfg.seed);
        acc := Add32(acc, w);
        n := n + 1;
      }
      this.cfg := cfg;
      absoluteMin, absoluteMax := MINVAL, 0;
      transientMin, transientMax := MINVAL, 0;
      tref, sampleNo, tmp := 0, 0, acc;
      lastTime := None;
      signaled, resetStats := false, false;
      log := [Title];
    }

    /** `signalHandler`: on SIGUSR1, set the reset request; touch nothing else. */
    method SignalHandler(signo: int)
      requires Valid()
      modifies this`resetStats
      ensures Valid()
      ensures Snapshot() == Handle(old(Snapshot()), signo)
      ensures resetStats == (old(resetStats) || signo == SIGUSR1)
    {
      if signo == SIGUSR1 {
        resetStats := true;
      }
    }

    /** One pass of the loop, for the workload run between the two timestamps. */
    method RecordSample(startTime: Uint64, endTime: Uint64)
      requires Valid()
      modifies this
      ensures Valid()
      ensures Snapshot() == Step(cfg, old(Snapshot()), Sample(startTime, endTime)).state
      ensures log == old(log) + Step(cfg, old(Snapshot()), Sample(startTime, endTime)).events
    {
      ghost var s, log0 := Snapshot(), log;
      var d := ClockDiff(startTime, endTime);
      Track(d);
      ghost var recorded := Snapshot();
      ghost var fire := Triggers(cfg, recorded, d);
      ghost var kills := if fire then [Kill(cfg.perfPid, SIGUSR2)] else [];
      Trigger(d);
      ghost var armed := Snapshot();
      assert log == log0 + kills;
      EndPass(d, endTime);
      ghost var rest := Advance(cfg, armed, d, endTime);
      assert Step(cfg, s, Sample(startTime, endTime)) == Outcome(rest.state, kills + rest.events);
      assert log == log0 + (kills + rest.events);
    }

    /** jitter.c lines 240-256: run the workload, add its value to `tmp`, record d in both ranges. */
    method Track(d: Uint64)
      modifies this
      ensures Snapshot() == Recorded(cfg, old(Snapshot()), d)
      ensures log == old(log)
    {
      var w := DummyOp(cfg.loopCount, cfg.seed);
      tmp := Add32(tmp, w);
      if d < absoluteMin {
        absoluteMin := d;
      }
      if d >= absoluteMax {
        absoluteMax := d;
      }
      if d < transientMin {
        transientMin := d;
      }
      if d >= transientMax {
        transientMax := d;
      }
    }

    /** jitter.c lines 259-262: signal the tracing process once the jitter passes the threshold. */
    method Trigger(d: Uint64)
      modifies this`signaled, this`log
      ensures Triggers(cfg, old(Snapshot()), d) ==>
                Snapshot() == old(Snapshot()).(signaled := true)
                && log == old(log) + [Kill(cfg.perfPid, SIGUSR2)]
      ensures !Triggers(cfg, old(Snapshot()), d) ==>
                Snapshot() == old(Snapshot()) && log == old(log)
    {
      if cfg.perfPid != NO_PERF && sampleNo > SKIP && !signaled
         && Sub64(d, transientMin) > cfg.jitterThreshold {
        log := log + [Kill(cfg.perfPid, SIGUSR2)];
        signaled := true;
      }
    }

    /** jitter.c lines 265-299: count the pass and, when the interval is due, end it. */
    method EndPass(d: Uint64, endTime: Uint64)
      requires sampleNo > 0 ==> lastTime.Some?
      modifies this
      ensures Snapshot() == Advance(cfg, old(Snapshot()), d, endTime).state
      ensures log == old(log) + Advance(cfg, old(Snapshot()), d, endTime).events
    {
      var due := tref >= cfg.displayUpdate;
      if due {
        EndInterval(d, endTime);
      } else {
        tref := Inc32(tref);
      }
    }

    /** jitter.c lines 266-298: report the interval, start the next one, act on a pending reset. */
    method EndInterval(d: Uint64, endTime: Uint64)
      requires sampleNo > 0 ==> lastTime.Some?
      modifies this
      ensures Snapshot() == Boundary(old(Snapshot()), d, endTime).state
      ensures log == old(log) + Boundary(old(Snapshot()), d, endTime).events
    {
      ghost var s := Snapshot();
      PrintStats(d, endTime);
      StartNextInterval(endTime);
      ResetIfRequested();
      PrintTitle();
      assert log == old(log) + (Report(s, d, endTime) + TitleIfDue(Snapshot()));
    }

    /** jitter.c lines 268-276: print the interval's line unless the display counter is still zero. */
    method PrintStats(d: Uint64, endTime: Uint64)
      requires sampleNo > 0 ==> lastTime.Some?
      modifies this`log
      ensures log == old(log) + Report(Snapshot(), d, endTime)
    {
      if sampleNo > 0 {
        log := log + [StatsLine(Line(transientMin, transientMax, Sub64(transientMax, transientMin),
                                     d, absoluteMin, absoluteMax, tmp,
                                     Sub64(endTime, lastTime.value), sampleNo))];
      }
    }

    /** jitter.c lines 267 and 278-282. */
    method StartNextInterval(endTime: Uint64)
      modifies this`tref, this`sampleNo, this`lastTime, this`transientMin, this`transientMax
      ensures Snapshot() == Restart(old(Snapshot()), endTime)
    {
      tref := 1;
      sampleNo := Inc32(sampleNo);
      lastTime := Some(endTime);
      transientMax := 0;
      transientMin := MINVAL;
    }

    /** jitter.c lines 284-293. */
    method ResetIfRequested()
      modifies this`absoluteMin, this`absoluteMax, this`resetStats, this`sampleNo, this`signaled
      ensures Snapshot() == ConsumeReset(old(Snapshot()))
    {
      if resetStats {
        absoluteMax := 0;
        absoluteMin := MINVAL;
        resetStats := false;
        sampleNo := 1;
        signaled := false;
      }
    }

    /** jitter.c lines 296-297. */
    method PrintTitle()
      modifies this`log
      ensures log == old(log) + TitleIfDue(Snapshot())
    {
      if sampleNo % TITLE_EVERY == 0 {
        log := log + [Title];
      }
    }

    /**
     * The `do ... while (SampleNo <= iterations)` loop over what the process
     * observes: timed runs and delivered signals. It stops right after the
     * first pass that leaves the display counter above `iterations`, or when
     * the ticks run out; it returns how many ticks it consumed.
     */
    method Measure(ticks: seq<Tick>) returns (used: nat)
      requires Valid()
      modifies this
      ensures Valid()
      ensures used <= |ticks|
      ensures Snapshot() == Run(cfg, old(Snapshot()), ticks[..used]).state
      ensures log == old(log) + Run(cfg, old(Snapshot()), ticks[..used]).events
      ensures used < |ticks| ==> 0 < used && StopsAt(cfg, old(Snapshot()), ticks, used - 1)
      ensures forall j: nat :: j + 1 < used ==> !StopsAt(cfg, old(Snapshot()), ticks, j)
    {
      ghost var s0, log0 := Snapshot(), log;
      used := 0;
      var stop := false;
      while used < |ticks| && !stop
        invariant Valid() && used <= |ticks|
        invariant Snapshot() == Run(cfg, s0, ticks[..used]).state
        invariant log == log0 + Run(cfg, s0, ticks[..used]).events
        invariant stop == (0 < used && StopsAt(cfg, s0, ticks, used - 1))
        invariant forall j: nat :: j + 1 < used ==> !StopsAt(cfg, s0, ticks, j)
        decreases |ticks| - used
      {
        assert forall j: nat :: j < used ==> !StopsAt(cfg, s0, ticks, j) by {
          assert used > 0 ==> !StopsAt(cfg, s0, ticks, used - 1);
        }
        RunPrefix(cfg, s0, log0, ticks, used);
        Observe(ticks[used]);
        stop := ticks[used].Timed? && sampleNo > cfg.iterations;
        used := used + 1;
      }
    }

    /** One tick: a pass of the loop body, or the handler run for a delivered signal. */
    method Observe(t: Tick)
      requires Valid()
      modifies this
      ensures Valid()
      ensures Snapshot() == Apply(cfg, old(Snapshot()), t).state
      ensures log == old(log) + Apply(cfg, old(Snapshot()), t).events
    {
      match t {
        case Timed(x) =>
          RecordSample(x.startTime, x.endTime);
        case Deliver(signo) =>
          SignalHandler(signo);
      }
    }
  }

  /** How the loop's invariant advances by one tick. */
  lemma RunPrefix(cfg: Config, s0: State, log0: seq<Event>, ticks: seq<Tick>, n: nat)
    requires Inv(cfg, s0)
    requires n < |ticks|
    ensures var before := Run(cfg, s0, ticks[..n]);
      var step := Apply(cfg, before.state, ticks[n]);
      && Run(cfg, s0, ticks[..n + 1]).state == step.state
      && log0 + Run(cfg, s0, ticks[..n + 1]).events == (log0 + before.events) + step.events
      && (StopsAt(cfg, s0, ticks, n) <==> ticks[n].Timed? && Done(cfg, step.state))
  {
    var prefix := ticks[..n];
    assert ticks[..n + 1] == prefix + [ticks[n]];
    Properties.RunSnoc(cfg, s0, prefix, ticks[n]);
    var before := Run(cfg, s0, prefix);
    var after := Run(cfg, s0, prefix + [ticks[n]]);
    assert log0 + after.events == (log0 + before.events) + Apply(cfg, before.state, ticks[n]).events;
  }
}
