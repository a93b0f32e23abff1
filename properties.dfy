/**
 * What the measurement loop guarantees, stated over the functions of module
 * Measure: per pass, per display interval, and over runs of passes and
 * signal deliveries.
 */
module Properties {
  import opened Clock
  import opened Workload
  import opened Stats
  import opened Measure

  /**
   * Measuring starts from the reachable-state invariant, with nothing
   * counted, the statistics reset, the trigger armed, and `tmp` holding the
   * workload's value times the number of priming runs, modulo 2^32.
   */
  lemma InitialState(cfg: Config)
    ensures Inv(cfg, Initial(cfg))
    ensures Initial(cfg).tref == 0 && Initial(cfg).sampleNo == 0
    ensures Initial(cfg).absolute == Empty && Initial(cfg).transient == Empty
    ensures !Initial(cfg).signaled && !Initial(cfg).resetStats
    ensures Initial(cfg).tmp == (PRIMING_RUNS * Value(cfg.loopCount, cfg.seed)) % TWO32
  {
    RepeatIsProduct(Value(cfg.loopCount, cfg.seed), PRIMING_RUNS);
  }

  /**
   * Recording: after a pass the duration lies within the absolute range,
   * whose minimum has not grown and maximum not shrunk, unless the pass
   * ended an interval with a reset pending; it lies within the interval
   * range likewise unless the pass ended the interval.
   */
  lemma StepRecords(cfg: Config, s: State, x: Sample)
    requires Inv(cfg, s)
    ensures var o, d := Step(cfg, s, x).state, Duration(x);
      !(Fires(cfg, s) && s.resetStats) ==>
        o.absolute.min <= d <= o.absolute.max
        && o.absolute.min <= s.absolute.min && s.absolute.max <= o.absolute.max
    ensures var o, d := Step(cfg, s, x).state, Duration(x);
      !Fires(cfg, s) ==>
        o.transient.min <= d <= o.transient.max
        && o.transient.min <= s.transient.min && s.transient.max <= o.transient.max
  {
  }

  /**
   * The trigger: a pass signals the tracing process exactly when a tracing
   * process was named, more than SKIP intervals have been counted, the
   * trigger is armed, and the duration exceeds the interval minimum (this
   * duration included) by more than the threshold. The unsigned subtraction
   * in the condition never wraps. Firing disarms the trigger; only a reset
   * re-arms it.
   */
  lemma StepTrigger(cfg: Config, s: State, x: Sample)
    requires Inv(cfg, s)
    ensures var o, d := Step(cfg, s, x), Duration(x);
      var fire := cfg.perfPid != NO_PERF && s.sampleNo > SKIP && !s.signaled
                  && d - Min(s.transient.min, d) > cfg.jitterThreshold;
      && (Kill(cfg.perfPid, SIGUSR2) in o.events <==> fire)
      && (forall e :: e in o.events && e.Kill? ==> e == Kill(cfg.perfPid, SIGUSR2))
      && multiset(o.events)[Kill(cfg.perfPid, SIGUSR2)] == (if fire then 1 else 0)
      && (!(Fires(cfg, s) && s.resetStats) ==> o.state.signaled == (s.signaled || fire))
  {
    var d := Duration(x);
    var recorded := Recorded(cfg, s, d);
    var m := recorded.transient.min;
    assert m == Min(s.transient.min, d);
    assert Sub64(d, m) == d - m;
    var fire := Triggers(cfg, recorded, d);
    var armed := if fire then recorded.(signaled := true) else recorded;
    var adv := Advance(cfg, armed, d, x.endTime);
    var rest := adv.events;
    assert Kill(cfg.perfPid, SIGUSR2) !in rest;
    assert multiset(rest)[Kill(cfg.perfPid, SIGUSR2)] == 0;
    assert Step(cfg, s, x) == Outcome(adv.state, (if fire then [Kill(cfg.perfPid, SIGUSR2)] else []) + rest);
  }

  /**
   * A pass that does not end the interval only advances `tref`: the display
   * counter, `lasttime` and the reset request are untouched, both ranges
   * record the duration, and nothing but a trigger signal is emitted.
   */
  lemma StepQuiet(cfg: Config, s: State, x: Sample)
    requires Inv(cfg, s)
    requires !Fires(cfg, s)
    ensures var o := Step(cfg, s, x);
      && o.state.tref == s.tref + 1
      && o.state.sampleNo == s.sampleNo
      && o.state.lastTime == s.lastTime
      && o.state.resetStats == s.resetStats
      && o.state.absolute == Record(s.absolute, Duration(x))
      && o.state.transient == Record(s.transient, Duration(x))
      && (forall e :: e in o.events ==> e.Kill?)
  {
  }

  /**
   * A pass that ends the interval (`tref` had reached `displayUpdate`):
   * `tref` restarts at 1, the interval range is reset, the end timestamp
   * becomes `lasttime`, and the display counter advances (wrapping at 2^32),
   * or becomes 1 when a reset was pending. A pending reset is consumed: it
   * resets the absolute range and re-arms the trigger; without one the
   * absolute range keeps what this pass recorded. The title follows exactly
   * when the new counter is a multiple of TITLE_EVERY.
   */
  lemma StepBoundary(cfg: Config, s: State, x: Sample)
    requires Inv(cfg, s)
    requires Fires(cfg, s)
    ensures var o := Step(cfg, s, x).state;
      && o.tref == 1
      && o.transient == Empty
      && o.lastTime == Some(x.endTime)
      && o.sampleNo == (if s.resetStats then 1 else Inc32(s.sampleNo))
      && !o.resetStats
      && (s.resetStats ==> o.absolute == Empty && !o.signaled)
      && (!s.resetStats ==> o.absolute == Record(s.absolute, Duration(x)))
    ensures var o := Step(cfg, s, x);
      Title in o.events <==> o.state.sampleNo % TITLE_EVERY == 0
  {
  }

  /**
   * The line printed when a pass ends an interval: there is one exactly when
   * the display counter was above zero, and it reports the interval range
   * with this duration recorded, its spread (which never underflows, the
   * interval holding at least this duration), this duration, the absolute
   * range before any reset, `tmp`, the cycles since the previous interval
   * ended, and the counter before it advanced.
   */
  lemma StepLine(cfg: Config, s: State, x: Sample)
    requires Inv(cfg, s)
    requires Fires(cfg, s)
    ensures var o, d := Step(cfg, s, x), Duration(x);
      (exists e :: e in o.events && e.StatsLine?) <==> s.sampleNo > 0
    ensures var o, d := Step(cfg, s, x), Duration(x);
      var t, a := Record(s.transient, d), Record(s.absolute, d);
      forall e :: e in o.events && e.StatsLine? ==>
        && s.lastTime.Some?
        && t.min <= d <= t.max
        && e.line == Line(t.min, t.max, t.max - t.min, d, a.min, a.max,
                          Add32(s.tmp, Value(cfg.loopCount, cfg.seed)),
                          Sub64(x.endTime, s.lastTime.value), s.sampleNo)
  {
    var d := Duration(x);
    var recorded := Recorded(cfg, s, d);
    var fire := Triggers(cfg, recorded, d);
    var armed := if fire then recorded.(signaled := true) else recorded;
    var b := Boundary(armed, d, x.endTime).events;
    assert Step(cfg, s, x).events == (if fire then [Kill(cfg.perfPid, SIGUSR2)] else []) + b;
    if s.sampleNo > 0 {
      assert b[0] in Step(cfg, s, x).events;
    }
  }

  /** The durations of the timed runs among the ticks, in order. */
  function Durations(ticks: seq<Tick>): seq<Uint64>
  {
    if ticks == [] then []
    else
      var last := ticks[|ticks| - 1];
      Durations(ticks[..|ticks| - 1]) + if last.Timed? then [Duration(last.sample)] else []
  }

  /** The timed runs among the ticks, in order, without the signal deliveries. */
  function TimedOnly(ticks: seq<Tick>): seq<Tick>
  {
    if ticks == [] then []
    else
      var last := ticks[|ticks| - 1];
      TimedOnly(ticks[..|ticks| - 1]) + if last.Timed? then [last] else []
  }

  predicate AllTimed(ticks: seq<Tick>)
  {
    forall i :: 0 <= i < |ticks| ==> ticks[i].Timed?
  }

  /** Running one more tick is one more Apply after the run of the others. */
  lemma RunSnoc(cfg: Config, s: State, ticks: seq<Tick>, t: Tick)
    requires Inv(cfg, s)
    ensures Run(cfg, s, ticks + [t]).state == Apply(cfg, Run(cfg, s, ticks).state, t).state
    ensures Run(cfg, s, ticks + [t]).events
            == Run(cfg, s, ticks).events + Apply(cfg, Run(cfg, s, ticks).state, t).events
  {
    assert (ticks + [t])[..|ticks|] == ticks;
  }

  /**
   * Passes that stay inside one display interval: `tref` counts them, the
   * display counter, `lasttime` and the reset request are untouched, both
   * ranges record exactly their durations, and no line or title is printed.
   */
  lemma {:induction false} QuietRun(cfg: Config, s: State, ticks: seq<Tick>)
    requires Inv(cfg, s)
    requires AllTimed(ticks)
    requires s.tref + |ticks| <= cfg.displayUpdate
    ensures var o := Run(cfg, s, ticks);
      && o.state.tref == s.tref + |ticks|
      && o.state.sampleNo == s.sampleNo
      && o.state.lastTime == s.lastTime
      && o.state.resetStats == s.resetStats
      && o.state.absolute == RecordAll(s.absolute, Durations(ticks))
      && o.state.transient == RecordAll(s.transient, Durations(ticks))
      && (forall e :: e in o.events ==> e.Kill?)
    ensures |Durations(ticks)| == |ticks|
  {
    if ticks != [] {
      var init, last := ticks[..|ticks| - 1], ticks[|ticks| - 1];
      assert ticks == init + [last];
      QuietRun(cfg, s, init);
      RunSnoc(cfg, s, init, last);
      var m := Run(cfg, s, init).state;
      StepQuiet(cfg, m, last.sample);
      var ds := Durations(ticks);
      assert ds[..|ds| - 1] == Durations(init);
    }
  }

  /**
   * A whole display interval: from the start of an interval (`tref` at most
   * `displayUpdate`, interval range reset), the next `displayUpdate - tref + 1`
   * passes end it on the last of them, and only there. So an interval after
   * the first (which starts at `tref == 1`) holds `displayUpdate` samples and
   * the first (at `tref == 0`) one more. Its line is printed when the display
   * counter was above zero and reports the minimum and maximum of exactly
   * the interval's durations (the minimum capped at the sentinel), every one
   * of them lying between the two, and their spread; the next interval
   * starts again from `tref == 1` and a reset interval range. With
   * `displayUpdate == 0` (`-r 0`) every pass ends its interval, so every
   * interval holds one sample; this lemma then covers only the first one,
   * and StepLine describes each of the others.
   */
  lemma IntervalReport(cfg: Config, s: State, ticks: seq<Tick>)
    requires Inv(cfg, s)
    requires AllTimed(ticks)
    requires s.tref <= cfg.displayUpdate
    requires |ticks| == cfg.displayUpdate - s.tref + 1
    requires s.transient == Empty
    ensures var o := Run(cfg, s, ticks);
      o.state.tref == 1 && o.state.transient == Empty
    ensures var o := Run(cfg, s, ticks);
      (exists e :: e in o.events && e.StatsLine?) <==> s.sampleNo > 0
    ensures var o, ds := Run(cfg, s, ticks), Durations(ticks);
      var t, a := RecordAll(Empty, ds), RecordAll(s.absolute, ds);
      forall e :: e in o.events && e.StatsLine? ==>
        && e.line.instMin == t.min && e.line.instMax == t.max
        && e.line.instJitter == t.max - t.min
        && e.line.absMin == a.min && e.line.absMax == a.max
        && e.line.sampleNo == s.sampleNo
        && (forall i :: 0 <= i < |ds| ==> e.line.instMin <= ds[i] <= e.line.instMax)
  {
    var init, last := ticks[..|ticks| - 1], ticks[|ticks| - 1];
    assert ticks == init + [last];
    QuietRun(cfg, s, init);
    RunSnoc(cfg, s, init, last);
    var m := Run(cfg, s, init).state;
    StepBoundary(cfg, m, last.sample);
    StepLine(cfg, m, last.sample);
    var ds := Durations(ticks);
    assert ds[..|ds| - 1] == Durations(init);
    RecordAllBounds(Empty, ds);
    var o := Run(cfg, s, ticks);
    var stepEvents := Step(cfg, m, last.sample).events;
    assert o.events == Run(cfg, s, init).events + stepEvents;
    assert forall e :: e in o.events && e.StatsLine? ==> e in stepEvents;
    if s.sampleNo > 0 {
      var e :| e in stepEvents && e.StatsLine?;
      assert e in o.events;
    }
  }

  /**
   * An interval of four samples lasting 100, 50, 200 and 75 cycles, started
   * with the absolute range reset, is reported with a minimum of 50, a
   * maximum of 200, a jitter of 150, and an absolute range of 50 to 200.
   */
  lemma ExampleReport(cfg: Config, s: State)
    requires Inv(cfg, s)
    requires cfg.displayUpdate == 4 && s.tref == 1 && s.sampleNo > 0
    requires s.transient == Empty && s.absolute == Empty
    ensures var o := Run(cfg, s, [Timed(Sample(0, 100)), Timed(Sample(0, 50)),
                                  Timed(Sample(0, 200)), Timed(Sample(0, 75))]);
      && (exists e :: e in o.events && e.StatsLine?)
      && (forall e :: e in o.events && e.StatsLine? ==>
            e.line.instMin == 50 && e.line.instMax == 200 && e.line.instJitter == 150
            && e.line.absMin == 50 && e.line.absMax == 200)
  {
    var ticks := [Timed(Sample(0, 100)), Timed(Sample(0, 50)),
                  Timed(Sample(0, 200)), Timed(Sample(0, 75))];
    IntervalReport(cfg, s, ticks);
    ExampleDurations();
    ExampleInterval();
  }

  /** The durations of the four runs of ExampleReport. */
  lemma ExampleDurations()
    ensures Durations([Timed(Sample(0, 100)), Timed(Sample(0, 50)),
                       Timed(Sample(0, 200)), Timed(Sample(0, 75))]) == [100, 50, 200, 75]
  {
    var ticks := [Timed(Sample(0, 100)), Timed(Sample(0, 50)),
                  Timed(Sample(0, 200)), Timed(Sample(0, 75))];
    assert Durations(ticks[..1]) == [100] by {
      assert ticks[..1][..0] == [];
    }
    assert Durations(ticks[..2]) == [100, 50] by {
      assert ticks[..2][..1] == ticks[..1];
    }
    assert Durations(ticks[..3]) == [100, 50, 200] by {
      assert ticks[..3][..2] == ticks[..2];
    }
    assert ticks[..4] == ticks;
  }

  /**
   * A reset request is acted on at the end of the interval: the absolute
   * range is reset, the request cleared, the display counter set to 1 and
   * the trigger re-armed; the very next duration below the sentinel then
   * becomes both the absolute minimum and maximum.
   */
  lemma ResetThenSample(cfg: Config, s: State, x: Sample, y: Sample)
    requires Inv(cfg, s)
    requires Fires(cfg, s) && s.resetStats
    ensures var o := Step(cfg, s, x).state;
      o.absolute == Empty && !o.resetStats && o.sampleNo == 1 && !o.signaled
    ensures Duration(y) < MINVAL ==>
      Step(cfg, Step(cfg, s, x).state, y).state.absolute == Range(Duration(y), Duration(y))
  {
    StepBoundary(cfg, s, x);
    var o := Step(cfg, s, x).state;
    FirstRecord(Duration(y));
    if Fires(cfg, o) {
      StepBoundary(cfg, o, y);
    } else {
      StepQuiet(cfg, o, y);
    }
  }

  /**
   * Between two resets, the absolute range records every duration: each lies
   * within it, its minimum never grows and its maximum never shrinks. The run
   * may contain SIGUSR1 deliveries and start with a request pending; only no
   * pass of it may act on one.
   */
  lemma AbsoluteBetweenResets(cfg: Config, s: State, ticks: seq<Tick>)
    requires Inv(cfg, s)
    requires NoResetIn(cfg, s, ticks)
    ensures var o, ds := Run(cfg, s, ticks).state, Durations(ticks);
      && (forall i :: 0 <= i < |ds| ==> o.absolute.min <= ds[i] <= o.absolute.max)
      && o.absolute.min <= s.absolute.min && s.absolute.max <= o.absolute.max
  {
    EpochRecords(cfg, s, ticks);
    RecordAllBounds(s.absolute, Durations(ticks));
  }

  /**
   * Pass j of the run ends a display interval while a reset request is
   * pending, so it resets the absolute range and re-arms the trigger.
   */
  predicate ResetAt(cfg: Config, s: State, ticks: seq<Tick>, j: nat)
    requires Inv(cfg, s)
    requires j < |ticks|
  {
    var m := Run(cfg, s, ticks[..j]).state;
    ticks[j].Timed? && Fires(cfg, m) && m.resetStats
  }

  /** No pass of the run acts on a reset request: the run lies between two resets. */
  predicate NoResetIn(cfg: Config, s: State, ticks: seq<Tick>)
    requires Inv(cfg, s)
  {
    forall j: nat :: j < |ticks| ==> !ResetAt(cfg, s, ticks, j)
  }

  /** A run between two resets: so is its prefix, and its last pass acts on no request. */
  lemma NoResetSplit(cfg: Config, s: State, ticks: seq<Tick>)
    requires Inv(cfg, s)
    requires ticks != [] && NoResetIn(cfg, s, ticks)
    ensures NoResetIn(cfg, s, ticks[..|ticks| - 1])
    ensures var m := Run(cfg, s, ticks[..|ticks| - 1]).state;
      !(ticks[|ticks| - 1].Timed? && Fires(cfg, m) && m.resetStats)
  {
    var init := ticks[..|ticks| - 1];
    forall j: nat | j < |init|
      ensures !ResetAt(cfg, s, init, j)
    {
      assert init[..j] == ticks[..j];
      assert !ResetAt(cfg, s, ticks, j);
    }
    assert !ResetAt(cfg, s, ticks, |init|);
  }

  /** A run with no request pending and no SIGUSR1 delivered lies between two resets. */
  lemma NoRequestNoReset(cfg: Config, s: State, ticks: seq<Tick>)
    requires Inv(cfg, s)
    requires !s.resetStats
    requires forall i :: 0 <= i < |ticks| ==> ticks[i] != Deliver(SIGUSR1)
    ensures NoResetIn(cfg, s, ticks)
  {
    forall j: nat | j < |ticks|
      ensures !ResetAt(cfg, s, ticks, j)
    {
      NoResetRecords(cfg, s, ticks[..j]);
    }
  }

  /** Between two resets, the absolute range is the record of all durations. */
  lemma {:induction false} EpochRecords(cfg: Config, s: State, ticks: seq<Tick>)
    requires Inv(cfg, s)
    requires NoResetIn(cfg, s, ticks)
    ensures Run(cfg, s, ticks).state.absolute == RecordAll(s.absolute, Durations(ticks))
  {
    if ticks != [] {
      var init, last := ticks[..|ticks| - 1], ticks[|ticks| - 1];
      assert ticks == init + [last];
      NoResetSplit(cfg, s, ticks);
      EpochRecords(cfg, s, init);
      RunSnoc(cfg, s, init, last);
      var m := Run(cfg, s, init).state;
      if last.Timed? {
        assert Durations(ticks) == Durations(init) + [Duration(last.sample)];
        if Fires(cfg, m) {
          StepBoundary(cfg, m, last.sample);
        } else {
          StepQuiet(cfg, m, last.sample);
        }
      } else {
        assert Durations(ticks) == Durations(init);
      }
    }
  }

  /** Without a reset, the absolute range is the record of all durations. */
  lemma {:induction false} NoResetRecords(cfg: Config, s: State, ticks: seq<Tick>)
    requires Inv(cfg, s)
    requires !s.resetStats
    requires forall i :: 0 <= i < |ticks| ==> ticks[i] != Deliver(SIGUSR1)
    ensures !Run(cfg, s, ticks).state.resetStats
    ensures Run(cfg, s, ticks).state.absolute == RecordAll(s.absolute, Durations(ticks))
  {
    if ticks != [] {
      var init, last := ticks[..|ticks| - 1], ticks[|ticks| - 1];
      assert ticks == init + [last];
      NoResetRecords(cfg, s, init);
      RunSnoc(cfg, s, init, last);
      var m := Run(cfg, s, init).state;
      if last.Timed? {
        assert Durations(ticks) == Durations(init) + [Duration(last.sample)];
        if Fires(cfg, m) {
          StepBoundary(cfg, m, last.sample);
        } else {
          StepQuiet(cfg, m, last.sample);
        }
      } else {
        assert Durations(ticks) == Durations(init);
      }
    }
  }

  /**
   * Between two resets the tracing process is signalled at most once, and
   * not at all if the trigger was already disarmed: firing disarms the
   * trigger and nothing but a consumed reset re-arms it. SIGUSR1 deliveries
   * and a pending request do not re-arm it until a pass acts on the request.
   */
  lemma {:induction false} TriggerAtMostOnce(cfg: Config, s: State, ticks: seq<Tick>)
    requires Inv(cfg, s)
    requires NoResetIn(cfg, s, ticks)
    ensures var o := Run(cfg, s, ticks);
      multiset(o.events)[Kill(cfg.perfPid, SIGUSR2)] + (if s.signaled then 1 else 0)
      <= (if o.state.signaled then 1 else 0)
    ensures multiset(Run(cfg, s, ticks).events)[Kill(cfg.perfPid, SIGUSR2)] <= 1
    ensures s.signaled ==> Kill(cfg.perfPid, SIGUSR2) !in Run(cfg, s, ticks).events
  {
    if ticks != [] {
      var init, last := ticks[..|ticks| - 1], ticks[|ticks| - 1];
      assert ticks == init + [last];
      NoResetSplit(cfg, s, ticks);
      TriggerAtMostOnce(cfg, s, init);
      RunSnoc(cfg, s, init, last);
      var m := Run(cfg, s, init).state;
      if last.Timed? {
        StepTrigger(cfg, m, last.sample);
      }
    }
  }

  /** Keeping the timed runs leaves only timed runs, and changes nothing when there is no delivery. */
  lemma {:induction false} TimedOnlyFacts(ticks: seq<Tick>)
    ensures AllTimed(TimedOnly(ticks))
    ensures |TimedOnly(ticks)| <= |ticks|
    ensures AllTimed(ticks) ==> TimedOnly(ticks) == ticks
  {
    if ticks != [] {
      var init := ticks[..|ticks| - 1];
      TimedOnlyFacts(init);
      assert ticks == init + [ticks[|ticks| - 1]];
    }
  }

  /**
   * Inside an interval, a reset request commutes with a pass: setting the
   * flag before the pass or after it gives the same state and output.
   */
  lemma StepHandleQuiet(cfg: Config, s: State, x: Sample)
    requires Inv(cfg, s)
    requires !Fires(cfg, s)
    ensures Step(cfg, Handle(s, SIGUSR1), x)
            == Outcome(Handle(Step(cfg, s, x).state, SIGUSR1), Step(cfg, s, x).events)
  {
  }

  /** The same over a run of passes inside one interval. */
  lemma {:induction false} QuietHandle(cfg: Config, s: State, ticks: seq<Tick>)
    requires Inv(cfg, s)
    requires AllTimed(ticks)
    requires s.tref + |ticks| <= cfg.displayUpdate
    ensures Run(cfg, Handle(s, SIGUSR1), ticks)
            == Outcome(Handle(Run(cfg, s, ticks).state, SIGUSR1), Run(cfg, s, ticks).events)
  {
    if ticks != [] {
      var init, last := ticks[..|ticks| - 1], ticks[|ticks| - 1];
      assert ticks == init + [last];
      QuietHandle(cfg, s, init);
      QuietRun(cfg, s, init);
      RunSnoc(cfg, s, init, last);
      RunSnoc(cfg, Handle(s, SIGUSR1), init, last);
      StepHandleQuiet(cfg, Run(cfg, s, init).state, last.sample);
    }
  }

  /**
   * Repeated requests collapse: any number (at least one) of SIGUSR1
   * deliveries anywhere among the passes of one interval has the same
   * effect as a single request made before the first pass.
   */
  lemma {:induction false} RepeatedRequests(cfg: Config, s: State, ticks: seq<Tick>)
    requires Inv(cfg, s)
    requires forall i :: 0 <= i < |ticks| ==> ticks[i].Timed? || ticks[i] == Deliver(SIGUSR1)
    requires Deliver(SIGUSR1) in ticks
    requires s.tref + |TimedOnly(ticks)| <= cfg.displayUpdate
    ensures Run(cfg, s, ticks) == Run(cfg, Handle(s, SIGUSR1), TimedOnly(ticks))
  {
    var init, last := ticks[..|ticks| - 1], ticks[|ticks| - 1];
    assert ticks == init + [last];
    TimedOnlyFacts(init);
    RunSnoc(cfg, s, init, last);
    var u := Handle(s, SIGUSR1);
    if last.Timed? {
      assert TimedOnly(ticks) == TimedOnly(init) + [last];
      assert Deliver(SIGUSR1) in init;
      RepeatedRequests(cfg, s, init);
      RunSnoc(cfg, u, TimedOnly(init), last);
    } else {
      assert TimedOnly(ticks) == TimedOnly(init);
      if Deliver(SIGUSR1) in init {
        RepeatedRequests(cfg, s, init);
        QuietRun(cfg, u, TimedOnly(init));
      } else {
        assert AllTimed(init);
        QuietHandle(cfg, s, init);
      }
    }
  }
}
