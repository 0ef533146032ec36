/** The fixed-period dispatch gate of the motor loop. Each pass of the loop
    sees the current time; when at least one loop delay has passed since the
    last command, it runs the PD controller on the telemetry sample,
    sanitizes the result, sends exactly one command and records the time.
    The bus and the console are outside the model: telemetry is an input and
    the sent command is an output. */
module Gate {
  import opened Control
  import opened Sanitizer

  datatype Option<T> = None | Some(value: T)

  /** What the loop fixes for the controller: the gains, the target and the
      sanitizer bounds. */
  datatype ControllerConfig = ControllerConfig(kp: real, kd: real, targetPosition: real, limits: Limits)

  /** The loop's settings: Kp = 1000, Kd = 0, target 0 rad, default bounds. */
  const DefaultConfig := ControllerConfig(1000.0, 0.0, 0.0, DefaultLimits)

  /** Position (rad) and velocity (rad/s) of the motor, as read from the bus. */
  datatype Telemetry = Telemetry(position: real, velocity: real)

  /** The only state kept across passes: when the last command was sent (ms). */
  datatype GateState = GateState(lastCommand: int)

  /** The timestamp starts at 0. */
  const InitialState := GateState(0)

  /** One command handed to the bus, with the time it was sent and the
      diagnostics the sanitizer raised for it. */
  datatype Dispatch = Dispatch(time: int, command: real, diagnostics: seq<Diagnostic>)

  datatype TickResult = TickResult(state: GateState, sent: Option<Dispatch>)

  predicate ShouldTick(now: int, lastCommand: int) {
    now - lastCommand >= LoopDelayMillis
  }

  /** The command computed by one control tick: PD output, then sanitized. */
  function Dispatched(now: int, sample: Telemetry, config: ControllerConfig): (d: Dispatch)
    ensures d.time == now
    ensures config.limits.maxCurrent >= 0.0 ==>
      -config.limits.maxCurrent <= d.command <= config.limits.maxCurrent
    ensures PositionViolated(sample.position, config.limits) || VelocityViolated(sample.velocity, config.limits) ==>
      d.command == 0.0
    ensures d.command == Sanitize(PdControl(sample.position, sample.velocity, config.targetPosition, config.kp, config.kd),
                                  sample.position, sample.velocity, config.limits).command
  {
    var raw := PdControl(sample.position, sample.velocity, config.targetPosition, config.kp, config.kd);
    var s := Sanitize(raw, sample.position, sample.velocity, config.limits);
    Dispatch(now, s.command, s.diagnostics)
  }

  /** One pass of the loop at time `now`. */
  function Tick(s: GateState, now: int, sample: Telemetry, config: ControllerConfig): (r: TickResult)
    ensures r.sent.Some? <==> now - s.lastCommand >= 5
    ensures now - s.lastCommand < 5 ==> r.state == s
    ensures now - s.lastCommand >= 5 ==> r.state.lastCommand == now && r.sent.value == Dispatched(now, sample, config)
    ensures r.state.lastCommand >= s.lastCommand
  {
    if ShouldTick(now, s.lastCommand) then
      TickResult(GateState(now), Some(Dispatched(now, sample, config)))
    else
      TickResult(s, None)
  }

  /** One pass of the loop: the time it runs at and the telemetry it would read. */
  datatype Step = Step(now: int, sample: Telemetry)

  datatype RunResult = RunResult(state: GateState, sent: seq<Dispatch>)

  /** The loop run over a sequence of passes: the final state and every
      command sent, in order. */
  function Run(s: GateState, trace: seq<Step>, config: ControllerConfig): (r: RunResult)
    ensures r.state.lastCommand >= s.lastCommand
    ensures |r.sent| <= |trace|
    ensures |r.sent| == 0 ==> r.state == s
    ensures |r.sent| > 0 ==> r.state.lastCommand == r.sent[|r.sent| - 1].time
    decreases |trace|
  {
    if |trace| == 0 then RunResult(s, [])
    else
      var prev := Run(s, trace[..|trace| - 1], config);
      var step := trace[|trace| - 1];
      var t := Tick(prev.state, step.now, step.sample, config);
      RunResult(t.state, prev.sent + (if t.sent.Some? then [t.sent.value] else []))
  }

  /** Consecutive commands are at least one loop delay apart. */
  ghost predicate Spaced(sent: seq<Dispatch>) {
    forall i :: 0 <= i < |sent| - 1 ==> sent[i].time + LoopDelayMillis <= sent[i + 1].time
  }

  /** Every command comes at least one loop delay after the starting timestamp,
      and consecutive commands are at least one loop delay apart. This holds
      for any sequence of times, monotone or not. */
  lemma {:induction false} RunSpaced(s: GateState, trace: seq<Step>, config: ControllerConfig)
    ensures Spaced(Run(s, trace, config).sent)
    ensures forall k :: 0 <= k < |Run(s, trace, config).sent| ==>
      s.lastCommand + LoopDelayMillis <= Run(s, trace, config).sent[k].time
    decreases |trace|
  {
    if |trace| > 0 {
      var prev := Run(s, trace[..|trace| - 1], config);
      RunSpaced(s, trace[..|trace| - 1], config);
      var step := trace[|trace| - 1];
      var t := Tick(prev.state, step.now, step.sample, config);
      var r := Run(s, trace, config);
      assert r.sent == prev.sent + (if t.sent.Some? then [t.sent.value] else []);
      forall k | 0 <= k < |r.sent|
        ensures s.lastCommand + LoopDelayMillis <= r.sent[k].time
      {
        if k == |prev.sent| {
          assert prev.state.lastCommand + LoopDelayMillis <= r.sent[k].time;
        } else {
          assert r.sent[k] == prev.sent[k];
        }
      }
    }
  }

  /** Every command sent is the sanitized PD output for one of the passes. */
  lemma {:induction false} RunDispatchesComeFromTrace(s: GateState, trace: seq<Step>, config: ControllerConfig)
    ensures forall k :: 0 <= k < |Run(s, trace, config).sent| ==>
      exists j :: 0 <= j < |trace| && Run(s, trace, config).sent[k] == Dispatched(trace[j].now, trace[j].sample, config)
    decreases |trace|
  {
    if |trace| > 0 {
      var init := trace[..|trace| - 1];
      RunDispatchesComeFromTrace(s, init, config);
      var r := Run(s, trace, config);
      var prev := Run(s, init, config);
      var last := trace[|trace| - 1];
      var t := Tick(prev.state, last.now, last.sample, config);
      assert r.sent == prev.sent + (if t.sent.Some? then [t.sent.value] else []);
      forall k | 0 <= k < |r.sent|
        ensures exists j :: 0 <= j < |trace| && r.sent[k] == Dispatched(trace[j].now, trace[j].sample, config)
      {
        if k < |prev.sent| {
          var j :| 0 <= j < |init| && prev.sent[k] == Dispatched(init[j].now, init[j].sample, config);
          assert r.sent[k] == prev.sent[k];
          assert init[j] == trace[j];
        } else {
          assert r.sent[k] == Dispatched(trace[|trace| - 1].now, trace[|trace| - 1].sample, config);
        }
      }
      assert r == Run(s, trace, config);
    } else {
      assert |Run(s, trace, config).sent| == 0;
    }
  }

  /** Every command sent respects the current bound. */
  lemma RunCommandsBounded(s: GateState, trace: seq<Step>, config: ControllerConfig)
    requires config.limits.maxCurrent >= 0.0
    ensures forall k :: 0 <= k < |Run(s, trace, config).sent| ==>
      -config.limits.maxCurrent <= Run(s, trace, config).sent[k].command <= config.limits.maxCurrent
  {
    RunDispatchesComeFromTrace(s, trace, config);
  }

  /** Spacing accumulates: `n` steps apart means at least `n` loop delays apart. */
  lemma {:induction false} SpacedSpan(sent: seq<Dispatch>, i: int, j: int)
    requires Spaced(sent)
    requires 0 <= i <= j < |sent|
    ensures sent[i].time + LoopDelayMillis * (j - i) <= sent[j].time
    decreases j - i
  {
    if i < j {
      SpacedSpan(sent, i, j - 1);
    }
  }

  /** Rate bound: if no pass runs later than `hi`, at most
      `(hi - lastCommand) / 5` commands are sent. */
  lemma RunRateBound(s: GateState, trace: seq<Step>, config: ControllerConfig, hi: int)
    requires forall j :: 0 <= j < |trace| ==> trace[j].now <= hi
    ensures LoopDelayMillis * |Run(s, trace, config).sent| <= if hi < s.lastCommand then 0 else hi - s.lastCommand
  {
    var sent := Run(s, trace, config).sent;
    if |sent| > 0 {
      RunSpaced(s, trace, config);
      RunDispatchesComeFromTrace(s, trace, config);
      SpacedSpan(sent, 0, |sent| - 1);
      var j :| 0 <= j < |trace| && sent[|sent| - 1] == Dispatched(trace[j].now, trace[j].sample, config);
    }
  }

  /** Window bound: if every pass runs within `[lo, hi]`, the commands sent
      number at most one more than the loop delays that fit in the window. */
  lemma RunWindowBound(s: GateState, trace: seq<Step>, config: ControllerConfig, lo: int, hi: int)
    requires forall j :: 0 <= j < |trace| ==> lo <= trace[j].now <= hi
    ensures |Run(s, trace, config).sent| > 0 ==> LoopDelayMillis * (|Run(s, trace, config).sent| - 1) <= hi - lo
  {
    var sent := Run(s, trace, config).sent;
    if |sent| > 0 {
      RunSpaced(s, trace, config);
      RunDispatchesComeFromTrace(s, trace, config);
      SpacedSpan(sent, 0, |sent| - 1);
      var j0 :| 0 <= j0 < |trace| && sent[0] == Dispatched(trace[j0].now, trace[j0].sample, config);
      var j1 :| 0 <= j1 < |trace| && sent[|sent| - 1] == Dispatched(trace[j1].now, trace[j1].sample, config);
    }
  }

  /** The recorded timestamp never goes backwards along a run. */
  lemma {:induction false} RunLastCommandMonotone(s: GateState, trace: seq<Step>, config: ControllerConfig, i: int, j: int)
    requires 0 <= i <= j <= |trace|
    ensures Run(s, trace[..i], config).state.lastCommand <= Run(s, trace[..j], config).state.lastCommand
    decreases j - i
  {
    if i < j {
      RunLastCommandMonotone(s, trace, config, i, j - 1);
      assert trace[..j][..j - 1] == trace[..j - 1];
    }
  }

  /** The loop as the runtime drives it: one pass per step, keeping the
      timestamp between passes and collecting the commands sent. */
  method ControlLoop(init: GateState, trace: seq<Step>, config: ControllerConfig)
    returns (final: GateState, sent: seq<Dispatch>)
    ensures RunResult(final, sent) == Run(init, trace, config)
    ensures Spaced(sent)
    ensures |sent| <= |trace|
  {
    final := init;
    sent := [];
    var i := 0;
    while i < |trace|
      invariant 0 <= i <= |trace|
      invariant RunResult(final, sent) == Run(init, trace[..i], config)
    {
      assert trace[..i + 1][..i] == trace[..i];
      var t := Tick(final, trace[i].now, trace[i].sample, config);
      final := t.state;
      if t.sent.Some? {
        sent := sent + [t.sent.value];
      }
      i := i + 1;
    }
    assert trace[..|trace|] == trace;
    RunSpaced(init, trace, config);
  }

  /** The gate at 100 ms after a command at 96 ms stays shut; at 101 ms it
      opens. With the loop's settings, a motor at rest on its target then
      gets a 0 mA command. */
  lemma GateScenarios()
    ensures Tick(GateState(96), 100, Telemetry(0.0, 0.0), DefaultConfig) == TickResult(GateState(96), None)
    ensures Tick(GateState(96), 101, Telemetry(0.0, 0.0), DefaultConfig)
         == TickResult(GateState(101), Some(Dispatch(101, 0.0, [])))
  {}
}
