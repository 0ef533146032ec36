/** The command sanitizer of the motor loop, as a pure function: the raw
    current command is clipped to the current bound and then forced to zero
    when the actuator is outside its position or velocity bounds. Instead of
    printing to the console it returns the kinds of violation it saw, in the
    order the checks run. */
module Sanitizer {

  /** The two situations the sanitizer reports. Clipping the current is not
      reported. */
  datatype Diagnostic = PositionOutOfBounds | VelocityOutOfBounds

  /** The sanitizer's default-valued parameters as one configuration record.
      `reductionFactor` is accepted but never used. */
  datatype Limits = Limits(maxCurrent: real, maxPos: real, maxVel: real, reductionFactor: real)

  /** The defaults the code uses: 2000 mA, 3.141 rad, 30 rad/s, 0.1. */
  const DefaultLimits := Limits(2000.0, 3.141, 30.0, 0.1)

  /** The sanitized command together with the diagnostics emitted on the way. */
  datatype Sanitized = Sanitized(command: real, diagnostics: seq<Diagnostic>)

  predicate PositionViolated(pos: real, limits: Limits) {
    pos > limits.maxPos || pos < -limits.maxPos
  }

  predicate VelocityViolated(vel: real, limits: Limits) {
    vel > limits.maxVel || vel < -limits.maxVel
  }

  function Distance(a: real, b: real): real {
    if a >= b then a - b else b - a
  }

  /** Clipping to `[-maxCurrent, maxCurrent]`, first from above and then from
      below. For a non-negative bound the result is the point of the interval
      nearest to the command. For a negative bound the two steps always end on
      `-maxCurrent`. */
  function ClampCurrent(command: real, maxCurrent: real): (r: real)
    ensures maxCurrent >= 0.0 ==> -maxCurrent <= r <= maxCurrent
    ensures maxCurrent >= 0.0 ==>
      forall y :: -maxCurrent <= y <= maxCurrent ==> Distance(r, command) <= Distance(y, command)
    ensures maxCurrent < 0.0 ==> r == -maxCurrent
  {
    var upper := if command > maxCurrent then maxCurrent else command;
    if upper < -maxCurrent then -maxCurrent else upper
  }

  /** Clipping preserves the order of commands. */
  lemma ClampMonotone(c1: real, c2: real, maxCurrent: real)
    requires c1 <= c2
    ensures ClampCurrent(c1, maxCurrent) <= ClampCurrent(c2, maxCurrent)
  {}

  /** The whole sanitizer: clip, then zero on a position violation, then zero
      on a velocity violation. */
  function Sanitize(command: real, pos: real, vel: real, limits: Limits): (r: Sanitized)
    ensures limits.maxCurrent >= 0.0 ==> -limits.maxCurrent <= r.command <= limits.maxCurrent
    ensures PositionViolated(pos, limits) || VelocityViolated(vel, limits) ==> r.command == 0.0
    ensures !PositionViolated(pos, limits) && !VelocityViolated(vel, limits) ==>
      r.command == ClampCurrent(command, limits.maxCurrent)
    ensures PositionOutOfBounds in r.diagnostics <==> PositionViolated(pos, limits)
    ensures VelocityOutOfBounds in r.diagnostics <==> VelocityViolated(vel, limits)
    ensures forall i, j :: 0 <= i < j < |r.diagnostics| ==>
      r.diagnostics[i] == PositionOutOfBounds && r.diagnostics[j] == VelocityOutOfBounds
  {
    var clamped := ClampCurrent(command, limits.maxCurrent);
    var afterPos :=
      if PositionViolated(pos, limits) then Sanitized(0.0, [PositionOutOfBounds])
      else Sanitized(clamped, []);
    if VelocityViolated(vel, limits) then Sanitized(0.0, afterPos.diagnostics + [VelocityOutOfBounds])
    else afterPos
  }

  /** A command that is already safe passes through untouched and silently. */
  lemma SanitizeKeepsSafeCommand(command: real, pos: real, vel: real, limits: Limits)
    requires -limits.maxCurrent <= command <= limits.maxCurrent
    requires !PositionViolated(pos, limits) && !VelocityViolated(vel, limits)
    ensures Sanitize(command, pos, vel, limits) == Sanitized(command, [])
  {}

  /** When both bounds are violated both diagnostics appear, position first. */
  lemma SanitizeBothViolations(command: real, pos: real, vel: real, limits: Limits)
    requires PositionViolated(pos, limits) && VelocityViolated(vel, limits)
    ensures Sanitize(command, pos, vel, limits) == Sanitized(0.0, [PositionOutOfBounds, VelocityOutOfBounds])
  {}

  /** Sanitizing twice with the same telemetry gives the same command and the
      same diagnostics as sanitizing once, whatever the bounds. */
  lemma SanitizeIdempotent(command: real, pos: real, vel: real, limits: Limits)
    ensures Sanitize(Sanitize(command, pos, vel, limits).command, pos, vel, limits)
         == Sanitize(command, pos, vel, limits)
  {}

  /** The reduction factor has no effect on the result. */
  lemma SanitizeIgnoresReductionFactor(command: real, pos: real, vel: real, limits: Limits, factor: real)
    ensures Sanitize(command, pos, vel, limits.(reductionFactor := factor)) == Sanitize(command, pos, vel, limits)
  {}

  /** With the default bounds, a position of 4 rad zeroes any command and
      reports the position; a 1000 mA command at rest passes unchanged. */
  lemma SanitizeDefaultScenarios(command: real)
    ensures Sanitize(command, 4.0, 0.0, DefaultLimits) == Sanitized(0.0, [PositionOutOfBounds])
    ensures Sanitize(1000.0, 0.0, 0.0, DefaultLimits) == Sanitized(1000.0, [])
    ensures Sanitize(5000.0, 0.0, 0.0, DefaultLimits) == Sanitized(2000.0, [])
  {}
}
