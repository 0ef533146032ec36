/** The PD control law of the motor loop: a proportional term on the position
    error and a damping term on the measured velocity. Values are modelled as
    mathematical reals (no IEEE-754 rounding, no NaN). */
module Control {

  /** Milliseconds between two motor updates. The control law also uses it as
      the factor that turns a velocity into the "derivative error". */
  const LoopDelayMillis: int := 5

  /** The command the controller asks for: `Kp * (target - pos)` minus `Kd`
      times the velocity scaled by the loop delay. There is no bounding here;
      that is the sanitizer's job. */
  function PdControl(pos: real, vel: real, targetPosition: real, kp: real, kd: real): (r: real)
    ensures pos == targetPosition && vel == 0.0 ==> r == 0.0
    ensures kd == 0.0 || vel == 0.0 ==> r == kp * (targetPosition - pos)
    ensures pos == targetPosition ==> r == -(5.0 * kd) * vel
  {
    var error := targetPosition - pos;
    var dError := LoopDelayMillis as real * vel;
    kp * error - kd * dError
  }

  /** The command is the sum of a pure position-error response (at rest) and a
      pure damping response (at the target). */
  lemma PdSuperposition(pos: real, vel: real, targetPosition: real, kp: real, kd: real)
    ensures PdControl(pos, vel, targetPosition, kp, kd)
         == PdControl(pos, 0.0, targetPosition, kp, kd) + PdControl(targetPosition, vel, targetPosition, kp, kd)
  {}

  /** The command is linear in the pair of gains. */
  lemma PdLinearInGains(pos: real, vel: real, targetPosition: real,
                        kp1: real, kd1: real, kp2: real, kd2: real, a: real, b: real)
    ensures PdControl(pos, vel, targetPosition, a * kp1 + b * kp2, a * kd1 + b * kd2)
         == a * PdControl(pos, vel, targetPosition, kp1, kd1) + b * PdControl(pos, vel, targetPosition, kp2, kd2)
  {}

  /** Only the error matters, not where the target sits: shifting position and
      target together leaves the command unchanged. */
  lemma PdTranslationInvariant(pos: real, vel: real, targetPosition: real, kp: real, kd: real, shift: real)
    ensures PdControl(pos + shift, vel, targetPosition + shift, kp, kd) == PdControl(pos, vel, targetPosition, kp, kd)
  {}

  /** With non-negative gains the command pushes back towards the target: when
      the actuator is short of the target and not moving away from it, the
      command is non-negative, and symmetrically on the other side. */
  lemma PdRestoring(pos: real, vel: real, targetPosition: real, kp: real, kd: real)
    requires kp >= 0.0 && kd >= 0.0
    ensures pos <= targetPosition && vel <= 0.0 ==> PdControl(pos, vel, targetPosition, kp, kd) >= 0.0
    ensures pos >= targetPosition && vel >= 0.0 ==> PdControl(pos, vel, targetPosition, kp, kd) <= 0.0
  {}

  /** The loop's own gains (Kp = 1000, Kd = 0): at rest on a target of 0 the
      command is 0; a target of 1 rad from rest asks for 1000 mA. */
  lemma PdDefaultScenarios()
    ensures PdControl(0.0, 0.0, 0.0, 1000.0, 0.0) == 0.0
    ensures PdControl(0.0, 0.0, 1.0, 1000.0, 0.0) == 1000.0
  {}
}
