# PD motor loop with safety sanitizer — Dafny model

This project models the control core of a single-motor teaching rig (a Teensy
driving a C610 motor controller over CAN). Each pass of the Arduino `loop()`
checks whether one loop delay (5 ms) has passed since the last command. If it
has, the pass reads the motor's position and velocity. It computes a PD
current command, sanitizes the command against current, position and velocity
bounds, sends exactly one command and records the time.

The model has three modules:

- `Control` (`control.dfy`) holds the PD law `PdControl` and the loop delay
  constant.
- `Sanitizer` (`sanitizer.dfy`) holds the sanitizer as a pure function. It
  returns the sanitized command and the diagnostics raised. The diagnostics
  are `PositionOutOfBounds` and `VelocityOutOfBounds`, in the order the checks
  run, and they replace the console messages. The default-valued parameters
  become the `Limits` record. `DefaultLimits` holds the values in the code.
- `Gate` (`gate.dfy`) holds the dispatch gate as a state machine over the
  last-command timestamp. `Tick` is one pass. `Run` is the loop over a sequence
  of passes, and `ControlLoop` is the same loop written as a method.
  Telemetry and time are inputs; the sent command is an output.

Values are Dafny `real`s and times are unbounded `int` milliseconds.

Some notes on how the model reads the code:

- The defaults follow the code: 2000 mA, 3.141 rad, 30 rad/s and a reduction
  factor of 0.1 (`src/main.cpp:30-33`). The doc comment above the sanitizer
  gives different defaults (1000 mA, ±180°, ±5 rot/s). It also says the
  command is "reduced", but the code sets it to zero (`src/main.cpp:39, 44`).
- `reductionFactor` is never used. `SanitizeIgnoresReductionFactor` proves
  that it has no effect.
- Clipping the current raises no diagnostic. The model keeps that asymmetry.
- If `maxCurrent` is negative, the two clipping steps always produce
  `-maxCurrent`. `ClampCurrent` states this case. For that reason the
  sanitizer is idempotent for every bound, not only non-negative ones.
- Commands are spaced at least 5 ms apart, and the timestamp never goes
  backwards. Both facts hold for any sequence of pass times, not only a
  non-decreasing one, because the gate only fires at `now >= last + 5`.
  So the lemmas need no monotonicity premise.

## Model

| member | source | states |
|---|---|---|
| Control.PdControl | src/main.cpp:8-20 | at the target and at rest the command is 0; with `Kd = 0` or zero velocity it is `Kp*(target - pos)`; at the target it is `-(5*Kd)*vel`, the damping term scaled by the 5 ms loop delay |
| Control.PdSuperposition | src/main.cpp:11-20 | the command is the sum of the at-rest position response and the at-target damping response |
| Control.PdLinearInGains | src/main.cpp:11-20 | the command is linear in the pair of gains `(Kp, Kd)` |
| Control.PdTranslationInvariant | src/main.cpp:17-19 | shifting the position and the target by the same amount leaves the command unchanged |
| Control.PdRestoring | src/main.cpp:17-19 | with non-negative gains the command is non-negative below the target when the motor is not moving up, and non-positive above the target when it is not moving down |
| Control.PdDefaultScenarios | src/main.cpp:79-82 | with the loop's gains (Kp 1000, Kd 0), rest at target 0 gives 0 and rest with target 1 gives 1000 |
| Sanitizer.ClampCurrent | src/main.cpp:35-36 | for a non-negative bound the result lies in `[-maxCurrent, maxCurrent]` and is the point of that interval nearest the command; for a negative bound the result is `-maxCurrent` |
| Sanitizer.ClampMonotone | src/main.cpp:35-36 | clipping preserves the order of commands |
| Sanitizer.Sanitize | src/main.cpp:27-47 | the output respects the current bound; a position or velocity violation forces it to 0; otherwise it is the clipped command; each diagnostic is present exactly when its bound is violated, position before velocity, never repeated |
| Sanitizer.SanitizeKeepsSafeCommand | src/main.cpp:35-46 | a command within the current bound, with position and velocity within bounds, passes unchanged with no diagnostic |
| Sanitizer.SanitizeBothViolations | src/main.cpp:37-46 | when both bounds are violated the result is 0 with diagnostics `[PositionOutOfBounds, VelocityOutOfBounds]` |
| Sanitizer.SanitizeIdempotent | src/main.cpp:27-47 | sanitizing the sanitized command again with the same telemetry gives the same command and diagnostics |
| Sanitizer.SanitizeIgnoresReductionFactor | src/main.cpp:33-46 | changing the reduction factor does not change the result |
| Sanitizer.SanitizeDefaultScenarios | src/main.cpp:30-46 | with the default bounds, a position of 4 rad gives 0 and a position diagnostic for any command; 1000 mA at rest passes; 5000 mA is clipped to 2000 |
| Gate.Dispatched | src/main.cpp:76-92 | the command a tick sends is the sanitized PD output for the tick's sample, stamped with the tick's time, within the current bound and 0 on a violation |
| Gate.Tick | src/main.cpp:67-97 | a command is sent exactly when at least 5 ms have passed since the last one; otherwise the state is unchanged; when sent, it is the dispatched command for this sample and the timestamp becomes `now`; the timestamp never decreases |
| Gate.Run | src/main.cpp:58-99 | over a sequence of passes the timestamp never decreases, at most one command is sent per pass, and the final timestamp is the time of the last command sent (or unchanged if none) |
| Gate.RunSpaced | src/main.cpp:67-97 | every command comes at least 5 ms after the starting timestamp and consecutive commands are at least 5 ms apart, for any sequence of times |
| Gate.RunDispatchesComeFromTrace | src/main.cpp:67-97 | every command sent is the sanitized PD output for the time and sample of one of the passes |
| Gate.RunCommandsBounded | src/main.cpp:92-95 | every command sent lies within `[-maxCurrent, maxCurrent]` |
| Gate.SpacedSpan | src/main.cpp:67-97 | commands `n` positions apart in the sent sequence are at least `5*n` ms apart |
| Gate.RunRateBound | src/main.cpp:67-97 | if no pass is later than `hi`, then `5 * (commands sent)` is at most `hi - lastCommand` (and no command is sent when `hi` is before the timestamp) |
| Gate.RunWindowBound | src/main.cpp:67-97 | if all passes fall in `[lo, hi]`, at most `(hi - lo)/5 + 1` commands are sent |
| Gate.RunLastCommandMonotone | src/main.cpp:67-97 | the timestamp after a prefix of the passes is at most the timestamp after any longer prefix |
| Gate.ControlLoop | src/main.cpp:58-99 | the iterative loop computes the same final timestamp and sent commands as `Run`, with the commands spaced at least 5 ms apart |
| Gate.GateScenarios | src/main.cpp:67-97 | after a command at 96 ms, a pass at 100 ms sends nothing and a pass at 101 ms sends 0 mA for a motor at rest on target |

## Left out

- The CAN bus (`C610Bus`, `PollCAN`, `Get(0).Position()/Velocity()`, `CommandTorques`) is foreign hardware code. Telemetry is an input of each pass and the sent command is an output.
- Serial printing of telemetry and diagnostics is console I/O. The model keeps only the structured diagnostic kinds.
- `setup`, `purgeSerial`, `waitForStart` and `checkForStop` are console I/O. They come from HandsOn2Util.hpp, which is not part of this model.
- IEEE-754 `float` semantics are not modelled: NaN passing through the comparisons, and rounding. All values are exact reals.
- `millis()` wrap-around and `long` overflow are not modelled. Time is an unbounded integer.
- The commented-out bang-bang controller is not code that runs.
- Sanitizer.Sanitize: diagnostics carry only their kind, not the printed message text.
