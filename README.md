# Flow-rate controller and tutorial PID law, modelled in Dafny

This project models the control core of a desktop panel that regulates the
outflow of fluid from a pressurized reservoir through a motorized pinch valve
(`Flow_Rate_Control.py`), and the separate tutorial PID generator
(`pid_simple.py`).

- `FlowControl.dfy`: the controller's constants and data path. The session's
  weight file becomes `Option<seq<real>>`: `None` means "no file yet". The
  pieces are the cumulative append, the read with its `[0, 0]` default, the
  first-difference flow rate, Python's truncating `int()`, the clamp to
  `[0, 400]`, the ASCII command `/1A<pos>R\r\n` and its parser, and class
  `FlowRateControl`. Its methods mirror the Python methods.
- `FlowControlProperties.dfy`: what happens over many ticks, for any sequence
  of compensator outputs.
  - A session with N ticks holds N samples.
  - The series is cumulative, non-negative and non-decreasing.
  - The rate measured at a tick is the increment the previous tick appended.
  - Commands round-trip through the parser.
  - Two concrete scenarios are checked.
- `PidSimple.dfy`: the generator recast as class `Pid`. Its fields are the
  generator's locals and `Step(t, PV, SP)` is one resumption. The
  specification functions `StepOutput`, `StepState` and `Run` describe the
  same law on values.
- `PidProperties.dfy`: the integral is the unbounded Riemann sum of
  `Ki * e * dt`, a constant error winds the integral up linearly, and with
  `Ki = Kd = 0` the output ignores history.
- `Decimal.dfy`: Python's `str(int)`, with its reading partner and both
  round trips.
- `Wrappers.dfy`: `Option`.

The compensator used by the controller, `simple_pid.PID`, is a foreign
library whose code is not part of this model. `UpdateData` receives the
compensator's law for that tick as a parameter `pid: (real, real) -> real`.
The method applies it to (setpoint, measured rate). Passing a different
function on each tick stands for the library's hidden state. So every
property is proved for any compensator output. All weights, gains and errors
are exact `real`s. The valve position is an `int`.

The constants of `Flow_Rate_Control.py:25-35` are the `const`s at the top of
`FlowControl`, with the source's values: flow-rate bounds 0 and 100, a
1000 ms tick, port `/dev/ttyUSB0` at 9600 baud, gains 2, 1 and 2, initial
position 0, `ValvePositions` 400, `WeightCalibrationFactor` 9 and the data
directory `weight_data_files`. Only `ValvePositions` and
`WeightCalibrationFactor` enter the data path: `Clamp` uses the first, and
`SyntheticSample` divides by the second.

## Model

| member | source | states |
|---|---|---|
| FlowControl.SyntheticSample | Flow_Rate_Control.py:101 | the increment times the calibration factor 9 gives back the position; it is non-negative for a non-negative position |
| FlowControl.TickStore | Flow_Rate_Control.py:95-101 | after one tick there is always a record; it keeps the old series as its prefix and adds one element, the old last (0 with no record) plus the tick's position / 9 |
| FlowControl.AppendedSeries | Flow_Rate_Control.py:67-72 | with no record or an empty one the series becomes exactly `[sample]`; otherwise it grows by one, keeps the old prefix, and the new last element is the old last plus `sample` |
| FlowControl.FlowRateControl.WriteWeightData | Flow_Rate_Control.py:63-73 | the record becomes the appended series; `weight` becomes the old weight plus the sample, or the sample on the first write; `weight` stays the last element of the record |
| FlowControl.ReadSeries | Flow_Rate_Control.py:79-83 | no record reads as `[0, 0]`; an existing record reads back unchanged |
| FlowControl.FlowRateControl.ReadWeightData | Flow_Rate_Control.py:75-83 | returns the stored series, or `[0, 0]` when there is none, and changes nothing |
| FlowControl.FlowRate | Flow_Rate_Control.py:85-89 | last minus second-to-last element when there are at least two, 0 otherwise |
| FlowControl.TruncateTowardZero | Flow_Rate_Control.py:97 | the integer lies within 1 of `x` on the side of zero (`int()` rounds toward zero) |
| FlowControl.Clamp | Flow_Rate_Control.py:98 | result in `[0, VALVE_POSITIONS]`; equal to the input in range, 0 below, `VALVE_POSITIONS` above |
| FlowControl.ValvePosition | Flow_Rate_Control.py:97-98 | for any raw output the position is in `[0, 400]`; it is the floor of an output in `[0, 401)`, 0 for an output below 1, 400 for an output of 400 or more |
| FlowControl.ValveCommand | Flow_Rate_Control.py:108 | the command is `/1A`, then the decimal rendering of the position, then `R\r\n` |
| FlowControl.FlowRateControl.SetValvePosition | Flow_Rate_Control.py:104-108 | returns the command string built for the position |
| FlowControl.FlowRateControl.UpdateData | Flow_Rate_Control.py:91-102 | measured rate is the flow rate of the series read before the append; position is the truncated, clamped compensator output for the current setpoint and that rate, in `[0, 400]`; exactly one sample `position / 9` is appended; the command for the position is dispatched; a non-decreasing series stays non-decreasing |
| FlowControl.FlowRateControl.UpdateFlowRateSetpoint | Flow_Rate_Control.py:57-61 | the setpoint becomes the given value and no other field changes |
| FlowControl.FlowRateControl.constructor | Flow_Rate_Control.py:43-49 | gains and setpoint as given (setpoint 0 by default), no record, no weight, nothing dispatched |
| FlowControl.AppendPreservesNonDecreasing | Flow_Rate_Control.py:71-72 | appending a non-negative increment keeps a cumulative series non-decreasing |
| FlowControlProperties.Ticks | Flow_Rate_Control.py:95-101 | no ticks leave the record as it was; N ticks leave a record with N more samples than before (N from no record) |
| FlowControlProperties.Increment | Flow_Rate_Control.py:98-101 | every synthetic increment lies in `[0, 400 / 9]` |
| FlowControlProperties.CumulativeExtend | Flow_Rate_Control.py:71-72 | one more tick extends a cumulative series by the previous last plus the new increment |
| FlowControlProperties.CumulativeIsMonotone | Flow_Rate_Control.py:98-101 | a series of non-negative cumulative increments is non-negative and non-decreasing |
| FlowControlProperties.TicksFromAbsent | Flow_Rate_Control.py:95-101 | after N ticks from no record there are exactly N samples; the first is its tick's position / 9 and each later one is the previous plus its tick's position / 9 |
| FlowControlProperties.TicksAreMonotone | Flow_Rate_Control.py:95-101 | a series built only by ticks has one sample per tick, is non-negative and never decreases |
| FlowControlProperties.MeasuredRateIsPreviousIncrement | Flow_Rate_Control.py:95-101 | the rate measured after fewer than two ticks is 0; after that it equals the increment the last tick appended |
| FlowControlProperties.FlowRateAfterAppend | Flow_Rate_Control.py:71-89 | after a write to a non-empty series the flow rate is exactly the sample written |
| FlowControlProperties.MissingRecordHasZeroRate | Flow_Rate_Control.py:79-89 | a missing record reads as `[0, 0]`, whose flow rate is 0 |
| FlowControlProperties.TruncationAgreesWithFloorAfterClamp | Flow_Rate_Control.py:97-98 | clamping the truncated output equals clamping its floor |
| FlowControlProperties.ValveCommandRoundTrip | Flow_Rate_Control.py:108 | parsing the command for a non-negative position gives that position |
| FlowControlProperties.ParsedCommandIsBuilt | Flow_Rate_Control.py:108 | every command the parser accepts is exactly the command built for its position |
| FlowControlProperties.ClampedCommandFormat | Flow_Rate_Control.py:98-108 | for a clamped position the field between `/1A` and `R\r\n` is 1 to 3 digits, with no sign and no leading zero |
| FlowControlProperties.FirstTickScenario | Flow_Rate_Control.py:95-101 | first tick of a session: measured rate 0, any output below 1 gives position 0 and record `[0]` |
| FlowControlProperties.OvershootScenario | Flow_Rate_Control.py:95-98 | record `[0, 9]` with setpoint 5 and a proportional gain of 2: rate 9, output -8, position 0 |
| Decimal.NatToDecimal | Flow_Rate_Control.py:108 | a non-empty digit string without leading zero, starting with `0` exactly for 0 |
| Decimal.IntToDecimal | Flow_Rate_Control.py:108 | non-negative integers render as their digits alone, negative ones with a leading `-` |
| Decimal.DecimalRoundTrip | Flow_Rate_Control.py:108 | reading back the rendering of `n` gives `n` |
| Decimal.CanonicalRoundTrip | Flow_Rate_Control.py:108 | rendering the value of a canonical digit string gives that string back |
| Decimal.DecimalInjective | Flow_Rate_Control.py:108 | distinct positions give distinct renderings |
| PidSimple.Pid.constructor | pid_simple.py:11-19 | `MV_bar` 0 by default; stored data `e_prev = 0`, `t_prev = -100`, `I = 0`; the first value yielded is `MV_bar` |
| PidSimple.Pid.Step | pid_simple.py:21-38 | requires `t != t_prev`; returns the law's output on the state before the step, and the state becomes the law's next state (new error, new time, new integral) |
| PidSimple.StepOutput | pid_simple.py:26-32 | the yielded value is `MV_bar + Kp*e` plus the integral the step leaves in the state plus the derivative term `Kd*(e - e_prev)/(t - t_prev)`; defined only when `t != t_prev` |
| PidSimple.StepState | pid_simple.py:29-38 | after a step the stored error is `SP - PV`, the stored time is `t`, and the integral has grown by `Ki*e*(t - t_prev)` |
| PidSimple.Run | pid_simple.py:21-38 | the state after the loop consumes a history: unchanged for no samples, otherwise holding the last sample's error and time |
| PidSimple.Outputs | pid_simple.py:21-32 | one yielded value per sample consumed; OutputsArePrefixSteps gives each value |
| PidProperties.StepTerms | pid_simple.py:26-32 | restates the definitions as the source's formula, for reference (Dafny needs no proof): one step is `MV_bar + Kp*e + I' + Kd*(e - e_prev)/(t - t_prev)` with `I' = I + Ki*e*(t - t_prev)` and `e = SP - PV`; afterwards the state is `(e, t, I')` |
| PidProperties.FirstStep | pid_simple.py:13-30 | the first step after priming measures its elapsed time from -100 and its error change from 0 |
| PidProperties.RiemannSumFront | pid_simple.py:29 | the accumulated sum splits into its first term plus the sum of the rest timed from the first sample |
| PidProperties.IntegralIsRiemannSum | pid_simple.py:29 | after any history the integral is the initial integral plus the Riemann sum of `Ki*e_k*(t_k - t_{k-1})` over every step, with no clamp |
| PidProperties.ConstantErrorWindup | pid_simple.py:29 | under a constant error `e` the integral grows by `Ki*e*(t_last - t_prev)`, linearly and without limit |
| PidProperties.NoIntegralGainNoIntegral | pid_simple.py:29 | with `Ki = 0`, an integral that starts at 0 stays 0 |
| PidProperties.ProportionalOnlyIgnoresHistory | pid_simple.py:28-32 | with `Ki = Kd = 0`, after any history from the initial state the output is `MV_bar + Kp*(SP - PV)` |
| PidProperties.OutputsArePrefixSteps | pid_simple.py:21-38 | over a well-timed history the k-th yielded value is one step from the state left by the first k samples, whose time is different from the k-th |

## Left out

- The window, widgets, timer and plotting (`FlowRateUI`). This is presentation only. The UI's handling of non-numeric setpoint input is part of it and is left out too.
- The worker pool and `Worker`. The fire-and-forget dispatch becomes an append to `dispatched`, so the model does not capture when or in what order commands reach the hardware.
- The numpy file, the data directory and the timestamped file name. The file becomes the in-memory `store`, and a missing file becomes `None`. A freshly constructed controller has no record. I/O failures other than a missing file are not modelled.
- The serial write (commented out in the source) and every `print`.
- The internals of `simple_pid.PID`, such as sample time, output limits and auto mode. Its output is an arbitrary real. The gains the controller is constructed with are recorded but drive nothing.
- FlowControl.FlowRateControl.UpdateData: the compensator's own state change is not part of the contract. It hides behind the `pid` parameter. A non-finite output, on which Python's `int()` would raise, cannot occur with `real`s.
- IEEE floating-point rounding. All arithmetic is exact `real` arithmetic. The `[0, 0]` default is read as reals, not as integers.
- The module-level call `PID(P, I, D, targetT)` in `pid_simple.py` and the `__main__` block: script glue.
- `pid_simple.py` reassigns the integral at line 29, before the output at line 32. Only the error and time are updated after it (lines 37-38). The model keeps this order. The difference cannot be seen from outside, because the integral is a local of the generator.
- PidSimple.Pid.Step: requires `t != t_prev`. When `t == t_prev` the source raises ZeroDivisionError at line 30. By then line 29 has already reassigned the integral, and the generator is finished. The model does not capture that error path or the dead generator it leaves.
