# Verified model of a micro-ROS base controller

A Dafny model of the control path of the linorobot2 STM32 firmware and of the two-task protocol around
it, with proofs of what the firmware promises about commands, motors, odometry and reconnects. Run
`dafny verify dfyconfig.toml` to verify everything.

The model has two layers.

**Arithmetic.** `Encoder` unwraps a 16- or 32-bit hardware counter into a signed position. `Kinematics`
mixes a body velocity into wheel speeds, slows it down to fit the motors, and inverts the mixing;
`Desaturation` says exactly when slowing down keeps the motion. `Pid`
controls one wheel, `Motor` turns a signed duty into register writes, `PwmTiming` chooses the timer
divisors and `PwmBase` shares a timer between channels. `Odometry` integrates the pose. `ControlCore`
composes them into a control cycle, `ControlLoop` into a tick with its shared state. `TickRuns` and
`WheelDrive` prove what whole runs of ticks amount to: the heading as a function of the raw counters, the
motor duty as a function of the whole command and speed history.

**Protocol.** `UrosTask` is the reconnecting communication loop, `HeaderStamps` the time stamps it puts on
messages. `Protocol` puts both tasks and the clock
into one system of atomic steps (a clock read, a critical section, a stretch of local computation) that
interleave arbitrarily and leave a log of the actions on the shared state. `Guarantees` holds the theorems
about every run. `Sequential` shows that the steps, uninterrupted, are the calls the firmware makes.

Objects that the firmware updates in place are classes; each method is proved against a function on
values (`View()` before and after), and the theorems are about those functions. The protocol steps use the
same functions.

Conventions: C integers are `int` with explicit reduction modulo 2^16 or 2^32; `float` and `double` are
`real`, so rounding is abstracted. Cosine and sine are any pair of functions that satisfies c²+s²=1 and
the two addition laws. Clock values, counter registers, the answers of pings and of entity creation, and
received messages are inputs. Times and counts in the run theorems are unbounded numbers of which the
firmware sees only the low bits. Hypotheses such as `Smooth` (no clock or counter moves further between
two ticks than it can show) and `TicksSpaced` (an upper bound on tick spacing) replace scheduling.

## Where the code does not do what is said about it

- `control_loop.cpp:119` says that one timestamp makes each wheel's RPM interval match the odometry
  interval. The first comes from the microsecond timer, the second from the millisecond tick. A tick adds
  the true turn, or the true distance, if and only if there is none or the clocks agree
  (`TickRuns.TickIsExactIff`); two ticks 20 ms apart on one clock and 20.4 ms on the other turn the base
  by 50/51 of the truth (`SkewedTicksTurnTooLittle`). The run theorems bound the error by the
  disagreement.
- The 200 ms deadman compares ages modulo 2^32 ms and does not clear the command. A command is used if and
  only if its age modulo 2^32 is below 200 (`Guarantees.CommandsAreLinearizable`): after a whole turn of
  the clock an old command is obeyed again (`StaleCommandRevives`), and a command committed between a
  tick's clock read and its snapshot is stopped for that tick (`FreshCommandStoppedOnce`).
- A zero target alone does not take the drive from a wheel that still turns, because the controller has no
  anti-windup. It does so after every history if and only if the wheel stands still, the limits leave no
  drive, or the controller is purely proportional and answers the speed with nothing
  (`Pid.ZeroSetpointReleasesIff`; in the registers, `ControlCore.StopReleasesIff`). On the board, three
  ticks at 50 rpm with blocked wheels and a stop at 10 rpm leave duty 76 (`WheelDrive.StopMayLeaveDrive`).
- The two direction pins are exclusive between calls only: going straight from reverse to forward both are
  set for one write, and in no other case (`Motor.BothPinsBetweenWritesIff`).
- `pwm_base_claim` is to initialize each timer once, at its first claim. It does if and only if there are
  at most eight different ones (`PwmBase.OnceOnlyIff`).
- Desaturation is meant to keep the motion and only slow it down (`kinematics.cpp:52-55`). It leaves the
  fraction that just fits if and only if the base is not mecanum, sideways motion or rotation is zero, the
  command fits, or it asks for equal rim speeds of these two and nothing else
  (`Desaturation.SlowdownIsProportionalIff`). It keeps the motion at some speed if and only if one of the
  first four holds or the wheel clamps happen to take the same fraction of each component, a condition on
  the three rim speeds and the limit (`Desaturation.MotionIsKeptIff`). Sideways motion and rotation at two
  to one can come out at three to one (`MotionIsBent`), but no component is ever reversed or enlarged
  (`NothingIsReversedOrEnlarged`).
- The time offset is called session-scoped and recomputed on every reconnect (`main.c:71-73`). A session
  whose synchronization fails goes on with an earlier one's (`UrosTask.OffsetIsRecomputedIff`,
  `OffsetOutlivesSessions`), and stamps are wall-clock time if and only if the 32-bit tick has not wrapped
  since the synchronization (`HeaderStamps.StampsTellTheEpochIff`).

## Model

| member | source | states |
|---|---|---|
| Encoder.EncoderMath.Update | firmware_stm32/Inc/encoder_math.h:25-43 | One sample: seeding, wrap-aware signed change, inversion, accumulation and the reported speed, zero when unused, seeding or without time passed |
| Encoder.EncoderMath.Position | firmware_stm32/Inc/encoder_math.h:45 | The one signed 32-bit number that agrees with the accumulator modulo 2^32 |
| Encoder.EncoderMath.SetPosition | firmware_stm32/Inc/encoder_math.h:49 | Re-baselines and asks for a new seed, nothing else changes |
| Encoder.PositionIsCongruent | firmware_stm32/Inc/encoder_math.h:25-49 | After any mix of samples and re-baselines, at any speed, the accumulator is baseline plus or minus the unbounded displacement since the seed, modulo 2^16 or 2^32 |
| Encoder.PositionIsExact | firmware_stm32/Inc/encoder_math.h:25-49 | When each change fits the counter width it is exactly the unbounded displacement, whatever the wraps |
| Encoder.ReportedPosition | firmware_stm32/Inc/encoder_math.h:45-49 | Whatever Position returns is the true position modulo the counter width at any speed; while each change fits the counter width it is the true position outright if and only if that fits 32 bits |
| Encoder.SpeedsIntegrateToDisplacement | firmware_stm32/Inc/encoder_math.h:25-43 | Reported speeds integrated over their intervals give the displacement less exactly the counts of samples with a repeated timestamp |
| Kinematics.ConfiguredIsValid | firmware/lib/kinematics/kinematics.cpp:18-28 | The speed limit is the scaled rating reduced in proportion to the supply, positive, and never above the rating |
| Kinematics.ConfiguredGeometry | firmware/lib/kinematics/kinematics.cpp:18-28 | The base type asked for; wheels that all turn alike move it one circumference (pi times the diameter) a turn, sides turning against each other one circumference along the circle the track spans |
| Kinematics.UnpoweredBaseStandsStill | firmware/lib/kinematics/kinematics.cpp:18-28 | Without supply the speed limit is zero |
| Kinematics.BoardLimit | firmware_stm32/config/f446re_config.h:17-25 | The board's base has a limit of 59.5 rpm |
| Kinematics.ClampsInactiveIff | firmware/lib/kinematics/kinematics.cpp:72-91 | No wheel is clamped if and only if the three components' magnitudes together fit under the limit |
| Kinematics.WheelsFollowTheRigidBody | firmware/lib/kinematics/kinematics.cpp:30-102 | For every base and command the wheel speeds are the rigid body's at their mounting points, times one common slowdown, or, when sideways motion and rotation combine, each cut off at the limit; exactly the rigid body's while the command fits |
| Kinematics.DesaturationKeepsTheMotion | firmware/lib/kinematics/kinematics.cpp:30-133 | For both non-holonomic bases, and for mecanum without sideways motion or without rotation, commanding and measuring back yields the command times one common factor min(1, limit/sum) |
| Kinematics.ScalingSufficesIff | firmware/lib/kinematics/kinematics.cpp:52-91 | After scaling no wheel is clamped if and only if the base is not mecanum, sideways motion or rotation is zero, or the demand fits |
| Desaturation.SlowdownIsProportionalIff | firmware/lib/kinematics/kinematics.cpp:52-91 | Commanding and measuring back yields the command times min(1, limit/sum) if and only if the base is not mecanum, sideways motion or rotation is zero, the demand fits, or it is sideways motion and rotation of equal rim speed alone |
| Desaturation.MotionIsKeptIff | firmware/lib/kinematics/kinematics.cpp:52-91 | Some factor in (0, 1] relates result and command if and only if one of the first four of these conditions holds or the demand's components are proportioned: at most two different magnitudes, which the clamps cut by the same fraction |
| Desaturation.MotionIsBent | firmware/lib/kinematics/kinematics.cpp:52-91 | One input at which no factor does: (0, 2, 1) comes back as (0, 1.5, 0.5) |
| Desaturation.NothingIsReversedOrEnlarged | firmware/lib/kinematics/kinematics.cpp:52-91 | For every base and command, bent or not, each component of what comes back lies between zero and what was asked |
| Kinematics.RoundTripIsExactIff | firmware/lib/kinematics/kinematics.cpp:30-133 | For every base and command the round trip is exact if and only if the demand fits under the limit |
| Kinematics.MixingInvertsOdometry | firmware/lib/kinematics/kinematics.cpp:94-133 | On a differential base reachable wheel speeds are recovered from the velocities they produce |
| Kinematics.MixingIsAProjection | firmware/lib/kinematics/kinematics.cpp:94-133 | Mixing, measuring and mixing again equals mixing once on both non-holonomic bases |
| Odometry.OdomIntegrator.Update | firmware/lib/odom_integrator/odom_integrator.h:34-47 | One forward-Euler step |
| Odometry.StepFromOrigin | firmware/lib/odom_integrator/odom_integrator.h:34-47 | From the origin a step moves along the body axes |
| Odometry.RunIsEquivariant | firmware/lib/odom_integrator/odom_integrator.h:34-47 | A run from any pose is the run from the origin moved to that pose |
| Odometry.RunsCompose | firmware/lib/odom_integrator/odom_integrator.h:34-47 | Runs map to rigid motions homomorphically: A then B ends at the composition of their end poses |
| Odometry.PoseWithinPath | firmware/lib/odom_integrator/odom_integrator.h:34-47 | The squared distance from the start is at most the squared length of the driven path |
| Pid.PID.Compute | firmware/lib/pid/pid.cpp:30-50 | One call: error, integral, derivative, reset at rest, clamp; the error kept is setpoint less measurement |
| Pid.ClosedForm | firmware/lib/pid/pid.cpp:30-50 | After any history the output is the clamped textbook law on the last error, the errors since the last reset and the last difference |
| Pid.OnTargetGivesZero | firmware/lib/pid/pid.cpp:30-50 | A fresh controller whose wheel turns at the asked speed, whatever it is, outputs zero |
| Pid.StandingStillGivesZero | firmware/lib/pid/pid.cpp:40-49 | At rest with setpoint zero the output is zero in any state |
| Pid.ZeroSetpointReleasesIff | firmware/lib/pid/pid.cpp:36-49 | A call with setpoint zero returns zero after every history of setpoints within the speed limit if and only if the wheel stands still, both limits are zero, or there is no integral and derivative action and the proportional answer is zero |
| PwmTiming.PrescalerIsOptimal | firmware_stm32/Inc/pwm_timing.h:17-32 | The prescaler fits 16 bits, no other divisor is closer to clock/(frequency * period), halfway it is the larger one, and within range the relative frequency error is at most 1/(2(psc+1)) |
| PwmTiming.PrescalerIsMonotone | firmware_stm32/Inc/pwm_timing.h:17-32 | Antitone in frequency, monotone in the clock, resolution independent of both |
| PwmTiming.ReloadIsFullScale | firmware_stm32/Inc/pwm_timing.h:19-24 | The reload value fits 32 bits and its period doubles with each bit between the clamped ends; without a frequency the prescaler is zero |
| PwmTiming.ClampIsProjection | firmware_stm32/Inc/pwm_timing.h:35-39 | Duties in range pass unchanged, others end at the nearer end |
| PwmBase.PwmBases.Claim | firmware_stm32/Src/stm32_motor.cpp:12-22 | True if and only if the timer is real, never claimed before and a slot is left; the table stays a duplicate-free prefix followed by nulls |
| PwmBase.OwnersCount | firmware_stm32/Src/stm32_motor.cpp:12-22 | The number of taken slots is the number of different timers claimed, at most eight |
| PwmBase.OnceOnlyIff | firmware_stm32/Src/stm32_motor.cpp:12-22 | For any sequence of claims: every claim answers true exactly at its timer's first use if and only if there are at most eight different timers |
| PwmBase.UnservedTimer | firmware_stm32/Src/stm32_motor.cpp:12-22 | With more than eight, some timer's first claim is turned down |
| Motor.Generic2.Forward | firmware_stm32/Src/stm32_motor.cpp:97-103 | The three register writes in order and the registers after them |
| Motor.Generic2.Reverse | firmware_stm32/Src/stm32_motor.cpp:105-111 | The three register writes in order and the registers after them |
| Motor.Generic2.Brake | firmware_stm32/Src/stm32_motor.cpp:113-117 | Only the compare register is cleared |
| Motor.Generic2.Spin | firmware_stm32/Inc/motor_interface.h:22-33 | Inverts if wired so and dispatches on the sign; unused motors are untouched |
| Motor.SpinDrivesAsAsked | firmware_stm32/Inc/motor_interface.h:22-33 | The signed duty read back from pins and compare register is the request, cut off at full scale; the pins stay exclusive |
| Motor.BothPinsBetweenWritesIff | firmware_stm32/Src/stm32_motor.cpp:97-111 | Some intermediate state has both pins set if and only if the motor goes straight from reverse to forward |
| ControlCore.ControlCore.Step | firmware_stm32/Inc/control_core.h:33-47 | Every wheel with controller and motor is driven by its own target and speed, the others are untouched, the pose advances by the measured velocity, which is returned |
| ControlCore.DutyIsTheTruncatedOutput | firmware_stm32/Inc/control_core.h:39-41 | With output limits inside the register range no clamp acts between controller and register |
| ControlCore.BoardFitsRegister | firmware_stm32/config/f446re_config.h:36-40 | The board's 10-bit timing gives full scale 1023, so its output limits are inside the register range |
| ControlCore.StopReleasesIff | firmware_stm32/Inc/control_core.h:39-41 | A stop ends with duty zero after every history if and only if the wheel stands still, the limits leave no full duty step, or the controller is purely proportional and its answer to the speed truncates to zero |
| ControlLoop.ControlLoop.constructor | firmware_stm32/Src/control_loop.cpp:103-104 | Zero command, both stamps set to the current time, zero snapshot |
| ControlLoop.ControlLoop.SetCmd | firmware_stm32/Src/control_loop.cpp:167-174 | Replaces the command and its stamp together and nothing else |
| ControlLoop.ControlLoop.SnapshotCommand | firmware_stm32/Src/control_loop.cpp:113-117 | The shared command, or a stop when its stamp is 200 ms old modulo 2^32 |
| ControlLoop.ControlLoop.ReadEncoders | firmware_stm32/Src/control_loop.cpp:120-122 | All four encoders are sampled with one timestamp |
| ControlLoop.ControlLoop.Advance | firmware_stm32/Src/control_loop.cpp:119-127 | The local part of a tick: encoders, interval, control cycle |
| ControlLoop.ControlLoop.Publish | firmware_stm32/Src/control_loop.cpp:129-136 | The live pose and the velocity become the snapshot, the command is untouched |
| ControlLoop.ControlLoop.Tick | firmware_stm32/Src/control_loop.cpp:107-136 | A whole uninterrupted tick |
| ControlLoop.ControlLoop.GetOdom | firmware_stm32/Src/control_loop.cpp:176-189 | Hands out the snapshot |
| TickRuns.PoseIsTheFold | firmware_stm32/Src/control_loop.cpp:119-136 | After any run of ticks the pose is the fold of all tick motions |
| TickRuns.TickIsExactIff | firmware_stm32/Src/control_loop.cpp:119-125 | Along each axis (heading, forward, sideways) a tick adds exactly the true change if and only if there is none or the two clocks agree on its length |
| TickRuns.SkewedTicksTurnTooLittle | firmware_stm32/Src/control_loop.cpp:119-125 | From the start, two ticks with 20 ms and 20400 us between them and one wheel turning leave 50/51 of the true heading |
| TickRuns.RunWithinClockSkew | firmware_stm32/Src/control_loop.cpp:119-127 | After any run the error along each axis is at most rho times the total absolute change along it, rho bounding the clocks' disagreement |
| TickRuns.HeadingWithinClockSkew | firmware_stm32/Src/control_loop.cpp:119-127 | The same heading bound against the net turns of the two sides from first to last tick, whatever the path, commands and wraps |
| TickRuns.TravelIsConserved | firmware_stm32/Src/control_loop.cpp:119-127 | With agreeing clocks, on every base, heading is exactly circumference/track times net right minus net left revolutions, the sum of v_x dt half the circumference times their sum, and on a mecanum base the sum of v_y dt a quarter of it times the net turns along the rollers, whatever the path, commands and wraps; a side's revolutions are its front wheel's on a differential base and the mean of its two wheels' otherwise |
| WheelDrive.TargetsFollowTheRigidBody | firmware_stm32/Inc/control_core.h:36-37 | The same for the targets, each in its own wheel's place |
| WheelDrive.ControllerFollowsHistory | firmware_stm32/Inc/control_core.h:39-41 | A wheel's controller state is a function of its own history of targets and speeds |
| WheelDrive.HistoryIsTrue | firmware_stm32/Src/control_loop.cpp:119-127 | While clock and counter can show every change, that history is, tick by tick, the commanded target less the speed the raw counter truly made, zero for a repeated timestamp |
| WheelDrive.HistoryWithinLimit | firmware_stm32/Inc/control_core.h:36-37 | No run of ticks, whatever is commanded, gives a wheel a setpoint beyond the base's speed limit |
| WheelDrive.PinsStayExclusive | firmware_stm32/Src/stm32_motor.cpp:97-117 | Between ticks of any run a motor's direction pins are not both set |
| WheelDrive.DutyInClosedForm | firmware_stm32/Inc/control_core.h:36-41 | After any run the signed duty in a motor's registers is the inverted-if-wired-so truncation of the clamped textbook law over the wheel's history of targets and true speeds, less than one step off that law, and fits the register |
| WheelDrive.StopReleasesStandingWheel | firmware_stm32/Src/control_loop.cpp:117-127 | On a tick whose target is a stop a wheel whose counter has not moved ends with duty zero, for any wind-up and gains |
| WheelDrive.StopMayLeaveDrive | firmware_stm32/Src/control_loop.cpp:117-127 | A run of four ticks of the board that ends with a stopped tick and duty 76 on a wheel turning at 10 rpm |
| UrosTask.UrosTask.CreateEntities | firmware_stm32/Src/main.c:135-169 | Nine calls ended by the first failure; on success frame strings set once and the time offset set if the session synchronizes |
| UrosTask.UrosTask.DestroyEntities | firmware_stm32/Src/main.c:171-182 | Finalizes the seven entities in order |
| UrosTask.UrosTask.SpinSome | firmware_stm32/Src/main.c:89-92 | Every delivered twist becomes the shared command in turn |
| UrosTask.UrosTask.Iterate | firmware_stm32/Src/main.c:190-214 | One iteration of the reconnect machine on its own state and the shared command |
| UrosTask.CreationIsOrderly | firmware_stm32/Src/main.c:135-164 | For every failure pattern each entity is initialized once and after its parents, success means all calls succeeded and all entities live, and strings are allocated only the first time |
| UrosTask.CreationStopsAtFirstFailure | firmware_stm32/Src/main.c:135-164 | The entities that exist after a failed creation are exactly those initialized before the first failing call |
| UrosTask.DestructionIsOrderly | firmware_stm32/Src/main.c:171-182 | Any partly created set is torn down completely with no parent finalized before its child |
| UrosTask.FinalizedWhileHeldIff | firmware_stm32/Src/main.c:171-182 | A finalizer is called on something the live executor still calls back from if and only if the executor was created and it is the subscription's or the timer's |
| UrosTask.OffsetIsRecomputedIff | firmware_stm32/Src/main.c:165-169 | An iteration that connects in sync at epoch e and tick n leaves offset + n ms = e; every other one leaves the offset alone |
| UrosTask.OffsetOutlivesSessions | firmware_stm32/Src/main.c:165-169 | Over any reconnects without synchronization the offset of an earlier session stays |
| HeaderStamps.HeaderShowsIff | firmware_stm32/Src/main.c:125-128 | A header's seconds and nanoseconds are exactly local tick time plus offset if and only if the seconds fit 31 bits, the nanoseconds below 10^9 |
| HeaderStamps.StampsTellTheEpochIff | firmware_stm32/Src/main.c:124-128 | After a synchronized session, and later ones without synchronization, a message is stamped with the epoch time if and only if the tick has not wrapped since, and otherwise too early by the turns made |
| UrosTask.LossIsNoticedIff | firmware_stm32/Src/main.c:200-202 | In unbounded time: connected, an iteration pings if and only if more than 200 ms have passed since the last ping, and loses the agent if and only if that ping fails |
| UrosTask.AgentIsFoundIff | firmware_stm32/Src/main.c:192-194 | The same for waiting, 500 ms and a ping that is answered |
| UrosTask.OtherStatesDoNotPing | firmware_stm32/Src/main.c:196-210 | Connecting and disconnecting leave the times of both last pings alone |
| UrosTask.LostAgentIsStopped | firmware_stm32/Src/main.c:200-210 | With iterations at most P ms apart and no ping answered, the stop is committed within 200+2P ms of the last ping, or P ms after the run begins if the ping was overdue then |
| UrosTask.StopBetweenConnections | firmware_stm32/Src/main.c:190-214 | When a connection that existed at one iteration is gone at a later one, an iteration in between stopped the base and nothing has written the shared command since, so two connected periods always have a stop between them |
| UrosTask.AlwaysTidy | firmware_stm32/Src/main.c:135-214 | Over any sequence of iterations all entities live when connected or disconnecting, none otherwise, every event in order, frame strings allocated at most once |
| Protocol.RunKeepsInv | firmware_stm32/Src/control_loop.cpp:107-189 | In every interleaving the shared state, both program positions and the log agree, stamps never lie in the future and ascend, and every logged action is explained by what precedes it |
| Guarantees.CommandsAreLinearizable | firmware_stm32/Src/control_loop.cpp:109-117 | A tick's target is the latest committed triple if its stamp is under 200 ms old modulo 2^32 and a stop otherwise; within 2^32 ms that is freshness, and a commit between clock read and snapshot is stopped |
| Guarantees.DeadmanDeadline | firmware_stm32/Src/control_loop.cpp:109-117 | With ticks at most P ms apart, a command that is not renewed is stopped by a tick less than 200+P ms after its stamp and stays stopped, whether or not a tick obeyed it before |
| Guarantees.DeadmanReleasesMotors | firmware_stm32/Src/control_loop.cpp:109-127 | From that deadline on every tick leaves every standing wheel at duty zero |
| Guarantees.TickObeysIffFresh | firmware_stm32/Src/control_loop.cpp:109-117 | A command in force when a tick reads its clock is never newer than that reading, and is obeyed if and only if it is under 200 ms old, short of a whole turn of the clock |
| Guarantees.StampsAscend | firmware_stm32/Src/control_loop.cpp:167-174 | In every interleaving commands enter the shared state in the order of their stamps, none from the future |
| Guarantees.CommitsHaveOrigin | firmware_stm32/Src/main.c:89-92 | Every committed triple is one whole received message or a stop |
| Guarantees.StaleCommandRevives | firmware_stm32/Src/control_loop.cpp:117 | In every run, any number of whole turns of the clock after its stamp an unrenewed command is obeyed again for 200 ms |
| Guarantees.StaleCommandRun | firmware_stm32/Src/control_loop.cpp:117 | A run that does so: one message, silence for a whole turn of the clock, and a tick that obeys it |
| Guarantees.FreshCommandStoppedOnce | firmware_stm32/Src/control_loop.cpp:109-117 | A command committed between a tick's clock read and snapshot is replaced by a stop |
| Guarantees.LossOfAgentStops | firmware_stm32/Src/main.c:190-214 | In every interleaving the shared command is a stop while no agent is connected, and the executor spins only on a complete set of entities |
| Guarantees.LossOfAgentReleasesMotors | firmware_stm32/Src/control_loop.cpp:113-127 | A tick that samples its command while no agent is connected leaves every standing wheel at duty zero, whatever runs in between |
| Guarantees.ObservationsAreWholeTicks | firmware_stm32/Src/control_loop.cpp:129-189 | Every observed six-tuple is pose and velocity of one completed tick, the last published, or the initial zeros; the pose is the fold of all ticks up to it |
| Guarantees.ObservationsAdvance | firmware_stm32/Src/control_loop.cpp:176-189 | Of two observations in a run, the tuples are those of ticks p <= q of that run, each the last one published when it was read |
| Guarantees.PublishedHeading | firmware_stm32/Src/control_loop.cpp:107-136 | In every interleaving the published heading is the one the raw counters' net turns call for, up to the clock skew and exactly without it |
| Guarantees.PublishedDuty | firmware_stm32/Inc/control_core.h:36-41 | In every interleaving, between two ticks the signed duty on a wheel is the truncated, clamped textbook law over the history that the sampled commands and the raw counters make |
| Sequential.UninterruptedTick | firmware_stm32/Src/control_loop.cpp:107-136 | The four atomic steps of a tick in a row have the effect of the tick method |
| Sequential.UninterruptedIteration | firmware_stm32/Src/main.c:190-214 | The atomic steps of an iteration, any time passing between its callbacks, have the effect of the iteration method |

## Left out

- Rounding: floats are reals, so the theorems say nothing about accumulated rounding error.
- Encoder.EncoderMath.Update: the accumulator is unbounded where the firmware's has 64 bits, and negating the most negative 32-bit change wraps where C++ leaves it undefined; the exactness theorems exclude that change.
- ControlLoop.ControlLoop.constructor: control_loop_init writes the shared command outside a critical section, so a command arriving during those writes can be torn; runs start when it has returned, with the communication loop anywhere.
- Guarantees.LossOfAgentStops: a finalizer's return value is ignored by the firmware and taken to release its entity here.
- UrosTask.DestructionIsOrderly: the executor also calls back from the subscription and the timer (main.c:154-155), which are finalized before it (main.c:176-178); that hold is no parent relation here, and UrosTask.FinalizedWhileHeldIff says exactly when it is broken. The executor does not spin in between (UrosTask.AlwaysTidy).
- Guarantees.DeadmanDeadline: a tick that read its clock after the deadline and its command before the commit acts on the previous command; the bound is stated for commands that enter the shared state before such a tick.
- HeaderStamps.HeaderShowsIff: stated for times from the epoch on; an earlier one would have negative nanoseconds converted to a uint32_t.
- UrosTask.UrosTask.SpinSome: the executor is not part of this model; it is a loop that hands over any number of messages, and in the protocol any number of deliveries and publications in any order.
- Kinematics with a zero or negative speed limit, and a zero operating voltage, which divide by zero.
- PID constants changed at run time: `updateConstants` has no caller in this firmware.
- `Encoder::write`, which also sets the hardware counter: no caller in this firmware.
- HAL, GPIO, timer, I2C and UART bring-up and the clock tree: vendor registers; only pins, compare and counter registers remain.
- The IMU and magnetometer part of the tick and `euler_to_quat`: straight-line conversions.
- FreeRTOS scheduling: any interleaving is allowed, spacing enters as a hypothesis.
- rcl, rclc and the transport: their outcomes are inputs.
