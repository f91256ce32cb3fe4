# Elevator motion control, modelled in Dafny

This project models the position-aware control logic of the two-motor elevator
on the 2025 RecycleBot robot (`ElevatorSubsystem.java`). The model has three parts.

- **Speed profile** (`SpeedProfile`). `SpeedToTop` and `SpeedToBottom` give the
  open-loop duty cycle for manual motion. The upward speed ramps linearly to zero
  over the last 190 units below the top of travel (200). The downward speed ramps
  linearly over the last 70 units above the bottom, down to a creep floor of −1/70.
- **Speed limiter** (`SpeedProfile.SpeedLimiter`). This is the factor
  `(200 + 70 − position) / 270` that the chassis multiplies into its own speed.
- **Mode state machine** (`ElevatorMachine`, `ElevatorSubsystem`). A manual-control
  flag and a closed-loop target choose between two paths:
  - `raise`, `lower` and `stop` drive the motor open-loop.
  - `GoToClosedLoopPosition` records a target, which `teleopPeriodic` re-issues on every tick.

The lead SparkMax is modelled as a log of commands: `Set(speed)`, `StopMotor` and
`SetReference(target)`. The follower motor only mirrors the lead, so it is not in the
log. Each encoder reading is a parameter of the operation that reads it. Doubles are
exact `real`s. The Java `int` target is `Int32`.

`ElevatorMachine` gives one pure transition function per operation. Each returns the
new field values and the commands issued. `Run` replays a sequence of operations, and
the lemmas about whole runs are stated over `Run`. Every method of the class
`ElevatorSubsystem.Elevator` ensures that its new fields and its log are exactly what
the matching transition function gives.

`stop()` (`ElevatorSubsystem.java:121-122`) only stops the motor. It does not set
`manualcontrol`, so a closed-loop target stays active and the next `teleopPeriodic`
re-issues it. See `ElevatorMachine.StopStep`, `ElevatorMachine.StopKeepsTracking` and
`ElevatorMachine.TrackingPersists`.

## Model

| member | source | states |
|---|---|---|
| SpeedProfile.SpeedToTop | src/main/java/frc/robot/subsystems/ElevatorSubsystem.java:86-87 | below the top the upward speed is in (0, kElevatorSpeed]; it is full speed at or below 10; within 190 of the top it is proportional to the remaining distance; at or above the top it is not positive |
| SpeedProfile.SpeedToTopMonotone | src/main/java/frc/robot/subsystems/ElevatorSubsystem.java:87 | the upward speed never increases as the position rises |
| SpeedProfile.SpeedToTopVanishes | src/main/java/frc/robot/subsystems/ElevatorSubsystem.java:87 | the upward speed tends to 0 at kHighestLevel: close enough below the top it is positive and below any given eps |
| SpeedProfile.SpeedToTopExamples | src/main/java/frc/robot/subsystems/ElevatorSubsystem.java:36-43 | speed 1 at position 10, 5/190 at 195, 0 at 200 |
| SpeedProfile.SpeedToBottom | src/main/java/frc/robot/subsystems/ElevatorSubsystem.java:89-90 | the downward speed is strictly negative and in [−kElevatorSpeed, −kElevatorSpeed/70]; it is full speed from 70 up, proportional to the position between 1 and 70, and −1/70 at or below 1 |
| SpeedProfile.SpeedToBottomMonotone | src/main/java/frc/robot/subsystems/ElevatorSubsystem.java:90 | the magnitude of the downward speed never decreases as the position rises |
| SpeedProfile.SpeedToBottomExamples | src/main/java/frc/robot/subsystems/ElevatorSubsystem.java:44 | speed −1 at 100, −1/2 at 35, −1/70 at 0.5 |
| SpeedProfile.SpeedLimiter | src/main/java/frc/robot/subsystems/ElevatorSubsystem.java:95 | limiter × 270 = 270 − position; positive below 270; within [70/270, 1] over the travel range; above 1 below the bottom |
| SpeedProfile.SpeedLimiterDecreasing | src/main/java/frc/robot/subsystems/ElevatorSubsystem.java:95 | the limiter is strictly decreasing in the position |
| SpeedProfile.SpeedLimiterExamples | src/main/java/frc/robot/subsystems/ElevatorSubsystem.java:95 | limiter 1 at position 0 and 70/270 at 200 |
| ElevatorMachine.Initial | src/main/java/frc/robot/subsystems/ElevatorSubsystem.java:22-27 | a new subsystem is in manual mode, with target 0, position 0 and limiter 0 (Java's field defaults) |
| ElevatorMachine.RaiseStep | src/main/java/frc/robot/subsystems/ElevatorSubsystem.java:103-110 | raise always selects manual mode and caches the position; below the top it issues exactly one Set(SpeedToTop) with a speed in (0, 1]; otherwise exactly one StopMotor, and the speed field is kept; the target is unchanged |
| ElevatorMachine.LowerStep | src/main/java/frc/robot/subsystems/ElevatorSubsystem.java:112-119 | lower always selects manual mode; above the bottom it issues exactly one Set(SpeedToBottom) with a speed in [−1, 0); otherwise exactly one StopMotor; the target is unchanged |
| ElevatorMachine.StopStep | src/main/java/frc/robot/subsystems/ElevatorSubsystem.java:121-122 | stop issues exactly one StopMotor and changes no field, so neither the mode nor the target changes |
| ElevatorMachine.StopKeepsTracking | src/main/java/frc/robot/subsystems/ElevatorSubsystem.java:97-128 | after GoToClosedLoopPosition(t), a stop followed by teleopPeriodic issues StopMotor and then SetReference(t): stop does not cancel closed-loop mode |
| ElevatorMachine.GoToStep | src/main/java/frc/robot/subsystems/ElevatorSubsystem.java:125-128 | GoToClosedLoopPosition(t) clears manual mode and records t without validating it; it issues no command |
| ElevatorMachine.RobotPeriodicStep | src/main/java/frc/robot/subsystems/ElevatorSubsystem.java:92-95 | robotPeriodic caches the position p and publishes the limiter (270 − p)/270; it issues nothing and keeps the mode |
| ElevatorMachine.TeleopPeriodicStep | src/main/java/frc/robot/subsystems/ElevatorSubsystem.java:97-101 | teleopPeriodic issues exactly one SetReference(target) outside manual mode, and nothing in manual mode |
| ElevatorMachine.TestPeriodicStep | src/main/java/frc/robot/subsystems/ElevatorSubsystem.java:130-135 | testPeriodic caches the position as both current and previous; it issues nothing |
| ElevatorMachine.ReferencesAppend | src/main/java/frc/robot/subsystems/ElevatorSubsystem.java:99 | the count of setpoints in a concatenation of command logs is the sum of the counts |
| ElevatorMachine.RunSpeedsBounded | src/main/java/frc/robot/subsystems/ElevatorSubsystem.java:103-119 | from any state, every open-loop speed that any sequence of calls commands is within [−1, 1] |
| ElevatorMachine.TrackingPersists | src/main/java/frc/robot/subsystems/ElevatorSubsystem.java:97-128 | once a target is set, calls other than raise, lower or a new target keep closed-loop mode and the target; they issue only that target and stops, exactly one target per teleopPeriodic |
| ElevatorMachine.ManualNeverTracks | src/main/java/frc/robot/subsystems/ElevatorSubsystem.java:97-101 | in manual mode, no call sequence without GoToClosedLoopPosition issues a setpoint, and the mode stays manual |
| ElevatorMachine.GoToThenTicks | src/main/java/frc/robot/subsystems/ElevatorSubsystem.java:97-101 | GoToClosedLoopPosition(t) followed by n teleopPeriodic calls issues exactly n SetReference(t) |
| ElevatorMachine.TicksOnly | src/main/java/frc/robot/subsystems/ElevatorSubsystem.java:97-101 | in closed-loop mode, n teleopPeriodic calls change no field and issue n copies of the target |
| ElevatorMachine.ManualAfterRaiseOrLower | src/main/java/frc/robot/subsystems/ElevatorSubsystem.java:103-119 | raise and lower select manual mode from either mode and keep the target |
| ElevatorSubsystem.Elevator.constructor | src/main/java/frc/robot/subsystems/ElevatorSubsystem.java:63-78 | the object starts in the Initial state (manual mode) with an empty command log |
| ElevatorSubsystem.Elevator.Raise | src/main/java/frc/robot/subsystems/ElevatorSubsystem.java:103-110 | the fields become RaiseStep's; the log gains exactly Set(SpeedToTop(position)) below the top, else StopMotor |
| ElevatorSubsystem.Elevator.Lower | src/main/java/frc/robot/subsystems/ElevatorSubsystem.java:112-119 | the fields become LowerStep's; the log gains exactly Set(SpeedToBottom(position)) above the bottom, else StopMotor |
| ElevatorSubsystem.Elevator.Stop | src/main/java/frc/robot/subsystems/ElevatorSubsystem.java:121-122 | no field changes; the log gains exactly StopMotor |
| ElevatorSubsystem.Elevator.GoToClosedLoopPosition | src/main/java/frc/robot/subsystems/ElevatorSubsystem.java:125-128 | manual mode off, the target recorded, the log unchanged |
| ElevatorSubsystem.Elevator.RobotPeriodic | src/main/java/frc/robot/subsystems/ElevatorSubsystem.java:92-95 | the position is cached, the limiter is SpeedLimiter(position), the log is unchanged |
| ElevatorSubsystem.Elevator.TeleopPeriodic | src/main/java/frc/robot/subsystems/ElevatorSubsystem.java:97-101 | no field changes; the log gains SetReference(target) outside manual mode and nothing in manual mode |
| ElevatorSubsystem.Elevator.TestPeriodic | src/main/java/frc/robot/subsystems/ElevatorSubsystem.java:130-135 | the position is cached as current and previous; the log is unchanged |

## Left out

- SparkMax construction and configuration are left out: CAN IDs, current limit, idle mode, ramp rates, PID gains, output range, follower inversion, and reset and persist modes (`ElevatorSubsystem.java:47-60, 63-76`). They are vendor driver setup with no decisions in them.
- `init()` only re-applies the follower configuration (`ElevatorSubsystem.java:80-83`), so it is left out for the same reason.
- `encoder.getPosition()` is a sensor call. Each operation that reads it takes the reading as a parameter instead.
- The `System.out.println` in `testPeriodic` is logging only. Just the update of the previous position is modelled.
- IEEE-754 double arithmetic (rounding, NaN, infinities) is modelled as exact real arithmetic. The `Math.min`/`Math.max` treatment of NaN is not modelled.
- WPILib `SubsystemBase` scheduling and the dispatch of periodic callbacks are left out. Each operation is one sequential call, and `Run` gives any order of calls.
- The closed-loop tracking itself is left out. What the motor does after `setReference` happens inside the driver's PID controller, which is not part of this model.
- The SparkMax clamp of `set` inputs to [−1, 1] is not modelled. `RunSpeedsBounded` shows that no input outside that range is ever sent.
