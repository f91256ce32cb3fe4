/** ElevatorSubsystem: the object that owns the mode, the cached position and
    the published speed limiter, and drives the lead SparkMax. The motor is
    a log of the commands sent to it; encoder readings come in as parameters. */
module ElevatorSubsystem {
  import opened ElevatorConstants
  import opened SpeedProfile
  import opened ElevatorMachine

  class Elevator {
    var currentSpeed: real
    var currentPosition: real
    var previousPosition: real
    var speedLimiter: real
    var closedLoopTarget: Int32
    var manualControl: bool
    /** Every command sent to the lead motor controller, oldest first. */
    var log: seq<Command>

    /** The fields as a value of the state machine. */
    function State(): Controller
      reads this
    {
      Controller(manualControl, closedLoopTarget, currentPosition, previousPosition, currentSpeed, speedLimiter)
    }

    constructor ()
      ensures State() == Initial() && manualControl
      ensures log == []
    {
      currentSpeed, currentPosition, previousPosition, speedLimiter := 0.0, 0.0, 0.0, 0.0;
      closedLoopTarget := 0;
      manualControl := true;
      log := [];
    }

    method Raise(position: real)
      modifies this
      ensures State() == RaiseStep(old(State()), position).next
      ensures log == old(log) + RaiseStep(old(State()), position).emitted
      ensures manualControl && closedLoopTarget == old(closedLoopTarget)
      ensures position < HighestLevel ==> log == old(log) + [Set(SpeedToTop(position))]
      ensures HighestLevel <= position ==> log == old(log) + [StopMotor]
    {
      currentPosition := position;
      manualControl := true;
      if currentPosition < HighestLevel {
        currentSpeed := SpeedToTop(currentPosition);
        log := log + [Set(currentSpeed)];
      } else {
        log := log + [StopMotor];
      }
    }

    method Lower(position: real)
      modifies this
      ensures State() == LowerStep(old(State()), position).next
      ensures log == old(log) + LowerStep(old(State()), position).emitted
      ensures manualControl && closedLoopTarget == old(closedLoopTarget)
      ensures LowestLevel < position ==> log == old(log) + [Set(SpeedToBottom(position))]
      ensures position <= LowestLevel ==> log == old(log) + [StopMotor]
    {
      manualControl := true;
      currentPosition := position;
      if currentPosition > LowestLevel {
        currentSpeed := SpeedToBottom(currentPosition);
        log := log + [Set(currentSpeed)];
      } else {
        log := log + [StopMotor];
      }
    }

    method Stop()
      modifies this
      ensures State() == old(State())
      ensures log == old(log) + [StopMotor]
    {
      log := log + [StopMotor];
    }

    method GoToClosedLoopPosition(targetPosition: Int32)
      modifies this
      ensures State() == GoToStep(old(State()), targetPosition).next
      ensures !manualControl && closedLoopTarget == targetPosition
      ensures log == old(log)
    {
      manualControl := false;
      closedLoopTarget := targetPosition;
    }

    method RobotPeriodic(position: real)
      modifies this
      ensures State() == RobotPeriodicStep(old(State()), position).next
      ensures currentPosition == position && speedLimiter == SpeedLimiter(position)
      ensures log == old(log)
    {
      currentPosition := position;
      speedLimiter := SpeedLimiter(currentPosition);
    }

    method TeleopPeriodic()
      modifies this
      ensures State() == old(State())
      ensures log == old(log) + TeleopPeriodicStep(old(State())).emitted
      ensures !manualControl ==> log == old(log) + [SetReference(closedLoopTarget)]
      ensures manualControl ==> log == old(log)
    {
      if !manualControl {
        log := log + [SetReference(closedLoopTarget)];
      }
    }

    method TestPeriodic(position: real)
      modifies this
      ensures State() == TestPeriodicStep(old(State()), position).next
      ensures log == old(log)
    {
      currentPosition := position;
      previousPosition := currentPosition;
    }
  }
}
