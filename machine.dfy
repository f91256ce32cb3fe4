/** The elevator's mode state machine as pure transitions: one function per
    operation of ElevatorSubsystem, each giving the new field values and the
    motor commands the operation issues, and Run, which replays a sequence
    of operations. The class in ElevatorSubsystem is specified by these. */
module ElevatorMachine {
  import opened ElevatorConstants
  import opened SpeedProfile

  /** A command sent to the lead SparkMax. */
  datatype Command =
    | Set(speed: real)             // open-loop duty cycle
    | StopMotor                    // stopMotor()
    | SetReference(target: Int32)  // closed-loop position setpoint

  /** A call into the subsystem; positions are the encoder readings the call sees. */
  datatype Event =
    | Raise(position: real)
    | Lower(position: real)
    | Stop
    | GoToClosedLoopPosition(target: Int32)
    | RobotPeriodic(position: real)
    | TeleopPeriodic
    | TestPeriodic(position: real)

  /** The subsystem's mutable fields. */
  datatype Controller = Controller(
    manualControl: bool,
    closedLoopTarget: Int32,
    currentPosition: real,
    previousPosition: real,
    currentSpeed: real,
    speedLimiter: real)

  /** The state after an operation and the commands it issued, in order. */
  datatype Outcome = Outcome(next: Controller, emitted: seq<Command>)

  /** The fields right after construction: Java's defaults, and manual mode. */
  function Initial(): (c: Controller)
    ensures c.manualControl
    ensures c.closedLoopTarget == 0 && c.currentPosition == 0.0 && c.speedLimiter == 0.0
  {
    Controller(true, 0, 0.0, 0.0, 0.0, 0.0)
  }

  /** raise(): manual mode; below the top, drive up at the ramped speed,
      otherwise stop the motor. */
  function RaiseStep(c: Controller, position: real): (o: Outcome)
    ensures o.next.manualControl && o.next.currentPosition == position
    ensures o.next.closedLoopTarget == c.closedLoopTarget
    ensures o.next.speedLimiter == c.speedLimiter && o.next.previousPosition == c.previousPosition
    ensures position < HighestLevel ==>
              o.emitted == [Set(SpeedToTop(position))] && o.next.currentSpeed == SpeedToTop(position) &&
              0.0 < o.next.currentSpeed <= ElevatorSpeed
    ensures HighestLevel <= position ==> o.emitted == [StopMotor] && o.next.currentSpeed == c.currentSpeed
  {
    var c' := c.(currentPosition := position, manualControl := true);
    if position < HighestLevel then
      Outcome(c'.(currentSpeed := SpeedToTop(position)), [Set(SpeedToTop(position))])
    else
      Outcome(c', [StopMotor])
  }

  /** lower(): manual mode; above the bottom, drive down at the ramped
      (negative) speed, otherwise stop the motor. */
  function LowerStep(c: Controller, position: real): (o: Outcome)
    ensures o.next.manualControl && o.next.currentPosition == position
    ensures o.next.closedLoopTarget == c.closedLoopTarget
    ensures o.next.speedLimiter == c.speedLimiter && o.next.previousPosition == c.previousPosition
    ensures LowestLevel < position ==>
              o.emitted == [Set(SpeedToBottom(position))] && o.next.currentSpeed == SpeedToBottom(position) &&
              -ElevatorSpeed <= o.next.currentSpeed < 0.0
    ensures position <= LowestLevel ==> o.emitted == [StopMotor] && o.next.currentSpeed == c.currentSpeed
  {
    var c' := c.(manualControl := true, currentPosition := position);
    if position > LowestLevel then
      Outcome(c'.(currentSpeed := SpeedToBottom(position)), [Set(SpeedToBottom(position))])
    else
      Outcome(c', [StopMotor])
  }

  /** stop(): stops the motor and leaves the mode and the target alone. */
  function StopStep(c: Controller): (o: Outcome)
    ensures o.next == c && o.emitted == [StopMotor]
  {
    Outcome(c, [StopMotor])
  }

  /** GoToClosedLoopPosition(t): closed-loop mode toward t, unvalidated; no command yet. */
  function GoToStep(c: Controller, target: Int32): (o: Outcome)
    ensures !o.next.manualControl && o.next.closedLoopTarget == target
    ensures o.emitted == []
    ensures o.next.currentPosition == c.currentPosition && o.next.currentSpeed == c.currentSpeed
    ensures o.next.speedLimiter == c.speedLimiter && o.next.previousPosition == c.previousPosition
  {
    Outcome(c.(manualControl := false, closedLoopTarget := target), [])
  }

  /** robotPeriodic(): caches the position and publishes the speed limiter. */
  function RobotPeriodicStep(c: Controller, position: real): (o: Outcome)
    ensures o.next.currentPosition == position
    ensures o.next.speedLimiter * (HighestLevel + LimiterMargin) == HighestLevel + LimiterMargin - position
    ensures o.next.manualControl == c.manualControl && o.next.closedLoopTarget == c.closedLoopTarget
    ensures o.next.currentSpeed == c.currentSpeed && o.next.previousPosition == c.previousPosition
    ensures o.emitted == []
  {
    Outcome(c.(currentPosition := position, speedLimiter := SpeedLimiter(position)), [])
  }

  /** teleopPeriodic(): re-issues the closed-loop target when not in manual mode. */
  function TeleopPeriodicStep(c: Controller): (o: Outcome)
    ensures o.next == c
    ensures c.manualControl ==> o.emitted == []
    ensures !c.manualControl ==> o.emitted == [SetReference(c.closedLoopTarget)]
  {
    if !c.manualControl then Outcome(c, [SetReference(c.closedLoopTarget)]) else Outcome(c, [])
  }

  /** testPeriodic(): caches the position and remembers it as the previous one
      (the change it detects is only logged). */
  function TestPeriodicStep(c: Controller, position: real): (o: Outcome)
    ensures o.next.currentPosition == position && o.next.previousPosition == position
    ensures o.next.manualControl == c.manualControl && o.next.closedLoopTarget == c.closedLoopTarget
    ensures o.next.currentSpeed == c.currentSpeed && o.next.speedLimiter == c.speedLimiter
    ensures o.emitted == []
  {
    Outcome(c.(currentPosition := position, previousPosition := position), [])
  }

  function Step(c: Controller, e: Event): (o: Outcome)
  {
    match e
    case Raise(p) => RaiseStep(c, p)
    case Lower(p) => LowerStep(c, p)
    case Stop => StopStep(c)
    case GoToClosedLoopPosition(t) => GoToStep(c, t)
    case RobotPeriodic(p) => RobotPeriodicStep(c, p)
    case TeleopPeriodic => TeleopPeriodicStep(c)
    case TestPeriodic(p) => TestPeriodicStep(c, p)
  }

  /** Performs the events in order; the result holds every command issued. */
  function Run(c: Controller, events: seq<Event>): (o: Outcome)
    decreases |events|
  {
    if events == [] then Outcome(c, [])
    else
      var first := Step(c, events[0]);
      var rest := Run(first.next, events[1..]);
      Outcome(rest.next, first.emitted + rest.emitted)
  }

  /** Every open-loop speed in the commands is a valid duty cycle. */
  ghost predicate SpeedsBounded(cmds: seq<Command>)
  {
    forall i :: 0 <= i < |cmds| && cmds[i].Set? ==> -ElevatorSpeed <= cmds[i].speed <= ElevatorSpeed
  }

  /** An event that switches the mode to manual or changes the target. */
  predicate ChangesMode(e: Event)
  {
    e.Raise? || e.Lower? || e.GoToClosedLoopPosition?
  }

  /** Number of closed-loop setpoints among the commands. */
  function References(cmds: seq<Command>): (n: nat)
  {
    if cmds == [] then 0 else (if cmds[0].SetReference? then 1 else 0) + References(cmds[1..])
  }

  /** Number of teleopPeriodic calls among the events. */
  function Ticks(events: seq<Event>): (n: nat)
  {
    if events == [] then 0 else (if events[0].TeleopPeriodic? then 1 else 0) + Ticks(events[1..])
  }

  lemma {:induction false} ReferencesAppend(a: seq<Command>, b: seq<Command>)
    ensures References(a + b) == References(a) + References(b)
  {
    if a == [] {
      assert a + b == b;
    } else {
      assert (a + b)[1..] == a[1..] + b;
      ReferencesAppend(a[1..], b);
    }
  }

  /** No sequence of calls, from any state, commands an open-loop speed outside
      [-ElevatorSpeed, ElevatorSpeed]. */
  lemma {:induction false} RunSpeedsBounded(c: Controller, events: seq<Event>)
    ensures SpeedsBounded(Run(c, events).emitted)
    decreases |events|
  {
    if events != [] {
      var first := Step(c, events[0]);
      RunSpeedsBounded(first.next, events[1..]);
      assert SpeedsBounded(first.emitted);
    }
  }

  /** Once a closed-loop target is set, every later call up to the next raise,
      lower or new target keeps closed-loop mode and the target; the only
      commands issued are that target and stops, exactly one target per
      teleopPeriodic call. */
  lemma {:induction false} TrackingPersists(c: Controller, events: seq<Event>)
    requires !c.manualControl
    requires forall i :: 0 <= i < |events| ==> !ChangesMode(events[i])
    ensures !Run(c, events).next.manualControl
    ensures Run(c, events).next.closedLoopTarget == c.closedLoopTarget
    ensures forall k :: 0 <= k < |Run(c, events).emitted| ==>
              Run(c, events).emitted[k] in {SetReference(c.closedLoopTarget), StopMotor}
    ensures References(Run(c, events).emitted) == Ticks(events)
    decreases |events|
  {
    if events != [] {
      var first := Step(c, events[0]);
      assert !ChangesMode(events[0]);
      TrackingPersists(first.next, events[1..]);
      ReferencesAppend(first.emitted, Run(first.next, events[1..]).emitted);
    }
  }

  /** In manual mode, calls other than GoToClosedLoopPosition never issue a
      closed-loop setpoint, and the mode stays manual. */
  lemma {:induction false} ManualNeverTracks(c: Controller, events: seq<Event>)
    requires c.manualControl
    requires forall i :: 0 <= i < |events| ==> !events[i].GoToClosedLoopPosition?
    ensures Run(c, events).next.manualControl
    ensures forall k :: 0 <= k < |Run(c, events).emitted| ==> !Run(c, events).emitted[k].SetReference?
    decreases |events|
  {
    if events != [] {
      var first := Step(c, events[0]);
      ManualNeverTracks(first.next, events[1..]);
    }
  }

  /** Going to a target and then ticking n times issues that target exactly n times. */
  lemma GoToThenTicks(c: Controller, target: Int32, events: seq<Event>)
    requires forall i :: 0 <= i < |events| ==> events[i] == TeleopPeriodic
    ensures Run(c, [GoToClosedLoopPosition(target)] + events).emitted == seq(|events|, _ => SetReference(target))
  {
    var e := [GoToClosedLoopPosition(target)] + events;
    assert e[1..] == events;
    TicksOnly(GoToStep(c, target).next, events);
  }

  lemma {:induction false} TicksOnly(c: Controller, events: seq<Event>)
    requires !c.manualControl
    requires forall i :: 0 <= i < |events| ==> events[i] == TeleopPeriodic
    ensures Run(c, events).next == c
    ensures Run(c, events).emitted == seq(|events|, _ => SetReference(c.closedLoopTarget))
    decreases |events|
  {
    if events != [] {
      TicksOnly(c, events[1..]);
    }
  }

  /** Stopping the motor does not leave closed-loop mode: the next tick
      re-issues the target. */
  lemma StopKeepsTracking(c: Controller, target: Int32)
    ensures Run(c, [GoToClosedLoopPosition(target), Stop, TeleopPeriodic]).emitted == [StopMotor, SetReference(target)]
  {
    var e := [GoToClosedLoopPosition(target), Stop, TeleopPeriodic];
    var tracking := GoToStep(c, target).next;
    assert e[1..] == [Stop, TeleopPeriodic] && e[1..][1..] == [TeleopPeriodic];
    assert Run(tracking, [TeleopPeriodic]).emitted == [SetReference(target)];
    assert Run(tracking, [Stop, TeleopPeriodic]).emitted == [StopMotor, SetReference(target)];
  }

  /** Raise and lower always return to manual mode, whatever the mode was. */
  lemma ManualAfterRaiseOrLower(c: Controller, e: Event)
    requires e.Raise? || e.Lower?
    ensures Step(c, e).next.manualControl
    ensures Step(c, e).next.closedLoopTarget == c.closedLoopTarget
  {
  }
}
