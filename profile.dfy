/** The pure arithmetic of the elevator: the manual speed ramps toward the
    two travel limits and the speed limiter published for the chassis. */
module SpeedProfile {
  import opened ElevatorConstants

  /** Math.min on doubles, without NaN. */
  function Min(a: real, b: real): (r: real)
    ensures r <= a && r <= b && (r == a || r == b)
  {
    if a <= b then a else b
  }

  /** Math.max on doubles, without NaN. */
  function Max(a: real, b: real): (r: real)
    ensures a <= r && b <= r && (r == a || r == b)
  {
    if a >= b then a else b
  }

  /** scaledSpeedToTop: full speed far from the top, then a linear ramp that
      reaches zero at HighestLevel. */
  function SpeedToTop(position: real): (r: real)
    ensures position < HighestLevel ==> 0.0 < r <= ElevatorSpeed
    ensures position <= HighestLevel - SlowdownLevelAscending ==> r == ElevatorSpeed
    ensures HighestLevel - SlowdownLevelAscending <= position ==>
              r * SlowdownLevelAscending == ElevatorSpeed * (HighestLevel - position)
    ensures HighestLevel <= position ==> r <= 0.0
  {
    ElevatorSpeed * Min(SlowdownLevelAscending, HighestLevel - position) / SlowdownLevelAscending
  }

  /** scaledSpeedToBottom: full downward speed far from the bottom, a linear
      ramp below SlowdownLevelDescending, and a creep floor of one unit of
      remaining distance so the speed never reaches zero. */
  function SpeedToBottom(position: real): (r: real)
    ensures -ElevatorSpeed <= r <= -ElevatorSpeed / SlowdownLevelDescending
    ensures r < 0.0
    ensures SlowdownLevelDescending <= position ==> r == -ElevatorSpeed
    ensures 1.0 <= position <= SlowdownLevelDescending ==>
              r * SlowdownLevelDescending == -ElevatorSpeed * position
    ensures position <= 1.0 ==> r == -ElevatorSpeed / SlowdownLevelDescending
  {
    -ElevatorSpeed * Min(SlowdownLevelDescending, Max(position, 1.0)) / SlowdownLevelDescending
  }

  /** The factor robotPeriodic publishes so that the chassis slows down as the
      elevator (and the robot's centre of gravity) rises. */
  function SpeedLimiter(position: real): (r: real)
    ensures position < HighestLevel + LimiterMargin ==> 0.0 < r
    ensures position < 0.0 ==> 1.0 < r
    ensures LowestLevel <= position <= HighestLevel ==>
              LimiterMargin / (HighestLevel + LimiterMargin) <= r <= 1.0
    ensures r * (HighestLevel + LimiterMargin) == HighestLevel + LimiterMargin - position
  {
    (HighestLevel + LimiterMargin - position) / (HighestLevel + LimiterMargin)
  }

  /** Raising is never faster closer to the top. */
  lemma SpeedToTopMonotone(p: real, q: real)
    requires p <= q
    ensures SpeedToTop(q) <= SpeedToTop(p)
  {
  }

  /** The upward speed tends to zero at the top: within SlowdownLevelAscending * eps
      units of HighestLevel it is positive and below eps. */
  lemma SpeedToTopVanishes(position: real, eps: real)
    requires 0.0 < eps <= ElevatorSpeed
    requires HighestLevel - SlowdownLevelAscending * eps / ElevatorSpeed < position < HighestLevel
    ensures 0.0 < SpeedToTop(position) < eps
  {
  }

  lemma SpeedToTopExamples()
    ensures SpeedToTop(10.0) == ElevatorSpeed
    ensures SpeedToTop(195.0) == 5.0 / 190.0
    ensures SpeedToTop(HighestLevel) == 0.0
  {
  }

  /** Lowering is never faster (in magnitude) closer to the bottom. */
  lemma SpeedToBottomMonotone(p: real, q: real)
    requires p <= q
    ensures SpeedToBottom(q) <= SpeedToBottom(p)
  {
  }

  lemma SpeedToBottomExamples()
    ensures SpeedToBottom(100.0) == -ElevatorSpeed
    ensures SpeedToBottom(35.0) == -0.5
    ensures SpeedToBottom(0.5) == -1.0 / 70.0
  {
  }

  /** The limiter is strictly decreasing in the elevator's height. */
  lemma SpeedLimiterDecreasing(p: real, q: real)
    requires p < q
    ensures SpeedLimiter(q) < SpeedLimiter(p)
  {
  }

  lemma SpeedLimiterExamples()
    ensures SpeedLimiter(0.0) == 1.0
    ensures SpeedLimiter(HighestLevel) == 70.0 / 270.0
  {
  }
}
