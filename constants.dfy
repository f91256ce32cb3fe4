/** Tunable constants of the elevator (ElevatorSubsystem.ElevatorConstants).
    Positions are in encoder units; speeds are normalized motor outputs. */
module ElevatorConstants {

  /** Full open-loop speed. */
  const ElevatorSpeed: real := 1.0

  /** Travel limits. */
  const LowestLevel: real := 0.0
  const HighestLevel: real := 200.0

  /** Distance from each travel limit over which the manual speed ramps down. */
  const SlowdownLevelAscending: real := 190.0
  const SlowdownLevelDescending: real := 70.0

  /** Extra height added above HighestLevel in the chassis speed limiter. */
  const LimiterMargin: real := 70.0

  /** Java's 32-bit `int`, the type of the closed-loop target. */
  newtype Int32 = x: int | -0x8000_0000 <= x < 0x8000_0000
}
