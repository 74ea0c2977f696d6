/** The game's fixed configuration (config.py). `delta_time`, the one mutable setting, is a
    parameter of every update instead: see Env in module Entities. */
module Config {

  const ScreenWidth: int := 600
  const ScreenHeight: int := 800
  const TargetTicksPerSecond: int := 60

  /** The play field: both edges belong to it. */
  predicate InBounds(x: real, y: real)
  {
    0.0 <= x <= ScreenWidth as real && 0.0 <= y <= ScreenHeight as real
  }
}
