/**
 The particle store's data model, shared by all four screensaver programs:
 a `Circle` record, its colour, the arena configuration and the two
 bounce-line policies the programs use.
 */
module Circles {

  /** A colour channel, stored by SDL as an 8-bit unsigned value. */
  type Byte = b: int | 0 <= b < 256

  datatype Color = Color(r: Byte, g: Byte, b: Byte)

  /** One particle: position, displacement per tick, colour. The radius is
      shared by every circle and lives in the `Config`. */
  datatype Circle = Circle(x: int, y: int, dx: int, dy: int, color: Color)

  /** A centre on the integer grid. */
  datatype Pos = Pos(x: int, y: int)

  function Abs(v: int): nat {
    if v < 0 then -v else v
  }

  /** Which lines a coordinate bounces against. */
  datatype Policy =
    | Interior  // the stored point is the centre: bounce at R and W - R
    | Anchor    // the stored point is the top-left corner: bounce at 0 and W - 2R

  /** The constants of one program. `spawnOffset` is the value added to
      `rand() % (W - 2R)` when a coordinate is generated; every program adds
      the radius there. */
  datatype Config = Config(
    width: int,
    height: int,
    radius: int,
    maxSpeed: int,
    maxCircles: int,
    spawnOffset: int,
    policy: Policy)
  {
    /** The arena leaves a non-empty spawn range on both axes (the modulus
        `W - 2R` must be positive) and the speeds are non-negative. */
    predicate Valid() {
      && radius >= 0
      && maxSpeed >= 0
      && width > 2 * radius
      && height > 2 * radius
      && maxCircles >= 1
    }

    /** The lower bounce line, the same on both axes. */
    function Lo(): int {
      match policy
      case Interior => radius
      case Anchor => 0
    }

    /** The upper bounce line for the x axis. */
    function HiX(): int {
      match policy
      case Interior => width - radius
      case Anchor => width - 2 * radius
    }

    /** The upper bounce line for the y axis. */
    function HiY(): int {
      match policy
      case Interior => height - radius
      case Anchor => height - 2 * radius
    }

    /** The spawn range starts on the lower bounce line and ends just short of
        the upper one, on both axes. */
    predicate SpawnAligned() {
      spawnOffset == Lo()
    }
  }

  /** The two ways the core reports failure. */
  datatype Error =
    | InvalidCount(count: int)          // rejected by the count check in `main`
    | CoincidentCentres(i: nat, j: nat) // a colliding pair whose centres coincide

  datatype Result<+T> = Success(value: T) | Failure(error: Error)
}
