/**
  * Small value types shared by the drawing helpers: a 2-D offset, the
  * `coerceIn`/`coerceAtLeast` clamps of the Kotlin standard library, and a
  * result type standing for `require(...)` failing with an
  * IllegalArgumentException.
  */
module Drawing {

  /** A point or displacement on the canvas, in pixels (Compose `Offset`). */
  datatype Offset = Offset(x: real, y: real)
  {
    function Plus(other: Offset): Offset {
      Offset(x + other.x, y + other.y)
    }
  }

  /** The size of a drawing area, in pixels (Compose `Size`). */
  datatype Size = Size(width: real, height: real)
  {
    /** `size.minDimension`: the smaller of the two magnitudes. */
    function MinDimension(): (m: real)
      ensures 0.0 <= m
      ensures m <= Abs(width) && m <= Abs(height)
      ensures m == Abs(width) || m == Abs(height)
    {
      if Abs(width) < Abs(height) then Abs(width) else Abs(height)
    }

    /** `size.center` */
    function Center(): Offset {
      Offset(width / 2.0, height / 2.0)
    }
  }

  /** `v.absoluteValue` */
  function Abs(v: real): (r: real)
    ensures r >= 0.0 && (r == v || r == -v)
  {
    if v < 0.0 then -v else v
  }

  /** The error `require(...)` raises when its condition is false. */
  datatype Error = IllegalArgumentException(message: string)

  datatype Result<T> = Success(value: T) | Failure(error: Error)

  /** `v.coerceIn(0f, 1f)`: the nearest point of [0, 1] to `v`. */
  function CoerceIn01(v: real): (r: real)
    ensures 0.0 <= r <= 1.0
    ensures 0.0 <= v <= 1.0 ==> r == v
    ensures v <= 0.0 ==> r == 0.0
    ensures v >= 1.0 ==> r == 1.0
  {
    if v < 0.0 then 0.0 else if v > 1.0 then 1.0 else v
  }

  /** `v.coerceAtLeast(minimum)` */
  function CoerceAtLeast(v: real, minimum: real): (r: real)
    ensures r >= minimum && r >= v
    ensures r == v || r == minimum
  {
    if v < minimum then minimum else v
  }
}
