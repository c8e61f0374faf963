/**
  * The orbiting dots of composables/SimpleAnimation.kt: sixteen circles,
  * each with a fixed pair of phases drawn from the seeded mixer, coloured
  * along a six-stop gradient and placed on an orbit around the canvas centre.
  *
  * `cos` and `sin` are inputs of the model; the only facts used about them
  * are that they stay within [-1, 1].
  */
module Orbit {
  import opened Drawing
  import opened PseudoRandom
  import opened ColorGradient
  import opened FrameClock

  /** Number of circles on the orbit. */
  const NUM_CIRCLES: nat := 16
  /** Angular speed of the orbit, in radians per second. */
  const SPEED: real := 5.0
  /** `2F * PI.toFloat()`: the Float nearest to 2π, 13176795 / 2^21. */
  const TAU: real := 13176795.0 / 2097152.0
  /** Weights of the three mixer values making up a phase; they add up to 1. */
  const W0: real := 0.5
  const W1: real := 0.33
  const W2: real := 0.17

  /** A Kotlin `Int`. */
  newtype Int = i: int | -0x8000_0000 <= i < 0x8000_0000

  /** The six stops of the orbit's gradient, as ARGB words. */
  const ORBIT_COLORS: seq<nat> := [0xFFF2A1AE, 0xFFF4BE82, 0xFFF2E37A, 0xFF8EDBC4, 0xFF9CBFE0, 0xFFB9AEDD]

  /** The orbit's gradient is well formed: construction does not fail. */
  lemma OrbitGradientValid()
    ensures NewGradient(ORBIT_COLORS).Success?
    ensures |NewGradient(ORBIT_COLORS).value.stops| == 6
  {
  }

  /** `idx + n` as a `Long`: an `Int` plus a small constant never overflows 64 bits. */
  function SeedOf(idx: Int, n: int): (s: Long)
    requires 0 <= n <= 6
    ensures s as int == idx as int + n
  {
    (idx as int + n) as Long
  }

  /** A weighted sum of three mixer values, as a fraction of a full turn. */
  function Blend(a: real, b: real, c: real): (r: real)
    requires 0.0 <= a < 1.0 && 0.0 <= b < 1.0 && 0.0 <= c < 1.0
    ensures 0.0 <= r < 1.0
  {
    assert W0 * a + W1 * b + W2 * c < W0 + W1 + W2;
    W0 * a + W1 * b + W2 * c
  }

  /**
    * `getOffset`: the phases of circle `idx`, the x phase from the seeds
    * `idx + 5`, `idx + 3`, `idx + 1` and the y phase from `idx + 6`,
    * `idx + 4`, `idx + 2`. Both lie in [0, TAU).
    */
  function GetOffset(idx: Int): (o: Offset)
    ensures 0.0 <= o.x < TAU && 0.0 <= o.y < TAU
  {
    var x := Blend(RandomFromSeed(SeedOf(idx, 5)), RandomFromSeed(SeedOf(idx, 3)), RandomFromSeed(SeedOf(idx, 1)));
    var y := Blend(RandomFromSeed(SeedOf(idx, 6)), RandomFromSeed(SeedOf(idx, 4)), RandomFromSeed(SeedOf(idx, 2)));
    Offset(TAU * x, TAU * y)
  }

  /** The y phase of circle `i` is built from the same seeds as the x phase of circle `i + 1`. */
  lemma PhasesShareSeeds(i: Int)
    requires i < 0x7FFF_FFFF
    ensures GetOffset(i).y == GetOffset(i + 1).x
  {
  }

  /** `List(NUM_CIRCLES) { getOffset(it) }`: one pair of phases per circle, in index order. */
  function Offsets(): (os: seq<Offset>)
    ensures |os| == NUM_CIRCLES
    ensures forall i :: 0 <= i < |os| ==> os[i] == GetOffset(i as Int)
  {
    seq(NUM_CIRCLES, i requires 0 <= i < NUM_CIRCLES => GetOffset(i as Int))
  }

  /** `(0.5f * size.minDimension - orbitPadding).coerceAtLeast(0f)` with a 16 dp padding. */
  function OrbitRadius(size: Size, density: real): (r: real)
    ensures r >= 0.0
    ensures r >= 0.5 * size.MinDimension() - 16.0 * density
    ensures r == 0.0 || r == 0.5 * size.MinDimension() - 16.0 * density
  {
    CoerceAtLeast(0.5 * size.MinDimension() - 16.0 * density, 0.0)
  }

  /** `getPosition`: where a circle is, relative to the canvas centre, at frame time `frame.t`. */
  function GetPosition(frame: FrameTime, orbitRadius: real, offset: Offset,
                       cos: real -> real, sin: real -> real): Offset
  {
    Offset(
      orbitRadius * 0.9 * cos(SPEED * frame.t + offset.x + 1.552 * sin(0.25 * frame.t)),
      orbitRadius * 0.9 * sin(SPEED * frame.t + offset.y + 1.552 * cos(0.25 * frame.t)))
  }

  ghost predicate UnitBounded(f: real -> real) {
    forall a :: -1.0 <= f(a) <= 1.0
  }

  /** Every circle stays within 0.9 orbit radii of the centre along each axis. */
  lemma PositionBound(frame: FrameTime, orbitRadius: real, offset: Offset, cos: real -> real, sin: real -> real)
    requires orbitRadius >= 0.0
    requires UnitBounded(cos) && UnitBounded(sin)
    ensures var p := GetPosition(frame, orbitRadius, offset, cos, sin);
      -0.9 * orbitRadius <= p.x <= 0.9 * orbitRadius && -0.9 * orbitRadius <= p.y <= 0.9 * orbitRadius
  {
    var k := orbitRadius * 0.9;
    var c := cos(SPEED * frame.t + offset.x + 1.552 * sin(0.25 * frame.t));
    var s := sin(SPEED * frame.t + offset.y + 1.552 * cos(0.25 * frame.t));
    assert -1.0 <= c <= 1.0 && -1.0 <= s <= 1.0;
    ScaledUnit(k, c);
    ScaledUnit(k, s);
    assert GetPosition(frame, orbitRadius, offset, cos, sin) == Offset(k * c, k * s);
  }

  lemma ScaledUnit(k: real, v: real)
    requires k >= 0.0 && -1.0 <= v <= 1.0
    ensures -k <= k * v <= k
  {
  }

  /** One `drawCircle` call of the orbit, in pixels. */
  datatype Dot<C> = Dot(color: C, radius: real, center: Offset)

  /** The gradient factor of circle `i`. */
  function Factor(i: nat): (f: real)
    requires i < NUM_CIRCLES
    ensures 0.0 <= f <= 15.0 / 16.0
    ensures f * NUM_CIRCLES as real == i as real
  {
    i as real / NUM_CIRCLES as real
  }

  /** The `i`-th circle drawn for a frame. */
  function OrbitDot<C>(g: Gradient<C>, lerp: (C, C, real) -> C, frame: FrameTime, size: Size, density: real,
                       cos: real -> real, sin: real -> real, i: nat): Dot<C>
    requires g.Valid() && i < NUM_CIRCLES
  {
    Dot(ColorAt(g, lerp, Factor(i)), 16.0 * density,
      size.Center().Plus(GetPosition(frame, OrbitRadius(size, density), Offsets()[i], cos, sin)))
  }

  /** Everything the orbit's canvas draws for a frame, in order. */
  function OrbitDots<C>(g: Gradient<C>, lerp: (C, C, real) -> C, frame: FrameTime, size: Size, density: real,
                        cos: real -> real, sin: real -> real): (ds: seq<Dot<C>>)
    requires g.Valid()
    ensures |ds| == NUM_CIRCLES
    ensures forall i :: 0 <= i < NUM_CIRCLES ==> ds[i] == OrbitDot(g, lerp, frame, size, density, cos, sin, i)
  {
    seq(NUM_CIRCLES, i requires 0 <= i < NUM_CIRCLES => OrbitDot(g, lerp, frame, size, density, cos, sin, i))
  }

  /** Appending the next element of `all` to a prefix of `all` gives a longer prefix. */
  lemma PrefixGrows<T>(prefix: seq<T>, all: seq<T>, next: T)
    requires |prefix| < |all| && next == all[|prefix|]
    requires forall j :: 0 <= j < |prefix| ==> prefix[j] == all[j]
    ensures forall j :: 0 <= j < |prefix| + 1 ==> (prefix + [next])[j] == all[j]
  {
  }

  /** The dot the canvas loop computes inline for circle `i` is `OrbitDot(..., i)`. */
  lemma CanvasDot<C>(g: Gradient<C>, lerp: (C, C, real) -> C, frame: FrameTime, size: Size, density: real,
                     cos: real -> real, sin: real -> real, i: nat)
    requires g.Valid() && i < NUM_CIRCLES
    ensures OrbitDots(g, lerp, frame, size, density, cos, sin)[i]
         == Dot(ColorAt(g, lerp, i as real / NUM_CIRCLES as real), 16.0 * density,
                size.Center().Plus(GetPosition(frame, CoerceAtLeast(0.5 * size.MinDimension() - 16.0 * density, 0.0),
                                               Offsets()[i], cos, sin)))
  {
    assert Factor(i) == i as real / NUM_CIRCLES as real;
  }

  /** The `Canvas` block of `SimpleAnimation`: one circle per loop iteration. */
  method DrawOrbit<C>(g: Gradient<C>, lerp: (C, C, real) -> C, frame: FrameTime, size: Size, density: real,
                      cos: real -> real, sin: real -> real) returns (dots: seq<Dot<C>>)
    requires g.Valid()
    ensures dots == OrbitDots(g, lerp, frame, size, density, cos, sin)
  {
    var offsets := Offsets();
    var dotRadius := 16.0 * density;
    var orbitPadding := 16.0 * density;
    var orbitRadius := CoerceAtLeast(0.5 * size.MinDimension() - orbitPadding, 0.0);
    var center := size.Center();
    ghost var all := OrbitDots(g, lerp, frame, size, density, cos, sin);
    dots := [];
    for i := 0 to NUM_CIRCLES
      invariant |dots| == i
      invariant forall j :: 0 <= j < i ==> dots[j] == all[j]
    {
      var factor := i as real / NUM_CIRCLES as real;
      var dot := Dot(ColorAt(g, lerp, factor), dotRadius,
        center.Plus(GetPosition(frame, orbitRadius, offsets[i], cos, sin)));
      CanvasDot(g, lerp, frame, size, density, cos, sin, i);
      PrefixGrows(dots, all, dot);
      dots := dots + [dot];
    }
  }

  /**
    * The dots take their colours from the gradient without reaching its end:
    * the first dot has the first stop, and every factor is below 1, so the
    * last stop is only reached by interpolation.
    */
  lemma OrbitColors<C(!new)>(g: Gradient<C>, lerp: (C, C, real) -> C, frame: FrameTime, size: Size,
                             density: real, cos: real -> real, sin: real -> real)
    requires g.Valid() && LerpStartsAtFirst(lerp)
    ensures OrbitDots(g, lerp, frame, size, density, cos, sin)[0].color == g.stops[0]
    ensures forall i :: 0 <= i < NUM_CIRCLES ==>
      OrbitDots(g, lerp, frame, size, density, cos, sin)[i].color == ColorAt(g, lerp, Factor(i)) && Factor(i) < 1.0
  {
    ColorAtStart(g, lerp, Factor(0));
  }

  /** Every dot stays within 0.9 orbit radii of the canvas centre along each axis. */
  lemma DotsStayOnOrbit<C>(g: Gradient<C>, lerp: (C, C, real) -> C, frame: FrameTime, size: Size,
                           density: real, cos: real -> real, sin: real -> real, i: nat)
    requires g.Valid() && i < NUM_CIRCLES
    requires UnitBounded(cos) && UnitBounded(sin)
    ensures var d := OrbitDots(g, lerp, frame, size, density, cos, sin)[i];
      var r := OrbitRadius(size, density);
      && -0.9 * r <= d.center.x - size.Center().x <= 0.9 * r
      && -0.9 * r <= d.center.y - size.Center().y <= 0.9 * r
      && d.radius == 16.0 * density
  {
    PositionBound(frame, OrbitRadius(size, density), Offsets()[i], cos, sin);
  }
}
