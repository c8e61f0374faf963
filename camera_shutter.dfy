/**
  * The camera shutter (composables/CameraShutter.kt): `bladeCount` triangular
  * blades, each drawn filled and then stroked, rotated evenly around the
  * canvas centre and pushed outwards as `progress` goes from 0 (closed) to
  * 1 (open).
  *
  * The tangents `tan(2π / blades)` and `tan(π/2 − π/blades)` are inputs of
  * the model; for at least four blades the second one lies in
  * `tan([π/4, π/2)) = [1, ∞)`, so it is positive.
  */
module Shutter {
  import opened Drawing

  /** The fewest blades `CameraShutter` accepts. */
  const MIN_BLADES: int := 4

  datatype Style = Fill | Stroke(width: real)

  /** `Color(0x0ffefefef)` for the fill and `Color.Black` for the outline. */
  datatype Color = BladeGrey | Black

  /** The tangents the blade layout needs, computed by the platform. */
  datatype BladeAngles = BladeAngles(bladeTan: real, shiftTan: real)

  /**
    * One `drawPath` call: the path is moved by `translation` in the blade's
    * own frame, and that frame is turned by `rotationDegrees` about `pivot`,
    * the canvas centre.
    */
  datatype PathDraw = PathDraw(
    pivot: Offset,
    rotationDegrees: real,
    translation: Offset,
    path: seq<Offset>,
    color: Color,
    style: Style)

  /** The closed triangle every blade is drawn with. */
  function BladePath(minDim: real, bladeTan: real): (p: seq<Offset>)
    ensures |p| == 3 && p[0] == Offset(0.0, 0.0)
    ensures p[1].y == 0.0 && p[2].x == p[1].x == minDim
    ensures p[2].y == p[2].x * bladeTan
  {
    [Offset(0.0, 0.0), Offset(minDim, 0.0), Offset(minDim, minDim * bladeTan)]
  }

  /** The angle between two neighbouring blades, in degrees. */
  function Step(blades: nat): (s: real)
    requires blades > 0
    ensures s > 0.0 && s * blades as real == 360.0
  {
    360.0 / blades as real
  }

  /** The rotation of blade `i`: its slot plus a quarter of a step. */
  function BladeRotation(blades: nat, i: nat): (r: real)
    requires 0 <= i < blades
    ensures 0.0 < r < 360.0
  {
    var step := Step(blades);
    var slots := i as real + 0.25;
    assert step * i as real + step * 0.25 == step * slots;
    assert step * slots < step * blades as real by {
      assert slots < blades as real;
      MulStrict(step, slots, blades as real);
    }
    step * i as real + step * 0.25
  }

  lemma MulStrict(c: real, a: real, b: real)
    requires c > 0.0 && a < b
    ensures c * a < c * b
  {
  }

  /** Neighbouring blades sit one step apart: the blades split the full turn evenly. */
  lemma BladesEvenlySpaced(blades: nat, i: nat)
    requires i + 1 < blades
    ensures BladeRotation(blades, i + 1) - BladeRotation(blades, i) == 360.0 / blades as real
  {
  }

  /** How far every blade is pushed: `(progress·minDim / shiftTan, −progress·minDim)`. */
  function Translation(minDim: real, shiftTan: real, progress: real): (t: Offset)
    requires shiftTan > 0.0
    ensures progress == 0.0 ==> t == Offset(0.0, 0.0)
    ensures t.x * shiftTan == -t.y
    ensures 0.0 <= progress && 0.0 <= minDim ==> t.x >= 0.0 && t.y <= 0.0
    ensures 0.0 <= progress <= 1.0 && 0.0 <= minDim ==> -minDim <= t.y
  {
    var dx := progress * minDim / shiftTan;
    assert dx * shiftTan == progress * minDim;
    assert 0.0 <= progress && 0.0 <= minDim ==> dx >= 0.0 by {
      if 0.0 <= progress && 0.0 <= minDim {
        assert progress * minDim >= 0.0;
      }
    }
    assert 0.0 <= progress <= 1.0 && 0.0 <= minDim ==> progress * minDim <= minDim by {
      if 0.0 <= progress <= 1.0 && 0.0 <= minDim {
        assert (1.0 - progress) * minDim >= 0.0;
      }
    }
    Offset(dx, -progress * minDim)
  }

  /** The `k`-th of the `2·blades` draw calls: blade `k / 2`, filled when `k` is even and stroked when odd. */
  function ShutterDraw(size: Size, density: real, angles: BladeAngles, progress: real, blades: nat, k: nat): PathDraw
    requires angles.shiftTan > 0.0
    requires k < 2 * blades
  {
    var minDim := size.MinDimension();
    var path := BladePath(minDim, angles.bladeTan);
    var rotation := BladeRotation(blades, k / 2);
    var translation := Translation(minDim, angles.shiftTan, progress);
    if k % 2 == 0 then PathDraw(size.Center(), rotation, translation, path, BladeGrey, Fill)
    else PathDraw(size.Center(), rotation, translation, path, Black, Stroke(2.0 * density))
  }

  /** Everything `drawShutter` draws, in order. */
  function ShutterDraws(size: Size, density: real, angles: BladeAngles, progress: real, blades: nat): (ds: seq<PathDraw>)
    requires angles.shiftTan > 0.0
    ensures |ds| == 2 * blades
    ensures forall k :: 0 <= k < 2 * blades ==> ds[k] == ShutterDraw(size, density, angles, progress, blades, k)
  {
    seq(2 * blades, k requires 0 <= k < 2 * blades => ShutterDraw(size, density, angles, progress, blades, k))
  }

  /**
    * Each blade is drawn twice with the same placement and the same triangle:
    * first filled in grey, then outlined in black with a 2 dp stroke.
    */
  lemma BladeFillThenStroke(size: Size, density: real, angles: BladeAngles, progress: real, blades: nat, i: nat)
    requires angles.shiftTan > 0.0 && i < blades
    ensures var ds := ShutterDraws(size, density, angles, progress, blades);
      && ds[2 * i].style == Fill && ds[2 * i].color == BladeGrey
      && ds[2 * i + 1].style == Stroke(2.0 * density) && ds[2 * i + 1].color == Black
      && ds[2 * i].rotationDegrees == ds[2 * i + 1].rotationDegrees == BladeRotation(blades, i)
      && ds[2 * i].translation == ds[2 * i + 1].translation
      && ds[2 * i].path == ds[2 * i + 1].path
  {
  }

  /** `DrawScope.drawShutter`: one loop iteration per blade. */
  method DrawShutter(size: Size, density: real, angles: BladeAngles, progress: real, blades: nat)
    returns (draws: seq<PathDraw>)
    requires angles.shiftTan > 0.0
    ensures draws == ShutterDraws(size, density, angles, progress, blades)
  {
    var minDim := size.MinDimension();
    var bladePath := BladePath(minDim, angles.bladeTan);
    var strokeWidth := 2.0 * density;
    var center := size.Center();
    draws := [];
    if blades == 0 {
      return;
    }
    var step := 360.0 / blades as real;
    var dx := progress * minDim / angles.shiftTan;
    var dy := -progress * minDim;
    for i := 0 to blades
      invariant |draws| == 2 * i
      invariant forall k :: 0 <= k < 2 * i ==> draws[k] == ShutterDraw(size, density, angles, progress, blades, k)
    {
      var rotation := step * i as real + step * 0.25;
      draws := draws + [
        PathDraw(center, rotation, Offset(dx, dy), bladePath, BladeGrey, Fill),
        PathDraw(center, rotation, Offset(dx, dy), bladePath, Black, Stroke(strokeWidth))];
      assert (2 * i) / 2 == i && (2 * i + 1) / 2 == i;
    }
  }

  /**
    * The `CameraShutter` composable: fails like `require(bladeCount >= 4)`
    * with fewer than four blades, otherwise draws the shutter at `progress`
    * clamped to [0, 1].
    */
  method CameraShutter(bladeCount: int, progress: real, size: Size, density: real, angles: BladeAngles)
    returns (r: Result<seq<PathDraw>>)
    requires bladeCount >= MIN_BLADES ==> angles.shiftTan > 0.0
    ensures r.Failure? <==> bladeCount < MIN_BLADES
    ensures r.Failure? ==> r.error == IllegalArgumentException("bladeCount should be >= 4")
    ensures r.Success? ==> r.value == ShutterDraws(size, density, angles, CoerceIn01(progress), bladeCount)
  {
    if bladeCount < MIN_BLADES {
      return Failure(IllegalArgumentException("bladeCount should be >= 4"));
    }
    var draws := DrawShutter(size, density, angles, CoerceIn01(progress), bladeCount);
    return Success(draws);
  }

  /**
    * A closed shutter (progress at or below 0) leaves every blade at the
    * centre; a fully open one (progress at or above 1) pushes every blade up
    * by the whole minimum dimension.
    */
  lemma ShutterExtremes(size: Size, density: real, angles: BladeAngles, progress: real, blades: nat, k: nat)
    requires angles.shiftTan > 0.0 && k < 2 * blades
    ensures progress <= 0.0 ==>
      ShutterDraws(size, density, angles, CoerceIn01(progress), blades)[k].translation == Offset(0.0, 0.0)
    ensures progress >= 1.0 ==>
      ShutterDraws(size, density, angles, CoerceIn01(progress), blades)[k].translation
        == Offset(size.MinDimension() / angles.shiftTan, -size.MinDimension())
  {
  }
}
