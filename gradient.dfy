/**
  * `Gradient` (utils/Gradient.kt): a one-dimensional colour gradient over an
  * ordered, non-empty list of colour stops, sampled at a factor in [0, 1].
  *
  * The colour type `C` and the colour interpolation `lerp(a, b, t)` are
  * parameters: the model fixes only what the sampler does with its stops,
  * and assumes of `lerp` nothing but `lerp(a, b, 0) == a` where it says so.
  */
module ColorGradient {
  import opened Drawing

  /** The stop list, assigned once at construction and never changed. */
  datatype Gradient<C> = Gradient(stops: seq<C>)
  {
    /** The constructor's `require(inputColors.isNotEmpty())`. */
    predicate Valid() {
      |stops| > 0
    }
  }

  /** `Gradient(inputColors)`: fails with IllegalArgumentException on an empty list. */
  function NewGradient<C>(inputColors: seq<C>): (r: Result<Gradient<C>>)
    ensures r.Failure? <==> |inputColors| == 0
    ensures r.Failure? ==> r.error.IllegalArgumentException?
    ensures r.Success? ==> r.value.Valid() && r.value.stops == inputColors
  {
    if |inputColors| == 0 then Failure(IllegalArgumentException("Failed requirement."))
    else Success(Gradient(inputColors))
  }

  /** Scaling by a factor in [0, 1] stays between 0 and the scaled value. */
  lemma ScaleWithin(a: real, b: real)
    requires 0.0 <= a <= 1.0 && b >= 0.0
    ensures 0.0 <= a * b <= b
  {
    assert b - a * b == (1.0 - a) * b;
  }

  /** Where a factor falls among `size` stops: two neighbouring stops and the fraction between them. */
  datatype StopSample = StopSample(index: nat, next: nat, frac: real)

  /**
    * The index arithmetic of `colorAt`: clamp the factor, scale it to
    * `size - 1`, truncate to `index` (the scaled value is never negative, so
    * truncation is the floor), keep the remainder as `frac`, and take
    * `min(index + 1, lastIndex)` as the neighbour.
    */
  function Locate(size: nat, factor: real): (s: StopSample)
    requires size > 0
    ensures s.index < size && s.next < size
    ensures s.index <= s.next <= s.index + 1
    ensures 0.0 <= s.frac < 1.0
    ensures s.index as real + s.frac == CoerceIn01(factor) * (size - 1) as real
    ensures s.frac > 0.0 ==> s.next == s.index + 1
  {
    var clamped := CoerceIn01(factor);
    var scaled := clamped * (size - 1) as real;
    var last := (size - 1) as real;
    ScaleWithin(clamped, last);
    var index := scaled.Floor;
    var frac := scaled - index as real;
    var next := if index + 1 < size - 1 then index + 1 else size - 1;
    StopSample(index, next, frac)
  }

  /** `colorAt(factor)`: interpolate between the two stops the factor falls between. */
  function ColorAt<C>(g: Gradient<C>, lerp: (C, C, real) -> C, factor: real): C
    requires g.Valid()
  {
    var s := Locate(|g.stops|, factor);
    lerp(g.stops[s.index], g.stops[s.next], s.frac)
  }

  /** The one fact assumed of the colour interpolation: at 0 it gives its first argument. */
  ghost predicate LerpStartsAtFirst<C(!new)>(lerp: (C, C, real) -> C) {
    forall a, b :: lerp(a, b, 0.0) == a
  }

  /** Factors outside [0, 1] sample the gradient as the nearest end of that range. */
  lemma ColorAtClamps<C>(g: Gradient<C>, lerp: (C, C, real) -> C, factor: real)
    requires g.Valid()
    ensures factor <= 0.0 ==> ColorAt(g, lerp, factor) == ColorAt(g, lerp, 0.0)
    ensures factor >= 1.0 ==> ColorAt(g, lerp, factor) == ColorAt(g, lerp, 1.0)
  {}

  /** Every factor at or below 0 gives the first stop exactly. */
  lemma ColorAtStart<C(!new)>(g: Gradient<C>, lerp: (C, C, real) -> C, factor: real)
    requires g.Valid() && LerpStartsAtFirst(lerp)
    requires factor <= 0.0
    ensures ColorAt(g, lerp, factor) == g.stops[0]
  {
  }

  /** Every factor at or above 1 gives the last stop exactly: the index is the last one and the fraction 0. */
  lemma ColorAtEnd<C(!new)>(g: Gradient<C>, lerp: (C, C, real) -> C, factor: real)
    requires g.Valid() && LerpStartsAtFirst(lerp)
    requires factor >= 1.0
    ensures ColorAt(g, lerp, factor) == g.stops[|g.stops| - 1]
  {
  }

  /** The factor `k / (size - 1)` lands exactly on stop `k`. */
  lemma ColorAtStop<C(!new)>(g: Gradient<C>, lerp: (C, C, real) -> C, k: nat)
    requires g.Valid() && LerpStartsAtFirst(lerp)
    requires |g.stops| > 1 && k < |g.stops|
    ensures ColorAt(g, lerp, k as real / (|g.stops| - 1) as real) == g.stops[k]
  {
    var factor := k as real / (|g.stops| - 1) as real;
    assert factor * (|g.stops| - 1) as real == k as real;
    var s := Locate(|g.stops|, factor);
    assert s.index as real + s.frac == k as real;
    assert s.index == k && s.frac == 0.0;
  }

  /** A gradient with one stop is that colour everywhere. */
  lemma SingleStopIsConstant<C(!new)>(g: Gradient<C>, lerp: (C, C, real) -> C, factor: real)
    requires |g.stops| == 1 && LerpStartsAtFirst(lerp)
    ensures ColorAt(g, lerp, factor) == g.stops[0]
  {
  }

  /** Between two stops the factor is passed to `lerp` unchanged: 0.5 gives `lerp(c0, c1, 0.5)`. */
  lemma TwoStopsInterpolateByFactor<C>(c0: C, c1: C, lerp: (C, C, real) -> C, factor: real)
    requires 0.0 <= factor < 1.0
    ensures ColorAt(Gradient([c0, c1]), lerp, factor) == lerp(c0, c1, factor)
  {
  }
}
