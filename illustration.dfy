/**
  * The motion-blur illustration (composables/MotionBlurAnimatedIllustration.kt):
  * a scripted sequence of scenes that cycles forever, the rule deciding when
  * a scene is shown, and the frame buffer that accumulates one faint sample
  * of the moving circle per 1/60 s of the exposure window.
  */
module Illustration {
  import opened Drawing

  /** Radius of the moving circle, in dp. */
  const CIRCLE_RADIUS: int := 24
  /** Horizontal motion of the circle per unit of scene time, in dp. */
  const OFFSET_X: int := 32
  /** Vertical motion of the circle per unit of scene time, in dp. */
  const OFFSET_Y: int := -12
  /** Samples accumulated per unit of scene time. */
  const SAMPLING_RATE: real := 60.0

  // ---------------------------------------------------------------------
  // Scene descriptions
  // ---------------------------------------------------------------------

  datatype TransitionEffect = FadeIn | Nothing | FadeOut

  datatype ShutterState = Opened | Closed

  /** A window of scene time, animated linearly over `durationInMs`. */
  datatype MotionBlurTime = MotionBlurTime(startTime: real, endTime: real, durationInMs: int)

  datatype SceneContent =
    | Nothing
    | MotionBlurExplained(
        text: string,
        leftPanelTime: MotionBlurTime,
        rightPanelTime: MotionBlurTime,
        shutterState: ShutterState)
    | FinalResult(motionBlurTime: MotionBlurTime)

  datatype AnimationStep = AnimationStep(effect: TransitionEffect, content: SceneContent)

  /** One assignment of `step` in the script, followed by `delay(delayMs)`. */
  datatype ScriptEntry = ScriptEntry(step: AnimationStep, delayMs: nat)

  const WHOLE_SCENE: MotionBlurTime := MotionBlurTime(-8.0, 8.0, 16000)
  const EXPOSURE: MotionBlurTime := MotionBlurTime(-4.0, 4.0, 8000)
  const NO_EXPOSURE: MotionBlurTime := MotionBlurTime(-4.0, -4.0, 0)

  const TEXT_CLOSED: string := "The scene contains a moving circle. The frame-buffer shutter is closed."
  const TEXT_OPENED: string := "The circle keeps moving, and the shutter has just opened."
  const TEXT_ACCUMULATING: string := "The frame buffer keeps accumulating light from the scene."
  const TEXT_CLOSING: string := "The circle keeps moving, and the frame-buffer shutter closes."

  /** The step shown before the script's first assignment. */
  const INITIAL_STEP: AnimationStep := AnimationStep(TransitionEffect.Nothing, SceneContent.Nothing)

  /** The body of the script's endless loop, in order. */
  const SCRIPT: seq<ScriptEntry> := [
    ScriptEntry(AnimationStep(TransitionEffect.Nothing, SceneContent.Nothing), 500),
    ScriptEntry(AnimationStep(FadeIn,
      MotionBlurExplained(TEXT_CLOSED, WHOLE_SCENE, NO_EXPOSURE, Closed)), 4000),
    ScriptEntry(AnimationStep(TransitionEffect.Nothing,
      MotionBlurExplained(TEXT_OPENED, WHOLE_SCENE, EXPOSURE, Opened)), 4000),
    ScriptEntry(AnimationStep(TransitionEffect.Nothing,
      MotionBlurExplained(TEXT_ACCUMULATING, WHOLE_SCENE, EXPOSURE, Opened)), 4000),
    ScriptEntry(AnimationStep(TransitionEffect.Nothing,
      MotionBlurExplained(TEXT_CLOSING, WHOLE_SCENE, EXPOSURE, Closed)), 4000),
    ScriptEntry(AnimationStep(FadeOut,
      MotionBlurExplained(TEXT_CLOSING, WHOLE_SCENE, EXPOSURE, Closed)), 500),
    ScriptEntry(AnimationStep(FadeIn, FinalResult(EXPOSURE)), 8000),
    ScriptEntry(AnimationStep(FadeOut, FinalResult(EXPOSURE)), 500)
  ]

  /** Length of one pass of the script, in milliseconds. */
  const CYCLE_MS: nat := 25500

  /** `AnimationStepContent`: a step is shown unless it fades out or has nothing to show. */
  predicate Visible(step: AnimationStep) {
    step.effect != FadeOut && step.content != SceneContent.Nothing
  }

  /** What `RenderSceneContent` puts on screen for each kind of content. */
  datatype Rendering =
    | Blank
    | ExplainedPanels(text: string, scene: MotionBlurTime, frameBuffer: MotionBlurTime, shutter: ShutterState)
    | FinalAccumulation(startTime: real, targetTime: real)

  /** `RenderSceneContent`: the scene drawn for `content`. */
  function Render(content: SceneContent): (r: Rendering)
    ensures r.Blank? <==> content.Nothing?
    ensures content.MotionBlurExplained? ==>
      r == ExplainedPanels(content.text, content.leftPanelTime, content.rightPanelTime, content.shutterState)
    ensures content.FinalResult? ==>
      r == FinalAccumulation(content.motionBlurTime.startTime, content.motionBlurTime.endTime)
  {
    match content
    case Nothing => Blank
    case MotionBlurExplained(text, left, right, shutter) => ExplainedPanels(text, left, right, shutter)
    case FinalResult(time) => FinalAccumulation(time.startTime, time.endTime)
  }

  /** A step that is shown always draws something. */
  lemma VisibleStepsDrawSomething(step: AnimationStep)
    requires Visible(step)
    ensures !Render(step.content).Blank?
  {
  }

  /** `RightPanel`: the progress the shutter animates towards. */
  function ShutterTarget(state: ShutterState): (p: real)
    ensures p == 1.0 <==> state.Opened?
    ensures p == 0.0 <==> state.Closed?
  {
    if state.Opened? then 1.0 else 0.0
  }

  /** The shutter target is already a valid progress, so the shutter's clamp leaves it alone. */
  lemma ShutterTargetIsProgress(state: ShutterState)
    ensures CoerceIn01(ShutterTarget(state)) == ShutterTarget(state)
  {
  }

  // ---------------------------------------------------------------------
  // The script as a timeline
  // ---------------------------------------------------------------------

  /** The time, within one pass, at which entry `i` is assigned. */
  function StartOf(i: nat): (s: nat)
    requires i <= |SCRIPT|
    ensures i > 0 ==> s > StartOf(i - 1)
  {
    if i == 0 then 0 else StartOf(i - 1) + SCRIPT[i - 1].delayMs
  }

  /** The entry of the pass that is on screen `r` milliseconds into it. */
  function EntryAt(r: nat, from: nat): (e: nat)
    requires from < |SCRIPT| && StartOf(from) <= r < CYCLE_MS
    requires StartOf(|SCRIPT|) == CYCLE_MS
    ensures from <= e < |SCRIPT| && StartOf(e) <= r < StartOf(e + 1)
    decreases |SCRIPT| - from
  {
    if r < StartOf(from + 1) then from else EntryAt(r, from + 1)
  }

  /** One pass of the script, eight entries, lasts 25.5 s. */
  lemma PassLength()
    ensures |SCRIPT| == 8
    ensures StartOf(|SCRIPT|) == CYCLE_MS
  {
  }

  /**
    * The eight delays of a pass are 500, 4000, 4000, 4000, 4000, 500, 8000
    * and 500 ms (adding up to 25.5 s, as `PassLength` states), and a pass starts from the empty step.
    */
  lemma ScriptCycle()
    ensures SCRIPT[0].step == INITIAL_STEP
    ensures [SCRIPT[0].delayMs, SCRIPT[1].delayMs, SCRIPT[2].delayMs, SCRIPT[3].delayMs,
             SCRIPT[4].delayMs, SCRIPT[5].delayMs, SCRIPT[6].delayMs, SCRIPT[7].delayMs]
            == [500, 4000, 4000, 4000, 4000, 500, 8000, 500]
  {
  }

  /** Entry start times grow with the index. */
  lemma StartOfMonotonic(i: nat, j: nat)
    requires i <= j <= |SCRIPT|
    ensures StartOf(i) <= StartOf(j)
    decreases j - i
  {
  }

  /** The step on screen `t` milliseconds after the script starts. */
  function StepAt(t: nat): (s: AnimationStep)
    ensures exists e :: 0 <= e < |SCRIPT| && s == SCRIPT[e].step
  {
    PassLength();
    var e := EntryAt(t % CYCLE_MS, 0);
    SCRIPT[e].step
  }

  /** Within a pass, the timeline shows entry `e` exactly during its delay. */
  lemma {:induction false} StepAtWithinEntry(t: nat, e: nat)
    requires e < |SCRIPT|
    requires StartOf(e) <= t % CYCLE_MS < StartOf(e + 1)
    ensures StepAt(t) == SCRIPT[e].step
  {
    PassLength();
    var r := t % CYCLE_MS;
    var found := EntryAt(r, 0);
    if found < e {
      StartOfMonotonic(found + 1, e);
    } else if found > e {
      StartOfMonotonic(e + 1, found);
    }
  }

  /** After the last entry the script starts over: the timeline repeats every 25.5 s. */
  lemma StepAtPeriodic(t: nat)
    ensures StepAt(t + CYCLE_MS) == StepAt(t)
  {
    assert (t + CYCLE_MS) % CYCLE_MS == t % CYCLE_MS;
  }

  /** Only the entries that fade in or hold a scene are shown: entries 1 to 4 and entry 6. */
  lemma VisibleEntries()
    ensures forall i :: 0 <= i < |SCRIPT| ==> (Visible(SCRIPT[i].step) <==> i in {1, 2, 3, 4, 6})
  {
  }

  /** Every time window in the script runs at one unit of scene time per second. */
  predicate RealTime(time: MotionBlurTime) {
    (time.endTime - time.startTime) * 1000.0 == time.durationInMs as real
  }

  predicate ContentInRealTime(content: SceneContent) {
    match content
    case Nothing => true
    case MotionBlurExplained(_, left, right, _) => RealTime(left) && RealTime(right)
    case FinalResult(time) => RealTime(time)
  }

  lemma ScriptInRealTime()
    ensures forall i :: 0 <= i < |SCRIPT| ==> ContentInRealTime(SCRIPT[i].step.content)
  {
  }

  /** The state the script's coroutine updates: the step on screen and where it is in the script. */
  class ScriptPlayer {
    /** The step on screen. */
    var step: AnimationStep
    /** The entry the script assigns next. */
    var entry: nat
    /** Milliseconds spent in the script so far. */
    var elapsedMs: nat

    ghost predicate Valid()
      reads this
    {
      entry < |SCRIPT| && elapsedMs % CYCLE_MS == StartOf(entry)
    }

    /** `remember { mutableStateOf(AnimationStep(Nothing, Nothing)) }` */
    constructor ()
      ensures Valid()
      ensures step == INITIAL_STEP && entry == 0 && elapsedMs == 0
    {
      step := INITIAL_STEP;
      entry := 0;
      elapsedMs := 0;
    }

    /**
      * One `step = ...; delay(...)` of the script. During the delay the step
      * on screen is the one the timeline gives for that time.
      */
    method Advance()
      requires Valid()
      modifies this
      ensures Valid()
      ensures step == SCRIPT[old(entry)].step
      ensures elapsedMs == old(elapsedMs) + SCRIPT[old(entry)].delayMs
      ensures old(entry) + 1 < |SCRIPT| ==> entry == old(entry) + 1
      ensures old(entry) + 1 == |SCRIPT| ==> entry == 0
      ensures ShownThroughout(step, old(elapsedMs), elapsedMs)
    {
      var e := entry;
      EntryWindow(elapsedMs, e);
      step := SCRIPT[e].step;
      elapsedMs := elapsedMs + SCRIPT[e].delayMs;
      entry := if e + 1 < |SCRIPT| then e + 1 else 0;
    }

    /** One pass through the body of the script's `while (true)`. */
    method PlayCycle()
      requires Valid() && entry == 0
      modifies this
      ensures Valid() && entry == 0
      ensures step == SCRIPT[|SCRIPT| - 1].step
      ensures elapsedMs == old(elapsedMs) + CYCLE_MS
    {
      PassLength();
      var i := 0;
      while i < |SCRIPT|
        invariant 0 <= i <= |SCRIPT|
        invariant Valid()
        invariant entry == if i < |SCRIPT| then i else 0
        invariant elapsedMs == old(elapsedMs) + StartOf(i)
        invariant i > 0 ==> step == SCRIPT[i - 1].step
        decreases |SCRIPT| - i
      {
        ghost var before := elapsedMs;
        Advance();
        assert elapsedMs == before + SCRIPT[i].delayMs;
        i := i + 1;
      }
    }
  }

  /** The timeline shows `step` at every instant of `[from, to)`. */
  ghost predicate ShownThroughout(step: AnimationStep, from: nat, to: nat) {
    forall t :: from <= t < to ==> StepAt(t) == step
  }

  /**
    * If `start` begins entry `e` of a pass, the timeline shows that entry
    * until its delay is over, and the next entry begins then.
    */
  lemma EntryWindow(start: nat, e: nat)
    requires e < |SCRIPT|
    requires start % CYCLE_MS == StartOf(e)
    ensures ShownThroughout(SCRIPT[e].step, start, start + SCRIPT[e].delayMs)
    ensures e + 1 < |SCRIPT| ==> (start + SCRIPT[e].delayMs) % CYCLE_MS == StartOf(e + 1)
    ensures e + 1 == |SCRIPT| ==> (start + SCRIPT[e].delayMs) % CYCLE_MS == 0
  {
    PassLength();
    forall t | start <= t < start + SCRIPT[e].delayMs
      ensures StepAt(t) == SCRIPT[e].step
    {
      WithinPass(start, t, e);
      StepAtWithinEntry(t, e);
    }
    WithinPass(start, start + SCRIPT[e].delayMs, e);
  }

  /**
    * If `start` begins entry `e` of a pass, every instant `t` up to the end
    * of that entry's delay sits at offset `t - start` into the entry.
    */
  lemma WithinPass(start: nat, t: nat, e: nat)
    requires e < |SCRIPT| && StartOf(|SCRIPT|) == CYCLE_MS
    requires start % CYCLE_MS == StartOf(e)
    requires start <= t <= start + SCRIPT[e].delayMs
    ensures t < start + SCRIPT[e].delayMs ==> t % CYCLE_MS == StartOf(e) + (t - start)
    ensures t == start + SCRIPT[e].delayMs ==> t % CYCLE_MS == StartOf(e + 1) % CYCLE_MS
  {
    StartOfMonotonic(e + 1, |SCRIPT|);
    var q := start / CYCLE_MS;
    assert start == q * CYCLE_MS + StartOf(e);
    var off := StartOf(e) + (t - start);
    assert t == q * CYCLE_MS + off;
    assert off <= StartOf(e + 1) <= CYCLE_MS;
    if off < CYCLE_MS {
      assert t % CYCLE_MS == off;
    } else {
      assert t == (q + 1) * CYCLE_MS;
    }
  }

  // ---------------------------------------------------------------------
  // The frame buffer
  // ---------------------------------------------------------------------

  /** One `drawCircle` call of the frame buffer, in pixels; the colour is red. */
  datatype CircleDraw = CircleDraw(alpha: real, radius: real, center: Offset)

  /** The scene time of the `k`-th sample. */
  function SampleTime(startTime: real, k: nat): (t: real)
    ensures t >= startTime
  {
    startTime + k as real / SAMPLING_RATE
  }

  /** The smallest integer at or above `x`. */
  function Ceil(x: real): (c: int)
    ensures (c - 1) as real < x <= c as real
  {
    -((-x).Floor)
  }

  /**
    * How many samples the frame buffer holds for a window: 60 per unit of
    * scene time, counting a partial last step, and none for an empty window.
    */
  function SampleCount(startTime: real, targetTime: real): (n: nat)
    ensures startTime >= targetTime ==> n == 0
    ensures startTime < targetTime ==> n >= 1
  {
    if startTime < targetTime then Ceil(SAMPLING_RATE * (targetTime - startTime)) else 0
  }

  /** The sample count is exactly the number of sample times before the target. */
  lemma SampleCountExact(startTime: real, targetTime: real, k: nat)
    ensures k < SampleCount(startTime, targetTime) <==> SampleTime(startTime, k) < targetTime
  {
  }

  /** Where the scene's circle is at scene time `t`, on a canvas centred at `center`. */
  function CirclePosition(center: Offset, density: real, t: real): (p: Offset)
    ensures p.x - center.x == t * OFFSET_X as real * density
    ensures p.y - center.y == t * OFFSET_Y as real * density
  {
    center.Plus(Offset(t * (OFFSET_X as real * density), t * (OFFSET_Y as real * density)))
  }

  /** The `k`-th sample: the circle where it is at that sample's time, at 1/60 opacity. */
  function Sample(center: Offset, density: real, startTime: real, k: nat): CircleDraw {
    CircleDraw(1.0 / SAMPLING_RATE, CIRCLE_RADIUS as real * density,
      CirclePosition(center, density, SampleTime(startTime, k)))
  }

  /** Everything the frame buffer records for the window `[startTime, targetTime)`. */
  function Samples(center: Offset, density: real, startTime: real, targetTime: real): (s: seq<CircleDraw>)
    ensures |s| == SampleCount(startTime, targetTime)
    ensures forall k :: 0 <= k < |s| ==> s[k] == Sample(center, density, startTime, k)
  {
    seq(SampleCount(startTime, targetTime), k requires k >= 0 => Sample(center, density, startTime, k))
  }

  /**
    * `BlurredSceneAccumulation`: records one faint circle per 1/60 of scene
    * time, from `startTime` while the sample time is before `targetTime`.
    */
  method BlurredSceneAccumulation(center: Offset, density: real, startTime: real, targetTime: real)
    returns (draws: seq<CircleDraw>)
    ensures draws == Samples(center, density, startTime, targetTime)
  {
    var radius := CIRCLE_RADIUS as real * density;
    var offsetX := OFFSET_X as real * density;
    var offsetY := OFFSET_Y as real * density;
    draws := [];
    var curTime := startTime;
    ghost var k: nat := 0;
    while curTime < targetTime
      invariant curTime == SampleTime(startTime, k)
      invariant k <= SampleCount(startTime, targetTime)
      invariant |draws| == k
      invariant forall j :: 0 <= j < k ==> draws[j] == Sample(center, density, startTime, j)
      decreases SampleCount(startTime, targetTime) - k
    {
      SampleCountExact(startTime, targetTime, k);
      draws := draws + [CircleDraw(1.0 / SAMPLING_RATE, radius, center.Plus(Offset(curTime * offsetX, curTime * offsetY)))];
      curTime := curTime + 1.0 / SAMPLING_RATE;
      k := k + 1;
    }
    SampleCountExact(startTime, targetTime, k);
  }

  /** Sample times step forward by 1/60 and stay within `[startTime, targetTime)`. */
  lemma SampleTimesInWindow(startTime: real, targetTime: real, j: nat, k: nat)
    requires j < k < SampleCount(startTime, targetTime)
    ensures startTime <= SampleTime(startTime, j) < SampleTime(startTime, k) < targetTime
  {
  }

  /**
    * The accumulated opacity is the window length rounded up to the next
    * 1/60: at least the window, and less than one sample more.
    */
  lemma TotalExposure(startTime: real, targetTime: real)
    requires startTime < targetTime
    ensures var total := SampleCount(startTime, targetTime) as real / SAMPLING_RATE;
      targetTime - startTime <= total < targetTime - startTime + 1.0 / SAMPLING_RATE
  {
  }

  /**
    * In the script: the closed shutter of the first explained scene leaves
    * the frame buffer empty, an eight-second exposure holds 480 samples, and
    * one unit of scene time holds 60.
    */
  lemma ScriptSampleCounts()
    ensures SampleCount(NO_EXPOSURE.startTime, NO_EXPOSURE.endTime) == 0
    ensures SampleCount(EXPOSURE.startTime, EXPOSURE.endTime) == 480
    ensures SampleCount(0.0, 1.0) == 60
    ensures SCRIPT[1].step.content.rightPanelTime == NO_EXPOSURE
    ensures SCRIPT[6].step.content == FinalResult(EXPOSURE)
  {
  }

  /** The samples of a window are the circle of the scene panel frozen at each sample time. */
  lemma SamplesFollowTheScene(center: Offset, density: real, startTime: real, targetTime: real, k: nat)
    requires k < SampleCount(startTime, targetTime)
    ensures var s := Samples(center, density, startTime, targetTime)[k];
      && s.center == CirclePosition(center, density, SampleTime(startTime, k))
      && s.alpha * SAMPLING_RATE == 1.0
      && s.radius == 24.0 * density
      && 12.0 * (s.center.x - center.x) + 32.0 * (s.center.y - center.y) == 0.0
  {
  }
}
