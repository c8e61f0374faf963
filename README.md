# Motion-blur materials: the drawing core in Dafny

This project models the deterministic core of a Compose Multiplatform demo. The demo shows how motion blur comes from adding up time samples while a camera shutter is open. The model covers these parts:

- **`PseudoRandom`** (`utils/PseudoRandom.kt`): `randomFloatFromSeed`, a SplitMix64-style mixer. It adds a constant to the seed, applies three xor-shifts, does a wrapping multiply and keeps the top 53 bits. Unsigned 64-bit arithmetic is modelled on naturals below 2^64, with the reductions modulo 2^64 written out.
- **`ColorGradient`** (`utils/Gradient.kt`): the gradient's non-empty precondition, and the index arithmetic and interpolation of `colorAt`. The colour type and `lerp` are parameters.
- **`Illustration`** (`composables/MotionBlurAnimatedIllustration.kt`):
  - the scene datatypes;
  - the eight-step script, as a timeline and as a player class whose methods advance it;
  - the visibility rule, the content dispatch and the shutter target;
  - the frame-buffer accumulation loop `BlurredSceneAccumulation`.
- **`Shutter`** (`composables/CameraShutter.kt`): the `bladeCount >= 4` requirement, the progress clamp, and the blade layout loop of `drawShutter`.
- **`FrameClock`** (`composables/FrameTime.kt`): `FrameTime` and the per-frame tick of `rememberFrameTimeState`. This is a class over integer nanoseconds.
- **`Orbit`** (`composables/SimpleAnimation.kt`): the phase table `getOffset`, the orbit radius, the 16-circle drawing loop with its gradient factors, and the bound on `getPosition`.
- **`Drawing`**: shared value types (`Offset`, `Size`, `Result`) and the `coerceIn`/`coerceAtLeast` clamps.

All source paths below are relative to the repository root. Floating-point values are exact reals, except for the one `Float` rounding that is reported under Findings. `tan`, `cos` and `sin` are inputs. Colour interpolation is a function parameter, and the only thing assumed about it is `lerp(a, b, 0) == a`.

## Model

| member | source | states |
|---|---|---|
| PseudoRandom.ToULong | composeApp/src/commonMain/kotlin/dev/mmartos/effects/motion_blur_materials/utils/PseudoRandom.kt:19 | A negative seed is read as seed + 2^64 (two's complement). A non-negative seed is unchanged. The top bit is set exactly for negative seeds. |
| PseudoRandom.Mix | composeApp/src/commonMain/kotlin/dev/mmartos/effects/motion_blur_materials/utils/PseudoRandom.kt:19-23 | No contract of its own beyond the 64-bit result type. Its properties are `XorBelow` (every xor-shift stays below 2^64) and `Bits53`. |
| PseudoRandom.XorBelow | composeApp/src/commonMain/kotlin/dev/mmartos/effects/motion_blur_materials/utils/PseudoRandom.kt:20-22 | The xor of two values below 2^k is below 2^k, so every xor-shift stays a 64-bit value. |
| PseudoRandom.Bits53 | composeApp/src/commonMain/kotlin/dev/mmartos/effects/motion_blur_materials/utils/PseudoRandom.kt:19-24 | `z shr 11` of the mixed state is always below 2^53. |
| PseudoRandom.RandomFromSeed | composeApp/src/commonMain/kotlin/dev/mmartos/effects/motion_blur_materials/utils/PseudoRandom.kt:16-25 | The exact value bits53 / 2^53 lies in [0, 1), the promised range, and is a multiple of 2^-53. It is a function of the seed alone. |
| PseudoRandom.RoundToFloat | composeApp/src/commonMain/kotlin/dev/mmartos/effects/motion_blur_materials/utils/PseudoRandom.kt:25 | `toFloat` on a natural: the result is a whole number of ulps of a 24-bit significand, within half an ulp of the input. On a tie the number of ulps is even. |
| PseudoRandom.FloatResultRoundsUpToOne | composeApp/src/commonMain/kotlin/dev/mmartos/effects/motion_blur_materials/utils/PseudoRandom.kt:25 | Every seed whose bits53 is at least 2^53 - 2^28 makes the source's `Float` result exactly 1.0. |
| PseudoRandom.RandomFloatFromSeed | composeApp/src/commonMain/kotlin/dev/mmartos/effects/motion_blur_materials/utils/PseudoRandom.kt:18-26 | No contract of its own. This is the function as written, and `FloatResultRange` and `FloatResultRoundsUpToOne` state its properties. |
| PseudoRandom.FloatResultRange | composeApp/src/commonMain/kotlin/dev/mmartos/effects/motion_blur_materials/utils/PseudoRandom.kt:16-25 | The source's result lies in [0, 1]. It is exactly 1.0 when bits53 is at least 2^53 - 2^28, and otherwise lies in the promised [0, 1). |
| Drawing.CoerceIn01 | composeApp/src/commonMain/kotlin/dev/mmartos/effects/motion_blur_materials/utils/Gradient.kt:42 | The clamp lands in [0, 1]. It is the identity inside [0, 1], gives 0 at or below 0, and gives 1 at or above 1. |
| ColorGradient.NewGradient | composeApp/src/commonMain/kotlin/dev/mmartos/effects/motion_blur_materials/utils/Gradient.kt:28-31 | Construction fails with IllegalArgumentException exactly when the list is empty. Otherwise the stops are the input list, unchanged. |
| ColorGradient.Locate | composeApp/src/commonMain/kotlin/dev/mmartos/effects/motion_blur_materials/utils/Gradient.kt:42-49 | Both indices are in bounds, and the neighbour is `index` or `index + 1`. `frac` is in [0, 1), and `index + frac` is the clamped factor times `size - 1`. A positive `frac` always has a real next stop. |
| ColorGradient.ColorAt | composeApp/src/commonMain/kotlin/dev/mmartos/effects/motion_blur_materials/utils/Gradient.kt:41-52 | No contract of its own: it is `lerp` of the two stops and the fraction that `Locate` bounds. Its properties are `ColorAtClamps`, `ColorAtStart`, `ColorAtEnd`, `ColorAtStop`, `SingleStopIsConstant` and `TwoStopsInterpolateByFactor`. |
| ColorGradient.ColorAtClamps | composeApp/src/commonMain/kotlin/dev/mmartos/effects/motion_blur_materials/utils/Gradient.kt:36-42 | Any factor at or below 0 samples like 0, and any factor at or above 1 samples like 1. |
| ColorGradient.ColorAtStart | composeApp/src/commonMain/kotlin/dev/mmartos/effects/motion_blur_materials/utils/Gradient.kt:9-10 | With `lerp(a, b, 0) == a`, a factor at or below 0 gives the first stop exactly. |
| ColorGradient.ColorAtEnd | composeApp/src/commonMain/kotlin/dev/mmartos/effects/motion_blur_materials/utils/Gradient.kt:9-10 | With `lerp(a, b, 0) == a`, a factor at or above 1 gives the last stop exactly. |
| ColorGradient.ColorAtStop | composeApp/src/commonMain/kotlin/dev/mmartos/effects/motion_blur_materials/utils/Gradient.kt:41-51 | With `lerp(a, b, 0) == a`, the factor k / (n - 1) gives stop k exactly. |
| ColorGradient.SingleStopIsConstant | composeApp/src/commonMain/kotlin/dev/mmartos/effects/motion_blur_materials/utils/Gradient.kt:44-51 | A one-stop gradient returns that stop for every factor. |
| ColorGradient.TwoStopsInterpolateByFactor | composeApp/src/commonMain/kotlin/dev/mmartos/effects/motion_blur_materials/utils/Gradient.kt:11 | For two stops and a factor in [0, 1), the result is `lerp(c0, c1, factor)`. |
| FrameClock.DeltaNanos | composeApp/src/commonMain/kotlin/dev/mmartos/effects/motion_blur_materials/composables/FrameTime.kt:48 | The raw delta is at least 1 ns. It is `now - last` when time moved forward, and 1 otherwise. |
| FrameClock.NextFrame | composeApp/src/commonMain/kotlin/dev/mmartos/effects/motion_blur_materials/composables/FrameTime.kt:47-49 | `t = now / 1e9` whatever the previous state. `dt` is at least 1 ns. The first frame reports 1 ns, and a later forward step reports `(now - last) / 1e9`. |
| FrameClock.Clock.constructor | composeApp/src/commonMain/kotlin/dev/mmartos/effects/motion_blur_materials/composables/FrameTime.kt:41-44 | Before any frame, `t = 0`, `dt = initialDt` (default 1/60) and `last = 0`. |
| FrameClock.Clock.Tick | composeApp/src/commonMain/kotlin/dev/mmartos/effects/motion_blur_materials/composables/FrameTime.kt:46-51 | The published value is `NextFrame(old last, now)`, and afterwards `last == now`. |
| FrameClock.Clock.Run | composeApp/src/commonMain/kotlin/dev/mmartos/effects/motion_blur_materials/composables/FrameTime.kt:45-52 | Ticking through a run of timestamps publishes exactly `Frames(old last, nows)`. It leaves `last` at the final timestamp and `value` at the final frame. |
| FrameClock.Frames | composeApp/src/commonMain/kotlin/dev/mmartos/effects/motion_blur_materials/composables/FrameTime.kt:45-52 | The reference function for `Run`'s loop: one frame per timestamp. |
| FrameClock.FramesAreTicks | composeApp/src/commonMain/kotlin/dev/mmartos/effects/motion_blur_materials/composables/FrameTime.kt:46-51 | Frame i is the tick at `nows[i]` measured from the timestamp before it, or from `last` for the first frame. Its time is `nows[i]` in seconds and its delta is at least 1 ns. |
| FrameClock.DeltasTelescope | composeApp/src/commonMain/kotlin/dev/mmartos/effects/motion_blur_materials/composables/FrameTime.kt:48 | For increasing timestamps after a frame at `last`, the published deltas add up to the elapsed time. |
| FrameClock.FrameDeltasSumToElapsedTime | composeApp/src/commonMain/kotlin/dev/mmartos/effects/motion_blur_materials/composables/FrameTime.kt:47-50 | From a fresh clock, the deltas of increasing frames add up to the span from the first frame to the last, plus the 1 ns of the first frame. |
| Shutter.BladePath | composeApp/src/commonMain/kotlin/dev/mmartos/effects/motion_blur_materials/composables/CameraShutter.kt:72-77 | The blade is a triangle with a corner at the origin and one on the x axis at minDim. Its third corner is above that one with slope bladeTan, so the wedge opens by the blade angle. |
| Shutter.Step | composeApp/src/commonMain/kotlin/dev/mmartos/effects/motion_blur_materials/composables/CameraShutter.kt:82 | The step is positive, and `blades` steps make a full turn. |
| Shutter.BladeRotation | composeApp/src/commonMain/kotlin/dev/mmartos/effects/motion_blur_materials/composables/CameraShutter.kt:87 | Every blade angle `step·i + step/4` lies in (0, 360). |
| Shutter.BladesEvenlySpaced | composeApp/src/commonMain/kotlin/dev/mmartos/effects/motion_blur_materials/composables/CameraShutter.kt:82-87 | Neighbouring blades are exactly 360 / blades degrees apart. |
| Shutter.Translation | composeApp/src/commonMain/kotlin/dev/mmartos/effects/motion_blur_materials/composables/CameraShutter.kt:83-84 | Progress 0 gives no shift, and `dx · shiftTan == -dy`. For progress in [0, 1], `dx >= 0` and `dy` is in [-minDim, 0]. |
| Shutter.ShutterDraws | composeApp/src/commonMain/kotlin/dev/mmartos/effects/motion_blur_materials/composables/CameraShutter.kt:86-101 | There are exactly 2·blades draw calls, and call k draws blade k / 2. |
| Shutter.BladeFillThenStroke | composeApp/src/commonMain/kotlin/dev/mmartos/effects/motion_blur_materials/composables/CameraShutter.kt:86-98 | Each blade is drawn as a grey fill and then a black 2 dp stroke. Both use the same path, rotation and translation. |
| Shutter.DrawShutter | composeApp/src/commonMain/kotlin/dev/mmartos/effects/motion_blur_materials/composables/CameraShutter.kt:64-103 | The blade loop emits exactly `ShutterDraws`. |
| Shutter.CameraShutter | composeApp/src/commonMain/kotlin/dev/mmartos/effects/motion_blur_materials/composables/CameraShutter.kt:36-52 | It fails with IllegalArgumentException exactly when bladeCount < 4. Otherwise it draws the shutter at the progress clamped to [0, 1]. |
| Shutter.ShutterExtremes | composeApp/src/commonMain/kotlin/dev/mmartos/effects/motion_blur_materials/composables/CameraShutter.kt:28-30 | Progress at or below 0 leaves every blade unshifted (closed). Progress at or above 1 shifts every blade by the full minimum dimension (open). |
| Illustration.Render | composeApp/src/commonMain/kotlin/dev/mmartos/effects/motion_blur_materials/composables/MotionBlurAnimatedIllustration.kt:266-270 | Nothing renders as blank. An explained scene renders its two panels, and a final result renders the accumulation over its time window. |
| Illustration.Visible | composeApp/src/commonMain/kotlin/dev/mmartos/effects/motion_blur_materials/composables/MotionBlurAnimatedIllustration.kt:246 | No contract of its own. `VisibleEntries` states which script entries it selects, and `VisibleStepsDrawSomething` states that it never selects a blank rendering. |
| Illustration.VisibleStepsDrawSomething | composeApp/src/commonMain/kotlin/dev/mmartos/effects/motion_blur_materials/composables/MotionBlurAnimatedIllustration.kt:246-257 | A visible step always renders something. |
| Illustration.ShutterTarget | composeApp/src/commonMain/kotlin/dev/mmartos/effects/motion_blur_materials/composables/MotionBlurAnimatedIllustration.kt:408-410 | The target progress is 1 exactly when the shutter is Opened, and 0 exactly when it is Closed. |
| Illustration.ShutterTargetIsProgress | composeApp/src/commonMain/kotlin/dev/mmartos/effects/motion_blur_materials/composables/MotionBlurAnimatedIllustration.kt:409 | The target is already a valid progress, so the shutter's clamp leaves it unchanged. |
| Illustration.StartOf | composeApp/src/commonMain/kotlin/dev/mmartos/effects/motion_blur_materials/composables/MotionBlurAnimatedIllustration.kt:72-198 | Entry start times within a pass strictly increase. |
| Illustration.EntryAt | composeApp/src/commonMain/kotlin/dev/mmartos/effects/motion_blur_materials/composables/MotionBlurAnimatedIllustration.kt:72-198 | It finds the entry whose delay window contains a given time of the pass. |
| Illustration.PassLength | composeApp/src/commonMain/kotlin/dev/mmartos/effects/motion_blur_materials/composables/MotionBlurAnimatedIllustration.kt:72-198 | A pass has eight entries and lasts 25 500 ms. |
| Illustration.ScriptCycle | composeApp/src/commonMain/kotlin/dev/mmartos/effects/motion_blur_materials/composables/MotionBlurAnimatedIllustration.kt:73-197 | The delays are 500, 4000, 4000, 4000, 4000, 500, 8000 and 500 ms, and the pass starts from the empty step. |
| Illustration.StepAt | composeApp/src/commonMain/kotlin/dev/mmartos/effects/motion_blur_materials/composables/MotionBlurAnimatedIllustration.kt:72-198 | The step on screen at any time is one of the script's entries. |
| Illustration.StepAtWithinEntry | composeApp/src/commonMain/kotlin/dev/mmartos/effects/motion_blur_materials/composables/MotionBlurAnimatedIllustration.kt:72-198 | During the delay of entry e, the timeline shows entry e. |
| Illustration.StepAtPeriodic | composeApp/src/commonMain/kotlin/dev/mmartos/effects/motion_blur_materials/composables/MotionBlurAnimatedIllustration.kt:73 | The timeline repeats every 25.5 s. |
| Illustration.EntryWindow | composeApp/src/commonMain/kotlin/dev/mmartos/effects/motion_blur_materials/composables/MotionBlurAnimatedIllustration.kt:72-198 | If entry e starts at time `start`, the timeline shows it until its delay ends. That end time is where the next entry starts within the pass. |
| Illustration.VisibleEntries | composeApp/src/commonMain/kotlin/dev/mmartos/effects/motion_blur_materials/composables/MotionBlurAnimatedIllustration.kt:246 | A step is visible when its effect is not FadeOut and its content is not Nothing. Of the script's entries, that is exactly entries 1 to 4 and entry 6. |
| Illustration.ScriptInRealTime | composeApp/src/commonMain/kotlin/dev/mmartos/effects/motion_blur_materials/composables/MotionBlurAnimatedIllustration.kt:84-93 | Every time window in the script satisfies (end - start)·1000 == durationInMs. |
| Illustration.ScriptPlayer.constructor | composeApp/src/commonMain/kotlin/dev/mmartos/effects/motion_blur_materials/composables/MotionBlurAnimatedIllustration.kt:63-70 | The player starts at the empty step, before the first entry. |
| Illustration.ScriptPlayer.Advance | composeApp/src/commonMain/kotlin/dev/mmartos/effects/motion_blur_materials/composables/MotionBlurAnimatedIllustration.kt:74-78 | One assignment and delay: the step becomes the entry's step and time advances by its delay. The entry index moves on, wrapping after the last. Throughout the delay the timeline shows the new step. |
| Illustration.ScriptPlayer.PlayCycle | composeApp/src/commonMain/kotlin/dev/mmartos/effects/motion_blur_materials/composables/MotionBlurAnimatedIllustration.kt:73-198 | One pass of the loop takes 25 500 ms. It ends on the last entry's step, ready to start again from entry 0. |
| Illustration.SampleTime | composeApp/src/commonMain/kotlin/dev/mmartos/effects/motion_blur_materials/composables/MotionBlurAnimatedIllustration.kt:460-467 | No sample time is earlier than the window start. |
| Illustration.SampleCount | composeApp/src/commonMain/kotlin/dev/mmartos/effects/motion_blur_materials/composables/MotionBlurAnimatedIllustration.kt:460-461 | An empty window (start >= target) holds no samples, and a non-empty one holds at least one. |
| Illustration.SampleCountExact | composeApp/src/commonMain/kotlin/dev/mmartos/effects/motion_blur_materials/composables/MotionBlurAnimatedIllustration.kt:461-467 | k is below the sample count exactly when `start + k/60 < target`: the count is ceil(60·(target - start)). |
| Illustration.CirclePosition | composeApp/src/commonMain/kotlin/dev/mmartos/effects/motion_blur_materials/composables/MotionBlurAnimatedIllustration.kt:395 | At time t the circle is displaced from the centre by t·(32 dp, -12 dp). |
| Illustration.Samples | composeApp/src/commonMain/kotlin/dev/mmartos/effects/motion_blur_materials/composables/MotionBlurAnimatedIllustration.kt:459-469 | The buffer holds `SampleCount` samples, and sample k is the circle at time start + k/60. |
| Illustration.BlurredSceneAccumulation | composeApp/src/commonMain/kotlin/dev/mmartos/effects/motion_blur_materials/composables/MotionBlurAnimatedIllustration.kt:449-472 | The `while (curTime < targetTime)` loop records exactly `Samples(start, target)`. |
| Illustration.SampleTimesInWindow | composeApp/src/commonMain/kotlin/dev/mmartos/effects/motion_blur_materials/composables/MotionBlurAnimatedIllustration.kt:460-467 | Sample times strictly increase and stay within [start, target). |
| Illustration.TotalExposure | composeApp/src/commonMain/kotlin/dev/mmartos/effects/motion_blur_materials/composables/MotionBlurAnimatedIllustration.kt:463-467 | The summed alpha n/60 is at least the window length and less than one sample more. |
| Illustration.ScriptSampleCounts | composeApp/src/commonMain/kotlin/dev/mmartos/effects/motion_blur_materials/composables/MotionBlurAnimatedIllustration.kt:89-93 | The first explained scene's frame buffer (-4 to -4) is empty. The -4 to 4 exposure holds 480 samples, and a window of length 1 holds 60. |
| Illustration.SamplesFollowTheScene | composeApp/src/commonMain/kotlin/dev/mmartos/effects/motion_blur_materials/composables/MotionBlurAnimatedIllustration.kt:462-466 | Each sample is the scene's circle at its sample time, with alpha 1/60 and radius 24 dp, on the line of motion (32, -12). |
| Orbit.OrbitGradientValid | composeApp/src/commonMain/kotlin/dev/mmartos/effects/motion_blur_materials/composables/SimpleAnimation.kt:39-50 | The six-colour orbit gradient is constructed without failing. |
| Orbit.SeedOf | composeApp/src/commonMain/kotlin/dev/mmartos/effects/motion_blur_materials/composables/SimpleAnimation.kt:84-89 | `idx + nL` is exact in 64 bits for any `Int` index. |
| Orbit.Blend | composeApp/src/commonMain/kotlin/dev/mmartos/effects/motion_blur_materials/composables/SimpleAnimation.kt:84-89 | The weights 0.5, 0.33 and 0.17 sum to 1, so three values in [0, 1) blend to a value in [0, 1). |
| Orbit.GetOffset | composeApp/src/commonMain/kotlin/dev/mmartos/effects/motion_blur_materials/composables/SimpleAnimation.kt:82-90 | Both phases of a circle lie in [0, TAU). |
| Orbit.PhasesShareSeeds | composeApp/src/commonMain/kotlin/dev/mmartos/effects/motion_blur_materials/composables/SimpleAnimation.kt:82-90 | The y phase of circle i uses the same seeds as the x phase of circle i + 1. |
| Orbit.Offsets | composeApp/src/commonMain/kotlin/dev/mmartos/effects/motion_blur_materials/composables/SimpleAnimation.kt:51 | The table has exactly 16 entries, and entry i is `getOffset(i)`. |
| Orbit.OrbitRadius | composeApp/src/commonMain/kotlin/dev/mmartos/effects/motion_blur_materials/composables/SimpleAnimation.kt:58 | The radius is never negative. It is 0.5·minDimension - 16 dp, or 0 when that is negative. |
| Drawing.Size.MinDimension | composeApp/src/commonMain/kotlin/dev/mmartos/effects/motion_blur_materials/composables/SimpleAnimation.kt:58 | `size.minDimension` is the smaller of the magnitudes of width and height, so it is never negative. |
| Orbit.GetPosition | composeApp/src/commonMain/kotlin/dev/mmartos/effects/motion_blur_materials/composables/SimpleAnimation.kt:104-108 | No contract of its own. `PositionBound` and `DotsStayOnOrbit` bound it. |
| Orbit.PositionBound | composeApp/src/commonMain/kotlin/dev/mmartos/effects/motion_blur_materials/composables/SimpleAnimation.kt:104-108 | With cos and sin in [-1, 1], each coordinate is at most 0.9·orbitRadius in magnitude. |
| Orbit.Factor | composeApp/src/commonMain/kotlin/dev/mmartos/effects/motion_blur_materials/composables/SimpleAnimation.kt:62 | The gradient factor i/16 lies in [0, 15/16]. |
| Orbit.OrbitDots | composeApp/src/commonMain/kotlin/dev/mmartos/effects/motion_blur_materials/composables/SimpleAnimation.kt:60-69 | A frame draws exactly 16 dots, and dot i is circle i. |
| Orbit.DrawOrbit | composeApp/src/commonMain/kotlin/dev/mmartos/effects/motion_blur_materials/composables/SimpleAnimation.kt:53-70 | The canvas loop draws exactly `OrbitDots`. |
| Orbit.OrbitColors | composeApp/src/commonMain/kotlin/dev/mmartos/effects/motion_blur_materials/composables/SimpleAnimation.kt:61-64 | Dot i has the gradient colour at i/16, which is below 1. Dot 0 has the first stop. |
| Orbit.DotsStayOnOrbit | composeApp/src/commonMain/kotlin/dev/mmartos/effects/motion_blur_materials/composables/SimpleAnimation.kt:56-66 | Every dot has radius 16 dp and stays within 0.9 orbit radii of the canvas centre on each axis. |

## Left out

- Float arithmetic: every `Float` in the core is an exact real. Only the final conversion in `randomFloatFromSeed` is modelled with rounding, as a finding. `curTime` drift in the accumulation loop is not modelled; the count is exact. Float truncation in `colorAt` and rounding of the phase sums and the constant TAU are not modelled either (TAU is the exact value of the Float nearest 2π).
- PseudoRandom.Mix: the mixer itself has no contract of its own. Its facts are the 64-bit bound on every step (`XorBelow`, the `ULong` type) and the bound on `Bits53`.
- PseudoRandom.FloatResultRoundsUpToOne: it is stated for every seed whose bits53 lies in the rounding range. The model does not evaluate the mixer on a concrete seed, so the seed named under Findings is not derived in Dafny.
- Orbit.GetOffset: it uses the exact mixer value, `RandomFromSeed`. The source uses the `Float` value, which can be 1.0, so with the source's value a phase could reach TAU.
- ColorGradient.ColorAt: the colour interpolation `lerp` and the `Color` type are parameters. Channel-wise interpolation, and continuity at interior stops (which needs `lerp(a, b, 1) == b`), are not stated.
- Trigonometry: `tan` in `drawShutter` enters as the two tangents of `BladeAngles`. `shiftTan > 0` is required for four or more blades, since `tan(π/2 - π/n) >= 1` there. `cos`/`sin` in `getPosition` are function parameters assumed to lie in [-1, 1].
- Compose runtime and graphics:
  - `Animatable` tweens (the left panel's scene time and the right panel's animated target time in `BlurredSceneAnimated`), and `AnimatedVisibility`/`AnimatedContent` transitions, are not modelled;
  - `LaunchedEffect`, `produceState`, `withFrameNanos`, coroutine `delay` and `isActive` are not modelled: the caller drives `Tick`/`Run` and `Advance`/`PlayCycle`, and time is an explicit counter;
  - `drawCircle`/`drawPath` rasterisation, graphics-layer recording and alpha blending are not modelled: draw calls are returned as values in the order issued.
- Illustration: the script's `while (true)` is modelled one pass at a time (`PlayCycle`), with the repetition stated by `StepAtPeriodic`. Text layout and the panel composables (`SceneMotionBlurExplained`, `PanelContainer`, `LeftPanel`'s layout) are not modelled. The right panel always uses 9 blades, which meets the shutter's precondition.
- Navigation and layout composables (`App`, `AssetGallery`, `AssetPlaceholder`, the screens) and the platform entry points are not part of this model.

## Findings

| source | as written | input that shows it | evidently intended | confidence | as-written member | corrected member |
|---|---|---|---|---|---|---|
| composeApp/src/commonMain/kotlin/dev/mmartos/effects/motion_blur_materials/utils/PseudoRandom.kt:25 | `bits53.toFloat() * (1.0f / (1L shl 53))` rounds the 53-bit value to a 24-bit significand, so any bits53 >= 2^53 - 2^28 becomes 2^53 and the result is 1.0f | seed 741998845536194771 mixes to the all-ones state, so bits53 = 2^53 - 1 and the result is 1.0f; the same holds for about one seed in 2^25 | a result in [0.0, 1.0) as the doc comment at line 16 says, e.g. scaling in `Double`, which keeps bits53 / 2^53 exact | not executed | PseudoRandom.FloatResultRoundsUpToOne | PseudoRandom.RandomFromSeed |
