/**
  * The frame clock of `rememberFrameTimeState` (composables/FrameTime.kt).
  *
  * Each display frame hands the clock a timestamp `now` in nanoseconds. The
  * clock keeps the previous timestamp in `last` and publishes a `FrameTime`
  * with the absolute time `t` and the delta `dt`, both in seconds. The frame
  * scheduling itself (`produceState`, `withFrameNanos`) is the caller: it
  * calls `Tick` once per frame.
  */
module FrameClock {

  const NANOS_PER_SECOND: real := 1_000_000_000.0
  /** The smallest delta the clock reports: one nanosecond, in seconds. */
  const MIN_DT: real := 1.0 / NANOS_PER_SECOND
  /** The default of `initialDt`. */
  const DEFAULT_INITIAL_DT: real := 1.0 / 60.0

  /** Timing of one frame, in seconds. */
  datatype FrameTime = FrameTime(t: real, dt: real)

  /** `(now - last).coerceAtLeast(1L)`: the elapsed nanoseconds, never below 1. */
  function DeltaNanos(last: int, now: int): (d: int)
    ensures d >= 1
    ensures now > last ==> d == now - last
    ensures now <= last ==> d == 1
  {
    if now - last < 1 then 1 else now - last
  }

  /**
    * The frame published for timestamp `now` when the previous one was
    * `last`; `last == 0` means no frame has been seen yet, and the first
    * frame measures its delta from itself.
    */
  function NextFrame(last: int, now: int): (f: FrameTime)
    ensures f.t == now as real / NANOS_PER_SECOND
    ensures f.dt >= MIN_DT
    ensures last == 0 ==> f.dt == MIN_DT
    ensures last != 0 && now > last ==> f.dt == (now - last) as real / NANOS_PER_SECOND
    ensures last != 0 && now <= last ==> f.dt == MIN_DT
  {
    var from := if last == 0 then now else last;
    FrameTime(now as real / NANOS_PER_SECOND, DeltaNanos(from, now) as real / NANOS_PER_SECOND)
  }

  /** The state `produceState` keeps between frames. */
  class Clock {
    /** The previous frame's timestamp in nanoseconds, 0 before the first frame. */
    var last: int
    /** The published frame time. */
    var value: FrameTime

    /** `produceState(initialValue = FrameTime(t = 0f, dt = initialDt))` with `last = 0L`. */
    constructor (initialDt: real := DEFAULT_INITIAL_DT)
      ensures last == 0 && value == FrameTime(0.0, initialDt)
    {
      last := 0;
      value := FrameTime(0.0, initialDt);
    }

    /** The body run by `withFrameNanos { now -> ... }`. */
    method Tick(now: int)
      modifies this
      ensures value == NextFrame(old(last), now)
      ensures last == now
    {
      if last == 0 {
        last := now;
      }
      var dt := DeltaNanos(last, now) as real / NANOS_PER_SECOND;
      value := FrameTime(now as real / NANOS_PER_SECOND, dt);
      last := now;
    }

    /**
      * The `while (isActive)` loop run over the frame timestamps `nows`:
      * one tick per frame, returning every frame time published.
      */
    method Run(nows: seq<int>) returns (published: seq<FrameTime>)
      modifies this
      ensures published == Frames(old(last), nows)
      ensures |nows| > 0 ==> last == nows[|nows| - 1] && value == published[|nows| - 1]
      ensures |nows| == 0 ==> last == old(last) && value == old(value)
    {
      published := [];
      for i := 0 to |nows|
        invariant published + Frames(last, nows[i..]) == Frames(old(last), nows)
        invariant i > 0 ==> last == nows[i - 1] && value == published[i - 1]
        invariant i == 0 ==> last == old(last) && value == old(value)
      {
        assert nows[i..][1..] == nows[i + 1..];
        Tick(nows[i]);
        published := published + [value];
      }
    }
  }

  /** The frames published for the timestamps `nows`, one tick each, starting from `last`. */
  function Frames(last: int, nows: seq<int>): (fs: seq<FrameTime>)
    ensures |fs| == |nows|
    decreases |nows|
  {
    if nows == [] then [] else [NextFrame(last, nows[0])] + Frames(nows[0], nows[1..])
  }

  /**
    * Frame `i` of a run is the tick at `nows[i]` measured from the timestamp
    * before it (from `last` for the first): its time is `nows[i]` in seconds
    * and its delta at least 1 ns.
    */
  lemma {:induction false} FramesAreTicks(last: int, nows: seq<int>)
    ensures forall i :: 0 <= i < |nows| ==>
      Frames(last, nows)[i] == NextFrame(if i == 0 then last else nows[i - 1], nows[i])
    ensures forall i :: 0 <= i < |nows| ==>
      Frames(last, nows)[i].t == nows[i] as real / NANOS_PER_SECOND && Frames(last, nows)[i].dt >= MIN_DT
    decreases |nows|
  {
    if nows != [] {
      var rest := nows[1..];
      FramesAreTicks(nows[0], rest);
      assert Frames(last, nows)[0] == NextFrame(last, nows[0]);
      forall i | 0 < i < |nows|
        ensures Frames(last, nows)[i] == NextFrame(nows[i - 1], nows[i])
      {
        assert Frames(last, nows)[i] == Frames(nows[0], rest)[i - 1];
        assert rest[i - 1] == nows[i];
        if i > 1 {
          assert rest[i - 2] == nows[i - 1];
        }
      }
    }
  }

  /** The sum of the deltas of `fs`. */
  function TotalDt(fs: seq<FrameTime>): real
    decreases |fs|
  {
    if fs == [] then 0.0 else fs[0].dt + TotalDt(fs[1..])
  }

  predicate StrictlyIncreasing(nows: seq<int>) {
    forall i, j :: 0 <= i < j < |nows| ==> nows[i] < nows[j]
  }

  /**
    * While timestamps increase, the deltas after a frame at `last` add up to
    * the time elapsed since `last`.
    */
  lemma {:induction false} DeltasTelescope(last: int, nows: seq<int>)
    requires last > 0 && |nows| > 0
    requires StrictlyIncreasing([last] + nows)
    ensures TotalDt(Frames(last, nows)) == (nows[|nows| - 1] - last) as real / NANOS_PER_SECOND
    decreases |nows|
  {
    var ns := [last] + nows;
    assert ns[0] < ns[1];
    if |nows| > 1 {
      assert StrictlyIncreasing([nows[0]] + nows[1..]) by {
        assert [nows[0]] + nows[1..] == ns[1..];
      }
      DeltasTelescope(nows[0], nows[1..]);
    }
  }

  /**
    * Over a run of frames with increasing positive timestamps, the deltas add
    * up to the span between the first and the last frame, plus the 1 ns the
    * first frame reports.
    */
  lemma {:induction false} FrameDeltasSumToElapsedTime(nows: seq<int>)
    requires |nows| > 0 && nows[0] > 0
    requires StrictlyIncreasing(nows)
    ensures TotalDt(Frames(0, nows)) == MIN_DT + (nows[|nows| - 1] - nows[0]) as real / NANOS_PER_SECOND
  {
    if |nows| > 1 {
      assert [nows[0]] + nows[1..] == nows;
      DeltasTelescope(nows[0], nows[1..]);
    }
  }
}
