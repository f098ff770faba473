/**
 Tick-gated timer. All times are whole microseconds; the clock is read by the caller and
 its readings are passed in.
 */
module Timing {
  import opened Wrappers

  const MicrosPerSecond: nat := 1_000_000
  const U32Max: nat := 0xFFFF_FFFF

  /** 0.001 s: the shortest gap between two accepted ticks, by default. */
  const DefaultTickDuration: nat := 1_000
  /** 0.25 s: how much frame time is gathered before the FPS figure is recomputed, by default. */
  const DefaultFpsUpdateTime: nat := 250_000

  /** Time from `since` to `now` on a monotonic clock; a reading before `since` counts as zero. */
  function Elapsed(since: nat, now: nat): (d: nat)
    ensures since + d >= now
    ensures now >= since ==> since + d == now
    ensures now <= since ==> d == 0
  {
    if now >= since then now - since else 0
  }

  /**
   Frames per second over a window of `time` microseconds holding `frames` frames:
   rounded down, and saturated at the largest u32 as Rust's float-to-u32 cast does.
   */
  function FramesPerSecond(frames: nat, time: nat): (fps: nat)
    requires time > 0
    ensures fps <= U32Max
    ensures fps * time <= frames * MicrosPerSecond
    ensures fps < U32Max ==> frames * MicrosPerSecond < (fps + 1) * time
  {
    var f := frames * MicrosPerSecond / time;
    if f > U32Max then U32Max else f
  }

  datatype TimerState = TimerState(
    last: nat,
    fps: nat,
    lastDelta: nat,
    tickDuration: nat,
    frameCount: nat,
    frameTime: nat,
    fpsUpdateTime: nat,
    absTime: nat)
  {
    /** Time is set back to zero and the clock is re-stamped; nothing else changes. */
    function Reset(now: nat): (r: TimerState)
      ensures r.absTime == 0 && r.last == now
      ensures r.(absTime := absTime, last := last) == this
    {
      this.(last := now, absTime := 0)
    }

    /**
     One attempt to tick. The elapsed time is read at `now`; on success the clock is
     re-stamped at `later`, the second reading the source takes.
     */
    function Go(now: nat, later: nat): (r: (TimerState, Option<nat>))
      ensures r.1 == None <==> Elapsed(last, now) < tickDuration
      ensures r.1 == None ==> r.0 == this
      ensures r.1.Some? ==>
                var (t, d) := (r.0, r.1.value);
                && d == Elapsed(last, now) && d >= tickDuration
                && t.lastDelta == d && t.last == later
                && t.absTime == absTime + lastDelta
                && t.tickDuration == tickDuration && t.fpsUpdateTime == fpsUpdateTime
                && (if frameTime + d > fpsUpdateTime
                    then t.fps == FramesPerSecond(frameCount + 1, frameTime + d)
                         && t.frameCount == 0 && t.frameTime == 0
                    else t.fps == fps && t.frameCount == frameCount + 1 && t.frameTime == frameTime + d)
                && (t.frameTime == 0 || t.frameTime <= fpsUpdateTime)
    {
      var delta := Elapsed(last, now);
      if delta < tickDuration then (this, None)
      else
        var frames := frameCount + 1;
        var time := frameTime + delta;
        var counted :=
          if time > fpsUpdateTime then this.(fps := FramesPerSecond(frames, time), frameCount := 0, frameTime := 0)
          else this.(frameCount := frames, frameTime := time);
        (counted.(absTime := absTime + lastDelta, lastDelta := delta, last := later), Some(delta))
    }

    function SetTickDuration(dur: nat): (r: TimerState)
      ensures r.tickDuration == dur && r.(tickDuration := tickDuration) == this
    {
      this.(tickDuration := dur)
    }

    function SetFpsUpdateTime(dur: nat): (r: TimerState)
      ensures r.fpsUpdateTime == dur && r.(fpsUpdateTime := fpsUpdateTime) == this
    {
      this.(fpsUpdateTime := dur)
    }

    /**
     The frame window holds at least one tick duration per counted frame, and the FPS figure
     is at most the tick rate ceiling.
     */
    predicate RateBounded() {
      && frameTime >= frameCount * tickDuration
      && fps * tickDuration <= MicrosPerSecond
    }
  }

  function NewTimer(now: nat): (r: TimerState)
    ensures r.last == now && r.tickDuration == DefaultTickDuration
    ensures r.fpsUpdateTime == DefaultFpsUpdateTime
    ensures r.fps == 0 && r.lastDelta == 0 && r.frameCount == 0 && r.frameTime == 0 && r.absTime == 0
    ensures r.RateBounded()
  {
    TimerState(now, 0, 0, DefaultTickDuration, 0, 0, DefaultFpsUpdateTime, 0)
  }

  /** A successful tick starts a gap of one tick duration during which every attempt is refused. */
  lemma RefusedWithinTick(s: TimerState, now: nat, later: nat, next: nat)
    requires s.Go(now, later).1.Some?
    requires later <= next < later + s.tickDuration
    ensures s.Go(now, later).0.Go(next, next).1 == None
  {
  }

  lemma {:induction false} FpsWithinCeiling(frames: nat, time: nat, tick: nat)
    requires time > 0 && frames > 0 && time >= frames * tick
    ensures FramesPerSecond(frames, time) * tick <= MicrosPerSecond
  {
    var f := FramesPerSecond(frames, time);
    assert f * time <= frames * MicrosPerSecond;
    assert f * (frames * tick) <= f * time by {
      MulLeftMono(f, frames * tick, time);
    }
    assert frames * (f * tick) <= frames * MicrosPerSecond;
    if f * tick > MicrosPerSecond {
      MulLeftMono(frames, MicrosPerSecond + 1, f * tick);
      assert false;
    }
  }

  lemma MulLeftMono(a: nat, b: nat, c: nat)
    requires b <= c
    ensures a * b <= a * c
  {
  }

  lemma OneMoreFrame(frames: nat, time: nat, delta: nat, tick: nat)
    requires time >= frames * tick && delta >= tick
    ensures time + delta >= (frames + 1) * tick
  {
    assert (frames + 1) * tick == frames * tick + tick;
  }

  /** With its configuration left alone, ticking keeps the FPS figure under the tick rate ceiling. */
  lemma GoKeepsRateBounded(s: TimerState, now: nat, later: nat)
    requires s.RateBounded()
    ensures s.Go(now, later).0.RateBounded()
  {
    var (t, d) := s.Go(now, later);
    if d.Some? {
      var frames, time := s.frameCount + 1, s.frameTime + d.value;
      OneMoreFrame(s.frameCount, s.frameTime, d.value, s.tickDuration);
      if time > s.fpsUpdateTime {
        FpsWithinCeiling(frames, time, s.tickDuration);
        assert t.fps == FramesPerSecond(frames, time) && t.tickDuration == s.tickDuration;
        assert t.frameCount == 0 && t.frameTime == 0;
      } else {
        assert t.frameCount == frames && t.frameTime == time;
        assert t.fps == s.fps && t.tickDuration == s.tickDuration;
      }
    }
  }

  /** Successive attempts at the given clock readings: the final state and every value returned. */
  function Run(s: TimerState, readings: seq<(nat, nat)>): (TimerState, seq<nat>)
    decreases |readings|
  {
    if readings == [] then (s, [])
    else
      var (t, ticks) := Run(s, readings[..|readings| - 1]);
      var (now, later) := readings[|readings| - 1];
      var (u, d) := t.Go(now, later);
      (u, if d.Some? then ticks + [d.value] else ticks)
  }

  function Sum(xs: seq<nat>): nat
    decreases |xs|
  {
    if xs == [] then 0 else Sum(xs[..|xs| - 1]) + xs[|xs| - 1]
  }

  /**
   Over any run, the absolute time lags the ticks by exactly one: it has gained the delta
   held before the run and every returned delta except the last, which is held back as
   `lastDelta`. Every returned delta is at least the tick duration.
   */
  lemma {:induction false} AbsTimeLagsOneTick(s: TimerState, readings: seq<(nat, nat)>)
    ensures var (t, ticks) := Run(s, readings);
            && t.absTime + t.lastDelta == s.absTime + s.lastDelta + Sum(ticks)
            && (ticks == [] ==> t == s)
            && (ticks != [] ==> t.lastDelta == ticks[|ticks| - 1])
            && t.tickDuration == s.tickDuration && t.fpsUpdateTime == s.fpsUpdateTime
            && forall i :: 0 <= i < |ticks| ==> ticks[i] >= s.tickDuration
  {
    if readings != [] {
      var prefix := readings[..|readings| - 1];
      AbsTimeLagsOneTick(s, prefix);
      var (t, ticks) := Run(s, prefix);
      var (now, later) := readings[|readings| - 1];
      var (u, d) := t.Go(now, later);
      if d.Some? {
        assert (ticks + [d.value])[..|ticks|] == ticks;
      }
    }
  }

  /** The timer object: its fields are updated in place. */
  class Timer {
    var last: nat
    var fps: nat
    var lastDelta: nat
    var tickDuration: nat
    var frameCount: nat
    var frameTime: nat
    var fpsUpdateTime: nat
    var absTime: nat

    function State(): TimerState
      reads this
    {
      TimerState(last, fps, lastDelta, tickDuration, frameCount, frameTime, fpsUpdateTime, absTime)
    }

    constructor (now: nat)
      ensures State() == NewTimer(now)
    {
      last := now;
      fps := 0;
      lastDelta := 0;
      tickDuration := DefaultTickDuration;
      frameCount := 0;
      frameTime := 0;
      fpsUpdateTime := DefaultFpsUpdateTime;
      absTime := 0;
    }

    method Reset(now: nat)
      modifies this`last, this`absTime
      ensures State() == old(State()).Reset(now)
    {
      last := now;
      absTime := 0;
    }

    method Go(now: nat, later: nat) returns (r: Option<nat>)
      modifies this
      ensures (State(), r) == old(State()).Go(now, later)
    {
      var delta := Elapsed(last, now);
      if delta < tickDuration {
        return None;
      }
      absTime := absTime + lastDelta;
      frameCount := frameCount + 1;
      frameTime := frameTime + delta;
      if frameTime > fpsUpdateTime {
        fps := FramesPerSecond(frameCount, frameTime);
        frameCount := 0;
        frameTime := 0;
      }
      lastDelta := delta;
      last := later;
      r := Some(delta);
    }

    method SetTickDuration(dur: nat)
      modifies this`tickDuration
      ensures State() == old(State()).SetTickDuration(dur)
    {
      tickDuration := dur;
    }

    method SetFpsUpdateTime(dur: nat)
      modifies this`fpsUpdateTime
      ensures State() == old(State()).SetFpsUpdateTime(dur)
    {
      fpsUpdateTime := dur;
    }

    function Fps(): (r: nat)
      reads this
      ensures r == State().fps
    {
      fps
    }

    function Delta(): (r: nat)
      reads this
      ensures r == State().lastDelta
    {
      lastDelta
    }

    function AbsoluteTime(): (r: nat)
      reads this
      ensures r == State().absTime
    {
      absTime
    }
  }
}
