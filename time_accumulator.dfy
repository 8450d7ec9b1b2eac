/** The lever and time arithmetic of SunCycle: the clamped lever angle, the
    time step the angle produces, and UpdateTime's single conditional wrap. */
module TimeAccumulator {
  import opened UnityMath

  /** How far the lever turns either side of upright, in degrees. */
  const MaxLeverAngle: real := 45.0

  /** UpdateLeverRotation's new angle, Mathf.Clamp(angle + delta, -45, 45). */
  function LeverStep(angle: real, delta: real): (r: real)
    ensures -MaxLeverAngle <= r <= MaxLeverAngle
    ensures -MaxLeverAngle <= angle + delta <= MaxLeverAngle ==> r == angle + delta
    ensures angle + delta >= MaxLeverAngle ==> r == MaxLeverAngle
    ensures angle + delta <= -MaxLeverAngle ==> r == -MaxLeverAngle
  {
    Clamp(angle + delta, -MaxLeverAngle, MaxLeverAngle)
  }

  /** The lever angle after one LeverStep per drag delta, in order. */
  function LeverAfter(angle: real, drags: seq<real>): (r: real)
    ensures -MaxLeverAngle <= angle <= MaxLeverAngle ==> -MaxLeverAngle <= r <= MaxLeverAngle
  {
    if drags == [] then angle
    else LeverStep(LeverAfter(angle, drags[..|drags| - 1]), drags[|drags| - 1])
  }

  /** The total of a sequence of drag deltas. */
  function Sum(s: seq<real>): real {
    if s == [] then 0.0 else Sum(s[..|s| - 1]) + s[|s| - 1]
  }

  function Min(a: real, b: real): real {
    if a <= b then a else b
  }

  function Max(a: real, b: real): real {
    if a >= b then a else b
  }

  /** Dragging only forward adds up the drags until the lever stops at 45. */
  lemma {:induction false} LeverAfterForward(angle: real, drags: seq<real>)
    requires -MaxLeverAngle <= angle <= MaxLeverAngle
    requires forall i :: 0 <= i < |drags| ==> drags[i] >= 0.0
    ensures LeverAfter(angle, drags) == Min(MaxLeverAngle, angle + Sum(drags))
  {
    if drags != [] {
      var init := drags[..|drags| - 1];
      assert forall i :: 0 <= i < |init| ==> init[i] == drags[i];
      LeverAfterForward(angle, init);
    }
  }

  /** Dragging only backward adds up the drags until the lever stops at -45. */
  lemma {:induction false} LeverAfterBackward(angle: real, drags: seq<real>)
    requires -MaxLeverAngle <= angle <= MaxLeverAngle
    requires forall i :: 0 <= i < |drags| ==> drags[i] <= 0.0
    ensures LeverAfter(angle, drags) == Max(-MaxLeverAngle, angle + Sum(drags))
  {
    if drags != [] {
      var init := drags[..|drags| - 1];
      assert forall i :: 0 <= i < |init| ==> init[i] == drags[i];
      LeverAfterBackward(angle, init);
    }
  }

  /** However far the lever is pushed forward, it rests exactly at 45, and
      any further forward drags leave it there. */
  lemma LeverSaturates(angle: real, drags: seq<real>, more: seq<real>)
    requires -MaxLeverAngle <= angle <= MaxLeverAngle
    requires forall i :: 0 <= i < |drags| ==> drags[i] >= 0.0
    requires angle + Sum(drags) >= MaxLeverAngle
    requires forall i :: 0 <= i < |more| ==> more[i] >= 0.0
    ensures LeverAfter(angle, drags) == MaxLeverAngle
    ensures LeverAfter(angle, drags + more) == MaxLeverAngle
  {
    LeverAfterForward(angle, drags);
    SaturatedStays(angle, drags, more);
  }

  /** Once the lever rests at 45, forward drags cannot move it. */
  lemma {:induction false} SaturatedStays(angle: real, drags: seq<real>, more: seq<real>)
    requires LeverAfter(angle, drags) == MaxLeverAngle
    requires forall i :: 0 <= i < |more| ==> more[i] >= 0.0
    ensures LeverAfter(angle, drags + more) == MaxLeverAngle
  {
    if more == [] {
      assert drags + more == drags;
    } else {
      var init := more[..|more| - 1];
      assert forall i :: 0 <= i < |init| ==> init[i] == more[i];
      SaturatedStays(angle, drags, init);
      var all := drags + more;
      assert all[..|all| - 1] == drags + init;
      assert all[|all| - 1] == more[|more| - 1];
    }
  }

  /** UpdateTime's timeSpeed, Mathf.Abs(angle) / 45. */
  function Speed(angle: real): (v: real)
    ensures v >= 0.0
    ensures -MaxLeverAngle <= angle <= MaxLeverAngle ==> v <= 1.0
    ensures v == 0.0 <==> angle == 0.0
  {
    Abs(angle) / MaxLeverAngle
  }

  /** A product of dt >= 0 with a factor in [-1, 1] is within dt of zero. */
  lemma ScaledWithin(dt: real, f: real, p: real)
    requires dt >= 0.0 && -1.0 <= f <= 1.0
    requires p == dt * f
    ensures -dt <= p <= dt
  {
    if f >= 0.0 {
      PortionBounds(dt, f, p);
    } else {
      PortionBounds(dt, -f, -p);
    }
  }

  /** UpdateTime's increment, deltaTime * Mathf.Sign(angle) * timeSpeed: the
      frame time scaled by the lever's normalised angle, so forward for a
      positive angle, backward for a negative one, and nothing at 0. */
  function TimeStep(angle: real, dt: real): (s: real)
    ensures s == dt * (angle / MaxLeverAngle)
    ensures -MaxLeverAngle <= angle <= MaxLeverAngle && dt >= 0.0 ==> -dt <= s <= dt
  {
    var s := dt * Sign(angle) * Speed(angle);
    assert Sign(angle) * Speed(angle) == angle / MaxLeverAngle;
    assert s == dt * (angle / MaxLeverAngle);
    if -MaxLeverAngle <= angle <= MaxLeverAngle && dt >= 0.0 then
      ScaledWithin(dt, angle / MaxLeverAngle, s);
      s
    else
      s
  }

  /** UpdateTime's wrap: a single conditional add or subtract of the cycle
      length. It never moves the time to a different point of the cycle, and
      lands in [0, cycleLength) exactly when x is within one cycle of it. */
  function Wrap(x: real, cycleLength: real): (r: real)
    requires cycleLength > 0.0
    ensures 0.0 <= r < cycleLength <==> -cycleLength <= x < 2.0 * cycleLength
    ensures ModC(r, cycleLength) == ModC(x, cycleLength)
  {
    if x < 0.0 then
      ModCShift(x, cycleLength, 1);
      x + cycleLength
    else if x >= cycleLength then
      ModCShift(x, cycleLength, -1);
      x - cycleLength
    else
      x
  }

  /** The whole of UpdateTime's arithmetic: the elapsed time after one frame. */
  function AdvanceTime(t: real, angle: real, dt: real, cycleLength: real): (r: real)
    requires cycleLength > 0.0
    ensures ModC(r, cycleLength) == ModC(t + dt * (angle / MaxLeverAngle), cycleLength)
    ensures (0.0 <= t < cycleLength && -MaxLeverAngle <= angle <= MaxLeverAngle &&
             0.0 <= dt <= cycleLength) ==> 0.0 <= r < cycleLength
  {
    Wrap(t + TimeStep(angle, dt), cycleLength)
  }

  /** A point already in [0, m) is its own modulo. */
  lemma ModCInRange(r: real, m: real)
    requires m > 0.0
    requires 0.0 <= r < m
    ensures ModC(r, m) == r
  {
    assert (r - r) / m == 0.0;
    ModCUnique(r, m, r);
  }

  /** Within the bounds the single wrap is a true modulo: the new time is the
      exact step taken around the cycle. */
  lemma AdvanceIsModulo(t: real, angle: real, dt: real, cycleLength: real)
    requires cycleLength > 0.0
    requires 0.0 <= t < cycleLength
    requires -MaxLeverAngle <= angle <= MaxLeverAngle
    requires 0.0 <= dt <= cycleLength
    ensures AdvanceTime(t, angle, dt, cycleLength)
         == ModC(t + dt * (angle / MaxLeverAngle), cycleLength)
  {
    ModCInRange(AdvanceTime(t, angle, dt, cycleLength), cycleLength);
  }

  /** With the lever upright the time stands still. */
  lemma AdvanceStill(t: real, dt: real, cycleLength: real)
    requires cycleLength > 0.0
    requires 0.0 <= t < cycleLength
    ensures AdvanceTime(t, 0.0, dt, cycleLength) == t
  {
    assert TimeStep(0.0, dt) == 0.0;
  }

  /** A forward lever moves the time forward around the cycle, and a backward
      lever moves it backward, each by exactly dt * |angle| / 45. */
  lemma AdvanceDirection(t: real, angle: real, dt: real, cycleLength: real)
    requires cycleLength > 0.0
    requires 0.0 <= t < cycleLength
    requires -MaxLeverAngle <= angle <= MaxLeverAngle
    requires 0.0 <= dt < cycleLength
    ensures angle >= 0.0 ==> ModC(AdvanceTime(t, angle, dt, cycleLength) - t, cycleLength)
                             == dt * (angle / MaxLeverAngle)
    ensures angle <= 0.0 ==> ModC(t - AdvanceTime(t, angle, dt, cycleLength), cycleLength)
                             == -(dt * (angle / MaxLeverAngle))
  {
    var r := AdvanceTime(t, angle, dt, cycleLength);
    var step := TimeStep(angle, dt);
    if angle >= 0.0 {
      ModCDiff(r, t + step, cycleLength);
      assert (r - t) - step == r - (t + step);
      ModCUnique(r - t, cycleLength, step);
    }
    if angle <= 0.0 {
      ModCDiff(t + step, r, cycleLength);
      assert (t - r) - -step == t + step - r;
      ModCUnique(t - r, cycleLength, -step);
    }
  }

  /** After a stall longer than the cycle the single wrap falls short: from 0
      at full forward lever, three cycles' worth of frame time leaves the
      time at two cycles, outside [0, cycleLength). */
  lemma AdvanceAfterStall(cycleLength: real)
    requires cycleLength > 0.0
    ensures AdvanceTime(0.0, MaxLeverAngle, 3.0 * cycleLength, cycleLength) == 2.0 * cycleLength
  {
  }
}
