/** The arithmetic of SunCycle.UpdateSunPosition: the sun's pitch, the light
    colour and the light intensity, as pure functions of the replicated
    elapsed time. The cosine is supplied by the caller (cosDegrees(d) stands
    for Mathf.Cos(d * Mathf.Deg2Rad)); only its Clamp01 wrapper is modelled. */
module SunRenderer {
  import opened UnityMath

  /** An RGB colour. Every colour used here has alpha 1, so alpha is left out. */
  datatype Rgb = Rgb(r: real, g: real, b: real)

  /** Color.white */
  const White := Rgb(1.0, 1.0, 1.0)

  /** The night tint, new Color(0.6f, 0.6f, 1f). */
  const NightTint := Rgb(0.6, 0.6, 1.0)

  /** What UpdateSunPosition writes to the light: its pitch in degrees, its
      intensity and its colour. */
  datatype SunRender = SunRender(angle: real, intensity: real, color: Rgb)

  /** Color.Lerp: Mathf.Lerp on each channel, t clamped to [0, 1]. */
  function ColorLerp(a: Rgb, b: Rgb, t: real): (c: Rgb)
    ensures t <= 0.0 ==> c == a
    ensures t >= 1.0 ==> c == b
    ensures a.r >= b.r ==> b.r <= c.r <= a.r
    ensures a.b == b.b ==> c.b == a.b
    ensures 0.0 <= t <= 1.0 ==>
      c == Rgb(a.r + (b.r - a.r) * t, a.g + (b.g - a.g) * t, a.b + (b.b - a.b) * t)
  {
    Rgb(Lerp(a.r, b.r, t), Lerp(a.g, b.g, t), Lerp(a.b, b.b, t))
  }

  /** Progress through the cycle: elapsed / cycleLength. */
  function TimeOfDay(elapsed: real, cycleLength: real): (t: real)
    requires cycleLength > 0.0
    ensures t * cycleLength == elapsed
    ensures 0.0 <= elapsed < cycleLength ==> 0.0 <= t < 1.0
  {
    var t := elapsed / cycleLength;
    DivMul(elapsed, cycleLength, t);
    ScaleCompare(cycleLength, t, elapsed);
    t
  }

  /** Scaling by m > 0 keeps 0 and 1 on the same side of t as of m * t. */
  lemma ScaleCompare(m: real, t: real, mt: real)
    requires m > 0.0
    requires mt == m * t
    ensures 0.0 <= mt ==> 0.0 <= t
    ensures mt < m ==> t < 1.0
  {
    if t < 0.0 {
      MulPos(m, -t, -mt);
    }
    if t >= 1.0 {
      MulNonNeg(m, t - 1.0, mt - m);
    }
  }

  /** The sun's pitch in degrees: Mathf.Lerp(40, 400, timeOfDay) % 360. */
  function SunAngle(timeOfDay: real): (a: real)
    ensures 0.0 <= a < 360.0
  {
    FloatRem(Lerp(40.0, 400.0, timeOfDay), 360.0)
  }

  /** How far into the night half the sun is, (angle - 180) / 180. */
  function NightBlend(angle: real): (f: real)
    ensures 180.0 <= angle < 360.0 ==> 0.0 <= f < 1.0
    ensures angle == 180.0 ==> f == 0.0
  {
    (angle - 180.0) / 180.0
  }

  /** The light colour: white on the day half [0, 180), otherwise white
      blended toward the night tint by NightBlend. */
  function SunColor(angle: real): (c: Rgb)
    ensures 0.0 <= angle < 360.0 ==> (c == White <==> angle <= 180.0)
    ensures 0.0 <= angle < 360.0 ==> c.b == 1.0 && c.g == c.r && 0.6 < c.r <= 1.0
  {
    if angle >= 0.0 && angle < 180.0 then White
    else ColorLerp(White, NightTint, NightBlend(angle))
  }

  /** The light intensity: sunIntensity * Clamp01(cosine). */
  function LightIntensity(sunIntensity: real, cosine: real): (i: real)
    ensures sunIntensity >= 0.0 ==> 0.0 <= i <= sunIntensity
    ensures sunIntensity <= 0.0 ==> sunIntensity <= i <= 0.0
    ensures cosine <= 0.0 ==> i == 0.0
    ensures cosine >= 1.0 ==> i == sunIntensity
    ensures 0.0 <= cosine <= 1.0 ==> i == sunIntensity * cosine
  {
    Portion(sunIntensity, Clamp01(cosine))
  }

  /** Everything UpdateSunPosition computes from the elapsed time. */
  function RenderSun(elapsed: real, cycleLength: real, sunIntensity: real,
                     cosDegrees: real -> real): (s: SunRender)
    requires cycleLength > 0.0
    ensures s.angle == SunAngle(TimeOfDay(elapsed, cycleLength))
    ensures s.color == SunColor(s.angle)
    ensures 0.0 <= s.angle < 360.0
    ensures s.intensity == LightIntensity(sunIntensity, cosDegrees(s.angle - 90.0))
    ensures sunIntensity >= 0.0 ==> 0.0 <= s.intensity <= sunIntensity
    ensures s.color == White <==> s.angle <= 180.0
    ensures s.color.b == 1.0 && s.color.g == s.color.r && 0.6 < s.color.r <= 1.0
  {
    var angle := SunAngle(TimeOfDay(elapsed, cycleLength));
    SunRender(angle, LightIntensity(sunIntensity, cosDegrees(angle - 90.0)), SunColor(angle))
  }

  /** Over one cycle the pitch rises linearly from 40 degrees, wrapping to 0
      once it reaches 360 (at eight ninths of the cycle). */
  lemma SunAngleClosedForm(t: real)
    requires 0.0 <= t <= 1.0
    ensures t < 8.0 / 9.0 ==> SunAngle(t) == 40.0 + 360.0 * t
    ensures t >= 8.0 / 9.0 ==> SunAngle(t) == 360.0 * t - 320.0
  {
    var v := Lerp(40.0, 400.0, t);
    assert v == 40.0 + 360.0 * t;
    if t < 8.0 / 9.0 {
      assert Truncate(v / 360.0) == 0;
    } else {
      assert Truncate(v / 360.0) == 1;
    }
  }

  /** The pitch is a full turn per cycle with a 40 degree phase: the point
      40 + 360 * t on the circle, for t and for t shifted by any whole number
      of cycles. */
  lemma SunAnglePeriodic(t: real, k: int)
    requires 0.0 <= t <= 1.0
    ensures SunAngle(t) == ModC(40.0 + 360.0 * (t + k as real), 360.0)
  {
    var v := Lerp(40.0, 400.0, t);
    assert v == 40.0 + 360.0 * t;
    FloatRemIsModC(v, 360.0);
    ModCShift(v, 360.0, k);
    assert 40.0 + 360.0 * (t + k as real) == v + 360.0 * k as real;
  }

  /** Outside [0, 1] the interpolation clamps, so the pitch rests at the
      starting 40 degrees; in particular the end of a cycle meets its start. */
  lemma SunAngleClamped(t: real)
    requires t <= 0.0 || t >= 1.0
    ensures SunAngle(t) == 40.0 == SunAngle(0.0) == SunAngle(1.0)
  {
    assert Truncate(40.0 / 360.0) == 0;
    assert Truncate(400.0 / 360.0) == 1;
  }

  /** Across the whole range [0, 360) the red and green channels move by at
      most 0.4 / 180 per degree: in particular the colour has no jump at 180. */
  lemma SunColorContinuous(a: real, b: real)
    requires 0.0 <= a < 360.0 && 0.0 <= b < 360.0
    ensures Abs(SunColor(a).r - SunColor(b).r) <= Abs(a - b) / 450.0
  {
    NightRed(a);
    NightRed(b);
  }

  /** The red channel of the colour: 1 by day, falling by 0.4 / 180 per
      degree past 180. */
  lemma NightRed(a: real)
    requires 0.0 <= a < 360.0
    ensures a <= 180.0 ==> SunColor(a).r == 1.0
    ensures a >= 180.0 ==> SunColor(a).r == 1.0 - (a - 180.0) / 450.0
  {
    if a >= 180.0 {
      var f := NightBlend(a);
      assert Lerp(1.0, 0.6, f) == 1.0 + Portion(-0.4, f);
    }
  }

  /** The colour does jump where the pitch wraps from just under 360 back to
      0: the last night degree is almost fully tinted, the next frame white. */
  lemma SunColorJumpsAtWrap(a: real)
    requires 359.0 <= a < 360.0
    ensures SunColor(a).r < 0.61
    ensures SunColor(0.0) == White
  {
    NightRed(a);
  }

  /** Rendering is the same at the start and at the very end of a cycle. */
  lemma RenderSunDayBoundary(cycleLength: real, sunIntensity: real, cosDegrees: real -> real)
    requires cycleLength > 0.0
    ensures RenderSun(cycleLength, cycleLength, sunIntensity, cosDegrees)
         == RenderSun(0.0, cycleLength, sunIntensity, cosDegrees)
  {
    assert TimeOfDay(cycleLength, cycleLength) == 1.0;
    assert TimeOfDay(0.0, cycleLength) == 0.0;
    SunAngleClamped(1.0);
  }

  /** A 120 second cycle at time 0: the sun stands at 40 degrees, the light
      is white and its intensity follows cos(-50 degrees). */
  lemma RenderSunAtStart(sunIntensity: real, cosDegrees: real -> real)
    ensures RenderSun(0.0, 120.0, sunIntensity, cosDegrees)
         == SunRender(40.0, LightIntensity(sunIntensity, cosDegrees(-50.0)), White)
  {
    SunAngleClamped(0.0);
  }

  /** A 120 second cycle at 90 seconds: the sun stands at 310 degrees and
      the colour is 13/18 of the way to the night tint (the light is then off
      whenever cos(220 degrees) is not positive, by LightIntensity). */
  lemma SunAtNight()
    ensures SunAngle(TimeOfDay(90.0, 120.0)) == 310.0
    ensures SunColor(310.0) == ColorLerp(White, NightTint, 13.0 / 18.0)
  {
    assert TimeOfDay(90.0, 120.0) == 0.75;
    SunAngleClosedForm(0.75);
    assert NightBlend(310.0) == 13.0 / 18.0;
  }
}
