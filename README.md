# SunCycle: a verified model of a lever-driven day/night cycle

`SunCycle` is a VRChat (UdonSharp) behaviour attached to a lever. It drives a
directional "sun" light through a day/night cycle. The time of day is a
replicated value that only the object's owner writes. The owner advances it
every frame at a rate set by the lever's angle. A user moves the lever by
interacting with it and then dragging a hand, or the head on desktop, sideways.
Starting an interaction also toggles a list of scene objects.

This project models the deterministic core of that behaviour in Dafny:

- `unity_math.dfy` (module `UnityMath`) holds the engine's scalar helpers over
  unbounded reals: `Mathf.Sign`, `Abs`, `Clamp`, `Clamp01` and `Lerp`, and C#'s
  float `%`. It also defines a true modulo, `ModC`, which serves as the
  reference for "the same point on the cycle".
- `time_accumulator.dfy` (module `TimeAccumulator`) holds the lever and time
  arithmetic as pure functions: the clamped lever step, the time step a lever
  angle produces, `UpdateTime`'s single conditional wrap, and lemmas about each.
- `sun_renderer.dfy` (module `SunRenderer`) holds `UpdateSunPosition`'s
  arithmetic as pure functions of the synced time: the sun's pitch, the light
  colour and the light intensity.
- `sun_cycle.dfy` (module `SunCycleBehaviour`) holds the behaviour itself as a
  class with the fields the source mutates. `ToggleInteraction`,
  `StartInteraction`, `StopInteraction`, `UpdateLeverRotation`, `UpdateTime`,
  `Update` and `OnDeserialization` are methods. The toggle list is an
  `array<SceneObject?>` of objects that can be shared, and it is flipped in
  place in a loop.
- `scenarios.dfy` (module `Scenarios`) holds client methods that state what
  holds across several calls: two lever sessions, and runs of frames on an
  owner and on an observer.

Engine services become inputs or outputs:

- Whether the local player owns the object (`Networking.IsOwner`) is a boolean
  parameter.
- The interact position is its x coordinate, a real parameter. It is the only
  coordinate the lever reads.
- `Time.deltaTime` is a real parameter.
- `Mathf.Cos((angle - 90) * Deg2Rad)` is the caller's function `cosDegrees`,
  applied to `angle - 90`.
- Audio play and stop, the ownership request and the serialization request are
  returned as a list of `Effect` values, in the order the source makes the calls.

Where the code and its usual description differ, the model follows the code:

- At a sun angle of exactly 180 the code takes the blend branch with factor 0,
  so the light is still white. The colour is therefore white exactly when the
  angle is at most 180 (`SunColor`).
- The colour is continuous over the whole range [0, 360)
  (`SunColorContinuous`). It is not continuous where the pitch wraps from just
  under 360 back to 0, at eight ninths of the cycle: there the light jumps from
  almost the full night tint back to white (`SunColorJumpsAtWrap`). The
  intensity factor is 0 at that point.
- The wrap in `UpdateTime` is a single conditional add or subtract, not a
  modulo. The result lies in [0, cycleLength) exactly when the unwrapped value
  is within one cycle of that range (`Wrap`). A long enough frame can
  therefore leave the time outside it: from 0 at full lever, a frame of three
  cycles ends at two cycles (`AdvanceAfterStall`). From a time
  inside the cycle, with the lever in range and a frame no longer than the
  cycle, the wrap agrees with a true modulo (`AdvanceIsModulo`).
- `Mathf.Sign(0)` is 1, so an upright lever gives direction 1 but speed 0, and
  from a time inside the cycle the time stands still (`AdvanceStill`).

## Model

| member | source | states |
|---|---|---|
| `UnityMath.Sign` | SunCycle.cs:150 | Mathf.Sign is 1 or -1, is 1 at zero, and times the absolute value gives back the input |
| `UnityMath.Abs` | SunCycle.cs:151 | Mathf.Abs is non-negative and equals the input or its negation |
| `UnityMath.Clamp` | SunCycle.cs:142 | Mathf.Clamp lands in [min, max], keeps values already inside, and sends values below or above to the nearer bound |
| `UnityMath.Clamp01` | SunCycle.cs:191 | Mathf.Clamp01 lands in [0, 1], keeps values inside and sends the rest to the nearer bound |
| `UnityMath.Lerp` | SunCycle.cs:188 | Mathf.Lerp is a + (b - a)t for t in [0, 1], gives the first end for t <= 0 and the second for t >= 1, and so always stays between its two ends |
| `UnityMath.FloatRem` | SunCycle.cs:188 | C#'s float % gives a result with the sign of the dividend, smaller than the divisor in size, that differs from the dividend by whole multiples of the divisor |
| `UnityMath.FloatRemIsModC` | SunCycle.cs:188 | on a non-negative dividend, C#'s % is the true modulo |
| `SunRenderer.TimeOfDay` | SunCycle.cs:187 | time of day times the cycle length is the elapsed time, and it lies in [0, 1) when the elapsed time lies in [0, cycleLength) |
| `SunRenderer.SunAngle` | SunCycle.cs:188 | the sun's pitch is in [0, 360) for every time of day |
| `SunRenderer.SunAngleClosedForm` | SunCycle.cs:188 | over one cycle the pitch is 40 + 360t until it reaches 360 at t = 8/9, and 360t - 320 after that |
| `SunRenderer.SunAnglePeriodic` | SunCycle.cs:188 | the pitch is the point 40 + 360(t + k) on the circle for every whole k: one full turn per cycle with a 40 degree phase |
| `SunRenderer.SunAngleClamped` | SunCycle.cs:188 | Lerp clamps its parameter, so outside [0, 1] the pitch rests at 40, and the ends of the cycle meet |
| `SunRenderer.ColorLerp` | SunCycle.cs:200 | Color.Lerp is the channel-wise a + (b - a)t for t in [0, 1], gives the first colour for t <= 0 and the second for t >= 1, keeps a channel the two share, and keeps red between the ends |
| `SunRenderer.NightBlend` | SunCycle.cs:200 | the blend factor lies in [0, 1) on the night half [180, 360) and is 0 at 180 |
| `SunRenderer.SunColor` | SunCycle.cs:194-201 | the colour is white exactly when the angle is at most 180; otherwise it has blue 1, equal red and green, and red in (0.6, 1] |
| `SunRenderer.NightRed` | SunCycle.cs:194-201 | the red channel is 1 by day and falls by 0.4/180 per degree past 180 |
| `SunRenderer.SunColorContinuous` | SunCycle.cs:194-201 | for angles in [0, 360), the red channel moves by at most 1/450 of the angle difference, so there is no jump at 180 |
| `SunRenderer.SunColorJumpsAtWrap` | SunCycle.cs:188-201 | just below 360 the red channel is under 0.61, while at 0 the light is white: the colour jumps where the pitch wraps |
| `SunRenderer.LightIntensity` | SunCycle.cs:191-192 | the intensity is in [0, sunIntensity] for any cosine when sunIntensity >= 0, is 0 when the cosine is not positive, is the full sunIntensity when the cosine is at least 1, and is exactly sunIntensity times the cosine for a cosine in [0, 1] |
| `SunRenderer.RenderSun` | SunCycle.cs:183-201 | the light's pitch is SunAngle of the time of day elapsed / cycleLength, and so lies in [0, 360); its colour is SunColor of that pitch, white exactly when the pitch is at most 180; its intensity comes from the cosine of pitch - 90 and is bounded by sunIntensity |
| `SunRenderer.RenderSunDayBoundary` | SunCycle.cs:187-201 | the light is the same at the end of a cycle as at its start |
| `SunRenderer.RenderSunAtStart` | SunCycle.cs:187-201 | with a 120 s cycle at time 0, the sun stands at 40 degrees, the light is white and the intensity follows cos(-50 degrees) |
| `SunRenderer.SunAtNight` | SunCycle.cs:187-200 | with a 120 s cycle at 90 s, the sun stands at 310 degrees and the colour is 13/18 of the way to the night tint |
| `TimeAccumulator.LeverStep` | SunCycle.cs:140-142 | the new lever angle is in [-45, 45], is the old angle plus the drag when that fits, and saturates at exactly 45 or -45 otherwise |
| `TimeAccumulator.LeverAfter` | SunCycle.cs:137-146 | starting within [-45, 45], the lever stays within [-45, 45] after any sequence of drags |
| `TimeAccumulator.LeverAfterForward` | SunCycle.cs:142 | with forward drags only, the lever angle is the start plus the total drag, capped at 45 |
| `TimeAccumulator.LeverAfterBackward` | SunCycle.cs:142 | with backward drags only, the lever angle is the start plus the total drag, floored at -45 |
| `TimeAccumulator.LeverSaturates` | SunCycle.cs:142 | forward drags totalling enough leave the lever exactly at 45, and any further sequence of forward drags keeps it there |
| `TimeAccumulator.SaturatedStays` | SunCycle.cs:142 | once the lever rests at 45, any sequence of non-negative drags leaves it at 45 (proved by induction on the drags) |
| `TimeAccumulator.Speed` | SunCycle.cs:151 | the time speed is non-negative, at most 1 within the lever's range, and 0 exactly when the lever is upright |
| `TimeAccumulator.TimeStep` | SunCycle.cs:150-153 | the frame's increment is the frame time times angle/45: forward for a positive angle, backward for a negative one, and never larger than the frame time |
| `TimeAccumulator.Wrap` | SunCycle.cs:155-162 | the single wrap never changes the point on the cycle, and its result is in [0, cycleLength) exactly when the input is in [-cycleLength, 2 cycleLength) |
| `TimeAccumulator.AdvanceTime` | SunCycle.cs:148-162 | the new time is at the same point of the cycle as the old time plus the exact step, and stays in [0, cycleLength) from inside it when the frame is no longer than the cycle |
| `TimeAccumulator.AdvanceIsModulo` | SunCycle.cs:150-162 | within those bounds, the new time is the true modulo of the old time plus the step |
| `TimeAccumulator.AdvanceStill` | SunCycle.cs:150-153 | from a time inside the cycle, with the lever upright, the time does not change |
| `TimeAccumulator.AdvanceDirection` | SunCycle.cs:150-162 | a forward lever moves the time forward around the cycle by exactly dt·angle/45, and a backward lever moves it backward by that amount |
| `TimeAccumulator.AdvanceAfterStall` | SunCycle.cs:155-162 | from 0 at full forward lever, a frame of three cycles leaves the time at two cycles, outside [0, cycleLength) |
| `SunCycleBehaviour.Flipped` | SunCycle.cs:98 | a flag negated n times, one SetActive(!activeSelf) per flip, is back where it started exactly when n is even (proved by induction on n) |
| `SunCycleBehaviour.SunCycle.constructor` | SunCycle.cs:40-55 | the configuration is as given, both times and the lever angle start at 0, and no interaction is in progress |
| `SunCycleBehaviour.SunCycle.ToggleInteraction` | SunCycle.cs:65-82 | every interact event negates isInteracting. A start samples the position, makes the start calls and flips the toggles. A stop only stops the sound and changes no toggle. Neither changes the lever angle or the times |
| `SunCycleBehaviour.SunCycle.StartEffects` | SunCycle.cs:84-106 | a start plays the lever sound exactly when both the audio source and the clip are set, and asks for ownership exactly when the local player is not the owner; each at most once, the sound before the ownership request |
| `SunCycleBehaviour.SunCycle.StopEffects` | SunCycle.cs:108-114 | a stop asks for nothing but stopping the sound, and does that exactly when there is an audio source |
| `SunCycleBehaviour.SunCycle.StartInteraction` | SunCycle.cs:84-106 | a start records the interact position, makes the start calls, and flips each toggled object once per time the list names it |
| `SunCycleBehaviour.SunCycle.StopInteraction` | SunCycle.cs:108-114 | a stop makes only the stop calls |
| `SunCycleBehaviour.SunCycle.FlipToggles` | SunCycle.cs:94-100 | each object in the toggle list is flipped once per occurrence. Null entries are skipped. No object outside the list changes |
| `SunCycleBehaviour.SunCycle.UpdateLeverRotation` | SunCycle.cs:137-146 | the lever angle becomes LeverStep of the old angle and the x movement times rotationSpeed, so it stays in [-45, 45]. The position is remembered for the next frame |
| `SunCycleBehaviour.SunCycle.UpdateTime` | SunCycle.cs:148-165 | the local time becomes AdvanceTime of the old time, and the synced time equals it. From inside the cycle, a frame no longer than the cycle keeps the time inside |
| `SunCycleBehaviour.SunCycle.UpdateSunPosition` | SunCycle.cs:183-202 | without a sun light nothing is rendered. Otherwise the light is rendered from the synced time, with a pitch in [0, 360) and, when sunIntensity >= 0, an intensity in [0, sunIntensity] |
| `SunCycleBehaviour.SunCycle.Update` | SunCycle.cs:116-135 | the lever moves only when interacting as owner. Only the owner advances and publishes the time, and it asks for serialization. A non-owner changes no lever or time. The sun is rendered from the new synced time |
| `SunCycleBehaviour.SunCycle.OnDeserialization` | SunCycle.cs:204-207 | the local time takes the synced value, and nothing else changes |
| `Scenarios.TwoSessions` | SunCycle.cs:65-114 | four interact events, from either starting state, restore the interaction flag and every toggled object, and leave the lever angle unchanged |
| `Scenarios.ObserverFrames` | SunCycle.cs:116-129 | across any frames on a non-owner, its lever angle, local time and synced time never change, and no frame asks the engine for anything |
| `Scenarios.OwnerFrames` | SunCycle.cs:116-165 | across owner frames no longer than the cycle, the time stays in [0, cycleLength), and the synced copy equals it |

## Left out

- `Start()` (the light type assignment), the lever's and the sun's
  `Quaternion.Euler` rotations, and the writes to the light's intensity and
  colour are engine rendering. The model computes the angles and values that
  these calls are given.
- `Mathf.Cos` and `Mathf.Deg2Rad` are transcendental. The cosine is a
  caller-supplied function `cosDegrees`, and only the `Clamp01` around it is
  modelled.
- `GetPlayerInteractPosition` is not part of this model. It reads VR or desktop
  tracking and does vector and rotation arithmetic. Its result's x coordinate,
  the only one the lever uses, is a parameter.
- The `timeSlider.value` write in `Update` is not modelled. It is a UI write
  with no logic beyond `synced / cycleLength`, which `TimeOfDay` models.
- Networking is not modelled. `Networking.IsOwner` is a boolean input, while
  `SetOwner` and `RequestSerialization` are returned as effects. Ownership
  transfer latency and replication timing are not modelled. On an observer,
  the arrival of the owner's value in `syncedTimeElapsed` is part of that
  replication; no method here writes it on an observer. `OnDeserialization`
  models only the copy to the local time that follows the arrival.
- Audio is reduced to `PlayLeverSound` and `StopLeverSound` effects. The
  assignment of the clip to the source before playing is part of
  `PlayLeverSound`.
- Floating point is not modelled. All arithmetic is on exact reals: no IEEE-754
  rounding, no infinities, no NaN.
- A `cycleLength` of 0 or less is not modelled. The constructor requires it to
  be positive, because the source divides by it, and a non-positive length
  is a misconfiguration.
- Colours drop the alpha channel, which is 1 for both colours involved.
- `SetActive` is modelled through `activeSelf` alone. Activity inherited
  through the scene hierarchy is not modelled.
- An unassigned (null) `toggleObjects` array is not modelled. The list is a
  non-null array, possibly empty, whose entries may be null.
- `AdvanceDirection` requires a frame strictly shorter than the cycle. A step of
  exactly one cycle lands on the same point, so its distance around the cycle
  is 0.
- A slider-locked time mode is not modelled, because the source has no such mode.
