/** The SunCycle behaviour: the lever interaction state machine, the owner's
    time accumulator with its replication hand-off, and the per-frame update,
    over the state the behaviour keeps between frames. Engine services are
    inputs: whether the local player owns the object (Networking.IsOwner),
    the x coordinate of the player's interact position, the frame time
    (Time.deltaTime) and the cosine used for the light intensity. Calls into
    the engine that the behaviour makes (audio, ownership, serialization)
    are returned as a list of effects. */
module SunCycleBehaviour {
  import opened UnityMath
  import opened TimeAccumulator
  import opened SunRenderer

  datatype Option<T> = None | Some(value: T)

  /** A scene object whose active flag the lever toggles (GameObject.activeSelf). */
  class SceneObject {
    var activeSelf: bool

    constructor (active: bool)
      ensures activeSelf == active
    {
      activeSelf := active;
    }
  }

  /** The engine calls the behaviour makes, in the order it makes them. */
  datatype Effect =
    | PlayLeverSound        // leverAudioSource.Play() with leverSound as its clip
    | StopLeverSound        // leverAudioSource.Stop()
    | RequestOwnership      // Networking.SetOwner(LocalPlayer, gameObject)
    | RequestSerialization  // RequestSerialization(): broadcast the synced time

  /** A flag negated `times` times (SetActive(!activeSelf) once per
      flip): back where it was exactly when the count is even. */
  function Flipped(before: bool, times: nat): (after: bool)
    ensures after == before <==> times % 2 == 0
  {
    if times == 0 then before else !Flipped(before, times - 1)
  }

  class SunCycle {
    // Configuration, set once in the inspector.
    const cycleLength: real
    const sunIntensity: real
    const rotationSpeed: real
    const hasSunLight: bool
    const hasLeverAudioSource: bool
    const hasLeverSound: bool
    const toggleObjects: array<SceneObject?>

    // State kept between frames.
    var syncedTimeElapsed: real  // replicated from the owner
    var localTimeElapsed: real
    var isInteracting: bool
    var lastInteractX: real      // x of the interact position last sampled
    var leverAngle: real

    ghost predicate Valid()
      reads this
    {
      cycleLength > 0.0 && -MaxLeverAngle <= leverAngle <= MaxLeverAngle
    }

    /** The scene objects the lever toggles (the non-null entries). */
    ghost function Toggled(): set<SceneObject>
      reads toggleObjects
    {
      set o: SceneObject | o in toggleObjects[..]
    }

    /** How many times the toggle list names o. */
    ghost function Occurrences(o: SceneObject): nat
      reads toggleObjects
    {
      multiset(toggleObjects[..])[o]
    }

    constructor (cycleLength: real, sunIntensity: real, rotationSpeed: real,
                 hasSunLight: bool, hasLeverAudioSource: bool, hasLeverSound: bool,
                 toggleObjects: array<SceneObject?>)
      requires cycleLength > 0.0
      ensures Valid()
      ensures this.cycleLength == cycleLength && this.sunIntensity == sunIntensity
      ensures this.rotationSpeed == rotationSpeed && this.hasSunLight == hasSunLight
      ensures this.hasLeverAudioSource == hasLeverAudioSource && this.hasLeverSound == hasLeverSound
      ensures this.toggleObjects == toggleObjects
      ensures syncedTimeElapsed == 0.0 && localTimeElapsed == 0.0
      ensures !isInteracting && lastInteractX == 0.0 && leverAngle == 0.0
    {
      this.cycleLength := cycleLength;
      this.sunIntensity := sunIntensity;
      this.rotationSpeed := rotationSpeed;
      this.hasSunLight := hasSunLight;
      this.hasLeverAudioSource := hasLeverAudioSource;
      this.hasLeverSound := hasLeverSound;
      this.toggleObjects := toggleObjects;
      syncedTimeElapsed := 0.0;
      localTimeElapsed := 0.0;
      isInteracting := false;
      lastInteractX := 0.0;
      leverAngle := 0.0;
    }

    /** Interact: every interact event flips the interaction flag, starting a
        session when it becomes set and stopping it otherwise. The lever
        angle and the elapsed time are left alone either way. */
    method ToggleInteraction(interactX: real, isOwner: bool) returns (effects: seq<Effect>)
      requires Valid()
      modifies this`isInteracting, this`lastInteractX, Toggled()
      ensures Valid()
      ensures isInteracting == !old(isInteracting)
      ensures leverAngle == old(leverAngle)
      ensures localTimeElapsed == old(localTimeElapsed)
      ensures syncedTimeElapsed == old(syncedTimeElapsed)
      ensures isInteracting ==> lastInteractX == interactX && effects == StartEffects(isOwner)
      ensures isInteracting ==>
        forall o :: o in Toggled() ==> o.activeSelf == Flipped(old(o.activeSelf), Occurrences(o))
      ensures !isInteracting ==> lastInteractX == old(lastInteractX) && effects == StopEffects()
      ensures !isInteracting ==>
        forall o :: o in Toggled() ==> o.activeSelf == old(o.activeSelf)
    {
      isInteracting := !isInteracting;
      if isInteracting {
        effects := StartInteraction(interactX, isOwner);
      } else {
        effects := StopInteraction();
      }
    }

    /** What starting a session asks of the engine: the lever sound when both
        the audio source and the clip are set, then ownership when the local
        player does not own the object yet. */
    function StartEffects(isOwner: bool): (effects: seq<Effect>)
      ensures PlayLeverSound in effects <==> hasLeverAudioSource && hasLeverSound
      ensures RequestOwnership in effects <==> !isOwner
      ensures StopLeverSound !in effects && RequestSerialization !in effects
      ensures |effects| == (if hasLeverAudioSource && hasLeverSound then 1 else 0)
                           + (if isOwner then 0 else 1)
      ensures |effects| == 2 ==> effects == [PlayLeverSound, RequestOwnership]
    {
      (if hasLeverAudioSource && hasLeverSound then [PlayLeverSound] else [])
      + (if isOwner then [] else [RequestOwnership])
    }

    /** What stopping a session asks of the engine: stopping the sound when
        there is an audio source. */
    function StopEffects(): (effects: seq<Effect>)
      ensures effects == [] || effects == [StopLeverSound]
      ensures StopLeverSound in effects <==> hasLeverAudioSource
    {
      if hasLeverAudioSource then [StopLeverSound] else []
    }

    /** Starting a session samples the interact position, plays the lever
        sound, flips every toggled object and asks for ownership. */
    method StartInteraction(interactX: real, isOwner: bool) returns (effects: seq<Effect>)
      modifies this`lastInteractX, Toggled()
      ensures lastInteractX == interactX
      ensures effects == StartEffects(isOwner)
      ensures forall o :: o in Toggled() ==> o.activeSelf == Flipped(old(o.activeSelf), Occurrences(o))
    {
      lastInteractX := interactX;
      effects := [];
      if hasLeverAudioSource && hasLeverSound {
        effects := effects + [PlayLeverSound];
      }
      FlipToggles();
      if !isOwner {
        effects := effects + [RequestOwnership];
      }
    }

    /** Stopping a session only stops the sound; the lever keeps its angle. */
    method StopInteraction() returns (effects: seq<Effect>)
      ensures effects == StopEffects()
    {
      effects := [];
      if hasLeverAudioSource {
        effects := effects + [StopLeverSound];
      }
    }

    /** The foreach over toggleObjects: every non-null entry has its active
        flag negated, so an object listed n times is flipped n times. */
    method FlipToggles()
      modifies Toggled()
      ensures forall o :: o in Toggled() ==> o.activeSelf == Flipped(old(o.activeSelf), Occurrences(o))
    {
      var i := 0;
      while i < toggleObjects.Length
        invariant 0 <= i <= toggleObjects.Length
        invariant forall o :: o in Toggled() ==>
          o.activeSelf == Flipped(old(o.activeSelf), multiset(toggleObjects[..i])[o])
      {
        var toggleObject := toggleObjects[i];
        assert toggleObjects[..i + 1] == toggleObjects[..i] + [toggleObject];
        if toggleObject != null {
          assert toggleObject in toggleObjects[..];
          toggleObject.activeSelf := !toggleObject.activeSelf;
        }
        i := i + 1;
      }
      assert toggleObjects[..i] == toggleObjects[..];
    }

    /** While dragging, the lever turns by the x distance the interact
        position moved since the last frame, times rotationSpeed, clamped to
        [-45, 45]; the position is then remembered for the next frame. */
    method UpdateLeverRotation(interactX: real)
      requires Valid()
      modifies this`leverAngle, this`lastInteractX
      ensures Valid()
      ensures leverAngle == LeverStep(old(leverAngle), (interactX - old(lastInteractX)) * rotationSpeed)
      ensures lastInteractX == interactX
    {
      var delta := (interactX - lastInteractX) * rotationSpeed;
      leverAngle := Clamp(leverAngle + delta, -MaxLeverAngle, MaxLeverAngle);
      lastInteractX := interactX;
    }

    /** The owner advances its local time by the lever's step, wraps it once,
        and publishes it as the synced time. Starting inside the cycle, a
        frame no longer than the cycle keeps it inside. */
    method UpdateTime(deltaTime: real)
      requires Valid()
      modifies this`localTimeElapsed, this`syncedTimeElapsed
      ensures Valid()
      ensures localTimeElapsed == AdvanceTime(old(localTimeElapsed), leverAngle, deltaTime, cycleLength)
      ensures syncedTimeElapsed == localTimeElapsed
      ensures 0.0 <= old(localTimeElapsed) < cycleLength && 0.0 <= deltaTime <= cycleLength ==>
        0.0 <= localTimeElapsed < cycleLength
    {
      var timeDirection := Sign(leverAngle);
      var timeSpeed := Speed(leverAngle);
      var step := deltaTime * timeDirection * timeSpeed;
      assert step == TimeStep(leverAngle, deltaTime);
      localTimeElapsed := localTimeElapsed + step;
      if localTimeElapsed < 0.0 {
        localTimeElapsed := localTimeElapsed + cycleLength;
      } else if localTimeElapsed >= cycleLength {
        localTimeElapsed := localTimeElapsed - cycleLength;
      }
      assert localTimeElapsed == Wrap(old(localTimeElapsed) + step, cycleLength);
      syncedTimeElapsed := localTimeElapsed;
    }

    /** What UpdateSunPosition writes to the light, computed from the synced
        time; nothing when no sun light is set. */
    function UpdateSunPosition(cosDegrees: real -> real): (light: Option<SunRender>)
      requires Valid()
      reads this
      ensures light.Some? <==> hasSunLight
      ensures light.Some? ==> 0.0 <= light.value.angle < 360.0
      ensures light.Some? && sunIntensity >= 0.0 ==> 0.0 <= light.value.intensity <= sunIntensity
      ensures light.Some? ==> light.value == RenderSun(syncedTimeElapsed, cycleLength, sunIntensity, cosDegrees)
    {
      if hasSunLight then Some(RenderSun(syncedTimeElapsed, cycleLength, sunIntensity, cosDegrees))
      else None
    }

    /** One frame. Only an owner that is interacting moves the lever; only an
        owner advances and publishes the time; everyone renders the sun from
        the synced time. A non-owner changes none of its state. */
    method Update(isOwner: bool, interactX: real, deltaTime: real, cosDegrees: real -> real)
      returns (light: Option<SunRender>, effects: seq<Effect>)
      requires Valid()
      modifies this`leverAngle, this`lastInteractX, this`localTimeElapsed, this`syncedTimeElapsed
      ensures Valid()
      ensures isInteracting && isOwner ==>
        leverAngle == LeverStep(old(leverAngle), (interactX - old(lastInteractX)) * rotationSpeed) &&
        lastInteractX == interactX
      ensures !(isInteracting && isOwner) ==>
        leverAngle == old(leverAngle) && lastInteractX == old(lastInteractX)
      ensures isOwner ==>
        localTimeElapsed == AdvanceTime(old(localTimeElapsed), leverAngle, deltaTime, cycleLength) &&
        syncedTimeElapsed == localTimeElapsed && effects == [RequestSerialization]
      ensures !isOwner ==>
        localTimeElapsed == old(localTimeElapsed) && syncedTimeElapsed == old(syncedTimeElapsed) &&
        effects == []
      ensures light == UpdateSunPosition(cosDegrees)
    {
      if isInteracting && isOwner {
        UpdateLeverRotation(interactX);
      }
      effects := [];
      if isOwner {
        UpdateTime(deltaTime);
        effects := [RequestSerialization];
      }
      light := UpdateSunPosition(cosDegrees);
    }

    /** Receiving the owner's state: the local time takes the synced value
        wholesale, and nothing else changes. */
    method OnDeserialization()
      requires Valid()
      modifies this`localTimeElapsed
      ensures Valid()
      ensures localTimeElapsed == syncedTimeElapsed
    {
      localTimeElapsed := syncedTimeElapsed;
    }
  }
}
