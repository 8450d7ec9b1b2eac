/** Sequences of engine events run against SunCycle, stating what the
    behaviour promises across several calls. */
module Scenarios {
  import opened SunCycleBehaviour

  /** Four interact events (two complete lever sessions, from either
      starting state): the interaction flag, every toggled object and the
      lever angle end where they began, since each object is flipped the
      same number of times in each of the two starts. */
  method TwoSessions(c: SunCycle, startX: real, stopX: real, isOwner: bool)
    requires c.Valid()
    modifies c`isInteracting, c`lastInteractX, c.Toggled()
    ensures c.Valid() && c.isInteracting == old(c.isInteracting)
    ensures c.leverAngle == old(c.leverAngle)
    ensures forall o :: o in c.Toggled() ==> o.activeSelf == old(o.activeSelf)
  {
    var started := c.ToggleInteraction(startX, isOwner);
    var stopped := c.ToggleInteraction(stopX, isOwner);
    started := c.ToggleInteraction(startX, isOwner);
    stopped := c.ToggleInteraction(stopX, isOwner);
  }

  /** Frames on a participant that does not own the object: whatever the
      lever, the input and the frame times, its lever, local time and synced
      time stay as they were and it never asks the engine for anything:
      `requests` gathers every frame's effects and stays empty. */
  method ObserverFrames(c: SunCycle, inputs: seq<(real, real)>, cosDegrees: real -> real)
    returns (requests: seq<Effect>)
    requires c.Valid()
    modifies c`leverAngle, c`lastInteractX, c`localTimeElapsed, c`syncedTimeElapsed
    ensures c.Valid()
    ensures c.leverAngle == old(c.leverAngle)
    ensures c.localTimeElapsed == old(c.localTimeElapsed)
    ensures c.syncedTimeElapsed == old(c.syncedTimeElapsed)
    ensures requests == []
  {
    requests := [];
    var i := 0;
    while i < |inputs|
      invariant 0 <= i <= |inputs|
      invariant requests == []
      invariant c.Valid()
      invariant c.leverAngle == old(c.leverAngle)
      invariant c.localTimeElapsed == old(c.localTimeElapsed)
      invariant c.syncedTimeElapsed == old(c.syncedTimeElapsed)
    {
      var light, effects := c.Update(false, inputs[i].0, inputs[i].1, cosDegrees);
      requests := requests + effects;
      i := i + 1;
    }
  }

  /** Frames on the owner, starting inside the cycle, none longer than the
      cycle: the time stays inside [0, cycleLength) after every frame and the
      synced copy always equals it. */
  method OwnerFrames(c: SunCycle, inputs: seq<(real, real)>, cosDegrees: real -> real)
    requires c.Valid()
    requires 0.0 <= c.localTimeElapsed < c.cycleLength
    requires forall i :: 0 <= i < |inputs| ==> 0.0 <= inputs[i].1 <= c.cycleLength
    modifies c`leverAngle, c`lastInteractX, c`localTimeElapsed, c`syncedTimeElapsed
    ensures c.Valid()
    ensures 0.0 <= c.localTimeElapsed < c.cycleLength
    ensures |inputs| > 0 ==> c.syncedTimeElapsed == c.localTimeElapsed
  {
    var i := 0;
    while i < |inputs|
      invariant 0 <= i <= |inputs|
      invariant c.Valid()
      invariant 0.0 <= c.localTimeElapsed < c.cycleLength
      invariant i > 0 ==> c.syncedTimeElapsed == c.localTimeElapsed
    {
      var light, effects := c.Update(true, inputs[i].0, inputs[i].1, cosDegrees);
      i := i + 1;
    }
  }
}
