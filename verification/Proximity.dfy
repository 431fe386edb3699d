/** Requests for a buffer close to a target. */
module Proximity {
  import opened Machine
  import opened Settings
  import opened LocatorItems
  import opened OperatingSystem
  import opened Placeability
  import opened Runs

  ghost predicate Near(x: nat, target: nat, proximity: nat) {
    x - target <= proximity && target - x <= proximity
  }

  /** Everything that is left in an item found for a request from a proximity is near the target, through
      the saturation at both ends; and the requested bytes are there exactly when their number fits 32 bits. */
  lemma ServesNear(sys: SysInfo, v: LocatorItem, proximity: nat, target: nat, size: nat)
    requires v.Sound(sys) && sys.IsWord(target) && v.Serves(SearchFromProximity(sys, proximity, target, size))
    ensures forall x: nat :: v.baseAddress + v.position <= x < v.baseAddress + v.size ==> Near(x, target, proximity)
    ensures size <= v.BytesLeft() <==> size <= U32_MAX
  {
  }

  /** Whatever item a request is answered with, reused or new: every byte that is appended to it at any
      later time, by whichever holder, is near the target of that request. */
  lemma AppendedIsNear(sys: SysInfo, states: seq<World>, events: seq<Event>, i: nat, j: nat, proximity: nat,
                       target: nat, size: nat)
    requires Run(states, events) && i < j < |states| && sys.IsWord(target)
    requires events[i].Got? && events[i].want == SearchFromProximity(sys, proximity, target, size)
             && events[i].answer.Some?
    requires states[i].sys == sys
    ensures var k := events[i].answer.value;
      && k < |states[i + 1].items| && k < |states[j].items|
      && var v, w := states[i + 1].items[k], states[j].items[k];
      && (size <= v.BytesLeft() <==> size <= U32_MAX)
      && forall x: nat :: v.baseAddress + v.position <= x < w.baseAddress + w.position ==> Near(x, target, proximity)
  {
    assert Step(states[i], events[i], states[i + 1]);
    RunKeeps(states, events, i + 1, j);
    assert states[j].Valid();
    var k := events[i].answer.value;
    ServesNear(sys, states[i + 1].items[k], proximity, target, size);
    assert SameBuffer(states[i + 1].items[k], states[j].items[k]);
  }

  /** A private block placed with settings from a proximity is near the target as a whole, and it
      has the requested bytes exactly when their number fits 32 bits. */
  lemma AllocatedIsNear(sys: SysInfo, mapped: set<nat>, proximity: nat, target: nat, size: nat, a: nat)
    requires sys.Valid() && sys.IsWord(target)
    requires Placeable(sys, mapped, AllocatorFromProximity(sys, proximity, target, size).Sanitized(sys), a)
    ensures var v := AllocatorFromProximity(sys, proximity, target, size);
      && (forall x :: x in Block(a, v.Sanitized(sys).size) ==> Near(x, target, proximity))
      && (size <= v.Sanitized(sys).size <==> size <= U32_MAX)
  {
    var v := AllocatorFromProximity(sys, proximity, target, size);
    assert v.Words(sys);
    SanitizedSize(sys, v);
    forall x | x in Block(a, v.Sanitized(sys).size) ensures Near(x, target, proximity) {
    }
  }
}
