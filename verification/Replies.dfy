/** What a request does, told on the flat list of all registered items. */
module Replies {
  import opened Machine
  import opened OperatingSystem
  import opened Settings
  import opened LocatorItems
  import opened LocatorHeaders

  function Concat(parts: seq<seq<LocatorItem>>): seq<LocatorItem> {
    if |parts| == 0 then [] else Concat(parts[..|parts| - 1]) + parts[|parts| - 1]
  }

  /** Replacing one part replaces one stretch of the whole. */
  lemma ConcatReplace(parts: seq<seq<LocatorItem>>, k: nat, part: seq<LocatorItem>) returns (rest: seq<LocatorItem>)
    requires k < |parts|
    ensures Concat(parts) == Concat(parts[..k]) + parts[k] + rest
    ensures Concat(parts[k := part]) == Concat(parts[..k]) + part + rest
  {
    var n := |parts| - 1;
    if k == n {
      rest := [];
      assert parts[k := part][..n] == parts[..n];
    } else {
      var front := parts[..n];
      rest := ConcatReplace(front, k, part);
      rest := rest + parts[n];
      assert front[..k] == parts[..k];
      assert parts[k := part][..n] == front[k := part];
    }
  }

  lemma ConcatAppend(parts: seq<seq<LocatorItem>>, part: seq<LocatorItem>)
    ensures Concat(parts + [part]) == Concat(parts) + part
  {
    assert (parts + [part])[..|parts|] == parts;
  }

  lemma {:induction false} ConcatFrom(parts: seq<seq<LocatorItem>>, v: LocatorItem) returns (k: nat)
    requires v in Concat(parts)
    ensures k < |parts| && v in parts[k]
  {
    k := |parts| - 1;
    if v !in parts[k] {
      k := ConcatFrom(parts[..k], v);
    }
  }

  /** Changing one item in one part changes one item of the whole. */
  lemma ConcatUpdate(parts: seq<seq<LocatorItem>>, k: nat, slot: nat, v: LocatorItem)
    requires k < |parts| && slot < |parts[k]|
    ensures var i := |Concat(parts[..k])| + slot;
            i < |Concat(parts)| && Concat(parts)[i] == parts[k][slot]
            && Concat(parts[k := parts[k][slot := v]]) == Concat(parts)[i := v]
  {
    var rest := ConcatReplace(parts, k, parts[k][slot := v]);
    var before, part := Concat(parts[..k]), parts[k];
    assert before + part[slot := v] + rest == (before + part + rest)[|before| + slot := v];
  }

  /** How a request is answered on the flat list. New locators bring `registered` buffers,
      which happens only when nothing before serves the request. Then the first unlocked item
      of the whole list that serves it is locked; only if there is none, one new item that
      serves it is appended, already locked. Nothing else changes. */
  ghost predicate Answered(before: seq<LocatorItem>, registered: seq<LocatorItem>, after: seq<LocatorItem>,
                           want: BufferSearchSettings, answer: Option<nat>)
  {
    var all := before + registered;
    && (registered != [] ==> NoneUsable(before, want))
    && match answer
       case None => NoneUsable(all, want) && after == all
       case Some(i) =>
         && i < |after| && after[i].isTaken && after[i].Serves(want)
         && if i < |all| then FirstUsable(all, want, i) && after == Locked(all, i)
            else NoneUsable(all, want) && after == all + [after[i]] && after[i].position == 0
  }

  lemma LockedInside(before: seq<LocatorItem>, middle: seq<LocatorItem>, rest: seq<LocatorItem>,
                     want: BufferSearchSettings, slot: nat)
    requires NoneUsable(before, want) && FirstUsable(middle, want, slot)
    ensures Answered(before + middle + rest, [], before + Locked(middle, slot) + rest, want, Some(|before| + slot))
  {
    var all := before + middle + rest;
    assert all + [] == all;
    var i := |before| + slot;
    forall j | 0 <= j < i ensures !Usable(all[j], want) {
      if |before| <= j {
        assert middle[..slot][j - |before|] == all[j];
      }
    }
    assert before + Locked(middle, slot) + rest == Locked(all, i);
  }

  /** Scanning one part, when those before it have nothing usable. */
  lemma ScannedPart(parts: seq<seq<LocatorItem>>, k: nat, part: seq<LocatorItem>, want: BufferSearchSettings,
                    found: Option<nat>)
    requires k < |parts| && NoneUsable(Concat(parts[..k]), want)
    requires match found
             case None => part == parts[k] && NoneUsable(part, want)
             case Some(slot) => FirstUsable(parts[k], want, slot) && part == Locked(parts[k], slot)
    ensures found.None? ==> parts[k := part] == parts && NoneUsable(Concat(parts[..k + 1]), want)
    ensures found.Some? ==> |Concat(parts[..k])| + found.value < |Concat(parts)|
                            && Concat(parts[k := part]) == Locked(Concat(parts), |Concat(parts[..k])| + found.value)
    ensures found.Some? ==>
              Answered(Concat(parts), [], Concat(parts[k := part]), want, Some(|Concat(parts[..k])| + found.value))
  {
    var rest := ConcatReplace(parts, k, part);
    if found.None? {
      assert parts[..k + 1] == parts[..k] + [part];
      ConcatAppend(parts[..k], part);
    } else {
      LockedInside(Concat(parts[..k]), parts[k], rest, want, found.value);
      assert Concat(parts) + [] == Concat(parts);
    }
  }

  /** Adding to the last part adds to the whole. */
  lemma GrownPart(parts: seq<seq<LocatorItem>>, k: nat, added: seq<LocatorItem>)
    requires k == |parts| - 1
    ensures parts[k := parts[k] + added][..k] == parts[..k]
    ensures Concat(parts[k := parts[k] + added]) == Concat(parts) + added
    ensures |Concat(parts)| == |Concat(parts[..k])| + |parts[k]|
  {
    assert parts[k := parts[k] + added][..k] == parts[..k];
    assert Concat(parts[..k]) + (parts[k] + added) == Concat(parts[..k]) + parts[k] + added;
  }

  lemma AppendedAtEnd(before: seq<LocatorItem>, v: LocatorItem, want: BufferSearchSettings)
    requires NoneUsable(before, want) && v.isTaken && v.position == 0 && v.Serves(want)
    ensures Answered(before, [], before + [v], want, Some(|before|))
  {
    assert before + [] == before;
  }

  /** Either no locator was created, or one that brings `registered` buffers was linked to the last one. */
  ghost predicate Extended(sys: SysInfo, before: seq<LocatorHeader>, after: seq<LocatorHeader>,
                           registered: seq<LocatorItem>) {
    || (after == before && registered == [])
    || (&& |after| == |before| + 1 && after == before + [after[|before|]]
        && LENGTH <= sys.granularity
        && registered == Chunks(after[|before|].thisAddress + LENGTH, sys.granularity - LENGTH))
  }

  /** What a request can change: the locators, what is registered in them, and the memory map. */
  datatype Snapshot = Snapshot(chain: seq<LocatorHeader>, parts: seq<seq<LocatorItem>>, mapped: set<nat>)

  /** The granule of a locator that has been created, if there is one. */
  ghost function NewGranule(sys: SysInfo, was: Snapshot, now: Snapshot): set<nat> {
    if |now.chain| == |was.chain| + 1 then Block(now.chain[|was.chain|].thisAddress, sys.granularity) else {}
  }

  /** The block of an answer that lies behind the first `count` items. */
  ghost function NewBlock(items: seq<LocatorItem>, count: nat, answer: Option<nat>): set<nat> {
    if answer.Some? && count <= answer.value < |items| then
      Block(items[answer.value].baseAddress, items[answer.value].size)
    else {}
  }

  /** A whole request: the flat list is answered, at most one locator is created, and only when the last one
      was full. The map changes by exactly the granule of that locator and the block of a new item, which
      were not mapped and do not overlap. */
  ghost predicate Reply(sys: SysInfo, was: Snapshot, now: Snapshot, want: BufferSearchSettings,
                        registered: seq<LocatorItem>, answer: Option<nat>)
  {
    && Extended(sys, was.chain, now.chain, registered)
    && (|was.chain| != |now.chain| ==> 0 < |was.parts| && |was.parts[|was.parts| - 1]| >= MaxItemCount(sys))
    && Answered(Concat(was.parts), registered, Concat(now.parts), want, answer)
    && (answer.Some? && answer.value < |Concat(was.parts)| ==> |now.chain| == |was.chain|)
    && MapChange(was.mapped, now.mapped, NewGranule(sys, was, now),
                 NewBlock(Concat(now.parts), |Concat(was.parts)| + |registered|, answer))
  }

  ghost predicate MapChange(was: set<nat>, now: set<nat>, granule: set<nat>, block: set<nat>) {
    now == was + granule + block && granule !! was && block !! was + granule
  }

  /** One step of the walk: the locator at `k` is full and so are its items for this request;
      behind the last one a new locator has been linked. */
  ghost predicate Passed(sys: SysInfo, was: Snapshot, now: Snapshot, want: BufferSearchSettings, k: nat,
                         brought: seq<LocatorItem>) {
    && k < |was.chain| == |was.parts| && |was.parts[k]| >= MaxItemCount(sys)
    && NoneUsable(Concat(was.parts[..k + 1]), want)
    && if k < |was.chain| - 1 then now == was && brought == []
       else Extended(sys, was.chain, now.chain, brought) && |was.chain| != |now.chain|
            && now.parts == was.parts + [brought] && |brought| < MaxItemCount(sys)
            && MapChange(was.mapped, now.mapped, NewGranule(sys, was, now), {})
  }

  /** A reply after a step is a reply. */
  lemma PassedThenReply(sys: SysInfo, was: Snapshot, mid: Snapshot, now: Snapshot, want: BufferSearchSettings, k: nat,
                        brought: seq<LocatorItem>, registered: seq<LocatorItem>, answer: Option<nat>)
    requires Passed(sys, was, mid, want, k, brought) && Reply(sys, mid, now, want, registered, answer)
    ensures Reply(sys, was, now, want, brought + registered, answer)
  {
    if k < |was.chain| - 1 {
      assert brought + registered == registered;
    } else {
      var before := Concat(was.parts);
      assert was.parts[..k + 1] == was.parts;
      ConcatAppend(was.parts, brought);
      assert mid.parts[|mid.parts| - 1] == brought;
      assert registered == [] && brought + registered == brought && before + brought + [] == before + brought;
      assert NewGranule(sys, mid, now) == {} && NewGranule(sys, was, now) == NewGranule(sys, was, mid);
    }
  }

  /** After a fruitless walk to the end, nothing was done. */
  lemma StillNothing(sys: SysInfo, was: Snapshot, want: BufferSearchSettings, k: nat)
    requires k == |was.parts| - 1 && NoneUsable(Concat(was.parts[..k + 1]), want)
    ensures Reply(sys, was, was, want, [], None)
  {
    assert was.parts[..k + 1] == was.parts;
    assert Concat(was.parts) + [] == Concat(was.parts);
  }
}
