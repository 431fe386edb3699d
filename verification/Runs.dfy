/** Whole runs of requests, appends and releases on the flat list: buffers are static and what
    was appended is never overwritten. */
module Runs {
  import opened Machine
  import opened OperatingSystem
  import opened Settings
  import opened LocatorItems
  import opened Layout
  import opened Replies
  import opened Alignment

  /** What a caller can see: where the headers lie, the flat list, the memory map and the bytes. */
  datatype World = World(sys: SysInfo, headers: seq<nat>, items: seq<LocatorItem>, mapped: set<nat>,
                         bytes: map<nat, bv8>) {
    /** What every call keeps. */
    ghost predicate Valid() {
      Tidy(headers, items, mapped) && forall i :: 0 <= i < |items| ==> items[i].Sound(sys)
    }
  }

  datatype Event =
    | Got(want: BufferSearchSettings, registered: seq<LocatorItem>, answer: Option<nat>)
    | Moved(index: nat, alignment: nat)
    | Appended(index: nat, data: seq<bv8>)
    | Released(index: nat)

  /** What one call of the library does; an aligned request is two, the request and the move of the position. */
  ghost predicate Step(s: World, e: Event, t: World) {
    && t.sys == s.sys
    && match e
       case Got(want, registered, answer) =>
         t.bytes == s.bytes && Answered(s.items, registered, t.items, want, answer)
       case Moved(i, alignment) =>
         && t.bytes == s.bytes
         && i < |s.items| == |t.items| && t.items == s.items[i := t.items[i]]
         && AlignedTo(s.items[i], t.items[i], alignment)
       case Appended(i, data) =>
         i < |s.items| && |data| <= s.items[i].BytesLeft() && t == AfterAppend(s, i, data)
       case Released(i) =>
         && t.bytes == s.bytes
         && i < |s.items| && t.items == s.items[i := s.items[i].(isTaken := false)]
  }

  /** The world after an append. */
  ghost function AfterAppend(s: World, i: nat, data: seq<bv8>): World
    requires i < |s.items|
  {
    World(s.sys, s.headers, s.items[i := s.items[i].Advanced(|data|)], s.mapped,
          Written(s.bytes, s.items[i].baseAddress + s.items[i].position, data))
  }

  /** A byte behind the write position has been handed out; it lies in the buffer. */
  ghost predicate Used(v: LocatorItem, x: nat) {
    v.baseAddress <= x < v.baseAddress + v.position
  }

  /** The list has only grown, no item has changed its index, address or size, no position
      has gone back, and no byte behind a position has changed. */
  ghost predicate Kept(s: World, t: World) {
    && |s.items| <= |t.items|
    && (forall i :: 0 <= i < |s.items| ==> SameBuffer(s.items[i], t.items[i]))
    && forall i, x: nat :: 0 <= i < |s.items| && Used(s.items[i], x) && x in s.bytes ==>
         x in t.bytes && t.bytes[x] == s.bytes[x]
  }

  /** The list only grows in an answer, and at most one lock changes. */
  lemma AnsweredKeeps(before: seq<LocatorItem>, registered: seq<LocatorItem>, after: seq<LocatorItem>,
                      want: BufferSearchSettings, answer: Option<nat>)
    requires Answered(before, registered, after, want, answer)
    ensures |before| <= |after| && (answer.Some? ==> answer.value < |after|)
    ensures forall i :: 0 <= i < |before| ==>
              after[i] == if answer == Some(i) then before[i].(isTaken := true) else before[i]
    ensures answer.Some? && answer.value < |before| ==> !before[answer.value].isTaken
  {
    var all := before + registered;
    assert forall i :: 0 <= i < |before| ==> all[i] == before[i];
  }

  /** A used byte of one item is not a free byte of another. */
  lemma UsedApart(s: World, i: nat, k: nat, x: nat)
    requires s.Valid() && i < |s.items| && k < |s.items| && Used(s.items[k], x)
    ensures i != k ==> !(s.items[i].baseAddress <= x < s.items[i].baseAddress + s.items[i].size)
  {
    var n, b := |s.headers|, Blocks(s.headers, s.items);
    BlocksAt(s.headers, s.items);
    assert x in b[n + k];
    if i != k {
      assert b[n + i] !! b[n + k];
      assert x !in Block(s.items[i].baseAddress, s.items[i].size);
    }
  }

  lemma AppendedKeeps(s: World, e: Event, t: World)
    requires s.Valid() && Step(s, e, t) && e.Appended?
    ensures Kept(s, t)
  {
    forall k, x: nat | 0 <= k < |s.items| && Used(s.items[k], x) && x in s.bytes
      ensures x in t.bytes && t.bytes[x] == s.bytes[x]
    {
      UsedApart(s, e.index, k, x);
    }
  }

  lemma StepKeeps(s: World, e: Event, t: World)
    requires s.Valid() && t.Valid() && Step(s, e, t)
    ensures Kept(s, t)
  {
    match e
    case Got(want, registered, answer) => AnsweredKeeps(s.items, registered, t.items, want, answer);
    case Moved(_, _) =>
    case Appended(_, _) => AppendedKeeps(s, e, t);
    case Released(_) =>
  }

  /** A run of calls, each of which keeps the world valid. */
  ghost predicate Run(states: seq<World>, events: seq<Event>) {
    && |states| == |events| + 1
    && (forall i :: 0 <= i < |states| ==> states[i].Valid())
    && forall i :: 0 <= i < |events| ==> Step(states[i], events[i], states[i + 1])
  }

  lemma RunExtends(states: seq<World>, events: seq<Event>, e: Event, t: World)
    requires Run(states, events) && t.Valid() && Step(states[|events|], e, t)
    ensures Run(states + [t], events + [e])
  {
    var more, all := states + [t], events + [e];
    forall i | 0 <= i < |all| ensures Step(more[i], all[i], more[i + 1]) {
      if i < |events| {
        assert Step(states[i], events[i], states[i + 1]);
      }
    }
  }

  lemma {:induction false} RunKeeps(states: seq<World>, events: seq<Event>, i: nat, j: nat)
    requires Run(states, events) && i <= j < |states|
    ensures Kept(states[i], states[j])
    decreases j
  {
    if i < j {
      RunKeeps(states, events, i, j - 1);
      StepKeeps(states[j - 1], events[j - 1], states[j]);
    }
  }

  lemma AppendedNow(s: World, e: Event, t: World, k: nat)
    requires s.Valid() && Step(s, e, t) && e.Appended? && k < |e.data|
    ensures e.index < |s.items| && e.index < |t.items|
    ensures var x := s.items[e.index].baseAddress + s.items[e.index].position + k;
            Used(t.items[e.index], x) && x in t.bytes && t.bytes[x] == e.data[k]
  {
  }

  /** What was appended can be read back at its address at any later time. */
  lemma AppendedStays(states: seq<World>, events: seq<Event>, i: nat, j: nat, k: nat)
    requires Run(states, events) && i < j < |states| && events[i].Appended? && k < |events[i].data|
    ensures events[i].index < |states[i].items|
            && var v := states[i].items[events[i].index];
            var x := v.baseAddress + v.position + k;
            x in states[j].bytes && states[j].bytes[x] == events[i].data[k]
  {
    AppendedNow(states[i], events[i], states[i + 1], k);
    RunKeeps(states, events, i + 1, j);
  }
}
