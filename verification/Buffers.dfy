/** The public entry points: the chain of locators as one flat, append-only list of buffers. */
module Buffers {
  import opened Machine
  import opened OperatingSystem
  import opened Settings
  import opened LocatorItems
  import opened LocatorHeaders
  import opened Layout
  import opened Replies
  import opened Alignment
  import opened Runs

  datatype BufferSearchError = CannotPlaceBuffer | OutOfMemory

  ghost function Addresses(chain: seq<LocatorHeader>): seq<nat> {
    seq(|chain|, i requires 0 <= i < |chain| => chain[i].thisAddress)
  }

  class BufferLocators {
    const os: Os
    const memory: Memory
    /** The first locator. */
    const locator: LocatorHeader

    ghost var chain: seq<LocatorHeader>
    /** The locators and their slots. */
    ghost var repr: set<object>
    /** What is registered, locator by locator. */
    ghost var parts: seq<seq<LocatorItem>>

    /** The calls so far, and what could be seen before the first and after each of them. */
    ghost var events: seq<Event>
    ghost var history: seq<World>

    /** The locators, linked in order; every one with a successor is full, and none is locked. */
    ghost predicate Linked()
      reads this`chain, this`repr, this`parts, chain, repr
    {
      && memory !in repr && this !in repr && |chain| == |parts| > 0 && chain[0] == locator
      && (forall i: nat :: i < |chain| ==> InOrder(i))
      && (forall i: nat, j: nat :: i < j < |chain| ==> Apart(i, j))
      && (forall i: nat :: i < |chain| - 1 ==> FullAndLinked(i))
      && chain[|chain| - 1].nextLocator == null
    }

    ghost predicate InOrder(i: nat)
      requires i < |chain| == |parts|
      reads this`chain, this`repr, this`parts, chain[i], repr
    {
      var h := chain[i];
      h in repr && h.items in repr && h.Valid(os.sys) && !h.isLocked && parts[i] == h.Contents()
    }

    ghost predicate Apart(i: nat, j: nat)
      requires i < j < |chain|
      reads this`chain
    {
      chain[i] != chain[j] && chain[i].items != chain[j].items
    }

    ghost predicate FullAndLinked(i: nat)
      requires i < |chain| - 1
      reads this`chain, chain
    {
      chain[i].nextLocator == chain[i + 1] && chain[i].IsFull()
    }

    ghost predicate Valid()
      reads this`chain, this`repr, this`parts, os, chain, repr
    {
      os.Valid() && RoomBesideChunks(os.sys) && Linked() && Tidy(Addresses(chain), State(), os.mapped)
    }

    /** All registered items: the flat list of buffers. */
    ghost function State(): seq<LocatorItem>
      reads this`parts
    {
      Concat(parts)
    }

    ghost function Now(): Snapshot
      reads this`chain, this`parts, os
    {
      Snapshot(chain, parts, os.mapped)
    }

    /** What a caller can see. */
    ghost function Current(): World
      reads this`chain, this`parts, os, memory
    {
      World(os.sys, Addresses(chain), State(), os.mapped, memory.bytes)
    }

    /** The locator at `k` has no slot left. */
    ghost predicate PartFull(k: nat)
      reads this`parts
    {
      k < |parts| && |parts[k]| >= MaxItemCount(os.sys)
    }

    /** How many items the locators before the one at `k` have. */
    ghost function Before(k: nat): nat
      requires k <= |parts|
      reads this`parts
    {
      |Concat(parts[..k])|
    }

    /** The slot behind a token, seen in the flat list. */
    ghost predicate PointsInto(token: SafeLocatorItem, index: nat, k: nat)
      reads this`chain, this`parts
    {
      && k < |chain| == |parts| && token.slots == chain[k].items && token.index < |parts[k]|
      && index == Before(k) + token.index < |State()| && State()[index] == parts[k][token.index]
    }

    /** The history is a run of calls that leads to what can be seen now. */
    ghost predicate Recorded()
      reads this`chain, this`parts, this`events, this`history, os, memory
    {
      Run(history, events) && history[|events|] == Current()
    }

    /** The first locator, set up in a mapping of one granule at `address`. */
    constructor (os: Os, memory: Memory, address: nat)
      requires os.Valid() && RoomBesideChunks(os.sys)
      requires 0 < address && address + os.sys.granularity <= os.sys.WordMax()
      requires Block(address, os.sys.granularity) <= os.mapped
      ensures this.os == os && this.memory == memory && Valid() && fresh(repr)
      ensures chain == [locator] && locator.thisAddress == address
      ensures parts == [Chunks(address + LENGTH, os.sys.granularity - LENGTH)]
      ensures events == [] && history == [Current()] && Recorded()
    {
      var header := SetUpLocator(os.sys, address);
      this.os := os;
      this.memory := memory;
      locator := header;
      chain := [header];
      repr := {header, header.items};
      parts := [header.Contents()];
      new;
      FirstLocator(os.sys.granularity, address, os.mapped);
      assert State() == parts[0] by {
        ConcatAppend([], parts[0]);
        assert parts == [] + [parts[0]];
      }
      assert Addresses(chain) == [address];
      assert InOrder(0);
      AllSound();
      events, history := [], [Current()];
    }

    /** What the locator at `k` is when the chain is valid, and that the others are apart from it. */
    lemma About(k: nat)
      requires Valid() && k < |chain|
      ensures InOrder(k) && (k < |chain| - 1 ==> FullAndLinked(k))
      ensures forall i :: 0 <= i < |chain| && i != k ==> chain[i] != chain[k] && chain[i].items != chain[k].items
      ensures forall i :: 0 <= i < |chain| ==> chain[i] in repr && chain[i].items in repr
    {
      forall i | 0 <= i < |chain| ensures i != k ==> chain[i] != chain[k] && chain[i].items != chain[k].items {
        assert i < k ==> Apart(i, k);
        assert k < i ==> Apart(k, i);
      }
      forall i | 0 <= i < |chain| ensures chain[i] in repr && chain[i].items in repr {
        assert InOrder(i);
      }
    }

    /** Every item of every locator is sound, and so what a caller can see is valid. */
    lemma AllSound()
      requires Valid()
      ensures Current().Valid()
      ensures forall v :: v in State() ==> v.Sound(os.sys)
    {
      forall v | v in State() ensures v.Sound(os.sys) {
        var k := ConcatFrom(parts, v);
        assert InOrder(k);
        var i :| 0 <= i < |parts[k]| && parts[k][i] == v;
        assert chain[k].items[i].Sound(os.sys);
      }
      var items := State();
      assert Tidy(Addresses(chain), items, os.mapped);
      forall i | 0 <= i < |items| ensures items[i].Sound(os.sys) {
        assert items[i] in items;
      }
    }

    /** Notes a call that led from `was` to what can be seen now. */
    ghost method Record(e: Event, was: World)
      requires Valid() && Current().Valid() && Step(was, e, Current())
      modifies this`events, this`history
      ensures Valid() && Current() == old(Current())
      ensures events == old(events) + [e] && history == old(history) + [Current()]
      ensures old(Run(history, events) && history[|events|] == was) ==> Recorded()
    {
      if Run(history, events) && history[|events|] == was {
        RunExtends(history, events, e, Current());
      }
      events, history := events + [e], history + [Current()];
      StillValid();
    }

    /** Nothing that matters to the chain has changed. */
    twostate lemma StillValid()
      requires old(Valid()) && unchanged(`chain) && unchanged(`repr) && unchanged(`parts) && unchanged(os)
      requires forall i :: 0 <= i < |chain| ==> unchanged(chain[i]) && unchanged(chain[i].items)
      ensures Valid()
    {
      forall i: nat | i < |chain| ensures InOrder(i) {
        assert old(InOrder(i));
      }
      forall i: nat, j: nat | i < j < |chain| ensures Apart(i, j) {
        assert old(Apart(i, j));
      }
      forall i: nat | i < |chain| - 1 ensures FullAndLinked(i) {
        assert old(InOrder(i) && FullAndLinked(i));
      }
      assert old(InOrder(|chain| - 1));
    }

    /** Only the locator at `k` has changed, and `parts` has followed. */
    twostate lemma LocatorChanged(k: nat)
      requires old(Valid()) && k < |chain|
      requires unchanged(`chain) && unchanged(`repr) && os.Valid()
      requires forall i :: 0 <= i < |chain| && i != k ==> unchanged(chain[i]) && unchanged(chain[i].items)
      requires chain[k].Valid(os.sys) && !chain[k].isLocked && chain[k].nextLocator == old(chain[k].nextLocator)
      requires old(chain[k].numItems) <= chain[k].numItems
      requires parts == old(parts)[k := chain[k].Contents()] && Tidy(Addresses(chain), State(), os.mapped)
      ensures Valid()
    {
      forall i: nat | i < |chain| ensures InOrder(i) {
        assert old(InOrder(i));
      }
      forall i: nat, j: nat | i < j < |chain| ensures Apart(i, j) {
        assert old(Apart(i, j));
      }
      forall i: nat | i < |chain| - 1 ensures FullAndLinked(i) {
        assert old(InOrder(i) && FullAndLinked(i));
        assert InOrder(i);
      }
    }

    /** A new locator has been linked to the last one, which is full. */
    twostate lemma ChainExtended(new h: LocatorHeader)
      requires old(Valid() && chain[|chain| - 1].IsFull())
      requires os.Valid() && chain == old(chain) + [h] && repr == old(repr) + {h, h.items}
      requires forall i :: 0 <= i < |old(chain)| ==> chain[i] != h && chain[i].items != h.items
      requires forall i :: 0 <= i < |old(chain)| - 1 ==> unchanged(chain[i])
      requires forall i :: 0 <= i < |old(chain)| ==> unchanged(chain[i].items)
      requires var last := old(chain[|chain| - 1]);
               last.nextLocator == h && !last.isLocked && last.numItems == old(last.numItems)
      requires NewLocator(os.sys, h) && parts == old(parts) + [h.Contents()]
      requires Block(h.thisAddress, os.sys.granularity) !! old(os.mapped)
      requires os.mapped == old(os.mapped) + Block(h.thisAddress, os.sys.granularity)
      ensures Valid()
    {
      var n := |old(chain)|;
      assert Tidy(Addresses(chain), State(), os.mapped) by {
        ConcatAppend(old(parts), h.Contents());
        TidyLocator(Addresses(old(chain)), old(State()), h.thisAddress, os.sys.granularity, old(os.mapped));
        assert Addresses(chain) == Addresses(old(chain)) + [h.thisAddress];
      }
      forall i: nat | i < n + 1 ensures InOrder(i) {
        if i < n {
          assert old(InOrder(i));
        }
      }
      forall i: nat, j: nat | i < j < n + 1 ensures Apart(i, j) {
        assert j < n ==> old(Apart(i, j));
      }
      forall i: nat | i < n ensures FullAndLinked(i) {
        assert i < n - 1 ==> old(InOrder(i) && FullAndLinked(i) && Apart(i, n - 1));
      }
    }

    /** Looks for an item in one locator, when those before it have none that is usable. */
    method LockInLocator(want: BufferSearchSettings, header: LocatorHeader, ghost k: nat)
      returns (r: Option<SafeLocatorItem>, ghost index: nat)
      requires Valid() && k < |chain| && chain[k] == header
      requires NoneUsable(Concat(parts[..k]), want)
      modifies this`parts, header.items
      ensures Valid()
      ensures r.None? ==> parts == old(parts) && NoneUsable(Concat(parts[..k + 1]), want)
      ensures r.Some? ==> Answered(old(State()), [], State(), want, Some(index)) && index < |old(State())|
      ensures r.Some? ==> PointsInto(r.value, index, k)
    {
      About(k);
      r := header.GetFirstAvailableItemLocked(os.sys, want);
      ScannedPart(parts, k, header.Contents(), want, if r.None? then None else Some(r.value.index));
      index := if r.None? then 0 else Before(k) + r.value.index;
      assert parts[k := header.Contents()][..k] == parts[..k];
      parts := parts[k := header.Contents()];
      if r.Some? {
        TidyLocked(Addresses(chain), old(State()), index, os.mapped);
        assert State() == Locked(old(State()), index);
        ConcatUpdate(parts, k, r.value.index, parts[k][r.value.index]);
      } else {
        assert State() == old(State());
      }
      LocatorChanged(k);
    }

    /** Registers fresh memory in the locator at `k`, if that has a slot left; then it is the last one. */
    method RegisterInLocator(want: BufferSearchSettings, header: LocatorHeader, ghost k: nat)
      returns (r: Result<SafeLocatorItem, ItemAllocationError>, ghost v: LocatorItem)
      requires Valid() && want.Words(os.sys) && k < |chain| && chain[k] == header
      modifies this`parts, header`isLocked, header`numItems, header.items, os
      ensures Valid()
      ensures r.Err? ==> parts == old(parts) && os.mapped == old(os.mapped)
      ensures r == Err(NoSpaceInHeader) ==> PartFull(k)
      ensures r != Err(NoSpaceInHeader) ==> k == |chain| - 1
      ensures os.granting && r == Err(CannotAllocateMemory) ==> NoRoomFor(os.sys, os.mapped, want)
      ensures r.Ok? ==> PointsInto(r.value, |old(State())|, k) && State() == old(State()) + [v]
                        && NewBuffer(os, want, v, true)
    {
      About(k);
      r := header.TryAllocateItem(os, want);
      v := NewItem(0, 0);
      if r.Ok? {
        v := header.items[r.value.index];
        GrownPart(parts, k, [v]);
        parts := parts[k := parts[k] + [v]];
        ConcatUpdate(parts, k, r.value.index, v);
        TidyRegistered(Addresses(chain), old(State()), v, old(os.mapped));
      }
      LocatorChanged(k);
    }

    /** Tries one locator: first its items, then a new one. The answer is final unless the locator is full. */
    method TryLocator(want: BufferSearchSettings, header: LocatorHeader, ghost k: nat)
      returns (r: Result<SafeLocatorItem, ItemAllocationError>, ghost index: nat)
      requires Valid() && want.Words(os.sys) && k < |chain| && chain[k] == header
      requires NoneUsable(Concat(parts[..k]), want)
      modifies this`parts, header`isLocked, header`numItems, header.items, os
      ensures Valid()
      ensures r != Err(NoSpaceInHeader) ==>
                Reply(os.sys, old(Now()), Now(), want, [], if r.Ok? then Some(index) else None)
      ensures r.Ok? ==> PointsInto(r.value, index, k)
      ensures os.granting && r == Err(CannotAllocateMemory) ==> NoRoomFor(os.sys, os.mapped, want)
      ensures r == Err(NoSpaceInHeader) ==>
                Now() == old(Now()) && PartFull(k) && NoneUsable(Concat(parts[..k + 1]), want)
    {
      var item;
      item, index := LockInLocator(want, header, k);
      if item.Some? {
        return Ok(item.value), index;
      }
      if k == |chain| - 1 {
        assert parts[..k + 1] == parts;
      }
      index := |State()|;
      ghost var before := State();
      ghost var v;
      r, v := RegisterInLocator(want, header, k);
      if r.Ok? {
        AppendedAtEnd(before, v, want);
      } else {
        assert before + [] == before;
      }
    }

    /** Only a locator that has just been created joins the representation. */
    twostate predicate ReprGrown()
      reads this`chain, this`repr
    {
      if chain == old(chain) then repr == old(repr)
      else
        && |chain| > 0 && var h := chain[|chain| - 1];
           repr == old(repr) + {h, h.items} && fresh(h) && fresh(h.items)
    }

    /** The locator after the one at `k`, which is full; a new one is created only after the last. */
    method NextLocator(want: BufferSearchSettings, header: LocatorHeader, ghost k: nat)
      returns (r: Option<LocatorHeader>, ghost brought: seq<LocatorItem>)
      requires Valid() && k < |chain| && chain[k] == header && PartFull(k)
      requires NoneUsable(Concat(parts[..k + 1]), want)
      modifies this`chain, this`repr, this`parts, header`isLocked, header`nextLocator, os
      ensures Valid() && ReprGrown()
      ensures r.None? ==> k == |chain| - 1 && Now() == old(Now())
      ensures r.Some? ==> Passed(os.sys, old(Now()), Now(), want, k, brought)
      ensures r.Some? ==> k + 1 < |chain| && r.value == chain[k + 1] && parts[..k + 1] == old(parts[..k + 1])
    {
      About(k);
      brought := [];
      r := header.GetNextLocator(os);
      if k == |chain| - 1 && r.Some? {
        brought := r.value.Contents();
        chain := chain + [r.value];
        repr := repr + {r.value, r.value.items};
        parts := parts + [brought];
        ChainExtended(r.value);
        assert parts[..k + 1] == old(parts[..k + 1]);
      } else {
        LocatorChanged(k);
      }
    }

    /** Tries the locators from the one at `k` on, when those before it have nothing usable. Each
        call moves on to the next locator or to the one it has just created, which is never full. */
    method GetBufferRecursive(want: BufferSearchSettings, header: LocatorHeader, ghost k: nat)
      returns (r: Result<SafeLocatorItem, BufferSearchError>, ghost registered: seq<LocatorItem>,
               ghost index: nat, ghost place: nat)
      requires Valid() && want.Words(os.sys) && k < |chain| && chain[k] == header
      requires NoneUsable(Concat(parts[..k]), want)
      modifies this`chain, this`repr, this`parts, repr, os
      ensures Valid() && ReprGrown()
      ensures Reply(os.sys, old(Now()), Now(), want, registered, if r.Ok? then Some(index) else None)
      ensures r.Ok? ==> PointsInto(r.value, index, place)
      ensures os.granting && r == Err(CannotPlaceBuffer) ==> NoRoomFor(os.sys, os.mapped, want)
      decreases |parts| - k + (if PartFull(|parts| - 1) then |parts| + 1 else 0), 1
    {
      About(k);
      registered, place := [], k;
      var item;
      item, index := TryLocator(want, header, k);
      match item {
        case Ok(token) =>
          r := Ok(token);
        case Err(CannotAllocateMemory) =>
          r := Err(CannotPlaceBuffer);
        case Err(NoSpaceInHeader) =>
          r, registered, index, place := TryNextLocator(want, header, k);
      }
    }

    /** Goes on behind the locator at `k`, which is full. */
    method TryNextLocator(want: BufferSearchSettings, header: LocatorHeader, ghost k: nat)
      returns (r: Result<SafeLocatorItem, BufferSearchError>, ghost registered: seq<LocatorItem>,
               ghost index: nat, ghost place: nat)
      requires Valid() && want.Words(os.sys) && k < |chain| && chain[k] == header && PartFull(k)
      requires NoneUsable(Concat(parts[..k + 1]), want)
      modifies this`chain, this`repr, this`parts, repr, os
      ensures Valid() && ReprGrown()
      ensures Reply(os.sys, old(Now()), Now(), want, registered, if r.Ok? then Some(index) else None)
      ensures r.Ok? ==> PointsInto(r.value, index, place)
      ensures os.granting && r == Err(CannotPlaceBuffer) ==> NoRoomFor(os.sys, os.mapped, want)
      decreases |parts| - k + (if PartFull(|parts| - 1) then |parts| + 1 else 0), 0
    {
      About(k);
      ghost var was := Now();
      var next;
      next, registered := NextLocator(want, header, k);
      if next.None? {
        StillNothing(os.sys, was, want, k);
        r, registered, index, place := Err(OutOfMemory), [], 0, 0;
      } else {
        ghost var mid, brought := Now(), registered;
        assert |registered| < MaxItemCount(os.sys);
        assert !PartFull(|parts| - 1) || |parts| == |old(parts)|;
        r, registered, index, place := GetBufferRecursive(want, next.value, k + 1);
        PassedThenReply(os.sys, was, mid, Now(), want, k, brought, registered, if r.Ok? then Some(index) else None);
        registered := brought + registered;
      }
    }

    /** Gets a buffer for a request: the flat list answers it. */
    method GetBuffer(want: BufferSearchSettings)
      returns (r: Result<SafeLocatorItem, BufferSearchError>, ghost registered: seq<LocatorItem>,
               ghost index: nat, ghost place: nat)
      requires Valid() && want.Words(os.sys)
      modifies this`chain, this`repr, this`parts, this`events, this`history, repr, os
      ensures Valid() && ReprGrown() && Current().Valid()
      ensures Reply(os.sys, old(Now()), Now(), want, registered, if r.Ok? then Some(index) else None)
      ensures r.Ok? ==> PointsInto(r.value, index, place)
      ensures os.granting && r == Err(CannotPlaceBuffer) ==> NoRoomFor(os.sys, os.mapped, want)
      ensures events == old(events) + [Got(want, registered, if r.Ok? then Some(index) else None)]
      ensures old(Recorded()) ==> Recorded()
      ensures Step(old(Current()), Got(want, registered, if r.Ok? then Some(index) else None), Current())
    {
      ghost var was := Current();
      r, registered, index, place := GetBufferRecursive(want, locator, 0);
      AllSound();
      Record(Got(want, registered, if r.Ok? then Some(index) else None), was);
    }

    /** One item has been replaced by one of the same address and size. */
    twostate lemma ItemChanged(token: SafeLocatorItem, new index: nat, new place: nat)
      requires old(Valid() && PointsInto(token, index, place)) && token.index < token.slots.Length
      requires unchanged(`chain) && unchanged(`repr) && os.Valid() && os.mapped == old(os.mapped)
      requires forall i :: 0 <= i < |chain| ==> unchanged(chain[i]) && (i != place ==> unchanged(chain[i].items))
      requires var v := token.slots[token.index];
               && v.Sound(os.sys)
               && v.baseAddress == old(State()[index].baseAddress) && v.size == old(State()[index].size)
               && token.slots[..] == old(token.slots[..])[token.index := v]
               && parts == old(parts[place := parts[place][token.index := v]])
      ensures Valid() && PointsInto(token, index, place) && State() == old(State())[index := token.slots[token.index]]
    {
      assert old(InOrder(place));
      ConcatUpdate(old(parts), place, token.index, token.slots[token.index]);
      assert parts[..place] == old(parts[..place]);
      assert chain[place].Contents() == parts[place];
      TidyMoved(Addresses(chain), old(State()), State(), os.mapped);
      LocatorChanged(place);
    }

    /** Appends to a held item. */
    method AppendBytes(token: SafeLocatorItem, data: seq<bv8>, ghost index: nat, ghost place: nat)
      returns (address: nat)
      requires Valid() && PointsInto(token, index, place) && |data| <= State()[index].BytesLeft()
      modifies this`parts, this`events, this`history, token.slots, memory
      ensures Valid() && PointsInto(token, index, place) && Current().Valid()
      ensures address == old(State()[index].baseAddress + State()[index].position)
      ensures events == old(events) + [Appended(index, data)]
      ensures old(Recorded()) ==> Recorded()
      ensures Step(old(Current()), Appended(index, data), Current())
    {
      About(place);
      ghost var was := Current();
      address := LocatorItems.AppendBytes(token.slots, token.index, memory, data);
      parts := parts[place := parts[place][token.index := token.slots[token.index]]];
      ItemChanged(token, index, place);
      assert State() == was.items[index := was.items[index].Advanced(|data|)];
      assert memory.bytes == Written(was.bytes, address, data);
      assert Current() == AfterAppend(was, index, data);
      AllSound();
      Record(Appended(index, data), was);
    }

    /** Gives a held item back. */
    method Release(token: SafeLocatorItem, ghost index: nat, ghost place: nat)
      requires Valid() && PointsInto(token, index, place)
      modifies this`parts, this`events, this`history, token.slots
      ensures Valid() && PointsInto(token, index, place) && Current().Valid()
      ensures events == old(events) + [Released(index)]
      ensures old(Recorded()) ==> Recorded()
      ensures Step(old(Current()), Released(index), Current())
    {
      About(place);
      ghost var was := Current();
      token.Drop();
      parts := parts[place := parts[place][token.index := token.slots[token.index]]];
      ItemChanged(token, index, place);
      AllSound();
      Record(Released(index), was);
    }

    /** Moves the position of the item found up to the next aligned address, which nothing checks. The chain stays
        valid if that address lies in the buffer; it does, with the requested bytes behind it, if the
        sum fits 32 bits. */
    method AlignItem(token: SafeLocatorItem, want: BufferSearchSettings, alignment: nat, ghost index: nat,
                     ghost place: nat)
      requires Valid() && PointsInto(token, index, place) && alignment <= U32_MAX
      requires State()[index].Serves(Enlarged(want, alignment))
      modifies this`parts, this`events, this`history, token.slots
      ensures unchanged(`chain) && unchanged(`repr) && unchanged(os) && token.index < token.slots.Length
      ensures token.slots[token.index] == old(AlignedItem(os.sys, State()[index], alignment))
      ensures token.slots[..] == old(token.slots[..])[token.index := token.slots[token.index]]
      ensures old(AlignsInside(State()[index], alignment)) ==>
                && Valid() && PointsInto(token, index, place) && Current().Valid()
                && events == old(events) + [Moved(index, alignment)] && (old(Recorded()) ==> Recorded())
                && Step(old(Current()), Moved(index, alignment), Current())
      ensures want.size + MaxMisalignment(alignment) <= U32_MAX ==>
                old(AlignsInside(State()[index], alignment)) && State()[index].Serves(want)
    {
      About(place);
      ghost var v, was := State()[index], Current();
      AlignedItemExact(os.sys, v, alignment);
      if want.size + MaxMisalignment(alignment) <= U32_MAX {
        AlignedServes(os.sys, v, want, alignment);
      }
      token.slots[token.index] := AlignedItem(os.sys, token.slots[token.index], alignment);
      parts := parts[place := parts[place][token.index := token.slots[token.index]]];
      if AlignsInside(v, alignment) {
        ItemChanged(token, index, place);
        AllSound();
        Record(Moved(index, alignment), was);
      }
    }

    /** Gets a buffer whose next write address is aligned: the enlarged request is answered, and then only the
        position of the item found moves. */
    method GetBufferAligned(want: BufferSearchSettings, alignment: nat)
      returns (r: Result<SafeLocatorItem, BufferSearchError>, ghost found: Snapshot, ghost registered: seq<LocatorItem>,
               ghost index: nat, ghost place: nat)
      requires Valid() && want.Words(os.sys) && alignment <= U32_MAX
      modifies this`chain, this`repr, this`parts, this`events, this`history, repr, os
      ensures ReprGrown() && found.chain == chain && found.mapped == os.mapped
      ensures Reply(os.sys, old(Now()), found, Enlarged(want, alignment), registered,
                    if r.Ok? then Some(index) else None)
      ensures os.granting && r == Err(CannotPlaceBuffer) ==> NoRoomFor(os.sys, os.mapped, Enlarged(want, alignment))
      ensures r.Err? ==> Valid() && Now() == found && Current().Valid() && (old(Recorded()) ==> Recorded())
      ensures r.Ok? ==>
                && index < |Concat(found.parts)| && r.value.index < r.value.slots.Length
                && r.value.slots[r.value.index] == AlignedItem(os.sys, Concat(found.parts)[index], alignment)
      ensures r.Ok? && AlignsInside(Concat(found.parts)[index], alignment) ==>
                && Valid() && PointsInto(r.value, index, place) && Current().Valid()
                && events == old(events) + [Got(Enlarged(want, alignment), registered, Some(index))]
                             + [Moved(index, alignment)]
                && (old(Recorded()) ==> Recorded())
      ensures r.Ok? && want.size + MaxMisalignment(alignment) <= U32_MAX ==>
                AlignsInside(Concat(found.parts)[index], alignment) && State()[index].Serves(want)
    {
      r, registered, index, place := GetBuffer(Enlarged(want, alignment));
      found := Now();
      if r.Ok? {
        About(place);
        AlignItem(r.value, want, alignment, index, place);
      }
    }

    /** No buffer has moved or changed its size since any earlier call, and no byte that was handed out by then
        has changed. */
    lemma StaticSoFar(i: nat)
      requires Recorded() && i < |history|
      ensures Kept(history[i], Current())
    {
      RunKeeps(history, events, i, |events|);
    }

    /** Whatever was appended by any earlier call can be read in memory now. */
    lemma ReadableNow(i: nat, k: nat)
      requires Recorded() && i < |events| && events[i].Appended? && k < |events[i].data|
      ensures events[i].index < |history[i].items|
              && var v := history[i].items[events[i].index];
              var x := v.baseAddress + v.position + k;
              x in memory.bytes && memory.bytes[x] == events[i].data[k]
    {
      Runs.AppendedStays(history, events, i, |events|, k);
    }
  }
}
