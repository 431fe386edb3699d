/** One locator: a 4096-byte header with a fixed number of item slots. */
module LocatorHeaders {
  import opened Machine
  import opened OperatingSystem
  import opened Placeability
  import opened Settings
  import opened LocatorItems
  import BufferAllocator

  const LENGTH: nat := 4096
  const LENGTH_OF_PREALLOCATED_CHUNKS: nat := 16384

  /** How many items fit behind the header fields. */
  function MaxItemCount(sys: SysInfo): (n: nat)
    ensures n == if sys.width == W32 then 255 else 203
  {
    var pointer := if sys.width == W32 then 4 else 8;
    (LENGTH - (2 * pointer + 8)) / (pointer + 12)
  }

  /** Where the slot with index `i` begins, from the start of the header. */
  function SlotOffset(sys: SysInfo, i: nat): nat {
    var pointer := if sys.width == W32 then 4 else 8;
    2 * pointer + 8 + (pointer + 12) * i
  }

  /** The slots are exactly as many as end before the first buffer begins. */
  lemma SlotsBeforeBuffers(sys: SysInfo, i: nat)
    ensures i < MaxItemCount(sys) <==> SlotOffset(sys, i + 1) <= LENGTH
  {
    if sys.width == W32 {
      assert SlotOffset(sys, i + 1) == 16 + 16 * (i + 1);
    } else {
      assert SlotOffset(sys, i + 1) == 24 + 20 * (i + 1);
    }
  }

  function ChunkLength(remaining: nat): nat {
    if remaining < LENGTH_OF_PREALLOCATED_CHUNKS then remaining else LENGTH_OF_PREALLOCATED_CHUNKS
  }

  /** The buffers carved from the `remaining` bytes at `address`. */
  function Chunks(address: nat, remaining: nat): seq<LocatorItem>
    decreases remaining
  {
    if remaining == 0 then []
    else
      var length := ChunkLength(remaining);
      [NewItem(address, length)] + Chunks(address + length, remaining - length)
  }

  function TotalSize(items: seq<LocatorItem>): nat {
    if |items| == 0 then 0 else items[0].size + TotalSize(items[1..])
  }

  /** The chunks partition the tail exactly: they are contiguous, they sum to it, all but
      the last have the full length, and their number is the quotient rounded up. */
  lemma {:induction false} ChunksPartition(address: nat, remaining: nat)
    ensures var c := Chunks(address, remaining);
      && TotalSize(c) == remaining
      && |c| == (remaining + LENGTH_OF_PREALLOCATED_CHUNKS - 1) / LENGTH_OF_PREALLOCATED_CHUNKS
      && (forall i :: 0 <= i < |c| ==> c[i].position == 0 && !c[i].isTaken && 0 < c[i].size)
      && (forall i :: 0 <= i < |c| ==> c[i].baseAddress == address + LENGTH_OF_PREALLOCATED_CHUNKS * i)
      && (forall i :: 0 <= i < |c| - 1 ==> c[i].size == LENGTH_OF_PREALLOCATED_CHUNKS)
      && (remaining > 0 ==> c[|c| - 1].baseAddress + c[|c| - 1].size == address + remaining)
      && (forall i :: 0 <= i < |c| ==>
           address <= c[i].baseAddress && c[i].baseAddress + c[i].size <= address + remaining)
    decreases remaining
  {
    if remaining > 0 {
      var length := ChunkLength(remaining);
      ChunksPartition(address + length, remaining - length);
    }
  }

  /** The chunk loop of the Rust code, which does not advance the address. */
  function RustChunks(address: nat, remaining: nat): seq<LocatorItem>
    decreases remaining
  {
    if remaining == 0 then []
    else
      var length := ChunkLength(remaining);
      [NewItem(address, length)] + RustChunks(address, remaining - length)
  }

  /** No two buffers share a byte. */
  ghost predicate BuffersApart(items: seq<LocatorItem>) {
    forall i, j :: 0 <= i < j < |items| ==>
      Block(items[i].baseAddress, items[i].size) !! Block(items[j].baseAddress, items[j].size)
  }

  /** All chunks of the Rust loop have the same address; there are as many as in the partition. */
  lemma {:induction false} RustChunksAlias(address: nat, remaining: nat)
    ensures var r := RustChunks(address, remaining);
      && |r| == (remaining + LENGTH_OF_PREALLOCATED_CHUNKS - 1) / LENGTH_OF_PREALLOCATED_CHUNKS
      && forall i :: 0 <= i < |r| ==> r[i].baseAddress == address && 0 < r[i].size
    decreases remaining
  {
    if remaining > 0 {
      var length := ChunkLength(remaining);
      RustChunksAlias(address, remaining - length);
    }
  }

  /** The chunks are always apart; those of the Rust loop exactly when there is at most one of them, and
      exactly then the two loops agree. */
  lemma ChunksApart(address: nat, remaining: nat)
    ensures BuffersApart(Chunks(address, remaining))
    ensures BuffersApart(RustChunks(address, remaining)) <==> remaining <= LENGTH_OF_PREALLOCATED_CHUNKS
    ensures RustChunks(address, remaining) == Chunks(address, remaining) <==> remaining <= LENGTH_OF_PREALLOCATED_CHUNKS
  {
    ChunksPartition(address, remaining);
    RustChunksAlias(address, remaining);
    var r, c := RustChunks(address, remaining), Chunks(address, remaining);
    if remaining > LENGTH_OF_PREALLOCATED_CHUNKS {
      assert Within(address, address, r[0].size) && Within(address, address, r[1].size);
      assert r[1].baseAddress != c[1].baseAddress;
    } else if remaining > 0 {
      assert r == [NewItem(address, remaining)] && c == [NewItem(address, remaining)];
    }
  }

  /** With granules of 64 KiB, the Rust loop registers four buffers at the same address. */
  lemma RustChunksExample(address: nat)
    ensures var r := RustChunks(address + LENGTH, 65536 - LENGTH);
            && !BuffersApart(r)
            && r == [NewItem(address + LENGTH, 16384), NewItem(address + LENGTH, 16384),
                     NewItem(address + LENGTH, 16384), NewItem(address + LENGTH, 12288)]
  {
    var base := address + LENGTH;
    ChunksApart(base, 65536 - LENGTH);
    assert RustChunks(base, 12288) == [NewItem(base, 12288)];
    assert RustChunks(base, 28672) == [NewItem(base, 16384), NewItem(base, 12288)];
    assert RustChunks(base, 45056) == [NewItem(base, 16384), NewItem(base, 16384), NewItem(base, 12288)];
  }

  /** The first chunk and the rest. */
  lemma ChunkStep(address: nat, remaining: nat, all: seq<LocatorItem>, n: nat)
    requires 0 < remaining && n <= |all| && Chunks(address, remaining) == all[n..]
    ensures var length := ChunkLength(remaining);
            && n < |all| && all[n] == NewItem(address, length)
            && Chunks(address + length, remaining - length) == all[n + 1..]
            && all[..n + 1] == all[..n] + [NewItem(address, length)]
  {
    assert all[n] == all[n..][0];
    assert all[n + 1..] == all[n..][1..];
  }

  /** A granule leaves room in the header for at least one more item besides its chunks. */
  predicate RoomBesideChunks(sys: SysInfo) {
    && LENGTH <= sys.granularity
    && (sys.granularity - LENGTH + LENGTH_OF_PREALLOCATED_CHUNKS - 1) / LENGTH_OF_PREALLOCATED_CHUNKS
       < MaxItemCount(sys)
  }

  /** Not locked and good for the request. */
  predicate Usable(v: LocatorItem, want: BufferSearchSettings) {
    !v.isTaken && v.Serves(want)
  }

  predicate NoneUsable(items: seq<LocatorItem>, want: BufferSearchSettings) {
    forall i :: 0 <= i < |items| ==> !Usable(items[i], want)
  }

  predicate FirstUsable(items: seq<LocatorItem>, want: BufferSearchSettings, i: nat) {
    i < |items| && Usable(items[i], want) && NoneUsable(items[..i], want)
  }

  function Locked(items: seq<LocatorItem>, i: nat): seq<LocatorItem>
    requires i < |items|
  {
    items[i := items[i].(isTaken := true)]
  }

  datatype ItemAllocationError = NoSpaceInHeader | CannotAllocateMemory

  datatype Result<+T, +E> = Ok(value: T) | Err(error: E)

  /** The settings with which a header asks the allocator for a new buffer. */
  function NewBufferSettings(sys: SysInfo, want: BufferSearchSettings): AllocatorSettings {
    AllocatorSettings(want.minAddress, want.maxAddress, want.size, 8, true)
  }

  /** A buffer made for a request: whole granules of memory that was not mapped before. */
  twostate predicate NewBuffer(os: Os, want: BufferSearchSettings, v: LocatorItem, taken: bool)
    reads os
  {
    && v == LocatorItem(v.baseAddress, v.size, 0, taken)
    && v.Sound(os.sys) && v.Serves(want)
    && old(os.Free(v.baseAddress, v.size))
    && os.mapped == old(os.mapped) + Block(v.baseAddress, v.size)
  }

  /** The map has no place for a buffer for this request. */
  ghost predicate NoRoomFor(sys: SysInfo, mapped: set<nat>, want: BufferSearchSettings) {
    forall a :: !Placeable(sys, mapped, NewBufferSettings(sys, want).Sanitized(sys), a)
  }

  lemma PlaceableServes(sys: SysInfo, mapped: set<nat>, want: BufferSearchSettings, a: nat)
    requires sys.Valid() && want.Words(sys)
    requires Placeable(sys, mapped, NewBufferSettings(sys, want).Sanitized(sys), a)
    ensures var v := LocatorItem(a, NewBufferSettings(sys, want).Sanitized(sys).size, 0, false);
            v.Sound(sys) && v.Serves(want)
  {
    SanitizedSize(sys, NewBufferSettings(sys, want));
  }

  /** The allocation that registering an item starts with. */
  method AllocateFor(os: Os, want: BufferSearchSettings) returns (r: Option<LocatorItem>)
    requires os.Valid() && want.Words(os.sys)
    modifies os
    ensures os.Valid()
    ensures r.None? ==> os.mapped == old(os.mapped)
    ensures r.Some? ==> NewBuffer(os, want, r.value, false)
    ensures os.granting ==> (r.None? <==> NoRoomFor(os.sys, old(os.mapped), want))
  {
    var settings := new BufferAllocatorSettings(os.sys);
    settings.minAddress := want.minAddress;
    settings.maxAddress := want.maxAddress;
    settings.size := want.size;
    assert settings.Value() == NewBufferSettings(os.sys, want);
    r := BufferAllocator.Allocate(os, settings);
    if r.Some? {
      PlaceableServes(os.sys, old(os.mapped), want, r.value.baseAddress);
    }
  }

  class LocatorHeader {
    /** Where the header lies in memory. */
    const thisAddress: nat
    var nextLocator: LocatorHeader?
    var isLocked: bool
    var numItems: nat
    const items: array<LocatorItem>

    ghost predicate Valid(sys: SysInfo)
      reads this, items
    {
      && items.Length == MaxItemCount(sys)
      && numItems <= items.Length
      && forall i :: 0 <= i < numItems ==> items[i].Sound(sys)
    }

    /** The registered items, in slot order. */
    function Contents(): seq<LocatorItem>
      requires numItems <= items.Length
      reads this, items
    {
      items[..numItems]
    }

    /** Uninitialised memory at an address, seen as a header. */
    constructor (sys: SysInfo, address: nat)
      ensures items.Length == MaxItemCount(sys) && fresh(items) && thisAddress == address
    {
      items := new LocatorItem[MaxItemCount(sys)];
      thisAddress := address;
      nextLocator := null;
    }

    /** Sets up the header and registers what follows it in the same block as buffers. */
    method Initialize(sys: SysInfo, length: nat)
      requires sys.Valid() && LENGTH <= length && length - LENGTH <= U32_MAX
      requires items.Length == MaxItemCount(sys)
      requires 0 < thisAddress && thisAddress + length <= sys.WordMax()
      requires |Chunks(thisAddress + LENGTH, length - LENGTH)| <= MaxItemCount(sys)
      modifies this, items
      ensures Valid(sys) && nextLocator == null && !isLocked
      ensures Contents() == Chunks(thisAddress + LENGTH, length - LENGTH)
    {
      nextLocator := null;
      isLocked := false;
      ghost var all := Chunks(thisAddress + LENGTH, length - LENGTH);
      var count := 0;
      var remainingBytes: nat := length - LENGTH;
      var bufferAddress: nat := thisAddress + LENGTH;
      while remainingBytes > 0
        invariant nextLocator == null && !isLocked
        invariant bufferAddress + remainingBytes == thisAddress + length
        invariant count <= |all| && Chunks(bufferAddress, remainingBytes) == all[count..]
        invariant items[..count] == all[..count]
        invariant forall i :: 0 <= i < count ==> items[i].Sound(sys)
        decreases remainingBytes
      {
        var thisLength := ChunkLength(remainingBytes);
        ChunkStep(bufferAddress, remainingBytes, all, count);
        items[count] := NewItem(bufferAddress, thisLength);
        remainingBytes := remainingBytes - thisLength;
        bufferAddress := bufferAddress + thisLength;
        count := count + 1;
      }
      numItems := count;
    }

    function HasNextLocator(): bool
      reads this
    {
      nextLocator != null
    }

    predicate IsFull()
      reads this
    {
      numItems >= items.Length
    }

    method TryLock() returns (ok: bool)
      modifies this`isLocked
      ensures isLocked && ok == !old(isLocked)
    {
      ok := !isLocked;
      isLocked := true;
    }

    /** Spins until the lock is free; alone, it can only be called when it is. */
    method Lock()
      requires !isLocked
      modifies this`isLocked
      ensures isLocked
    {
      var ok := TryLock();
    }

    method Unlock()
      requires isLocked
      modifies this`isLocked
      ensures !isLocked
    {
      isLocked := false;
    }

    /** Locks the first unlocked item that serves the request, if there is one, and touches nothing else. */
    method GetFirstAvailableItemLocked(sys: SysInfo, want: BufferSearchSettings) returns (r: Option<SafeLocatorItem>)
      requires Valid(sys)
      modifies items
      ensures Valid(sys)
      ensures r.None? ==> NoneUsable(Contents(), want) && Contents() == old(Contents())
      ensures r.Some? ==> r.value.slots == items && FirstUsable(old(Contents()), want, r.value.index)
                          && Contents() == Locked(old(Contents()), r.value.index)
    {
      var currentItem := 0;
      var finalItem := numItems;
      while currentItem < finalItem
        invariant 0 <= currentItem <= finalItem
        invariant items[..] == old(items[..])
        invariant NoneUsable(items[..currentItem], want)
      {
        CanUseServes(sys, items[currentItem], want);
        if items[currentItem].CanUse(sys, want) {
          var ok := LocatorItems.TryLock(items, currentItem);
          if ok {
            return Some(SafeLocatorItem(items, currentItem));
          }
          assert items[..] == old(items[..]);
        }
        currentItem := currentItem + 1;
      }
      return None;
    }

    /** Registers fresh memory in the next free slot, already locked. Every path leaves the
        header unlocked; on failure neither the header nor the memory map has changed. */
    method TryAllocateItem(os: Os, want: BufferSearchSettings) returns (r: Result<SafeLocatorItem, ItemAllocationError>)
      requires os.Valid() && want.Words(os.sys) && Valid(os.sys) && !isLocked
      modifies this`isLocked, this`numItems, items, os
      ensures os.Valid() && Valid(os.sys) && !isLocked
      ensures r.Err? ==> Contents() == old(Contents()) && os.mapped == old(os.mapped)
      ensures old(IsFull()) <==> r == Err(NoSpaceInHeader)
      ensures r.Ok? ==> r.value == SafeLocatorItem(items, old(numItems))
                        && Contents() == old(Contents()) + [items[old(numItems)]]
                        && NewBuffer(os, want, items[old(numItems)], true)
      ensures os.granting ==>
                (r == Err(CannotAllocateMemory) <==> !old(IsFull()) && NoRoomFor(os.sys, old(os.mapped), want))
    {
      r := Err(NoSpaceInHeader);
      if !IsFull() {
        Lock();
        if !IsFull() {
          var result := AllocateFor(os, want);
          if result.None? {
            r := Err(CannotAllocateMemory);
          } else {
            var target := numItems;
            items[target] := result.value.(isTaken := true);
            numItems := numItems + 1;
            r := Ok(SafeLocatorItem(items, target));
          }
        }
        Unlock();
      }
    }

    /** Returns the successor, creating it in fresh memory if there is none yet. */
    method GetNextLocator(os: Os) returns (r: Option<LocatorHeader>)
      requires os.Valid() && RoomBesideChunks(os.sys) && !isLocked
      modifies this`isLocked, this`nextLocator, os
      ensures os.Valid() && !isLocked
      ensures old(nextLocator) != null ==>
                r == Some(old(nextLocator)) && nextLocator == old(nextLocator) && os.mapped == old(os.mapped)
      ensures r.None? ==> nextLocator == null && os.mapped == old(os.mapped)
      ensures r.Some? ==> nextLocator == r.value
      ensures old(os.mapped) <= os.mapped
      ensures old(nextLocator) == null && r.Some? ==>
        && fresh(r.value) && fresh(r.value.items) && NewLocator(os.sys, r.value)
        && os.MappedExactly(r.value.thisAddress, os.sys.granularity)
    {
      if !HasNextLocator() {
        Lock();
        if !HasNextLocator() {
          var allocSize := os.sys.granularity;
          var addr := os.HeapAlloc(allocSize);
          if addr != 0 {
            nextLocator := SetUpLocator(os.sys, addr);
          }
        }
        Unlock();
      }
      r := if nextLocator == null then None else Some(nextLocator);
    }
  }

  /** A header as it is right after it was set up in one granule: not full, not locked, the last of its chain. */
  ghost predicate NewLocator(sys: SysInfo, h: LocatorHeader)
    reads h, h.items
  {
    && h.Valid(sys) && h.nextLocator == null && !h.isLocked && !h.IsFull()
    && LENGTH <= sys.granularity
    && h.Contents() == Chunks(h.thisAddress + LENGTH, sys.granularity - LENGTH)
  }

  method SetUpLocator(sys: SysInfo, address: nat) returns (header: LocatorHeader)
    requires sys.Valid() && RoomBesideChunks(sys)
    requires 0 < address && address + sys.granularity <= sys.WordMax()
    ensures fresh(header) && fresh(header.items)
    ensures NewLocator(sys, header) && header.thisAddress == address
  {
    ChunksPartition(address + LENGTH, sys.granularity - LENGTH);
    header := new LocatorHeader(sys, address);
    header.Initialize(sys, sys.granularity);
  }
}
