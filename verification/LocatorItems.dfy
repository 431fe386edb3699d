/** A registered buffer: an address range with a bump position and a lock. Items are plain
    structures that lie side by side in the slots of a locator; what the library passes
    around as a pointer to an item is the slot it lies in. */
module LocatorItems {
  import opened Machine
  import opened Settings

  datatype LocatorItem = LocatorItem(baseAddress: nat, size: nat, position: nat, isTaken: bool) {
    function BytesLeft(): int {
      size - position
    }

    function Advanced(count: nat): LocatorItem {
      this.(position := position + count)
    }

    /** The item is addressable: not null, within the word and 32-bit limits, its position inside it. */
    predicate Sound(sys: SysInfo) {
      && 0 < baseAddress && baseAddress + size <= sys.WordMax()
      && size <= U32_MAX && position <= size
    }

    predicate CanUse(sys: SysInfo, want: BufferSearchSettings) {
      && baseAddress != 0
      && want.size <= BytesLeft()
      && want.minAddress <= sys.Wrap(baseAddress + position)
      && sys.AddWithOverflowCap(baseAddress, size) <= want.maxAddress
    }

    /** What a caller may rely on: the requested bytes are left, and all that is left lies between the limits. */
    predicate Serves(want: BufferSearchSettings) {
      && want.size <= BytesLeft()
      && want.minAddress <= baseAddress + position
      && baseAddress + size <= want.maxAddress
    }
  }

  /** The same buffer at a later time: its address and size stay, and its position does not go back. */
  predicate SameBuffer(v: LocatorItem, w: LocatorItem) {
    w.baseAddress == v.baseAddress && w.size == v.size && v.position <= w.position
  }

  function NewItem(baseAddress: nat, size: nat): LocatorItem {
    LocatorItem(baseAddress, size, 0, false)
  }

  /** The wrapping and saturating test is the exact one on every sound item. */
  lemma CanUseServes(sys: SysInfo, v: LocatorItem, want: BufferSearchSettings)
    requires v.Sound(sys)
    ensures v.CanUse(sys, want) <==> v.Serves(want)
  {
  }

  /** The bytes of the process. */
  class Memory {
    var bytes: map<nat, bv8>

    constructor ()
      ensures bytes == map[]
    {
      bytes := map[];
    }
  }

  /** `bytes` after `data` has been copied to `address`. */
  function Written(bytes: map<nat, bv8>, address: nat, data: seq<bv8>): (r: map<nat, bv8>)
    ensures forall x :: x in r <==> x in bytes || address <= x < address + |data|
    ensures forall x :: x in r ==> r[x] == if address <= x < address + |data| then data[x - address] else bytes[x]
  {
    if |data| == 0 then bytes
    else
      var r := Written(bytes, address, data[..|data| - 1]);
      r[address + |data| - 1 := data[|data| - 1]]
  }

  /** Takes the lock of the item in slot `i`; fails, changing nothing, if it is taken. */
  method TryLock(slots: array<LocatorItem>, i: nat) returns (ok: bool)
    requires i < slots.Length
    modifies slots
    ensures ok <==> !old(slots[i].isTaken)
    ensures slots[..] == old(slots[..])[i := old(slots[i]).(isTaken := true)]
  {
    ok := !slots[i].isTaken;
    slots[i] := slots[i].(isTaken := true);
  }

  method Unlock(slots: array<LocatorItem>, i: nat)
    requires i < slots.Length
    modifies slots
    ensures slots[..] == old(slots[..])[i := old(slots[i]).(isTaken := false)]
  {
    slots[i] := slots[i].(isTaken := false);
  }

  /** Copies `data` to the current position of the item in slot `i`; the caller makes sure that it fits. */
  method AppendBytes(slots: array<LocatorItem>, i: nat, memory: Memory, data: seq<bv8>) returns (address: nat)
    requires i < slots.Length && |data| <= slots[i].BytesLeft()
    modifies slots, memory
    ensures address == slots[i].baseAddress + old(slots[i].position)
    ensures slots[..] == old(slots[..])[i := old(slots[i]).Advanced(|data|)]
    ensures memory.bytes == Written(old(memory.bytes), address, data)
  {
    address := slots[i].baseAddress + slots[i].position;
    memory.bytes := Written(memory.bytes, address, data);
    slots[i] := slots[i].Advanced(|data|);
  }

  /** The token of the caller that holds an item's lock; dropping it releases the lock. */
  datatype SafeLocatorItem = SafeLocatorItem(slots: array<LocatorItem>, index: nat) {
    method Drop()
      requires index < slots.Length
      modifies slots
      ensures slots[..] == old(slots[..])[index := old(slots[index]).(isTaken := false)]
    {
      Unlock(slots, index);
    }
  }
}
