/** Requests for an aligned write address. */
module Alignment {
  import opened Machine
  import opened Settings
  import opened LocatorItems

  /** The largest alignment the library documents. */
  const MAX_ALIGNMENT: nat := 4096

  /** An alignment that divides the largest one: exactly the powers of two up to it, and zero, which aligns nothing. */
  predicate Regular(alignment: nat) {
    alignment == 0 || MAX_ALIGNMENT % alignment == 0
  }

  function MaxMisalignment(alignment: nat): nat {
    SubtractWithUnderflowCap(alignment, 1)
  }

  /** The request with room for the worst misalignment; the sum wraps at 32 bits. */
  function Enlarged(want: BufferSearchSettings, alignment: nat): BufferSearchSettings {
    want.(size := (want.size + MaxMisalignment(alignment)) % 0x1_0000_0000)
  }

  /** The item with its position moved up to the next aligned address. */
  function AlignedItem(sys: SysInfo, v: LocatorItem, alignment: nat): LocatorItem {
    var address := sys.Wrap(v.baseAddress + v.position);
    var delta := sys.Wrap(sys.RoundUp(address, alignment) - address);
    v.(position := (v.position + delta) % 0x1_0000_0000)
  }

  /** The next aligned address, which nothing checks, still lies in the buffer or at its end. */
  predicate AlignsInside(v: LocatorItem, alignment: nat) {
    CeilTo(v.baseAddress + v.position, alignment) <= v.baseAddress + v.size
  }

  /** `w` is `v` with its position at the next aligned address, inside the buffer. */
  ghost predicate AlignedTo(v: LocatorItem, w: LocatorItem, alignment: nat) {
    && w == v.(position := w.position) && v.position <= w.position <= w.size
    && w.baseAddress + w.position == CeilTo(v.baseAddress + v.position, alignment)
    && Aligned(w.baseAddress + w.position, alignment)
  }

  /** A difference that wraps twice is right. */
  lemma WrappedDistance(sys: SysInfo, address: nat, c: nat)
    requires sys.IsWord(address) && sys.WordMax() < c <= address + U32_MAX
    ensures sys.Wrap(sys.Wrap(c) - address) == c - address
  {
    var size := sys.WordMax() + 1;
    assert sys.Wrap(c) == c - size;
  }

  /** The distance to the next aligned address is computed right, whatever wraps on the way. */
  lemma DistanceIsRight(sys: SysInfo, address: nat, alignment: nat)
    requires sys.IsWord(address) && alignment <= U32_MAX
    ensures sys.Wrap(sys.RoundUp(address, alignment) - address) == CeilTo(address, alignment) - address
    ensures 0 <= CeilTo(address, alignment) - address <= MaxMisalignment(alignment)
  {
    var c := CeilTo(address, alignment);
    assert address <= c <= address + MaxMisalignment(alignment) by {
      CeilToIsLeast(address, alignment, 0);
    }
    if sys.IsWord(c) {
      RoundUpMeaning(sys, address, alignment);
    } else {
      assert sys.RoundUp(address, alignment) == sys.Wrap(c);
      WrappedDistance(sys, address, c);
    }
  }

  lemma MovedPosition(position: nat, size: nat, delta: nat)
    requires position <= size <= U32_MAX && delta <= U32_MAX
    ensures var moved := (position + delta) % 0x1_0000_0000;
            (position <= moved <= size <==> position + delta <= size)
            && (position + delta <= size ==> moved == position + delta)
  {
  }

  lemma AlignedPosition(sys: SysInfo, v: LocatorItem, alignment: nat)
    requires v.Sound(sys) && alignment <= U32_MAX
    ensures var delta := CeilTo(v.baseAddress + v.position, alignment) - (v.baseAddress + v.position);
      && 0 <= delta <= U32_MAX
      && AlignedItem(sys, v, alignment) == v.(position := (v.position + delta) % 0x1_0000_0000)
  {
    var address := v.baseAddress + v.position;
    assert sys.Wrap(address) == address;
    DistanceIsRight(sys, address, alignment);
  }

  /** The move, exactly: it stays in the buffer, and then does what it should, if and only if the next aligned
      address lies there. Otherwise the position ends up past the end, or, after a wrap, before where it was. */
  lemma AlignedItemExact(sys: SysInfo, v: LocatorItem, alignment: nat)
    requires v.Sound(sys) && alignment <= U32_MAX
    ensures var w := AlignedItem(sys, v, alignment);
      && (v.position <= w.position <= v.size <==> AlignsInside(v, alignment))
      && (AlignsInside(v, alignment) ==> AlignedTo(v, w, alignment) && w.Sound(sys))
  {
    var address := v.baseAddress + v.position;
    var c := CeilTo(address, alignment);
    AlignedPosition(sys, v, alignment);
    assert Aligned(c, alignment) by {
      CeilToIsLeast(address, alignment, 0);
    }
    MovedPosition(v.position, v.size, c - address);
  }

  /** An item found with the enlarged request gives, for any alignment, an aligned write address
      that is as low as possible, with the bytes originally asked for left behind it. */
  lemma AlignedServes(sys: SysInfo, v: LocatorItem, want: BufferSearchSettings, alignment: nat)
    requires v.Sound(sys) && alignment <= U32_MAX
    requires want.size + MaxMisalignment(alignment) <= U32_MAX && v.Serves(Enlarged(want, alignment))
    ensures AlignsInside(v, alignment)
    ensures AlignedTo(v, AlignedItem(sys, v, alignment), alignment) && AlignedItem(sys, v, alignment).Serves(want)
  {
    assert Enlarged(want, alignment).size == want.size + MaxMisalignment(alignment);
    DistanceIsRight(sys, v.baseAddress + v.position, alignment);
    AlignedItemExact(sys, v, alignment);
  }

  /** In a buffer that ends where a page does, a regular alignment always stays inside, however little is left. */
  lemma RegularStaysInside(v: LocatorItem, alignment: nat)
    requires v.position <= v.size && (v.baseAddress + v.size) % MAX_ALIGNMENT == 0 && Regular(alignment)
    ensures AlignsInside(v, alignment)
  {
    var end := v.baseAddress + v.size;
    if alignment != 0 {
      MultipleOfMultiple(end, MAX_ALIGNMENT, alignment);
    }
    CeilToIsLeast(v.baseAddress + v.position, alignment, end);
  }

  /** The condition on the enlarged size is exact: every item found with the enlarged request still serves the
      original one after the move if and only if the sum fits 32 bits, or no item can be found at all. */
  lemma EnlargedExact(sys: SysInfo, want: BufferSearchSettings, alignment: nat)
    requires want.size <= U32_MAX && alignment <= U32_MAX
    ensures (forall v: LocatorItem :: v.Sound(sys) && v.Serves(Enlarged(want, alignment)) ==>
               AlignedItem(sys, v, alignment).Serves(want))
            <==> (want.size + MaxMisalignment(alignment) <= U32_MAX
                  || forall v: LocatorItem :: v.Sound(sys) ==> !v.Serves(Enlarged(want, alignment)))
  {
    var enlarged := Enlarged(want, alignment);
    if want.size + MaxMisalignment(alignment) <= U32_MAX {
      forall v: LocatorItem | v.Sound(sys) && v.Serves(enlarged) ensures AlignedItem(sys, v, alignment).Serves(want) {
        AlignedServes(sys, v, want, alignment);
      }
    } else {
      forall v: LocatorItem | v.Sound(sys) && v.Serves(enlarged)
        ensures exists w: LocatorItem ::
                  w.Sound(sys) && w.Serves(enlarged) && !AlignedItem(sys, w, alignment).Serves(want)
      {
        var w := Trimmed(sys, v, want, alignment);
      }
    }
  }

  /** From an item found for an enlarged request whose size has wrapped, one that has just that size. */
  lemma Trimmed(sys: SysInfo, v: LocatorItem, want: BufferSearchSettings, alignment: nat) returns (w: LocatorItem)
    requires v.Sound(sys) && v.Serves(Enlarged(want, alignment)) && want.size <= U32_MAX && alignment <= U32_MAX
    requires want.size + MaxMisalignment(alignment) > U32_MAX
    ensures w.Sound(sys) && w.Serves(Enlarged(want, alignment)) && !AlignedItem(sys, w, alignment).Serves(want)
  {
    var size := Enlarged(want, alignment).size;
    assert size < want.size;
    w := NewItem(v.baseAddress + v.position, size);
    assert AlignedItem(sys, w, alignment).size == size && AlignedItem(sys, w, alignment).position >= 0;
  }

  /** When the sum wraps, the move may even leave the buffer: almost four gigabytes at a multiple of five
      are asked for, and the item found has two bytes left and is moved two bytes past its end. */
  lemma WrappedSumLeavesBuffer()
    ensures var sys := SysInfo(W64, Linux, 0x7FFF_FFFF_FFFF, 4096, 4096);
            var want := BufferSearchSettings(0, 0xFFFF_FFFF_FFFF_FFFF, 0xFFFF_FFFE);
            var v := LocatorItem(69632, 4096, 4094, true);
            && v.Sound(sys) && v.Serves(Enlarged(want, 5)) && !AlignsInside(v, 5)
            && AlignedItem(sys, v, 5).position == 4098
  {
  }
}
