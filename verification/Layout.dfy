/** Where the headers and the registered buffers lie in memory. */
module Layout {
  import opened Machine
  import opened OperatingSystem
  import opened LocatorItems
  import opened LocatorHeaders

  /** The address ranges of all headers and of all buffers. */
  ghost function Blocks(headers: seq<nat>, items: seq<LocatorItem>): seq<set<nat>>
  {
    seq(|headers|, i requires 0 <= i < |headers| => Block(headers[i], LENGTH))
    + seq(|items|, i requires 0 <= i < |items| => Block(items[i].baseAddress, items[i].size))
  }

  lemma BlocksAt(headers: seq<nat>, items: seq<LocatorItem>)
    ensures var b := Blocks(headers, items);
            && |b| == |headers| + |items|
            && (forall i :: 0 <= i < |headers| ==> b[i] == Block(headers[i], LENGTH))
            && (forall i :: 0 <= i < |items| ==> b[|headers| + i] == Block(items[i].baseAddress, items[i].size))
  {
  }

  /** They are mapped, and any two of them are disjoint. */
  ghost predicate Tidy(headers: seq<nat>, items: seq<LocatorItem>, mapped: set<nat>) {
    var b := Blocks(headers, items);
    && (forall i :: 0 <= i < |b| ==> b[i] <= mapped)
    && (forall i, j :: 0 <= i < j < |b| ==> b[i] !! b[j])
  }

  /** Only addresses and sizes matter. */
  lemma TidyMoved(headers: seq<nat>, items: seq<LocatorItem>, moved: seq<LocatorItem>, mapped: set<nat>)
    requires Tidy(headers, items, mapped) && |moved| == |items|
    requires forall i :: 0 <= i < |items| ==>
               moved[i].baseAddress == items[i].baseAddress && moved[i].size == items[i].size
    ensures Tidy(headers, moved, mapped)
  {
    BlocksAt(headers, items);
    BlocksAt(headers, moved);
    assert forall i :: 0 <= i < |headers| + |items| ==> Blocks(headers, moved)[i] == Blocks(headers, items)[i];
  }

  lemma TidyLocked(headers: seq<nat>, items: seq<LocatorItem>, i: nat, mapped: set<nat>)
    requires Tidy(headers, items, mapped) && i < |items|
    ensures Tidy(headers, Locked(items, i), mapped)
  {
    TidyMoved(headers, items, Locked(items, i), mapped);
  }

  /** A buffer in new memory. */
  lemma TidyRegistered(headers: seq<nat>, items: seq<LocatorItem>, v: LocatorItem, mapped: set<nat>)
    requires Tidy(headers, items, mapped) && Block(v.baseAddress, v.size) !! mapped
    ensures Tidy(headers, items + [v], mapped + Block(v.baseAddress, v.size))
  {
    var b, c := Blocks(headers, items), Blocks(headers, items + [v]);
    BlocksAt(headers, items);
    BlocksAt(headers, items + [v]);
    assert forall i :: 0 <= i < |b| ==> c[i] == b[i];
  }

  /** Of the blocks with a new locator, which one of the old blocks the one at `i` is; none if it is new. */
  ghost function OldIndex(headers: nat, items: nat, i: nat): Option<nat> {
    if i < headers then Some(i) else if headers < i <= headers + items then Some(i - 1) else None
  }

  /** A chunk of a new locator, by its bounds. */
  lemma ChunkAt(address: nat, remaining: nat, k: nat)
    requires k < |Chunks(address, remaining)|
    ensures var v := Chunks(address, remaining)[k];
      && v.baseAddress == address + LENGTH_OF_PREALLOCATED_CHUNKS * k && v.size <= LENGTH_OF_PREALLOCATED_CHUNKS
      && v.baseAddress + v.size <= address + remaining
  {
    ChunksPartition(address, remaining);
  }

  /** A block of a new locator, by its bounds. */
  lemma BlockOfLocator(headers: seq<nat>, items: seq<LocatorItem>, address: nat, length: nat, i: nat)
    returns (start: nat, size: nat)
    requires LENGTH <= length && OldIndex(|headers|, |items|, i).None?
    requires i < |headers| + 1 + |items| + |Chunks(address + LENGTH, length - LENGTH)|
    ensures Blocks(headers + [address], items + Chunks(address + LENGTH, length - LENGTH))[i] == Block(start, size)
    ensures address <= start && start + size <= address + length
    ensures if i == |headers| then start == address && size == LENGTH
            else start == address + LENGTH + LENGTH_OF_PREALLOCATED_CHUNKS * (i - (|headers| + 1 + |items|))
                 && size <= LENGTH_OF_PREALLOCATED_CHUNKS
  {
    var chunks := Chunks(address + LENGTH, length - LENGTH);
    BlocksAt(headers + [address], items + chunks);
    if i == |headers| {
      start, size := address, LENGTH;
    } else {
      var v := chunks[i - (|headers| + 1 + |items|)];
      ChunkAt(address + LENGTH, length - LENGTH, i - (|headers| + 1 + |items|));
      assert v == (items + chunks)[i - |headers| - 1];
      start, size := v.baseAddress, v.size;
    }
  }

  lemma BlocksOfLocatorApart(headers: seq<nat>, items: seq<LocatorItem>, address: nat, length: nat, i: nat, j: nat)
    requires LENGTH <= length && OldIndex(|headers|, |items|, i).None? && OldIndex(|headers|, |items|, j).None?
    requires i < j < |headers| + 1 + |items| + |Chunks(address + LENGTH, length - LENGTH)|
    ensures var c := Blocks(headers + [address], items + Chunks(address + LENGTH, length - LENGTH)); c[i] !! c[j]
  {
    var s, n := BlockOfLocator(headers, items, address, length, i);
    var t, m := BlockOfLocator(headers, items, address, length, j);
    assert s + n <= t;
  }

  /** A granule of new memory that holds a header and, behind it, its buffers. */
  lemma TidyLocator(headers: seq<nat>, items: seq<LocatorItem>, address: nat, length: nat, mapped: set<nat>)
    requires Tidy(headers, items, mapped) && LENGTH <= length && Block(address, length) !! mapped
    ensures Tidy(headers + [address], items + Chunks(address + LENGTH, length - LENGTH),
                 mapped + Block(address, length))
  {
    var b, c := Blocks(headers, items), Blocks(headers + [address], items + Chunks(address + LENGTH, length - LENGTH));
    BlocksAt(headers, items);
    BlocksAt(headers + [address], items + Chunks(address + LENGTH, length - LENGTH));
    forall i: nat | i < |c|
      ensures match OldIndex(|headers|, |items|, i)
              case Some(k) => k < |b| && c[i] == b[k]
              case None => c[i] <= Block(address, length)
    {
      if OldIndex(|headers|, |items|, i).None? {
        var start, size := BlockOfLocator(headers, items, address, length, i);
      }
    }
    forall i: nat, j: nat | i < j < |c| ensures c[i] !! c[j] {
      var p, q := OldIndex(|headers|, |items|, i), OldIndex(|headers|, |items|, j);
      if p.Some? && q.Some? {
        assert b[p.value] !! b[q.value];
      } else if p.None? && q.None? {
        BlocksOfLocatorApart(headers, items, address, length, i, j);
      }
    }
  }

  lemma FirstLocator(length: nat, address: nat, mapped: set<nat>)
    requires LENGTH <= length && Block(address, length) <= mapped
    ensures Tidy([address], Chunks(address + LENGTH, length - LENGTH), mapped)
  {
    TidyLocator([], [], address, length, mapped - Block(address, length));
    assert [] + [address] == [address];
    assert [] + Chunks(address + LENGTH, length - LENGTH) == Chunks(address + LENGTH, length - LENGTH);
    assert mapped - Block(address, length) + Block(address, length) == mapped;
  }
}
