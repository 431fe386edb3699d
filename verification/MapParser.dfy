/** The free regions of a Linux memory map. The mappings are half-open; the
    regions produced are inclusive at both ends. */
module MapParser {
  import opened Machine
  import opened OperatingSystem

  ghost predicate InRegion(r: MemoryMapEntry, x: nat) {
    r.startAddress <= x <= r.endAddress
  }

  ghost predicate InSome(free: seq<MemoryMapEntry>, x: nat) {
    exists i :: 0 <= i < |free| && InRegion(free[i], x)
  }

  /** Where the last mapping ends, or zero. */
  function LastEnd(regions: seq<MemoryMapEntry>): nat {
    if |regions| == 0 then 0 else regions[|regions| - 1].endAddress
  }

  /** The region at index `i` stops either just below a mapping or at the last address, with nothing mapped after it. */
  ghost predicate Maximal(regions: seq<MemoryMapEntry>, free: seq<MemoryMapEntry>, i: nat, maxAddress: nat)
    requires i < |free|
  {
    || Covered(regions, free[i].endAddress + 1)
    || (free[i].endAddress == maxAddress && forall x: nat :: free[i].startAddress <= x ==> !Covered(regions, x))
  }

  lemma InAppended(before: seq<MemoryMapEntry>, r: MemoryMapEntry)
    ensures forall x: nat :: InSome(before + [r], x) <==> InSome(before, x) || InRegion(r, x)
  {
    var after := before + [r];
    forall x: nat | InSome(before, x) || InRegion(r, x) ensures InSome(after, x) {
      if InSome(before, x) {
        var i :| 0 <= i < |before| && InRegion(before[i], x);
        assert after[i] == before[i];
      } else {
        assert after[|before|] == r;
      }
    }
  }

  /** Between the end of one mapping and the end of the next, exactly the next one is mapped; after the last,
      nothing. */
  lemma BetweenMappings(regions: seq<MemoryMapEntry>, n: nat)
    requires SortedMap(regions) && n <= |regions|
    ensures var last := LastEnd(regions[..n]);
      if n < |regions| then
        forall x: nat :: last <= x < regions[n].endAddress ==>
          (Covered(regions, x) <==> regions[n].startAddress <= x)
      else forall x: nat :: last <= x ==> !Covered(regions, x)
  {
  }

  method GetFreeRegions(sys: SysInfo, regions: seq<MemoryMapEntry>) returns (freeRegions: seq<MemoryMapEntry>)
    requires SortedMap(regions)
    // sorted and disjoint
    ensures forall i :: 0 <= i < |freeRegions| ==> freeRegions[i].startAddress <= freeRegions[i].endAddress
    ensures forall i, j :: 0 <= i < j < |freeRegions| ==> freeRegions[i].endAddress < freeRegions[j].startAddress
    // the complement of the map, up to the last address or the end of the last mapping
    ensures forall x: nat :: InSome(freeRegions, x) <==>
              (!Covered(regions, x)
               && (x < LastEnd(regions) || (LastEnd(regions) < sys.maxAddress && x <= sys.maxAddress)))
    ensures forall i :: 0 <= i < |freeRegions| ==> Maximal(regions, freeRegions, i, sys.maxAddress)
  {
    var lastEndAddress := 0;
    freeRegions := [];
    var n := 0;
    while n < |regions|
      invariant 0 <= n <= |regions|
      invariant lastEndAddress == LastEnd(regions[..n])
      invariant forall i :: 0 <= i < |freeRegions| ==>
                freeRegions[i].startAddress <= freeRegions[i].endAddress < lastEndAddress
      invariant forall i, j :: 0 <= i < j < |freeRegions| ==> freeRegions[i].endAddress < freeRegions[j].startAddress
      invariant forall x: nat :: InSome(freeRegions, x)
                             <==> !Covered(regions, x) && x < lastEndAddress
      invariant forall i :: 0 <= i < |freeRegions| ==> Covered(regions, freeRegions[i].endAddress + 1)
    {
      var entry := regions[n];
      ghost var before := freeRegions;
      BetweenMappings(regions, n);
      if entry.startAddress > lastEndAddress {
        freeRegions := freeRegions + [MemoryMapEntry(lastEndAddress, entry.startAddress - 1)];
        InAppended(before, MemoryMapEntry(lastEndAddress, entry.startAddress - 1));
        assert Covered(regions, entry.startAddress);
      }
      assert forall i :: 0 <= i < |before| ==> freeRegions[i] == before[i];
      lastEndAddress := entry.endAddress;
      n := n + 1;
    }
    ghost var before := freeRegions;
    if lastEndAddress < sys.maxAddress {
      freeRegions := freeRegions + [MemoryMapEntry(lastEndAddress, sys.maxAddress)];
      InAppended(before, MemoryMapEntry(lastEndAddress, sys.maxAddress));
    }
    assert forall i :: 0 <= i < |before| ==> freeRegions[i] == before[i];
    assert regions[..n] == regions;
    BetweenMappings(regions, n);
  }
}
