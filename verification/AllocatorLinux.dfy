/** Placing a block on Linux: scan the gaps of the memory map. */
module AllocatorLinux {
  import opened Machine
  import opened MapParser
  import opened OperatingSystem
  import opened Placeability
  import opened Settings

  /** One iteration over the candidates: a mapping placed elsewhere is undone. */
  method TryCandidate(os: Os, addr: nat, settings: AllocatorSettings) returns (ok: bool)
    requires os.Valid() && settings.size % os.sys.pageSize == 0
    requires addr % os.sys.pageSize == 0 && addr < os.sys.WordMax()
    modifies os
    ensures os.Valid() && Attempted(os, settings, addr, ok)
  {
    var mapping := os.Mmap(addr, settings.size);
    if mapping == 0 {
      return false;
    }
    if mapping != addr {
      os.Munmap(mapping, settings.size);
      assert os.mapped == old(os.mapped);
      return false;
    }
    return true;
  }

  method TryAllocateBuffer(os: Os, entry: MemoryMapEntry, settings: AllocatorSettings) returns (r: Option<nat>)
    requires os.Valid() && settings.Words(os.sys) && settings.size % os.sys.granularity == 0
    requires os.sys.IsWord(entry.startAddress) && os.sys.IsWord(entry.endAddress) && entry.endAddress <= os.Limit()
    modifies os
    ensures os.Valid()
    ensures r.None? ==> os.mapped == old(os.mapped)
    ensures r.Some? ==> Placed(os, settings, r.value)
                        && entry.startAddress <= r.value && r.value + settings.size <= entry.endAddress
    ensures os.granting && HasRoom(os.sys, old(os.mapped), settings, entry.startAddress, entry.endAddress) ==> r.Some?
  {
    GranuleIsPage(os.sys, settings.size);
    var buffer := CandidatesIn(os, settings, entry.startAddress, entry.endAddress);
    var i := 0;
    while i < |buffer|
      invariant 0 <= i <= |buffer|
      invariant os.Valid() && os.mapped == old(os.mapped)
      invariant os.granting ==> forall j :: 0 <= j < i ==> !os.Free(buffer[j], settings.size)
    {
      var ok := TryCandidate(os, buffer[i], settings);
      if ok {
        return Some(buffer[i]);
      }
      i := i + 1;
    }
    r := None;
  }

  /** The gaps of the current map, as produced from its lines. */
  ghost predicate GapsOf(sys: SysInfo, mapped: set<nat>, regions: seq<MemoryMapEntry>) {
    && (forall i :: 0 <= i < |regions| ==> Gap(sys, mapped, regions[i]))
    && (forall i, j :: 0 <= i < j < |regions| ==> regions[i].endAddress < regions[j].startAddress)
    && (forall x: nat :: x !in mapped && (x <= sys.maxAddress || exists y :: y in mapped && x < y)
                         ==> InSome(regions, x) || (x == sys.maxAddress && forall y :: y in mapped ==> y < x))
  }

  /** A gap ends just below a mapping, or at the last address with nothing above. */
  ghost predicate Gap(sys: SysInfo, mapped: set<nat>, r: MemoryMapEntry) {
    && r.startAddress <= r.endAddress <= sys.WordMax()
    && Unmapped(mapped, r.startAddress, r.endAddress + 1)
    && (r.endAddress + 1 in mapped
        || (r.endAddress == sys.maxAddress && forall x :: x in mapped ==> x < r.startAddress))
  }

  method CurrentGaps(os: Os) returns (regions: seq<MemoryMapEntry>)
    requires os.Valid() && os.sys.platform == Linux
    ensures GapsOf(os.sys, os.mapped, regions)
  {
    var entries := os.ReadMaps();
    regions := GetFreeRegions(os.sys, entries);
    forall i | 0 <= i < |regions| ensures Gap(os.sys, os.mapped, regions[i]) {
      assert Maximal(entries, regions, i, os.sys.maxAddress);
      forall x: nat | regions[i].startAddress <= x <= regions[i].endAddress ensures x !in os.mapped {
        assert InRegion(regions[i], x);
      }
    }
    forall y: nat | y in os.mapped ensures y < LastEnd(entries) {
      assert Covered(entries, y);
    }
  }

  /** A block can be placed exactly when it fits in some gap. */
  lemma PlaceableInGap(sys: SysInfo, mapped: set<nat>, v: AllocatorSettings, regions: seq<MemoryMapEntry>, a: nat)
    requires sys.platform == Linux && GapsOf(sys, mapped, regions) && Placeable(sys, mapped, v, a)
    ensures exists i :: 0 <= i < |regions| && HasRoom(sys, mapped, v, regions[i].startAddress, regions[i].endAddress)
                        && regions[i].startAddress <= v.maxAddress
  {
    assert Within(a, a, v.size);
    assert InSome(regions, a);
    var i :| 0 <= i < |regions| && InRegion(regions[i], a);
    var r := regions[i];
    assert Gap(sys, mapped, r);
    forall x: nat | a <= x <= a + v.size ensures x !in mapped {
      assert x < a + v.size ==> Within(a, x, v.size);
    }
    assert a + v.size <= r.endAddress;
    assert RequestIn(sys, v, r.startAddress, r.endAddress).Fits(a);
  }

  lemma InGapIsPlaceable(sys: SysInfo, mapped: set<nat>, v: AllocatorSettings, r: MemoryMapEntry, a: nat)
    requires sys.platform == Linux && Gap(sys, mapped, r) && Acceptable(sys, mapped, v, a)
    requires r.startAddress <= a && a + v.size <= r.endAddress
    ensures Placeable(sys, mapped, v, a)
  {
  }

  method AllocateLinux(os: Os, settings: AllocatorSettings) returns (r: Option<nat>)
    requires os.Valid() && os.sys.platform == Linux
    requires settings.Words(os.sys) && settings.size % os.sys.granularity == 0
    modifies os
    ensures os.Valid()
    ensures r.None? ==> os.mapped == old(os.mapped)
    ensures r.Some? ==> Placed(os, settings, r.value) && Placeable(os.sys, old(os.mapped), settings, r.value)
    ensures os.granting && 0 < settings.retryCount
            ==> (r.Some? <==> exists a :: Placeable(os.sys, old(os.mapped), settings, a))
  {
    var attempt := 0;
    while attempt < settings.retryCount
      invariant os.Valid() && os.mapped == old(os.mapped)
      invariant 0 <= attempt
      invariant os.granting && 0 < attempt ==> forall a :: !Placeable(os.sys, os.mapped, settings, a)
    {
      attempt := attempt + 1;
      var regions := CurrentGaps(os);
      var k := 0;
      while k < |regions| && regions[k].startAddress <= settings.maxAddress
        invariant 0 <= k <= |regions|
        invariant os.Valid() && os.mapped == old(os.mapped) && GapsOf(os.sys, os.mapped, regions)
        invariant os.granting ==>
          forall j :: 0 <= j < k ==>
            !HasRoom(os.sys, os.mapped, settings, regions[j].startAddress, regions[j].endAddress)
      {
        assert Gap(os.sys, os.mapped, regions[k]);
        r := TryAllocateBuffer(os, regions[k], settings);
        if r.Some? {
          InGapIsPlaceable(os.sys, old(os.mapped), settings, regions[k], r.value);
          return;
        }
        k := k + 1;
      }
      forall a | os.granting && Placeable(os.sys, os.mapped, settings, a) ensures false {
        PlaceableInGap(os.sys, os.mapped, settings, regions, a);
      }
    }
    return None;
  }
}
