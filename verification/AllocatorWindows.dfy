/** Placing a block on Windows: walk the regions that VirtualQuery reports. */
module AllocatorWindows {
  import opened Machine
  import opened OperatingSystem
  import opened Placeability
  import opened Settings

  /** One iteration over the candidates. A block that the system placed elsewhere, which
      only the null address allows, stays mapped: the VirtualFree call names a size and is refused. */
  method TryCandidate(os: Os, addr: nat, settings: AllocatorSettings) returns (ok: bool)
    requires os.Valid() && settings.size % os.sys.pageSize == 0
    requires addr % os.sys.pageSize == 0
    modifies os
    ensures os.Valid()
    ensures 0 < addr ==> Attempted(os, settings, addr, ok)
    ensures addr == 0 ==> !ok && old(os.mapped) <= os.mapped
  {
    var mapping := os.VirtualAlloc(addr, settings.size);
    if mapping == 0 {
      return false;
    }
    if mapping != addr {
      var freed := os.VirtualFree(mapping, settings.size);
      return false;
    }
    return true;
  }

  ghost predicate RegionHasRoom(sys: SysInfo, mapped: set<nat>, v: AllocatorSettings, info: PageInfo) {
    info.isFree && HasRoom(sys, mapped, v, info.baseAddress, info.baseAddress + info.regionSize)
  }

  method TryAllocateBuffer(os: Os, pageInfo: PageInfo, settings: AllocatorSettings) returns (r: Option<nat>)
    requires os.Valid() && settings.Words(os.sys) && settings.size % os.sys.granularity == 0
    requires 0 < settings.minAddress
    requires pageInfo.baseAddress + pageInfo.regionSize <= os.Limit()
    modifies os
    ensures os.Valid()
    ensures r.None? ==> os.mapped == old(os.mapped)
    ensures r.Some? ==> Placed(os, settings, r.value)
                        && r.value + settings.size <= pageInfo.baseAddress + pageInfo.regionSize
    ensures os.granting && RegionHasRoom(os.sys, old(os.mapped), settings, pageInfo) ==> r.Some?
  {
    if !pageInfo.isFree {
      return None;
    }
    GranuleIsPage(os.sys, settings.size);
    var results := CandidatesIn(os, settings, pageInfo.baseAddress, pageInfo.baseAddress + pageInfo.regionSize);
    var i := 0;
    while i < |results|
      invariant 0 <= i <= |results|
      invariant os.Valid() && os.mapped == old(os.mapped)
      invariant os.granting ==> forall j :: 0 <= j < i ==> !os.Free(results[j], settings.size)
    {
      var ok := TryCandidate(os, results[i], settings);
      if ok {
        return Some(results[i]);
      }
      i := i + 1;
    }
    r := None;
  }

  /** Adding a whole number of pages keeps the offset within the page. */
  lemma PageStep(os: Os, current: nat, step: nat)
    requires os.sys.Valid() && step % os.sys.pageSize == 0
    ensures os.PageOf(current + step) == os.PageOf(current) + step
    ensures os.PageOf(current) <= current < os.PageOf(current) + os.sys.pageSize
  {
    AlignedSum(step, current, os.sys.pageSize);
    RoundDownIsGreatest(current, os.sys.pageSize, 0);
  }

  /** What VirtualQuery promises about the region at `address`. */
  ghost predicate Reported(sys: SysInfo, mapped: set<nat>, address: nat, info: PageInfo) {
    && 0 < sys.pageSize && info.baseAddress == RoundDown(address, sys.pageSize)
    && address < info.baseAddress + info.regionSize <= sys.maxAddress + 1
    && info.regionSize % sys.pageSize == 0
    && (forall x :: Within(info.baseAddress, x, info.regionSize) ==> (x in mapped <==> !info.isFree))
    && (info.isFree ==> info.baseAddress + info.regionSize == sys.maxAddress + 1
                        || info.baseAddress + info.regionSize in mapped)
  }

  /** A reported region in which a placeable block starts has room for it. */
  lemma RegionDecides(sys: SysInfo, mapped: set<nat>, address: nat, v: AllocatorSettings, info: PageInfo, a: nat)
    requires sys.platform == Windows && Placeable(sys, mapped, v, a)
    requires Reported(sys, mapped, address, info) && Within(info.baseAddress, a, info.regionSize)
    ensures RegionHasRoom(sys, mapped, v, info)
  {
    var end := info.baseAddress + info.regionSize;
    assert Within(a, a, v.size);
    assert info.isFree;
    assert end in mapped ==> !Within(a, end, v.size);
    assert Unmapped(mapped, info.baseAddress, end);
    assert RequestIn(sys, v, info.baseAddress, end).Fits(a);
  }

  /** Stepping over a region without room skips no placeable block, whatever the offset in the page. */
  lemma StepOverRegion(os: Os, current: nat, v: AllocatorSettings, info: PageInfo)
    requires os.Valid() && os.sys.platform == Windows
    requires Reported(os.sys, os.mapped, current, info)
    ensures current + info.regionSize <= os.sys.WordMax()
    ensures NoneBefore(os.sys, os.mapped, v, os.PageOf(current)) && !RegionHasRoom(os.sys, os.mapped, v, info)
            ==> NoneBefore(os.sys, os.mapped, v, os.PageOf(current + info.regionSize))
  {
    PageStep(os, current, info.regionSize);
    if NoneBefore(os.sys, os.mapped, v, os.PageOf(current)) && !RegionHasRoom(os.sys, os.mapped, v, info) {
      forall a: nat | Placeable(os.sys, os.mapped, v, a) ensures os.PageOf(current + info.regionSize) <= a {
        if Within(info.baseAddress, a, info.regionSize) {
          RegionDecides(os.sys, os.mapped, current, v, info, a);
        }
      }
    }
  }

  /** In the first page of a granule, the page and the granule begin together. */
  lemma FirstPage(sys: SysInfo, current: nat)
    requires sys.Valid() && current % sys.granularity < sys.pageSize
    ensures RoundDown(current, sys.pageSize) == RoundDown(current, sys.granularity)
    ensures RoundDown(current, sys.granularity) % sys.granularity == 0
  {
    var m := RoundDown(current, sys.granularity);
    RoundDownIsGreatest(current, sys.granularity, 0);
    GranuleIsPage(sys, m);
    RoundDownIsGreatest(current, sys.pageSize, m);
    if m < RoundDown(current, sys.pageSize) {
      NextMultiple(m, RoundDown(current, sys.pageSize), sys.pageSize);
    }
  }

  /** The same for a step of one granule, from anywhere in the first page of a granule. */
  lemma StepOverGranule(os: Os, current: nat, v: AllocatorSettings, info: PageInfo)
    requires os.Valid() && os.sys.platform == Windows && current % os.sys.granularity < os.sys.pageSize
    requires Reported(os.sys, os.mapped, current, info)
    requires NoneBefore(os.sys, os.mapped, v, os.PageOf(current)) && !RegionHasRoom(os.sys, os.mapped, v, info)
    ensures (current + os.sys.granularity) % os.sys.granularity == current % os.sys.granularity
    ensures NoneBefore(os.sys, os.mapped, v, os.PageOf(current + os.sys.granularity))
  {
    var g := os.sys.granularity;
    AlignedSum(g, current, g);
    FirstPage(os.sys, current);
    FirstPage(os.sys, current + g);
    var m := os.PageOf(current);
    assert os.PageOf(current + g) == m + g;
    forall a: nat | Placeable(os.sys, os.mapped, v, a) ensures m + g <= a {
      if a == m {
        RegionDecides(os.sys, os.mapped, current, v, info, a);
      } else {
        NextMultiple(m, a, g);
      }
    }
  }

  /** Past the highest address the walk looks at, no block is placeable. */
  lemma WalkIsOver(os: Os, v: AllocatorSettings, current: nat)
    requires os.Valid() && os.sys.platform == Windows && v.size % os.sys.granularity == 0
    requires current > os.sys.maxAddress || current > v.maxAddress
    requires NoneBefore(os.sys, os.mapped, v, os.PageOf(current))
    ensures forall a :: !Placeable(os.sys, os.mapped, v, a)
  {
    forall a: nat | Placeable(os.sys, os.mapped, v, a) ensures false {
      PageStep(os, current, 0);
      GranuleIsPage(os.sys, v.size);
      NextMultiple(0, v.size, os.sys.pageSize);
    }
  }

  /** One pass that steps by whole regions. */
  method WalkRegions(os: Os, maxAddress: nat, settings: AllocatorSettings) returns (r: Option<nat>)
    requires os.Valid() && os.sys.platform == Windows
    requires settings.Words(os.sys) && settings.size % os.sys.granularity == 0 && 0 < settings.minAddress
    requires maxAddress == if os.sys.maxAddress < settings.maxAddress then os.sys.maxAddress else settings.maxAddress
    modifies os
    ensures os.Valid()
    ensures r.None? ==> os.mapped == old(os.mapped)
    ensures r.Some? ==> Placed(os, settings, r.value) && Placeable(os.sys, old(os.mapped), settings, r.value)
    ensures os.granting && r.None? ==> forall a :: !Placeable(os.sys, os.mapped, settings, a)
  {
    var currentAddress := settings.minAddress;
    PageStep(os, currentAddress, 0);
    while currentAddress <= maxAddress
      invariant os.Valid() && os.mapped == old(os.mapped)
      invariant os.granting ==> NoneBefore(os.sys, os.mapped, settings, os.PageOf(currentAddress))
      decreases maxAddress - currentAddress
    {
      var hasPage, memoryInformation := os.VirtualQuery(currentAddress);
      if !hasPage {
        break;
      }
      r := TryAllocateBuffer(os, memoryInformation, settings);
      if r.Some? {
        return;
      }
      StepOverRegion(os, currentAddress, settings, memoryInformation);
      currentAddress := os.sys.Wrap(currentAddress + memoryInformation.regionSize);
    }
    if os.granting {
      WalkIsOver(os, settings, currentAddress);
    }
    return None;
  }

  /** The last resort: one pass that steps by the allocation granularity. Alone it finds a
      block whenever there is one if it starts in the first page of a granule. */
  method BruteForce(os: Os, maxAddress: nat, settings: AllocatorSettings) returns (r: Option<nat>)
    requires os.Valid() && os.sys.platform == Windows
    requires settings.Words(os.sys) && settings.size % os.sys.granularity == 0 && 0 < settings.minAddress
    requires maxAddress == if os.sys.maxAddress < settings.maxAddress then os.sys.maxAddress else settings.maxAddress
    modifies os
    ensures os.Valid()
    ensures r.None? ==> os.mapped == old(os.mapped)
    ensures r.Some? ==> Placed(os, settings, r.value) && Placeable(os.sys, old(os.mapped), settings, r.value)
    ensures os.granting && settings.minAddress % os.sys.granularity < os.sys.pageSize && r.None?
            ==> forall a :: !Placeable(os.sys, os.mapped, settings, a)
  {
    ghost var exact := os.granting && settings.minAddress % os.sys.granularity < os.sys.pageSize;
    var currentAddress := settings.minAddress;
    PageStep(os, currentAddress, 0);
    while currentAddress <= maxAddress
      invariant os.Valid() && os.mapped == old(os.mapped)
      invariant exact ==> currentAddress % os.sys.granularity < os.sys.pageSize
      invariant exact ==> NoneBefore(os.sys, os.mapped, settings, os.PageOf(currentAddress))
      decreases maxAddress - currentAddress
    {
      var hasItem, memoryInformation := os.VirtualQuery(currentAddress);
      if !hasItem {
        break;
      }
      r := TryAllocateBuffer(os, memoryInformation, settings);
      if r.Some? {
        return;
      }
      if exact {
        StepOverGranule(os, currentAddress, settings, memoryInformation);
      }
      currentAddress := os.sys.Wrap(currentAddress + os.sys.granularity);
    }
    if exact {
      WalkIsOver(os, settings, currentAddress);
    }
    return None;
  }

  method AllocateFast(os: Os, settings: AllocatorSettings) returns (r: Option<nat>)
    requires os.Valid() && os.sys.platform == Windows
    requires settings.Words(os.sys) && settings.size % os.sys.granularity == 0 && 0 < settings.minAddress
    modifies os
    ensures os.Valid()
    ensures r.None? ==> os.mapped == old(os.mapped)
    ensures r.Some? ==> Placed(os, settings, r.value) && Placeable(os.sys, old(os.mapped), settings, r.value)
    ensures os.granting
            && (0 < settings.retryCount
                || (settings.bruteForce && settings.minAddress % os.sys.granularity < os.sys.pageSize))
            ==> (r.Some? <==> exists a :: Placeable(os.sys, old(os.mapped), settings, a))
  {
    var maxAddress := if os.sys.maxAddress < settings.maxAddress then os.sys.maxAddress else settings.maxAddress;
    var attempt := 0;
    while attempt < settings.retryCount
      invariant os.Valid() && os.mapped == old(os.mapped)
      invariant 0 <= attempt
      invariant os.granting && 0 < attempt ==> forall a :: !Placeable(os.sys, os.mapped, settings, a)
    {
      r := WalkRegions(os, maxAddress, settings);
      if r.Some? {
        return;
      }
      attempt := attempt + 1;
    }
    if settings.bruteForce {
      r := BruteForce(os, maxAddress, settings);
      return;
    }
    return None;
  }
}
