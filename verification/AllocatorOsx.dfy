/** Placing a block on macOS: walk the gaps between the regions that mach_vm_region reports. */
module AllocatorOsx {
  import opened Machine
  import opened OperatingSystem
  import opened Placeability
  import opened Settings

  /** One iteration over the candidates; a block that cannot be protected is given back. */
  method TryCandidate(os: Os, addr: nat, settings: AllocatorSettings) returns (ok: bool)
    requires os.Valid() && settings.size % os.sys.pageSize == 0
    requires addr % os.sys.pageSize == 0
    modifies os
    ensures os.Valid() && Attempted(os, settings, addr, ok)
  {
    var kr := os.VmAllocate(addr, settings.size);
    if kr != KERN_SUCCESS {
      return false;
    }
    kr := os.VmProtect(addr, settings.size);
    if kr != KERN_SUCCESS {
      os.VmDeallocate(addr, settings.size);
      assert os.mapped == old(os.mapped);
      return false;
    }
    return true;
  }

  method TryAllocateBuffer(os: Os, pageAddress: nat, pageSize: nat, settings: AllocatorSettings)
    returns (r: Option<nat>)
    requires os.Valid() && settings.Words(os.sys) && settings.size % os.sys.granularity == 0
    requires pageAddress + pageSize <= os.Limit()
    modifies os
    ensures os.Valid()
    ensures r.None? ==> os.mapped == old(os.mapped)
    ensures r.Some? ==> Placed(os, settings, r.value) && r.value + settings.size <= pageAddress + pageSize
    ensures os.granting && HasRoom(os.sys, old(os.mapped), settings, pageAddress, pageAddress + pageSize) ==> r.Some?
  {
    GranuleIsPage(os.sys, settings.size);
    var bufferPointers := CandidatesIn(os, settings, pageAddress, pageAddress + pageSize);
    var i := 0;
    while i < |bufferPointers|
      invariant 0 <= i <= |bufferPointers|
      invariant os.Valid() && os.mapped == old(os.mapped)
      invariant os.granting ==> forall j :: 0 <= j < i ==> !os.Free(bufferPointers[j], settings.size)
    {
      var ok := TryCandidate(os, bufferPointers[i], settings);
      if ok {
        return Some(bufferPointers[i]);
      }
      i := i + 1;
    }
    r := None;
  }

  /** A gap may start here: the search does, or a mapping ends. */
  ghost predicate Boundary(mapped: set<nat>, v: AllocatorSettings, current: nat) {
    current == v.minAddress || (v.minAddress < current && current - 1 in mapped)
  }

  /** A gap offered for allocation: all free, and as wide as it can be. Below lies a mapping or the
      start of the search, above a mapping or the end of the search. */
  ghost predicate OfferedGap(sys: SysInfo, mapped: set<nat>, v: AllocatorSettings, start: nat, end: nat) {
    && start < end
    && Unmapped(mapped, start, end)
    && Boundary(mapped, v, start)
    && (end in mapped
        || ((forall x :: x in mapped ==> x < start) && (end == sys.maxAddress || end == v.maxAddress)))
  }

  /** A placeable block that starts in an offered gap fits in it. */
  lemma GapDecides(sys: SysInfo, mapped: set<nat>, v: AllocatorSettings, start: nat, end: nat, a: nat)
    requires sys.platform == MacOs && Placeable(sys, mapped, v, a)
    requires OfferedGap(sys, mapped, v, start, end) && start <= a < end
    ensures HasRoom(sys, mapped, v, start, end)
  {
    assert end in mapped ==> !Within(a, end, v.size);
    assert RequestIn(sys, v, start, end).Fits(a);
  }

  /** After the gap below a region and the region itself, nothing placeable starts below the region's end. */
  lemma StepOverRegion(sys: SysInfo, mapped: set<nat>, v: AllocatorSettings, current: nat, actual: nat, size: nat)
    requires sys.platform == MacOs
    requires NoneBefore(sys, mapped, v, current)
    requires Block(actual, size) <= mapped && actual < actual + size
    requires current < actual ==>
               OfferedGap(sys, mapped, v, current, actual) && !HasRoom(sys, mapped, v, current, actual)
    ensures NoneBefore(sys, mapped, v, actual + size)
  {
    forall a: nat | Placeable(sys, mapped, v, a) ensures actual + size <= a {
      assert Within(a, a, v.size);
      if a < actual {
        GapDecides(sys, mapped, v, current, actual, a);
      } else {
        assert !Within(actual, a, size);
      }
    }
  }

  /** The gaps are offered from low to high. */
  ghost predicate Offered(sys: SysInfo, mapped: set<nat>, v: AllocatorSettings, gaps: seq<AddressRange>) {
    && (forall i :: 0 <= i < |gaps| ==> OfferedGap(sys, mapped, v, gaps[i].startPointer, gaps[i].endPointer))
    && (forall i, j :: 0 <= i < j < |gaps| ==> gaps[i].endPointer <= gaps[j].startPointer)
  }

  /** Every free address from the start of the search up to `to` lies in a gap that was offered. */
  ghost predicate AllOffered(mapped: set<nat>, v: AllocatorSettings, gaps: seq<AddressRange>, to: nat) {
    forall x: nat :: v.minAddress <= x < to && x !in mapped ==>
         exists i :: 0 <= i < |gaps| && gaps[i].startPointer <= x < gaps[i].endPointer
  }

  /** The gaps below `current` have been offered. */
  ghost predicate Walked(sys: SysInfo, mapped: set<nat>, v: AllocatorSettings, gaps: seq<AddressRange>, current: nat) {
    && Offered(sys, mapped, v, gaps) && AllOffered(mapped, v, gaps, current)
    && (forall i :: 0 <= i < |gaps| ==> gaps[i].endPointer <= current)
    && v.minAddress <= current
  }

  lemma WalkedGap(sys: SysInfo, mapped: set<nat>, v: AllocatorSettings, gaps: seq<AddressRange>, start: nat, end: nat)
    requires Walked(sys, mapped, v, gaps, start) && OfferedGap(sys, mapped, v, start, end)
    ensures Walked(sys, mapped, v, gaps + [AddressRange(start, end)], end)
  {
    var more := gaps + [AddressRange(start, end)];
    forall x: nat | v.minAddress <= x < end && x !in mapped
      ensures exists i :: 0 <= i < |more| && more[i].startPointer <= x < more[i].endPointer
    {
      if x < start {
        var i :| 0 <= i < |gaps| && gaps[i].startPointer <= x < gaps[i].endPointer;
        assert more[i] == gaps[i];
      } else {
        assert more[|gaps|] == AddressRange(start, end);
      }
    }
  }

  lemma WalkedRegion(sys: SysInfo, mapped: set<nat>, v: AllocatorSettings, gaps: seq<AddressRange>, current: nat,
                     actual: nat, size: nat)
    requires Walked(sys, mapped, v, gaps, current) && actual <= current < actual + size && Block(actual, size) <= mapped
    ensures Walked(sys, mapped, v, gaps, actual + size) && Boundary(mapped, v, actual + size)
  {
    assert Within(actual, actual + size - 1, size);
    forall x: nat | v.minAddress <= x < actual + size && x !in mapped ensures x < current {
      assert current <= x ==> Within(actual, x, size);
    }
  }

  /** One walk over the address space. A walk that finds nothing has offered exactly the gaps that there are. */
  method WalkGaps(os: Os, maxAddress: nat, settings: AllocatorSettings)
    returns (r: Option<nat>, ghost gaps: seq<AddressRange>)
    requires os.Valid() && os.sys.platform == MacOs
    requires settings.Words(os.sys) && settings.size % os.sys.granularity == 0
    requires maxAddress == if os.sys.maxAddress < settings.maxAddress then os.sys.maxAddress else settings.maxAddress
    modifies os
    ensures os.Valid()
    ensures r.None? ==> os.mapped == old(os.mapped)
    ensures r.Some? ==> Placed(os, settings, r.value) && Placeable(os.sys, old(os.mapped), settings, r.value)
    ensures os.granting && r.None? ==> forall a :: !Placeable(os.sys, os.mapped, settings, a)
    ensures Offered(os.sys, old(os.mapped), settings, gaps)
    ensures os.granting && r.None? ==> AllOffered(os.mapped, settings, gaps, maxAddress)
  {
    gaps := [];
    var currentAddress := settings.minAddress;
    while currentAddress <= maxAddress
      invariant os.Valid() && os.mapped == old(os.mapped)
      invariant Walked(os.sys, os.mapped, settings, gaps, currentAddress)
                && Boundary(os.mapped, settings, currentAddress)
      invariant os.granting ==> NoneBefore(os.sys, os.mapped, settings, currentAddress)
      decreases maxAddress - currentAddress
    {
      var kr, actualAddress, availableSize := os.VmRegion(currentAddress);
      if kr == KERN_INVALID_ADDRESS {
        var padding := maxAddress - currentAddress;
        if padding > 0 {
          assert OfferedGap(os.sys, os.mapped, settings, currentAddress, maxAddress);
          WalkedGap(os.sys, os.mapped, settings, gaps, currentAddress, maxAddress);
          gaps := gaps + [AddressRange(currentAddress, maxAddress)];
          r := TryAllocateBuffer(os, currentAddress, padding, settings);
          if r.Some? {
            return;
          }
          forall a: nat | os.granting && Placeable(os.sys, os.mapped, settings, a) ensures false {
            GapDecides(os.sys, os.mapped, settings, currentAddress, maxAddress, a);
          }
        }
        break;
      }
      if kr != KERN_SUCCESS {
        break;
      }
      if actualAddress > currentAddress {
        assert OfferedGap(os.sys, os.mapped, settings, currentAddress, actualAddress) by {
          assert Within(actualAddress, actualAddress, availableSize);
        }
        WalkedGap(os.sys, os.mapped, settings, gaps, currentAddress, actualAddress);
        gaps := gaps + [AddressRange(currentAddress, actualAddress)];
        r := TryAllocateBuffer(os, currentAddress, actualAddress - currentAddress, settings);
        if r.Some? {
          return;
        }
      }
      WalkedRegion(os.sys, os.mapped, settings, gaps,
                   if currentAddress < actualAddress then actualAddress else currentAddress, actualAddress,
                   availableSize);
      if os.granting {
        StepOverRegion(os.sys, os.mapped, settings, currentAddress, actualAddress, availableSize);
      }
      currentAddress := actualAddress + availableSize;
    }
    r := None;
  }

  method AllocateOsx(os: Os, settings: AllocatorSettings) returns (r: Option<nat>)
    requires os.Valid() && os.sys.platform == MacOs
    requires settings.Words(os.sys) && settings.size % os.sys.granularity == 0
    modifies os
    ensures os.Valid()
    ensures r.None? ==> os.mapped == old(os.mapped)
    ensures r.Some? ==> Placed(os, settings, r.value) && Placeable(os.sys, old(os.mapped), settings, r.value)
    ensures os.granting && 0 < settings.retryCount
            ==> (r.Some? <==> exists a :: Placeable(os.sys, old(os.mapped), settings, a))
  {
    var maxAddress := if os.sys.maxAddress < settings.maxAddress then os.sys.maxAddress else settings.maxAddress;
    var attempt := 0;
    while attempt < settings.retryCount
      invariant os.Valid() && os.mapped == old(os.mapped)
      invariant 0 <= attempt
      invariant os.granting && 0 < attempt ==> forall a :: !Placeable(os.sys, os.mapped, settings, a)
    {
      ghost var gaps;
      r, gaps := WalkGaps(os, maxAddress, settings);
      if r.Some? {
        return;
      }
      attempt := attempt + 1;
    }
    return None;
  }
}
