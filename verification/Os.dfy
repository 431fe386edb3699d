/** The operating system as an oracle over the set of mapped addresses.
    Each method's contract is what the library may rely on; its body only shows
    that the contract can be met. A `granting` system refuses no request that it
    could serve; any other may refuse at will, and may place a mapping elsewhere
    where the real call allows that. */
module OperatingSystem {
  import opened Machine

  predicate Within(base: nat, x: nat, size: nat) {
    base <= x < base + size
  }

  /** The addresses of a block. */
  function Block(base: nat, size: nat): (b: set<nat>)
    ensures forall x :: x in b <==> Within(base, x, size)
  {
    set x: nat | base <= x < base + size && Within(base, x, size)
  }

  /** What VirtualQuery reports about the region that starts at the page of an address. */
  datatype PageInfo = PageInfo(baseAddress: nat, regionSize: nat, isFree: bool)

  /** A line of the Linux memory map: the half-open range of a mapping. */
  datatype MemoryMapEntry = MemoryMapEntry(startAddress: nat, endAddress: nat)

  ghost predicate SortedMap(entries: seq<MemoryMapEntry>) {
    && (forall i :: 0 <= i < |entries| ==> entries[i].startAddress < entries[i].endAddress)
    && (forall i, j :: 0 <= i < j < |entries| ==> entries[i].endAddress <= entries[j].startAddress)
  }

  ghost predicate Covered(entries: seq<MemoryMapEntry>, x: nat) {
    exists i :: 0 <= i < |entries| && entries[i].startAddress <= x < entries[i].endAddress
  }

  const KERN_SUCCESS := 0
  const KERN_INVALID_ADDRESS := 1

  /** One single-address line for every mapped address below `n`. */
  function LinesBelow(mapped: set<nat>, n: nat): (entries: seq<MemoryMapEntry>)
    ensures SortedMap(entries)
    ensures forall i :: 0 <= i < |entries| ==> entries[i].endAddress <= n
    ensures forall x: nat :: Covered(entries, x) <==> x < n && x in mapped
  {
    if n == 0 then []
    else if n - 1 in mapped then
      var rest := LinesBelow(mapped, n - 1);
      var entries := rest + [MemoryMapEntry(n - 1, n)];
      assert entries[|rest|] == MemoryMapEntry(n - 1, n);
      assert forall i :: 0 <= i < |rest| ==> entries[i] == rest[i];
      entries
    else LinesBelow(mapped, n - 1)
  }

  class Os {
    const sys: SysInfo
    const granting: bool
    var mapped: set<nat>

    function PageOf(x: nat): nat {
      RoundDown(x, sys.pageSize)
    }

    /** End of the usable address space, exclusive. The last word is never mapped
        (error pointers live there), and only Linux maps above `maxAddress`. */
    function Limit(): nat {
      if sys.platform == Linux || sys.maxAddress == sys.WordMax() then sys.WordMax() else sys.maxAddress + 1
    }

    ghost predicate Valid()
      reads this
    {
      && sys.Valid()
      && (forall x :: x in mapped ==> 0 < x < Limit())
      && (forall x: nat {:trigger PageOf(x)} :: x in mapped <==> PageOf(x) in mapped)
    }

    /** A request that could be served at exactly this place. */
    predicate Free(base: nat, size: nat)
      reads this
    {
      0 < base && 0 < size && base + size <= Limit() && Block(base, size) !! mapped
    }

    lemma PageOfBlock(base: nat, size: nat, x: nat)
      requires sys.Valid() && base % sys.pageSize == 0 && size % sys.pageSize == 0
      ensures base <= x < base + size <==> base <= PageOf(x) < base + size
    {
      var p := sys.pageSize;
      AlignedSum(base, size, p);
      RoundDownIsGreatest(x, p, base);
      if PageOf(x) < base + size {
        NextMultiple(PageOf(x), base + size, p);
      }
    }

    method Map(base: nat, size: nat)
      requires Valid() && Free(base, size)
      requires base % sys.pageSize == 0 && size % sys.pageSize == 0
      modifies this
      ensures Valid() && mapped == old(mapped) + Block(base, size)
    {
      forall x: nat ensures x in mapped + Block(base, size) <==> PageOf(x) in mapped + Block(base, size) {
        PageOfBlock(base, size, x);
      }
      mapped := mapped + Block(base, size);
    }

    method Unmap(base: nat, size: nat)
      requires Valid()
      requires base % sys.pageSize == 0 && size % sys.pageSize == 0
      modifies this
      ensures Valid() && mapped == old(mapped) - Block(base, size)
    {
      forall x: nat ensures x in mapped - Block(base, size) <==> PageOf(x) in mapped - Block(base, size) {
        PageOfBlock(base, size, x);
      }
      mapped := mapped - Block(base, size);
    }

    /** What every allocating call promises about the block it returns. */
    twostate predicate MappedExactly(base: nat, size: nat)
      reads this
    {
      && 0 < sys.pageSize && base % sys.pageSize == 0
      && old(Free(base, size))
      && mapped == old(mapped) + Block(base, size)
    }

    /** Serves a request at its place, elsewhere, or not at all. */
    method Serve(base: nat, size: nat, elsewhere: bool) returns (result: Option<nat>)
      requires Valid() && size % sys.pageSize == 0
      modifies this
      ensures Valid()
      ensures result.None? ==> mapped == old(mapped)
      ensures result.Some? ==> MappedExactly(result.value, size) && (elsewhere || result.value == base)
      ensures granting && base % sys.pageSize == 0 && old(Free(base, size)) ==> result == Some(base)
    {
      var willing: bool := *;
      var other: nat := *;
      if base % sys.pageSize == 0 && Free(base, size) && (granting || willing) {
        Map(base, size);
        return Some(base);
      }
      if elsewhere && other % sys.pageSize == 0 && Free(other, size) && willing {
        Map(other, size);
        return Some(other);
      }
      return None;
    }

    // Linux

    /** The lines of the memory map of this process. */
    method ReadMaps() returns (entries: seq<MemoryMapEntry>)
      requires Valid()
      ensures SortedMap(entries)
      ensures forall x: nat :: Covered(entries, x) <==> x in mapped
      ensures forall i :: 0 <= i < |entries| ==> sys.IsWord(entries[i].endAddress)
    {
      entries := LinesBelow(mapped, sys.WordMax());
    }

    /** mmap with MAP_FIXED_NOREPLACE; kernels that do not know the flag take the address as a hint.
        Failure is the all-ones pointer. */
    method Mmap(addr: nat, size: nat) returns (result: nat)
      requires Valid() && size % sys.pageSize == 0
      modifies this
      ensures Valid() && 0 < result <= sys.WordMax()
      ensures result == sys.WordMax() ==> mapped == old(mapped)
      ensures result != sys.WordMax() ==> MappedExactly(result, size)
      ensures granting && addr % sys.pageSize == 0 && old(Free(addr, size)) ==> result == addr
    {
      var r := Serve(addr, size, true);
      result := if r.Some? then r.value else sys.WordMax();
    }

    /** munmap; an unaligned address or a range past the address space is refused. */
    method Munmap(addr: nat, size: nat)
      requires Valid() && size % sys.pageSize == 0
      modifies this
      ensures Valid()
      ensures mapped == if addr % sys.pageSize == 0 && addr + size <= sys.WordMax() then old(mapped) - Block(addr, size)
                        else old(mapped)
    {
      if addr % sys.pageSize == 0 && addr + size <= sys.WordMax() {
        Unmap(addr, size);
      }
    }

    // Windows

    /** VirtualQuery: the region that begins at the page of `addr`. A free region reaches to the next mapping. */
    method VirtualQuery(addr: nat) returns (hasPage: bool, info: PageInfo)
      requires Valid() && sys.platform == Windows
      ensures hasPage <==> addr <= sys.maxAddress
      ensures hasPage ==> info.baseAddress == PageOf(addr) && 0 < info.regionSize && info.regionSize % sys.pageSize == 0
      ensures hasPage ==> addr < info.baseAddress + info.regionSize <= sys.maxAddress + 1
      ensures hasPage ==> forall x :: Within(info.baseAddress, x, info.regionSize) ==> (x in mapped <==> !info.isFree)
      ensures hasPage && info.isFree ==> info.baseAddress + info.regionSize == sys.maxAddress + 1
                                         || info.baseAddress + info.regionSize in mapped
    {
      if addr > sys.maxAddress {
        return false, PageInfo(0, 0, false);
      }
      var p := sys.pageSize;
      var base := PageOf(addr);
      var isFree := base !in mapped;
      var size := 0;
      RoundDownIsGreatest(addr, p, 0);
      while size == 0 || (base + size <= sys.maxAddress && (base + size !in mapped) == isFree)
        invariant size % p == 0
        invariant base + size <= sys.maxAddress + 1
        invariant 0 < size ==> addr < base + size
        invariant forall x :: Within(base, x, size) ==> (x in mapped <==> !isFree)
        decreases sys.maxAddress + 1 - size
      {
        AlignedSum(base, size, p);
        AlignedSum(base + size, p, p);
        AlignedSum(size, p, p);
        NextMultiple(base + size, sys.maxAddress + 1, p);
        forall x | Within(base, x, size + p) ensures x in mapped <==> !isFree {
          if base + size <= x {
            PageOfBlock(base + size, p, x);
            RoundDownIsGreatest(x, p, base + size);
            if PageOf(x) != base + size {
              NextMultiple(base + size, PageOf(x), p);
            }
            assert PageOf(x) == base + size;
          }
        }
        size := size + p;
      }
      return true, PageInfo(base, size, isFree);
    }

    /** VirtualAlloc with MEM_RESERVE | MEM_COMMIT; address zero means anywhere. Failure is the null pointer. */
    method VirtualAlloc(addr: nat, size: nat) returns (result: nat)
      requires Valid() && size % sys.pageSize == 0
      modifies this
      ensures Valid()
      ensures result == 0 ==> mapped == old(mapped)
      ensures result != 0 ==> MappedExactly(result, size) && (addr == 0 || result == addr)
      ensures granting && addr % sys.pageSize == 0 && old(Free(addr, size)) ==> result == addr
    {
      var r := Serve(addr, size, addr == 0);
      result := if r.Some? then r.value else 0;
    }

    /** VirtualFree with MEM_RELEASE refuses every call that names a size. */
    method VirtualFree(addr: nat, size: nat) returns (ok: bool)
      requires Valid() && size != 0
      ensures !ok
    {
      ok := false;
    }

    // macOS

    /** mach_vm_region: the first region that ends above `address`. */
    method VmRegion(address: nat) returns (kr: int, actual: nat, size: nat)
      requires Valid()
      ensures kr == KERN_INVALID_ADDRESS ==> forall x :: x in mapped ==> x < address
      ensures kr == KERN_SUCCESS ==> 0 < size && address < actual + size <= Limit()
      ensures kr == KERN_SUCCESS ==> Block(actual, size) <= mapped
      ensures kr == KERN_SUCCESS ==> forall x :: address <= x < actual ==> x !in mapped
      ensures granting ==> kr == KERN_SUCCESS || kr == KERN_INVALID_ADDRESS
    {
      var refuse: bool := *;
      if refuse && !granting {
        return 2, 0, 0;
      }
      actual := address;
      while actual < Limit() && actual !in mapped
        invariant forall x :: address <= x < actual ==> x !in mapped
      {
        actual := actual + 1;
      }
      if actual >= Limit() {
        return KERN_INVALID_ADDRESS, 0, 0;
      }
      return KERN_SUCCESS, actual, 1;
    }

    /** mach_vm_allocate at a fixed address. */
    method VmAllocate(addr: nat, size: nat) returns (kr: int)
      requires Valid() && size % sys.pageSize == 0
      modifies this
      ensures Valid()
      ensures kr != KERN_SUCCESS ==> mapped == old(mapped)
      ensures kr == KERN_SUCCESS ==> MappedExactly(addr, size)
      ensures granting && addr % sys.pageSize == 0 && old(Free(addr, size)) ==> kr == KERN_SUCCESS
    {
      var r := Serve(addr, size, false);
      kr := if r.Some? then KERN_SUCCESS else 3;
    }

    /** mach_vm_protect changes no mapping. */
    method VmProtect(addr: nat, size: nat) returns (kr: int)
      requires Valid()
      ensures granting ==> kr == KERN_SUCCESS
    {
      var refuse: bool := *;
      kr := if refuse && !granting then 2 else KERN_SUCCESS;
    }

    method VmDeallocate(addr: nat, size: nat)
      requires Valid() && addr % sys.pageSize == 0 && size % sys.pageSize == 0
      modifies this
      ensures Valid() && mapped == old(mapped) - Block(addr, size)
    {
      Unmap(addr, size);
    }

    // The heap

    /** The global allocator, asked for a page-aligned block; null when memory is short. */
    method HeapAlloc(size: nat) returns (result: nat)
      requires Valid() && size % sys.pageSize == 0
      modifies this
      ensures Valid()
      ensures result == 0 ==> mapped == old(mapped)
      ensures result != 0 ==> MappedExactly(result, size)
    {
      var r := Serve(0, size, true);
      result := if r.Some? then r.value else 0;
    }
  }
}
