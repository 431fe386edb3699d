/** Exactly from where the brute-force pass alone misses nothing: it steps by granules, but
    VirtualQuery reports regions from the page of an address on. */
module GranulePass {
  import opened Machine
  import opened OperatingSystem
  import opened Placeability
  import opened Settings
  import opened AllocatorWindows

  /** The pass looks at `c`. */
  ghost predicate LooksAt(sys: SysInfo, v: AllocatorSettings, c: nat) {
    && v.minAddress <= c <= v.maxAddress && c <= sys.maxAddress
    && 0 < sys.granularity && (c - v.minAddress) % sys.granularity == 0
  }

  /** Somewhere on the pass the region that is reported, whatever it is, has room. */
  ghost predicate Finds(sys: SysInfo, mapped: set<nat>, v: AllocatorSettings) {
    exists c: nat :: LooksAt(sys, v, c)
                     && forall info: PageInfo :: Reported(sys, mapped, c, info) ==> RegionHasRoom(sys, mapped, v, info)
  }

  /** The pass from `minAddress` finds a block in every map that has a place for one. */
  ghost predicate MissesNothing(sys: SysInfo, minAddress: nat) {
    0 < sys.granularity && forall mapped: set<nat>, v: AllocatorSettings, a: nat ::
      v.minAddress == minAddress && v.size % sys.granularity == 0 && Placeable(sys, mapped, v, a) ==>
           Finds(sys, mapped, v)
  }

  function NextGranule(sys: SysInfo, x: nat): nat {
    CeilTo(x, sys.granularity)
  }

  /** The address with the offset of `start` in the granule that begins at `a`. */
  lemma SameOffset(start: nat, g: nat, a: nat)
    requires 0 < g && a % g == 0 && start <= a
    ensures var c := a + start % g; (c - start) % g == 0 && c % g == start % g && RoundDown(c, g) == a
  {
    var q, r, d := a / g, start / g, start % g;
    assert a == g * q && start == g * r + d;
    DivModUnique(a + d, g, q, d);
    assert r <= q by {
      if q < r {
        MulMono(g, q + 1, r);
      }
    }
    assert g * q - g * r == g * (q - r);
    ModOfMultiple(g, q - r);
  }

  /** From the first page of a granule, the pass looks into the first page of every later one. */
  lemma FindsFromFirstPage(sys: SysInfo, mapped: set<nat>, v: AllocatorSettings, a: nat)
    requires sys.Valid() && sys.platform == Windows && v.minAddress % sys.granularity < sys.pageSize
    requires v.size % sys.granularity == 0 && Placeable(sys, mapped, v, a)
    ensures Finds(sys, mapped, v)
  {
    var c := a + v.minAddress % sys.granularity;
    SameOffset(v.minAddress, sys.granularity, a);
    FirstPage(sys, c);
    assert c < a + v.size by {
      NextMultiple(0, v.size, sys.granularity);
    }
    assert LooksAt(sys, v, c);
    forall info: PageInfo | Reported(sys, mapped, c, info) ensures RegionHasRoom(sys, mapped, v, info) {
      RegionDecides(sys, mapped, c, v, info, a);
    }
  }

  /** The map that defeats the pass from `start`: one page, just below the next granule. */
  function LastPage(sys: SysInfo, start: nat): set<nat>
    requires sys.pageSize <= NextGranule(sys, start)
  {
    Block(NextGranule(sys, start) - sys.pageSize, sys.pageSize)
  }

  /** The settings with room for just that granule. */
  function OneGranule(sys: SysInfo, start: nat): AllocatorSettings {
    AllocatorSettings(start, NextGranule(sys, start) + sys.granularity, sys.granularity, 0, true)
  }

  /** Where the next granule lies from behind the first page of one. */
  lemma BehindFirstPage(sys: SysInfo, start: nat)
    requires sys.Valid() && sys.pageSize <= start % sys.granularity
    ensures var a := NextGranule(sys, start);
      && start < a && a == RoundDown(start, sys.granularity) + sys.granularity
      && a % sys.granularity == 0 && a % sys.pageSize == 0 && sys.pageSize <= a
      && RoundDown(start, sys.pageSize) + sys.pageSize <= a
      && forall b :: start <= b && b % sys.granularity == 0 ==> a <= b
  {
    var a := NextGranule(sys, start);
    forall b: nat ensures start <= b && b % sys.granularity == 0 ==> a <= b {
      CeilToIsLeast(start, sys.granularity, b);
    }
    CeilToIsLeast(start, sys.granularity, 0);
    GranuleIsPage(sys, a);
    RoundDownIsGreatest(start, sys.pageSize, 0);
    NextMultiple(RoundDown(start, sys.pageSize), a, sys.pageSize);
  }

  lemma OneGranuleIsPlaceable(sys: SysInfo, start: nat)
    requires sys.Valid() && sys.platform == Windows && 0 < start && sys.pageSize <= start % sys.granularity
    requires NextGranule(sys, start) + sys.granularity <= sys.maxAddress + 1
    ensures sys.pageSize <= NextGranule(sys, start)
    ensures Placeable(sys, LastPage(sys, start), OneGranule(sys, start), NextGranule(sys, start))
  {
    BehindFirstPage(sys, start);
  }

  /** A difference of page starts is a number of pages. */
  lemma PagesBetween(x: nat, y: nat, p: nat)
    requires 0 < p && x % p == 0 && y % p == 0 && x <= y
    ensures (y - x) % p == 0
  {
    AlignedSum(x, y - x, p);
  }

  /** The first look: the region ends at the mapped page or is that page, and the granule lies behind it. */
  lemma NoRoomAtStart(sys: SysInfo, start: nat) returns (info: PageInfo)
    requires sys.Valid() && sys.platform == Windows && 0 < start && sys.pageSize <= start % sys.granularity
    requires NextGranule(sys, start) + sys.granularity <= sys.maxAddress + 1 && sys.pageSize <= NextGranule(sys, start)
    ensures Reported(sys, LastPage(sys, start), start, info)
    ensures !RegionHasRoom(sys, LastPage(sys, start), OneGranule(sys, start), info)
  {
    BehindFirstPage(sys, start);
    var a, p, base := NextGranule(sys, start), sys.pageSize, RoundDown(start, sys.pageSize);
    RoundDownIsGreatest(start, p, 0);
    assert Within(a - p, a - p, p);
    if base + p == a {
      info := PageInfo(base, p, false);
      assert p % p == 0;
    } else {
      PagesBetween(p, a, p);
      PagesBetween(base, a - p, p);
      NextMultiple(base, a - p, p);
      info := PageInfo(base, a - p - base, true);
    }
  }

  /** Every later look is into a region that begins behind the granule. */
  lemma NoRoomLater(sys: SysInfo, start: nat, c: nat) returns (info: PageInfo)
    requires sys.Valid() && sys.platform == Windows && 0 < start && sys.pageSize <= start % sys.granularity
    requires NextGranule(sys, start) + sys.granularity <= sys.maxAddress + 1 && sys.pageSize <= NextGranule(sys, start)
    requires start + sys.granularity <= c <= sys.maxAddress
    ensures Reported(sys, LastPage(sys, start), c, info)
    ensures !RegionHasRoom(sys, LastPage(sys, start), OneGranule(sys, start), info)
  {
    BehindFirstPage(sys, start);
    var a, p, base := NextGranule(sys, start), sys.pageSize, RoundDown(c, sys.pageSize);
    assert a + p <= c;
    AlignedSum(a, p, p);
    RoundDownIsGreatest(c, p, a + p);
    PagesBetween(base, sys.maxAddress + 1, p);
    info := PageInfo(base, sys.maxAddress + 1 - base, true);
  }

  lemma PassMisses(sys: SysInfo, start: nat)
    requires sys.Valid() && sys.platform == Windows && 0 < start && sys.pageSize <= start % sys.granularity
    requires NextGranule(sys, start) + sys.granularity <= sys.maxAddress + 1 && sys.pageSize <= NextGranule(sys, start)
    ensures !Finds(sys, LastPage(sys, start), OneGranule(sys, start))
  {
    var mapped, v := LastPage(sys, start), OneGranule(sys, start);
    forall c: nat | LooksAt(sys, v, c)
      ensures exists info: PageInfo :: Reported(sys, mapped, c, info) && !RegionHasRoom(sys, mapped, v, info)
    {
      if c == start {
        var info := NoRoomAtStart(sys, start);
      } else {
        NextMultiple(0, c - start, sys.granularity);
        var info := NoRoomLater(sys, start, c);
      }
    }
  }

  /** The brute-force pass alone misses nothing, in any map, if and only if it starts in the first
      page of a granule, or there is no whole granule left above its start. */
  lemma GranulePassExact(sys: SysInfo, start: nat)
    requires sys.Valid() && sys.platform == Windows && 0 < start
    ensures MissesNothing(sys, start)
            <==>
            start % sys.granularity < sys.pageSize || NextGranule(sys, start) + sys.granularity > sys.maxAddress + 1
  {
    var g := sys.granularity;
    if start % g < sys.pageSize {
      forall mapped: set<nat>, v: AllocatorSettings, a: nat |
        v.minAddress == start && v.size % g == 0 && Placeable(sys, mapped, v, a)
        ensures Finds(sys, mapped, v)
      {
        FindsFromFirstPage(sys, mapped, v, a);
      }
    } else if NextGranule(sys, start) + g > sys.maxAddress + 1 {
      forall mapped: set<nat>, v: AllocatorSettings, a: nat |
        v.minAddress == start && v.size % g == 0
        ensures !Placeable(sys, mapped, v, a)
      {
        NoGranuleLeft(sys, start, mapped, v, a);
      }
    } else {
      OneGranuleIsPlaceable(sys, start);
      PassMisses(sys, start);
    }
  }

  lemma NoGranuleLeft(sys: SysInfo, start: nat, mapped: set<nat>, v: AllocatorSettings, a: nat)
    requires sys.Valid() && sys.platform == Windows && NextGranule(sys, start) + sys.granularity > sys.maxAddress + 1
    requires v.minAddress == start && v.size % sys.granularity == 0
    ensures !Placeable(sys, mapped, v, a)
  {
    if Placeable(sys, mapped, v, a) {
      CeilToIsLeast(start, sys.granularity, a);
      NextMultiple(0, v.size, sys.granularity);
    }
  }

  /** With granules of 64 KiB and pages of 4 KiB, a start one page into a granule misses the next one. */
  lemma GranulePassMissesExample()
    ensures var sys := SysInfo(W64, Windows, 0x7FFF_FFFE_FFFF, 65536, 4096);
            var mapped, v := Block(126976, 4096), AllocatorSettings(69632, 196608, 65536, 0, true);
            Placeable(sys, mapped, v, 131072) && !Finds(sys, mapped, v)
  {
    var sys := SysInfo(W64, Windows, 0x7FFF_FFFE_FFFF, 65536, 4096);
    assert NextGranule(sys, 69632) == 131072;
    OneGranuleIsPlaceable(sys, 69632);
    PassMisses(sys, 69632);
  }
}
