/** What the three region walks share: which blocks they could place, and why
    trying the four candidates of a free region is enough. */
module Placeability {
  import opened Machine
  import opened OperatingSystem
  import opened Placement
  import opened Settings

  /** A block the caller would accept and the map has room for. */
  ghost predicate Acceptable(sys: SysInfo, mapped: set<nat>, v: AllocatorSettings, a: nat) {
    && 0 < a && 0 < sys.granularity && a % sys.granularity == 0
    && 0 < v.size
    && v.minAddress <= a && a + v.size <= v.maxAddress
    && Block(a, v.size) !! mapped
  }

  /** What the region walk of each platform can find among the acceptable blocks. Linux
      treats the inclusive end of a gap as exclusive and so needs one byte of slack below
      the next mapping; it looks above the last address only below a mapping. */
  ghost predicate Placeable(sys: SysInfo, mapped: set<nat>, v: AllocatorSettings, a: nat) {
    && Acceptable(sys, mapped, v, a)
    && match sys.platform
       case Linux =>
         && a + v.size !in mapped
         && (a + v.size <= sys.maxAddress || exists x :: x in mapped && a + v.size < x)
       case Windows => a + v.size <= sys.maxAddress + 1
       case MacOs => a + v.size <= sys.maxAddress
  }

  /** No placeable block starts before `from`. */
  ghost predicate NoneBefore(sys: SysInfo, mapped: set<nat>, v: AllocatorSettings, from: nat) {
    forall a :: Placeable(sys, mapped, v, a) ==> from <= a
  }

  function RequestIn(sys: SysInfo, v: AllocatorSettings, pageStart: nat, pageEnd: nat): Request {
    Request(v.minAddress, v.maxAddress, pageStart, pageEnd, v.size, sys.granularity)
  }

  ghost predicate Unmapped(mapped: set<nat>, start: nat, end: nat) {
    forall x :: x in mapped ==> !(start <= x < end)
  }

  /** A free page range holds an acceptable block. */
  ghost predicate HasRoom(sys: SysInfo, mapped: set<nat>, v: AllocatorSettings, pageStart: nat, pageEnd: nat) {
    && 0 < v.size
    && Unmapped(mapped, pageStart, pageEnd)
    && exists a: nat :: 0 < a && RequestIn(sys, v, pageStart, pageEnd).Fits(a)
  }

  /** A multiple of the granularity starts a page. */
  lemma GranuleIsPage(sys: SysInfo, a: nat)
    requires sys.Valid() && a % sys.granularity == 0
    ensures a % sys.pageSize == 0
  {
    MultipleOfMultiple(a, sys.granularity, sys.pageSize);
  }

  /** Placed blocks begin and end where pages do. */
  lemma PlacedOnPages(sys: SysInfo, mapped: set<nat>, v: AllocatorSettings, a: nat)
    requires sys.Valid() && Acceptable(sys, mapped, v, a) && v.size % sys.granularity == 0
    ensures a % 4096 == 0 && (a + v.size) % 4096 == 0
  {
    GranuleIsPage(sys, a);
    GranuleIsPage(sys, v.size);
    MultipleOfMultiple(a, sys.pageSize, 4096);
    MultipleOfMultiple(v.size, sys.pageSize, 4096);
    AlignedSum(a, v.size, 4096);
  }

  /** If a non-null block fits in a free region, one of the candidates can be served. */
  lemma SomeCandidateIsFree(os: Os, v: AllocatorSettings, pageStart: nat, pageEnd: nat)
    requires os.Valid() && v.Words(os.sys)
    requires os.sys.IsWord(pageStart) && os.sys.IsWord(pageEnd) && pageEnd <= os.Limit()
    requires HasRoom(os.sys, os.mapped, v, pageStart, pageEnd)
    ensures exists c :: c in RequestIn(os.sys, v, pageStart, pageEnd).Candidates(os.sys) && os.Free(c, v.size)
  {
    var q := RequestIn(os.sys, v, pageStart, pageEnd);
    var a: nat :| 0 < a && q.Fits(a);
    var lo, hi := CandidatesComplete(os.sys, q, a);
    assert os.Free(hi, v.size);
  }

  /** The last word is odd and so never a candidate. */
  lemma GranuleIsNotLastWord(sys: SysInfo, a: nat)
    requires sys.Valid() && sys.IsWord(a) && a % sys.granularity == 0
    ensures a < sys.WordMax()
  {
    var g := sys.granularity;
    var k := 0x1_0000_0000 / g;
    assert 0x1_0000_0000 == g * k;
    assert 0x1_0000_0000_0000_0000 == g * (k * 0x1_0000_0000);
    ModOfMultiple(g, k * 0x1_0000_0000);
    if a == sys.WordMax() {
      NextMultiple(a, a + 1, g);
    }
  }

  /** What a walk needs to know about a candidate before trying it. */
  ghost predicate GoodCandidate(os: Os, v: AllocatorSettings, pageStart: nat, pageEnd: nat, c: nat) {
    && 0 < os.sys.pageSize <= os.sys.granularity
    && c % os.sys.granularity == 0 && c % os.sys.pageSize == 0
    && v.minAddress <= c < os.sys.WordMax()
    && (c + v.size <= os.sys.WordMax() ==> c + v.size <= v.maxAddress && pageStart <= c && c + v.size <= pageEnd)
  }

  /** The candidates of a page range, with what the walks rely on. */
  method CandidatesIn(os: Os, v: AllocatorSettings, pageStart: nat, pageEnd: nat) returns (candidates: seq<nat>)
    requires os.Valid() && v.Words(os.sys)
    requires os.sys.IsWord(pageStart) && os.sys.IsWord(pageEnd) && pageEnd <= os.Limit()
    ensures forall i :: 0 <= i < |candidates| ==> GoodCandidate(os, v, pageStart, pageEnd, candidates[i])
    ensures HasRoom(os.sys, os.mapped, v, pageStart, pageEnd)
            ==> exists i :: 0 <= i < |candidates| && os.Free(candidates[i], v.size)
  {
    var results := new nat[4];
    var numItems := GetPossibleBufferAddresses(os.sys, v.minAddress, v.maxAddress, pageStart, pageEnd,
                                               v.size, os.sys.granularity, results);
    candidates := results[..numItems];
    ghost var q := RequestIn(os.sys, v, pageStart, pageEnd);
    CandidatesSound(os.sys, q);
    forall i | 0 <= i < |candidates| ensures GoodCandidate(os, v, pageStart, pageEnd, candidates[i]) {
      assert candidates[i] in q.Candidates(os.sys);
      GranuleIsPage(os.sys, candidates[i]);
      CandidatesAreWords(os.sys, q, candidates[i]);
      GranuleIsNotLastWord(os.sys, candidates[i]);
    }
    if HasRoom(os.sys, os.mapped, v, pageStart, pageEnd) {
      SomeCandidateIsFree(os, v, pageStart, pageEnd);
      var c :| c in candidates && os.Free(c, v.size);
      var i :| 0 <= i < |candidates| && candidates[i] == c;
    }
  }

  /** What a successful walk has done. */
  twostate predicate Placed(os: Os, v: AllocatorSettings, a: nat)
    reads os
  {
    && old(Acceptable(os.sys, os.mapped, v, a) && a + v.size <= os.Limit())
    && os.mapped == old(os.mapped) + Block(a, v.size)
  }

  /** What one attempt at one candidate does. */
  twostate predicate Attempted(os: Os, v: AllocatorSettings, candidate: nat, ok: bool)
    reads os
  {
    && (!ok ==> os.mapped == old(os.mapped))
    && (ok ==> old(os.Free(candidate, v.size)) && os.mapped == old(os.mapped) + Block(candidate, v.size))
    && (os.granting && old(os.Free(candidate, v.size)) ==> ok)
  }

  /** Linux misses an exact fit: of three pages of which the outer ones are mapped, the middle one
      would hold a block of one page, and the walk cannot find it. */
  lemma ExactFitMissedExample()
    ensures var sys := SysInfo(W64, Linux, 0x7FFF_FFFF_FFFF, 4096, 4096);
            var mapped, v := Block(4096, 4096) + Block(12288, 4096), AllocatorSettings(4096, 16384, 4096, 8, true);
            && Acceptable(sys, mapped, v, 8192)
            && forall a :: !Placeable(sys, mapped, v, a)
  {
    var sys := SysInfo(W64, Linux, 0x7FFF_FFFF_FFFF, 4096, 4096);
    var mapped, v := Block(4096, 4096) + Block(12288, 4096), AllocatorSettings(4096, 16384, 4096, 8, true);
    assert 4096 in mapped && 12288 in mapped;
    forall a: nat | Acceptable(sys, mapped, v, a) ensures a == 8192 {
      assert Within(a, a, 4096);
    }
  }
}
