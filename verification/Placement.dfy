/** The placement engine: given a free page range and the caller's address
    limits, it tries four aligned addresses. */
module Placement {
  import opened Machine

  /** What the caller asks for: an aligned block `[a, a + size]` inside both ranges,
      with the ends of the two ranges exclusive. */
  datatype Request = Request(minimum: nat, maximum: nat, pageStart: nat, pageEnd: nat, size: nat, granularity: nat) {
    predicate Words(sys: SysInfo) {
      && sys.IsWord(minimum) && sys.IsWord(maximum)
      && sys.IsWord(pageStart) && sys.IsWord(pageEnd)
      && sys.IsWord(size) && sys.IsWord(granularity)
    }

    predicate Fits(a: nat) {
      && Aligned(a, granularity)
      && pageStart <= a && minimum <= a
      && a + size <= pageEnd && a + size <= maximum
    }

    predicate InBoth(r: AddressRange) {
      && AddressRange(pageStart, pageEnd).Contains(r)
      && AddressRange(minimum, maximum).Contains(r)
    }

    /** Neither early exit is taken. */
    predicate Tried(sys: SysInfo) {
      var page := AddressRange(pageStart, pageEnd);
      page.Overlaps(AddressRange(minimum, maximum)) && size <= page.Size(sys)
    }

    function UpFrom(sys: SysInfo, start: nat): AddressRange {
      var aligned := sys.RoundUp(start, granularity);
      AddressRange(aligned, sys.AddWithOverflowCap(aligned, size))
    }

    function DownFrom(sys: SysInfo, end: nat): AddressRange {
      var aligned := RoundDown(SubtractWithUnderflowCap(end, size), granularity);
      AddressRange(aligned, sys.Wrap(aligned + size))
    }

    function Kept(r: AddressRange): seq<nat> {
      if InBoth(r) then [r.startPointer] else []
    }

    /** The addresses offered, in the order in which they are tried. */
    function Candidates(sys: SysInfo): seq<nat> {
      if !Tried(sys) then []
      else Kept(UpFrom(sys, pageStart)) + Kept(DownFrom(sys, pageEnd))
           + Kept(UpFrom(sys, minimum)) + Kept(DownFrom(sys, maximum))
    }

    /** The least aligned address at or above both starts, without a word limit. */
    function LowestStart(): nat {
      CeilTo(if pageStart < minimum then minimum else pageStart, granularity)
    }

    /** The greatest aligned address at which the block still ends inside both ranges. */
    function HighestStart(): nat {
      RoundDown(SubtractWithUnderflowCap(if pageEnd < maximum then pageEnd else maximum, size), granularity)
    }

    /** The one situation in which the overflow cap hides an overrun: both ranges
        reach the last word, and the lowest aligned start leaves less than `size`. */
    predicate CapHidesOverrun(sys: SysInfo) {
      && pageEnd == maximum == sys.WordMax()
      && pageStart + size <= sys.WordMax()
      && LowestStart() <= sys.WordMax() < LowestStart() + size
    }
  }

  /** Stores the start of `r` in the next slot if `r` lies in both ranges. */
  method Offer(pageRange: AddressRange, minMaxRange: AddressRange, r: AddressRange, results: array<nat>, used: nat)
    returns (numItems: nat)
    requires used < results.Length
    modifies results
    ensures used <= numItems <= used + 1
    ensures results[..numItems] == old(results[..used])
              + if pageRange.Contains(r) && minMaxRange.Contains(r) then [r.startPointer] else []
  {
    numItems := used;
    if pageRange.Contains(r) && minMaxRange.Contains(r) {
      results[numItems] := r.startPointer;
      numItems := numItems + 1;
    }
  }

  /** Fills `results` in place and returns how many slots were used. */
  method GetPossibleBufferAddresses(sys: SysInfo, minimumPtr: nat, maximumPtr: nat, pageStart: nat, pageEnd: nat,
                                    bufSize: nat, allocationGranularity: nat, results: array<nat>)
    returns (numItems: nat)
    requires results.Length == 4
    requires Request(minimumPtr, maximumPtr, pageStart, pageEnd, bufSize, allocationGranularity).Words(sys)
    modifies results
    ensures numItems <= 4
    ensures results[..numItems]
         == Request(minimumPtr, maximumPtr, pageStart, pageEnd, bufSize, allocationGranularity).Candidates(sys)
  {
    var q := Request(minimumPtr, maximumPtr, pageStart, pageEnd, bufSize, allocationGranularity);
    var minMaxRange := AddressRange(minimumPtr, maximumPtr);
    var pageRange := AddressRange(pageStart, pageEnd);
    if !pageRange.Overlaps(minMaxRange) {
      return 0;
    }
    if bufSize > pageRange.Size(sys) {
      return 0;
    }
    numItems := Offer(pageRange, minMaxRange, q.UpFrom(sys, pageStart), results, 0);
    assert results[..numItems] == q.Kept(q.UpFrom(sys, pageStart));
    numItems := Offer(pageRange, minMaxRange, q.DownFrom(sys, pageEnd), results, numItems);
    numItems := Offer(pageRange, minMaxRange, q.UpFrom(sys, minimumPtr), results, numItems);
    numItems := Offer(pageRange, minMaxRange, q.DownFrom(sys, maximumPtr), results, numItems);
  }

  /** A kept round-up candidate is the lowest aligned start, and it fits unless the cap hid an overrun. */
  lemma UpCandidate(sys: SysInfo, q: Request, start: nat)
    requires q.Words(sys) && q.Tried(sys) && (start == q.pageStart || start == q.minimum)
    requires q.InBoth(q.UpFrom(sys, start))
    ensures q.UpFrom(sys, start).startPointer == q.LowestStart()
    ensures q.Fits(q.LowestStart()) || q.CapHidesOverrun(sys)
  {
    var a := q.UpFrom(sys, start).startPointer;
    RoundUpMeaning(sys, start, q.granularity);
    CeilToIsLeast(start, q.granularity, q.LowestStart());
    CeilToIsLeast(q.pageStart, q.granularity, a);
    CeilToIsLeast(q.minimum, q.granularity, a);
    CeilToIsLeast(q.pageStart, q.granularity, q.LowestStart());
    CeilToIsLeast(q.minimum, q.granularity, q.LowestStart());
    assert a == q.LowestStart();
  }

  /** A kept round-down candidate always fits: its end never overflows. */
  lemma DownCandidate(sys: SysInfo, q: Request, end: nat)
    requires q.Words(sys) && sys.IsWord(end)
    requires q.InBoth(q.DownFrom(sys, end))
    ensures q.Fits(q.DownFrom(sys, end).startPointer)
  {
    RoundDownIsGreatest(SubtractWithUnderflowCap(end, q.size), q.granularity, 0);
  }

  /** Soundness, exactly: every address offered fits if and only if the caller's
      ranges are not the one shape in which the overflow cap hides an overrun. */
  lemma CandidatesSound(sys: SysInfo, q: Request)
    requires q.Words(sys)
    ensures (forall a :: a in q.Candidates(sys) ==> q.Fits(a)) <==> !q.CapHidesOverrun(sys)
    ensures forall a :: a in q.Candidates(sys) ==> Aligned(a, q.granularity) && q.pageStart <= a && q.minimum <= a
    ensures forall a :: a in q.Candidates(sys) && a + q.size <= sys.WordMax() ==> q.Fits(a)
  {
    forall a | a in q.Candidates(sys)
      ensures Aligned(a, q.granularity) && q.pageStart <= a && q.minimum <= a
      ensures q.Fits(a) || (q.CapHidesOverrun(sys) && a == q.LowestStart())
    {
      CeilToIsLeast(if q.pageStart < q.minimum then q.minimum else q.pageStart, q.granularity, 0);
      if a in q.Kept(q.UpFrom(sys, q.pageStart)) {
        UpCandidate(sys, q, q.pageStart);
      } else if a in q.Kept(q.UpFrom(sys, q.minimum)) {
        UpCandidate(sys, q, q.minimum);
      } else if a in q.Kept(q.DownFrom(sys, q.pageEnd)) {
        DownCandidate(sys, q, q.pageEnd);
      } else {
        DownCandidate(sys, q, q.maximum);
      }
    }
    if q.CapHidesOverrun(sys) {
      var start := if q.pageStart < q.minimum then q.minimum else q.pageStart;
      CeilToIsLeast(start, q.granularity, 0);
      RoundUpMeaning(sys, start, q.granularity);
      assert q.LowestStart() in q.Kept(q.UpFrom(sys, start));
      assert q.LowestStart() in q.Candidates(sys) && !q.Fits(q.LowestStart());
    }
  }

  lemma CandidatesAreWords(sys: SysInfo, q: Request, a: nat)
    requires q.Words(sys) && a in q.Candidates(sys)
    ensures sys.IsWord(a)
  {
  }

  ghost predicate IsLowest(q: Request, a: nat) {
    q.Fits(a) && forall b: nat :: q.Fits(b) ==> a <= b
  }

  ghost predicate IsHighest(q: Request, a: nat) {
    q.Fits(a) && forall b: nat :: q.Fits(b) ==> b <= a
  }

  lemma LowestIsCandidate(sys: SysInfo, q: Request, a: nat)
    requires q.Words(sys) && q.Fits(a)
    ensures q.LowestStart() <= a && q.Fits(q.LowestStart())
    ensures q.LowestStart() in q.Candidates(sys)
  {
    var start := if q.pageStart < q.minimum then q.minimum else q.pageStart;
    CeilToIsLeast(start, q.granularity, a);
    RoundUpMeaning(sys, start, q.granularity);
    assert q.LowestStart() in q.Kept(q.UpFrom(sys, start));
  }

  lemma HighestIsCandidate(sys: SysInfo, q: Request, a: nat)
    requires q.Words(sys) && q.Fits(a)
    ensures a <= q.HighestStart() && q.Fits(q.HighestStart())
    ensures q.HighestStart() in q.Candidates(sys)
  {
    var end := if q.pageEnd < q.maximum then q.pageEnd else q.maximum;
    var hi := q.HighestStart();
    assert a <= hi <= end - q.size && Aligned(hi, q.granularity) by {
      RoundDownIsGreatest(end - q.size, q.granularity, a);
    }
    assert q.DownFrom(sys, end) == AddressRange(hi, hi + q.size);
    assert q.Tried(sys) && q.InBoth(AddressRange(hi, hi + q.size));
    assert hi in q.Kept(q.DownFrom(sys, end));
  }

  /** Completeness: if any aligned address fits, the candidates include both the
      lowest and the highest one. Neither early exit nor a wrapped rounding loses any. */
  lemma CandidatesComplete(sys: SysInfo, q: Request, a: nat) returns (lo: nat, hi: nat)
    requires q.Words(sys) && q.Fits(a)
    ensures lo in q.Candidates(sys) && IsLowest(q, lo)
    ensures hi in q.Candidates(sys) && IsHighest(q, hi)
    ensures lo <= a <= hi
  {
    lo, hi := q.LowestStart(), q.HighestStart();
    LowestIsCandidate(sys, q, a);
    HighestIsCandidate(sys, q, a);
    forall b: nat | q.Fits(b) ensures lo <= b <= hi {
      LowestIsCandidate(sys, q, b);
      HighestIsCandidate(sys, q, b);
    }
  }

  /** The cap really can hide an overrun: a 4096-byte request is offered a block that ends one past the last
      32-bit word. */
  lemma CapHidesOverrunExample()
    ensures var sys := SysInfo(W32, Linux, U32_MAX, 4096, 4096);
            var q := Request(0xFFFF_E001, U32_MAX, 0xFFFF_E000, U32_MAX, 4096, 4096);
            q.Words(sys) && q.CapHidesOverrun(sys) && 0xFFFF_F000 in q.Candidates(sys) && !q.Fits(0xFFFF_F000)
  {
    var sys := SysInfo(W32, Linux, U32_MAX, 4096, 4096);
    var q := Request(0xFFFF_E001, U32_MAX, 0xFFFF_E000, U32_MAX, 4096, 4096);
    assert 0xFFFF_F000 in q.Kept(q.UpFrom(sys, q.minimum));
  }
}
