/** Settings of the allocator and of the buffer search. */
module Settings {
  import opened Machine

  /** The contents of the allocator settings; the target is always this process. */
  datatype AllocatorSettings = AllocatorSettings(minAddress: nat, maxAddress: nat, size: nat, retryCount: int,
                                                 bruteForce: bool) {
    predicate Words(sys: SysInfo) {
      sys.IsWord(minAddress) && sys.IsWord(maxAddress) && size <= U32_MAX
    }

    function AtLeastOne(): nat {
      if size < 1 then 1 else size
    }

    function Sanitized(sys: SysInfo): AllocatorSettings {
      this.(minAddress := if sys.platform == Windows && minAddress < sys.granularity then sys.granularity
                          else minAddress,
            size := sys.RoundUp(AtLeastOne(), sys.granularity) % 0x1_0000_0000)
    }
  }

  function AllocatorFromProximity(sys: SysInfo, proximity: nat, target: nat, size: nat): AllocatorSettings {
    AllocatorSettings(SubtractWithUnderflowCap(target, proximity), sys.AddWithOverflowCap(target, proximity),
                      size % 0x1_0000_0000, 8, true)
  }

  class BufferAllocatorSettings {
    var minAddress: nat
    var maxAddress: nat
    var size: nat
    var retryCount: int
    var bruteForce: bool

    function Value(): AllocatorSettings
      reads this
    {
      AllocatorSettings(minAddress, maxAddress, size, retryCount, bruteForce)
    }

    constructor (sys: SysInfo)
      ensures Value() == AllocatorSettings(0, sys.maxAddress, 4096, 8, true)
    {
      minAddress, maxAddress, size, retryCount, bruteForce := 0, sys.maxAddress, 4096, 8, true;
    }

    constructor FromProximity(sys: SysInfo, proximity: nat, target: nat, size: nat)
      ensures Value() == AllocatorFromProximity(sys, proximity, target, size)
    {
      this.maxAddress := sys.AddWithOverflowCap(target, proximity);
      this.minAddress := SubtractWithUnderflowCap(target, proximity);
      this.size := size % 0x1_0000_0000;
      retryCount, bruteForce := 8, true;
    }

    method Sanitize(sys: SysInfo)
      modifies this
      ensures Value() == old(Value()).Sanitized(sys)
    {
      if sys.platform == Windows && minAddress < sys.granularity {
        minAddress := sys.granularity;
      }
      size := if size < 1 then 1 else size;
      size := sys.RoundUp(size, sys.granularity) % 0x1_0000_0000;
    }
  }

  /** The collapse: almost four gigabytes are asked for, and nothing is left of the request. */
  lemma SizeCollapsesExample()
    ensures var sys := SysInfo(W64, Linux, 0x7FFF_FFFF_FFFF, 4096, 4096);
            AllocatorSettings(0, 0x7FFF_FFFF_FFFF, 0xFFFF_F001, 8, true).Sanitized(sys).size == 0
  {
  }

  /** Sanitizing gives a whole number of granules that covers the request, exactly
      when the rounded size still fits 32 bits; otherwise the size collapses to zero. */
  lemma SanitizedSize(sys: SysInfo, v: AllocatorSettings)
    requires sys.Valid() && v.Words(sys)
    ensures v.Sanitized(sys).Words(sys)
    ensures v.Sanitized(sys).size % sys.granularity == 0
    ensures CeilTo(v.AtLeastOne(), sys.granularity) <= U32_MAX <==> v.AtLeastOne() <= v.Sanitized(sys).size
    ensures CeilTo(v.AtLeastOne(), sys.granularity) > U32_MAX <==> v.Sanitized(sys).size == 0
  {
    var n, g := v.AtLeastOne(), sys.granularity;
    CeilToIsLeast(n, g, 0x1_0000_0000);
    RoundUpMeaning(sys, n, g);
    var c := CeilTo(n, g);
    assert n <= c <= 0x1_0000_0000;
    if c == 0x1_0000_0000 {
      assert v.Sanitized(sys).size == 0 by {
        assert sys.RoundUp(n, g) == 0 || sys.RoundUp(n, g) == c by {
          if sys.width == W32 {
            assert n + g - n % g == 0x1_0000_0000;
          }
        }
      }
    } else {
      assert v.Sanitized(sys).size == c;
    }
  }

  datatype BufferSearchSettings = BufferSearchSettings(minAddress: nat, maxAddress: nat, size: nat) {
    predicate Words(sys: SysInfo) {
      sys.IsWord(minAddress) && sys.IsWord(maxAddress) && size <= U32_MAX
    }
  }

  function SearchFromProximity(sys: SysInfo, proximity: nat, target: nat, size: nat): BufferSearchSettings {
    BufferSearchSettings(SubtractWithUnderflowCap(target, proximity), sys.AddWithOverflowCap(target, proximity),
                         size % 0x1_0000_0000)
  }
}
