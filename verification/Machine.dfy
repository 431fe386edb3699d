/** Machine words, the cached system information and the word arithmetic that
    every other module uses. Words are unsigned; the wrap-around and the
    saturation of each operation are written out. */
module Machine {
  const U32_MAX: nat := 0xFFFF_FFFF

  datatype Option<+T> = None | Some(value: T)

  datatype Width = W32 | W64

  datatype Platform = Linux | Windows | MacOs

  /** What the library caches about the system it runs on. */
  datatype SysInfo = SysInfo(width: Width, platform: Platform, maxAddress: nat, granularity: nat, pageSize: nat) {
    /** Largest value of a pointer-sized word. */
    function WordMax(): nat {
      match width
      case W32 => 0xFFFF_FFFF
      case W64 => 0xFFFF_FFFF_FFFF_FFFF
    }

    predicate IsWord(n: int) {
      0 <= n <= WordMax()
    }

    ghost predicate Valid() {
      && IsWord(maxAddress)
      && 0 < pageSize <= granularity
      && granularity % pageSize == 0 && pageSize % 4096 == 0
      && 4096 <= granularity <= 0x7FFF_FFFF
      && 0x1_0000_0000 % granularity == 0
      && (platform == Windows ==> maxAddress + granularity <= WordMax() && (maxAddress + 1) % pageSize == 0)
    }

    /** Reduces an out-of-range result the way an unsigned word does. */
    function Wrap(n: int): (w: nat)
      ensures IsWord(w)
      ensures IsWord(n) ==> w == n
    {
      n % (WordMax() + 1)
    }

    function AddWithOverflowCap(a: nat, b: nat): nat {
      if a + b > WordMax() then WordMax() else a + b
    }

    function RoundUp(number: nat, multiple: nat): nat {
      if multiple == 0 then number
      else
        var remainder := number % multiple;
        if remainder == 0 then number else Wrap(number + multiple - remainder)
    }
  }

  function SubtractWithUnderflowCap(a: nat, b: nat): nat {
    if a < b then 0 else a - b
  }

  function RoundDown(number: nat, multiple: nat): (r: nat)
    ensures r <= number
  {
    if multiple == 0 then number else number - number % multiple
  }

  predicate Aligned(a: nat, multiple: nat) {
    multiple == 0 || a % multiple == 0
  }

  /** The least multiple of `multiple` that is not below `n`, without a word limit. */
  function CeilTo(n: nat, multiple: nat): nat {
    if multiple == 0 || n % multiple == 0 then n else n + multiple - n % multiple
  }

  lemma MulMono(m: nat, a: nat, b: nat)
    requires a <= b
    ensures m * a <= m * b
  {
    assert m * b == m * a + m * (b - a);
  }

  lemma QuotientBound(m: nat, k: nat, q: nat)
    requires 0 < m
    ensures m * k < m * q ==> m * (k + 1) <= m * q
  {
    if q <= k {
      MulMono(m, q, k);
    } else {
      MulMono(m, k + 1, q);
    }
  }

  /** Division with remainder is unique. */
  lemma DivModUnique(a: nat, m: nat, q: nat, r: nat)
    requires 0 < m && a == m * q + r && r < m
    ensures a / m == q && a % m == r
  {
    var q', r' := a / m, a % m;
    assert a == m * q' + r';
    if q < q' {
      MulMono(m, q + 1, q');
    } else if q' < q {
      MulMono(m, q' + 1, q);
    }
  }

  lemma ModOfMultiple(m: nat, k: nat)
    requires 0 < m
    ensures (m * k) % m == 0
  {
    DivModUnique(m * k, m, k, 0);
  }

  /** Sums and differences of aligned numbers are aligned. */
  lemma AlignedSum(a: nat, b: nat, m: nat)
    requires 0 < m && a % m == 0
    ensures (a + b) % m == b % m
  {
    var p, q := a / m, b / m;
    assert a == m * p && b == m * q + b % m;
    assert m * p + m * q == m * (p + q);
    DivModUnique(a + b, m, p + q, b % m);
  }

  /** A multiple of a multiple is a multiple. */
  lemma MultipleOfMultiple(a: nat, b: nat, m: nat)
    requires 0 < b && 0 < m && a % b == 0 && b % m == 0
    ensures a % m == 0
  {
    var k, j := a / b, b / m;
    assert a == b * k && b == m * j;
    assert b * k == m * (j * k);
    ModOfMultiple(m, j * k);
  }

  /** Two different multiples are at least one step apart. */
  lemma NextMultiple(a: nat, b: nat, m: nat)
    requires 0 < m && a % m == 0 && b % m == 0 && a < b
    ensures a + m <= b
  {
    assert a == m * (a / m) && b == m * (b / m);
    QuotientBound(m, a / m, b / m);
  }

  /** `CeilTo` is the least aligned number not below `n`, and `RoundDown` the
      greatest not above it. */
  lemma CeilToIsLeast(n: nat, m: nat, a: nat)
    ensures n <= CeilTo(n, m) && Aligned(CeilTo(n, m), m)
    ensures 0 < m ==> CeilTo(n, m) < n + m
    ensures n <= a && Aligned(a, m) ==> CeilTo(n, m) <= a
  {
    if m != 0 && n % m != 0 {
      var k := n / m;
      assert n == m * k + n % m;
      assert CeilTo(n, m) == m * k + m == m * (k + 1);
      ModOfMultiple(m, k + 1);
      if n <= a && Aligned(a, m) {
        assert a == m * (a / m);
        QuotientBound(m, k, a / m);
      }
    }
  }

  lemma RoundDownIsGreatest(n: nat, m: nat, a: nat)
    ensures Aligned(RoundDown(n, m), m)
    ensures 0 < m ==> n < RoundDown(n, m) + m
    ensures a <= n && Aligned(a, m) ==> a <= RoundDown(n, m)
  {
    if m != 0 {
      var k := n / m;
      assert RoundDown(n, m) == m * k;
      ModOfMultiple(m, k);
      if a <= n && Aligned(a, m) {
        assert a == m * (a / m);
        if m * k < a {
          QuotientBound(m, k, a / m);
          assert false;
        }
      }
    }
  }

  /** Rounding up on words agrees with `CeilTo` unless it wraps, and a wrapped
      result always falls below the number it came from. */
  lemma RoundUpMeaning(sys: SysInfo, n: nat, m: nat)
    requires sys.IsWord(n) && sys.IsWord(m)
    ensures sys.IsWord(CeilTo(n, m)) ==> sys.RoundUp(n, m) == CeilTo(n, m)
    ensures !sys.IsWord(CeilTo(n, m)) ==> sys.RoundUp(n, m) < n
  {
    var c := CeilTo(n, m);
    if !sys.IsWord(c) {
      var size := sys.WordMax() + 1;
      assert c < n + m;
      assert size <= c < 2 * size;
      assert c % size == c - size;
    }
  }

  /** An address range; both ends are inclusive in `Overlaps` and only compared in `Contains`. */
  datatype AddressRange = AddressRange(startPointer: nat, endPointer: nat) {
    function Size(sys: SysInfo): nat {
      sys.Wrap(endPointer - startPointer)
    }

    predicate Contains(other: AddressRange) {
      other.startPointer >= startPointer && other.endPointer <= endPointer
    }

    predicate PointInRange(point: nat) {
      startPointer <= point <= endPointer
    }

    predicate Overlaps(other: AddressRange) {
      || PointInRange(other.startPointer)
      || PointInRange(other.endPointer)
      || other.PointInRange(startPointer)
      || other.PointInRange(endPointer)
    }
  }
}
