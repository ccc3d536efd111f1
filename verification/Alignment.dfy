/** Word-size constants, `Layout`, and the alignment helpers of the hole list. */
module Alignment {
  import opened Options

  /** Alignment of a `Hole` header, in bytes. */
  const HOLE_ALIGN: int := 8

  /** Size of a `Hole` header, which is also the smallest hole and the smallest block. */
  const MIN_SIZE: int := 16

  /** Addresses are 64-bit. */
  const ADDRESS_SPACE: int := 0x1_0000_0000_0000_0000

  /** One more than `isize::MAX`; the heap lies below this address. */
  const HEAP_LIMIT: int := 0x8000_0000_0000_0000

  /** A requested size and power-of-two alignment. */
  datatype Layout = Layout(size: int, align: int)

  predicate IsPow2(n: int)
    decreases n
  {
    n == 1 || (n > 1 && n % 2 == 0 && IsPow2(n / 2))
  }

  /** What `Layout::from_size_align` accepts: the size rounded up to the alignment is at most `isize::MAX`. */
  predicate ValidLayout(l: Layout) {
    0 <= l.size && IsPow2(l.align) && l.size <= HEAP_LIMIT - l.align
  }

  /** The remainder by repeated subtraction: `a % m`, see `RemIsMod`. */
  function Rem(a: int, m: int): (r: int)
    requires 0 < m
    ensures r < m
    ensures 0 <= a ==> 0 <= r <= a
    decreases a
  {
    if a < m then a else Rem(a - m, m)
  }

  predicate Aligned(p: int, align: int)
    requires 0 < align
  {
    0 <= p && Rem(p, align) == 0
  }

  /** The sum of two 64-bit values modulo 2^64. */
  function WrappingAdd(a: int, b: int): int {
    if a + b < ADDRESS_SPACE then a + b else a + b - ADDRESS_SPACE
  }

  function AlignDownSize(size: int, align: int): int
    requires 0 < align
  {
    size - size % align
  }

  function AlignUpSize(size: int, align: int): int
    requires 0 < align
  {
    AlignDownSize(size + align - 1, align)
  }

  /** Bytes from `addr` up to the next multiple of `align`. */
  function AlignOffset(addr: int, align: int): int
    requires 0 < align
  {
    if Rem(addr, align) == 0 then 0 else align - Rem(addr, align)
  }

  function AlignUp(addr: int, align: int): int
    requires 0 < align
  {
    WrappingAdd(addr, AlignOffset(addr, align))
  }

  /** The block layout really used for a request; `None` is the panic of the inner `unwrap`. */
  function AlignLayout(l: Layout): (r: Option<Layout>) {
    var size := AlignUpSize(if l.size < MIN_SIZE then MIN_SIZE else l.size, HOLE_ALIGN);
    var aligned := Layout(size, l.align);
    if ValidLayout(aligned) then Some(aligned) else None
  }

  // ---------- facts about powers of two and multiples ----------

  /** An alignment is one of the four small ones or a multiple of 16. */
  lemma Pow2Cases(n: int)
    requires IsPow2(n)
    ensures n == 1 || n == 2 || n == 4 || n == 8 || (n >= 16 && n % 16 == 0)
  {
    if n > 8 {
      assert IsPow2(n / 2);
      assert IsPow2(n / 2 / 2);
      assert IsPow2(n / 2 / 2 / 2);
    }
  }

  lemma {:induction false} RemIsMod(a: int, m: int)
    requires 0 <= a && 0 < m
    ensures Rem(a, m) == a % m
    decreases a
  {
    if a >= m {
      RemIsMod(a - m, m);
      SubtractModulus(a, m);
    }
  }

  lemma SubtractModulus(a: int, m: int)
    requires 0 < m <= a
    ensures a % m == (a - m) % m
  {
    var z := (a - m) / m + 1 - a / m;
    assert m * z == a % m - (a - m) % m;
    SmallMultipleIsZero(m, z);
  }

  lemma SmallMultipleIsZero(m: int, z: int)
    requires 0 < m && -m < m * z < m
    ensures m * z == 0
  {
    if z >= 1 {
      Product(m, z - 1);
    } else if z <= -1 {
      Product(m, -z - 1);
    }
  }

  lemma Product(m: int, z: int)
    requires 0 < m && 0 <= z
    ensures 0 <= m * z
  {
  }

  lemma {:induction false} AlignedToSixteen(p: int, align: int)
    requires 0 < align && align % 16 == 0 && Aligned(p, align)
    ensures p % 16 == 0
    decreases p
  {
    if p >= align {
      AlignedToSixteen(p - align, align);
      SumOfSixteens(p - align, align);
    }
  }

  lemma SumOfSixteens(a: int, b: int)
    requires a % 16 == 0 && b % 16 == 0
    ensures (a + b) % 16 == 0
  {
  }

  lemma {:induction false} AlignedSmall(p: int, align: int)
    requires 0 <= p && p % 8 == 0 && (align == 1 || align == 2 || align == 4 || align == 8)
    ensures Aligned(p, align)
    decreases p
  {
    if p >= 8 {
      AlignedSmall(p - 8, align);
      RemSteps(p, align, 8 / align);
    }
  }

  lemma {:induction false} RemSteps(p: int, m: int, k: int)
    requires 0 < m && 0 <= k && 0 <= m * k <= p
    ensures Rem(p, m) == Rem(p - m * k, m)
    decreases k
  {
    if k > 0 {
      ProductStep(m, k);
      RemSteps(p - m, m, k - 1);
    }
  }

  lemma ProductStep(m: int, k: int)
    requires 0 < m && 0 < k
    ensures m * k == m + m * (k - 1) && 0 <= m * (k - 1)
  {
    Product(m, k - 1);
  }

  lemma {:induction false} AlignedEight(p: int)
    requires Aligned(p, 8)
    ensures p % 8 == 0
    decreases p
  {
    if p >= 8 {
      AlignedEight(p - 8);
    }
  }

  /** Distinct multiples of `align` are at least `align` apart. */
  lemma {:induction false} MultiplesApart(p: int, q: int, align: int)
    requires 0 < align && Aligned(p, align) && Aligned(q, align) && p < q
    ensures p + align <= q
    decreases p
  {
    if p >= align {
      MultiplesApart(p - align, q - align, align);
    }
  }

  lemma {:induction false} NextMultiple(addr: int, align: int)
    requires 0 <= addr && 0 < align
    ensures Aligned(addr + AlignOffset(addr, align), align)
    decreases addr
  {
    if addr >= align {
      NextMultiple(addr - align, align);
    }
  }

  /** Where no wrap-around is possible `AlignUp` is the least multiple at or above `addr`. */
  lemma AlignUpLeast(addr: int, align: int)
    requires 0 <= addr && 0 < align && addr + align <= ADDRESS_SPACE
    ensures addr <= AlignUp(addr, align) < addr + align
    ensures Aligned(AlignUp(addr, align), align)
    ensures forall p :: addr <= p && Aligned(p, align) ==> AlignUp(addr, align) <= p
  {
    NextMultiple(addr, align);
    var r := AlignUp(addr, align);
    forall p | addr <= p && Aligned(p, align)
      ensures r <= p
    {
      if p < r { MultiplesApart(p, r, align); }
    }
  }

  /** An 8-aligned address meets every alignment up to 8. */
  lemma SmallAlignment(p: int, align: int)
    requires IsPow2(align) && align <= 8 && 0 <= p && p % 8 == 0
    ensures Aligned(p, align)
  {
    Pow2Cases(align);
    AlignedSmall(p, align);
  }

  /** An alignment that an 8-aligned address can miss is at least 16, and its multiples are 8-aligned. */
  lemma LargeAlignment(p: int, align: int)
    requires IsPow2(align) && 8 < align
    ensures 16 <= align
    ensures Aligned(p, align) ==> p % 8 == 0
  {
    Pow2Cases(align);
    if Aligned(p, align) {
      AlignedToSixteen(p, align);
    }
  }

  /** Rounding up to a multiple of 8, where no wrap-around is possible. */
  lemma AlignUpEight(p: int)
    requires 0 <= p && p + 8 <= ADDRESS_SPACE
    ensures p <= AlignUp(p, 8) < p + 8 && AlignUp(p, 8) % 8 == 0
  {
    RemIsMod(p, 8);
  }

  /** `AlignLayout` yields a multiple of 8 that is at least 16 and holds the request, and leaves the alignment alone. */
  lemma AlignLayoutShape(l: Layout)
    requires ValidLayout(l) && AlignLayout(l).Some?
    ensures ValidLayout(AlignLayout(l).value)
    ensures AlignLayout(l).value.align == l.align
    ensures AlignLayout(l).value.size % 8 == 0
    ensures 16 <= AlignLayout(l).value.size && l.size <= AlignLayout(l).value.size
  {
  }

  /**
    `n` is any block size that could serve: a multiple of 8, at least 16, and
    large enough. The one chosen is the least of these, and the request panics
    only when even the least is not a valid layout.
   */
  lemma AlignLayoutLeast(l: Layout, n: int)
    requires ValidLayout(l) && n % 8 == 0 && 16 <= n && l.size <= n
    ensures AlignLayout(l).Some? ==> AlignLayout(l).value.size <= n
    ensures AlignLayout(l).None? ==> !ValidLayout(Layout(n, l.align))
  {
    RoundUpLeast(if l.size < 16 then 16 else l.size, n);
  }

  lemma RoundUpLeast(size: int, n: int)
    requires size <= n && n % 8 == 0
    ensures AlignUpSize(size, 8) <= n
  {
  }

  /** Aligning an already aligned layout changes nothing, so allocation and release agree on the block size. */
  lemma AlignLayoutIdempotent(l: Layout)
    requires ValidLayout(l) && l.size % 8 == 0 && 16 <= l.size
    ensures AlignLayout(l) == Some(l)
  {
    MultipleRoundsToItself(l.size);
  }

  lemma MultipleRoundsToItself(n: int)
    requires n % 8 == 0
    ensures AlignUpSize(n, HOLE_ALIGN) == n
  {
  }
}
