/** How a slab cache lays objects out in a page: descriptor, alignment, colour, and when
    the objects stay inside the page. */
module SlabLayout {
  import opened Bits
  import opened SlabCache

  /** The alignment macro, on 64-bit words: add `align - 1`, clear the bits of `align - 1`. */
  function AlignUp(x: nat, align: nat): nat
    requires 0 < align < TWO64
  {
    BitAnd(x + (align - 1), TWO64 - align)
  }

  function AlignedSize(size: nat): nat {
    AlignUp(size, 64)
  }

  function ObjectsPerSlab(aligned: nat): nat
    requires aligned > 0
  {
    (PAGE_SIZE - DESCRIPTOR) / aligned
  }

  /** The colour of the cache that is the `count`-th to be created. */
  function Color(hwcache: bool, count: nat): nat {
    if hwcache then count % 8 * 64 else 0
  }

  /** Where a slab's first object starts, and where its last one ends, from the page start. */
  function ObjectsStart(aligned: nat, color: nat): nat
    requires 0 < aligned < TWO64
  {
    AlignUp(DESCRIPTOR, aligned) + color
  }

  function ObjectsEnd(aligned: nat, color: nat): nat
    requires 0 < aligned < TWO64
  {
    ObjectsStart(aligned, color) + ObjectsPerSlab(aligned) * aligned
  }

  /** Masking with a multiple of 64 masks the bits above the low six. */
  lemma AndSixBits(a: nat, b: nat)
    ensures BitAnd(a, 64 * b) == 64 * BitAnd(a / 64, b)
  {
    assert Pow2(3) == 8 && Pow2(6) == 8 * Pow2(3);
    AndMask(a, b, 6, 64, 64 * b, a / 64);
  }

  /** The lowest set bit. */
  function LowBit(m: nat): (b: nat)
    requires m > 0
  {
    if m % 2 == 1 then 1 else 2 * LowBit(m / 2)
  }

  /** A number and its complement share no bits. */
  lemma {:induction false} ComplementDisjoint(m: nat, k: nat)
    requires m < Pow2(k)
    ensures BitAnd(m, Pow2(k) - 1 - m) == 0
    decreases k
  {
    if k > 0 {
      ComplementDisjoint(m / 2, k - 1);
      assert (Pow2(k) - 1 - m) / 2 == Pow2(k - 1) - 1 - m / 2;
    }
  }

  /** Masking a number with its negative keeps the lowest set bit. */
  lemma {:induction false} NegativeMask(m: nat, k: nat)
    requires 0 < m < Pow2(k)
    ensures BitAnd(m, Pow2(k) - m) == LowBit(m)
    decreases k
  {
    if m % 2 == 1 {
      ComplementDisjoint(m / 2, k - 1);
      assert (Pow2(k) - m) / 2 == Pow2(k - 1) - 1 - m / 2;
    } else {
      NegativeMask(m / 2, k - 1);
      AndEven(m, Pow2(k - 1) - m / 2);
    }
  }

  lemma Pow2Of58()
    ensures 64 * Pow2(58) == TWO64 && Pow2(58) > 32
  {
    assert Pow2(5) == 32 && Pow2(10) == 32 * Pow2(5);
    Pow2Sixteen(10);
    Pow2Sixteen(26);
    Pow2Sixteen(42);
  }

  lemma Pow2Sixteen(k: nat)
    ensures Pow2(k + 16) == 65536 * Pow2(k)
  {
    Pow2Eight(k);
    Pow2Eight(k + 8);
  }

  /** For object sizes that are multiples of a cache line, rounding the descriptor up
      yields the largest power of two that divides the object size. */
  lemma DescriptorRoundsTo(m: nat)
    requires 1 <= m <= 32
    ensures AlignUp(DESCRIPTOR, 64 * m) == 64 * LowBit(m)
  {
    Pow2Of58();
    var c := Pow2(58) - m;
    AndSixBits(64 * m + 63, c);
    assert (64 * m + 63) / 64 == m;
    NegativeMask(m, 58);
  }

  /** Aligning an object size rounds it up to whole cache lines. */
  lemma SizeRoundsTo(size: nat)
    requires 32 <= size <= 2048
    ensures AlignedSize(size) == 64 * ((size + 63) / 64)
  {
    Pow2Of58();
    var x := (size + 63) / 64;
    AndSixBits(size + 63, Pow2(58) - 1);
    AllOnes(x, 58);
  }

  lemma {:induction false} AllOnes(x: nat, k: nat)
    requires x < Pow2(k)
    ensures BitAnd(x, Pow2(k) - 1) == x
    decreases k
  {
    if k > 0 {
      AllOnes(x / 2, k - 1);
      assert (Pow2(k) - 1) / 2 == Pow2(k - 1) - 1;
    }
  }

  /** The lowest set bit of a divisor never exceeds what a division of `2^j - 1` leaves
      over, plus one. */
  lemma {:induction false} RoomForLowBit(m: nat, j: nat)
    requires 0 < m < Pow2(j)
    ensures LowBit(m) <= 1 + (Pow2(j) - 1) % m
    decreases j
  {
    if m % 2 == 0 {
      RoomForLowBit(m / 2, j - 1);
      OddMod(Pow2(j - 1) - 1, m / 2, Pow2(j) - 1, m);
    }
  }

  lemma OddMod(x: nat, h: nat, y: nat, m: nat)
    requires h > 0 && y == 2 * x + 1 && m == 2 * h
    ensures y % m == 2 * (x % h) + 1
  {
    var q, r := x / h, x % h;
    assert x == h * q + r;
    assert 2 * (h * q) == m * q;
    DivMod(y, m, q, 2 * r + 1);
  }

  lemma PerSlab(m: nat)
    requires 1 <= m <= 32
    ensures ObjectsPerSlab(64 * m) == 63 / m && ObjectsPerSlab(64 * m) * (64 * m) == 64 * (63 - 63 % m)
  {
    var q, r := 63 / m, 63 % m;
    assert 63 == m * q + r;
    assert 64 * (m * q) == (64 * m) * q;
    DivMod(4032, 64 * m, q, 64 * r);
  }

  /** A slab holds as many objects as fit behind a descriptor of 64 bytes. */
  lemma MostObjects(size: nat)
    requires 32 <= size <= 2048
    ensures var a := AlignedSize(size);
      a > 0 && ObjectsPerSlab(a) * a <= 4096 - 64 < (ObjectsPerSlab(a) + 1) * a
  {
    var m := (size + 63) / 64;
    SizeRoundsTo(size);
    PerSlab(m);
    var n := ObjectsPerSlab(64 * m);
    assert (n + 1) * (64 * m) == n * (64 * m) + 64 * m;
  }

  /** What is left of the page once an uncoloured slab's objects are laid out. */
  function Slack(m: nat): int
    requires m > 0
  {
    64 * (1 + 63 % m - LowBit(m))
  }

  lemma EndIs(size: nat, color: nat)
    requires 32 <= size <= 2048
    ensures 0 < AlignedSize(size) < TWO64
    ensures ObjectsEnd(AlignedSize(size), color) == PAGE_SIZE - Slack((size + 63) / 64) + color
  {
    var m := (size + 63) / 64;
    SizeRoundsTo(size);
    DescriptorRoundsTo(m);
    PerSlab(m);
  }

  /** For every object size the cache accepts: the objects start past the descriptor, they
      stay inside the page exactly when the colour does not exceed the slack, and without
      a colour they always do. */
  lemma ObjectsFit(size: nat, color: nat)
    requires 32 <= size <= 2048
    ensures var a, m := AlignedSize(size), (size + 63) / 64;
      && size <= a < TWO64
      && ObjectsStart(a, color) >= DESCRIPTOR
      && (ObjectsEnd(a, color) <= PAGE_SIZE <==> color <= Slack(m))
      && Slack(m) >= 0
  {
    var m := (size + 63) / 64;
    EndIs(size, color);
    SizeRoundsTo(size);
    DescriptorRoundsTo(m);
    LowBitPositive(m);
    assert Pow2(6) == 64;
    RoomForLowBit(m, 6);
  }

  lemma LowBitPositive(m: nat)
    requires m > 0
    ensures 1 <= LowBit(m) <= m
  {
  }

  /** Objects start in the first page and take up no more than one. */
  lemma StartsEarly(size: nat, color: nat)
    requires 32 <= size <= 2048 && color < 512
    ensures 0 < AlignedSize(size) < TWO64 && ObjectsStart(AlignedSize(size), color) <= PAGE_SIZE
    ensures ObjectsPerSlab(AlignedSize(size)) * AlignedSize(size) <= PAGE_SIZE
  {
    var m := (size + 63) / 64;
    SizeRoundsTo(size);
    DescriptorRoundsTo(m);
    LowBitPositive(m);
    PerSlab(m);
  }

  /** A slab holds at least two objects exactly for sizes up to 1984. */
  lemma AtLeastTwo(size: nat)
    requires 32 <= size <= 2048
    ensures AlignedSize(size) > 0 && ObjectsPerSlab(AlignedSize(size)) >= 1
    ensures ObjectsPerSlab(AlignedSize(size)) >= 2 <==> size <= 1984
  {
    var m := (size + 63) / 64;
    SizeRoundsTo(size);
    PerSlab(m);
    AtLeast(m, 63 / m, 63 % m);
  }

  lemma AtLeast(m: nat, q: nat, r: nat)
    requires 1 <= m <= 32 && 63 == m * q + r && r < m
    ensures q >= 1 && (q >= 2 <==> m <= 31)
  {
    if q >= 2 {
      ScaleBound(m, q - 1);
      assert m * q == m * (q - 1) + m;
    } else if q == 1 {
      assert m * q == m;
    }
  }

  /** Sizes that round to a power of two leave no slack, so any colour at all pushes the
      last object past the end of the page. All the coloured caches set up at boot (sizes
      32 to 1024, created first to sixth) are of this kind. */
  lemma PowersOfTwoOverrun(size: nat, color: nat)
    requires 32 <= size <= 2048 && (size + 63) / 64 in {1, 2, 4, 8, 16, 32}
    ensures 0 < AlignedSize(size) < TWO64 && ObjectsEnd(AlignedSize(size), color) == PAGE_SIZE + color
  {
    EndIs(size, color);
    assert LowBit(1) == 1 && LowBit(2) == 2 && LowBit(4) == 4 && LowBit(8) == 8 && LowBit(16) == 16 && LowBit(32) == 32;
  }
}
