/** Unsigned bit arithmetic on unbounded naturals: the machine operators `^` and
    `&` written over binary digits, and the facts about powers of two that the
    buddy and bitmap computations rest on. */
module Bits {

  const TWO64: nat := 0x1_0000_0000_0000_0000

  function Pow2(k: nat): (r: nat)
    ensures r >= 1
  {
    if k == 0 then 1 else 2 * Pow2(k - 1)
  }

  function BitXor(a: nat, b: nat): nat
    decreases a + b
  {
    if a == 0 && b == 0 then 0
    else 2 * BitXor(a / 2, b / 2) + (a % 2 + b % 2) % 2
  }

  function BitAnd(a: nat, b: nat): nat {
    if a == 0 || b == 0 then 0
    else 2 * BitAnd(a / 2, b / 2) + (if a % 2 == 1 && b % 2 == 1 then 1 else 0)
  }

  function BitOr(a: nat, b: nat): nat
    decreases a + b
  {
    if a == 0 && b == 0 then 0
    else 2 * BitOr(a / 2, b / 2) + (if a % 2 == 1 || b % 2 == 1 then 1 else 0)
  }

  /** The low `k` bits of `p` are zero. */
  predicate Multiple(p: nat, k: nat)
    decreases k
  {
    k == 0 || (p % 2 == 0 && Multiple(p / 2, k - 1))
  }

  /** A number whose low `k` bits are zero is a multiple of `2^k`, and conversely. */
  lemma {:induction false} MultipleIffMod(p: nat, k: nat)
    ensures Multiple(p, k) <==> p % Pow2(k) == 0
    decreases k
  {
    if k > 0 {
      MultipleIffMod(p / 2, k - 1);
      HalveMod(p, Pow2(k - 1));
    }
  }

  lemma HalveMod(p: nat, h: nat)
    requires h > 0
    ensures p % (2 * h) == 0 <==> p % 2 == 0 && (p / 2) % h == 0
  {
    if p % (2 * h) == 0 {
      var q := p / (2 * h);
      var s := h * q;
      assert p == (2 * h) * q == 2 * s;
      FactorMod(h, q);
    }
    if p % 2 == 0 && (p / 2) % h == 0 {
      var q := (p / 2) / h;
      assert p / 2 == h * q;
      assert p == (2 * h) * q;
      FactorMod(2 * h, q);
    }
  }

  lemma FactorMod(d: nat, q: nat)
    requires d > 0
    ensures (d * q) % d == 0
  {
    var n := d * q;
    var t, r := n / d, n % d;
    assert n == d * t + r;
    assert d * (q - t) == r;
    ScaleBound(d, q - t);
  }

  lemma ScaleBound(d: int, e: int)
    requires d > 0
    ensures e >= 1 ==> d * e >= d
    ensures e <= -1 ==> d * e <= -d
  {
  }

  lemma XorZero(a: nat)
    ensures BitXor(a, 0) == a
  {
  }

  lemma AndSelf(a: nat)
    ensures BitAnd(a, a) == a
  {
  }

  /** `p` and `b` are the two `2^k`-aligned halves of the `2^(k+1)`-aligned run at `m`. */
  predicate Halves(p: nat, b: nat, m: nat, k: nat) {
    && Multiple(p, k) && Multiple(b, k) && Multiple(m, k + 1)
    && if Multiple(p, k + 1) then m == p && b == p + Pow2(k) else m == b && p == b + Pow2(k)
  }

  /** Flipping bit `k` of a multiple `p` of `2^k` yields the other half of the
      `2^(k+1)`-aligned pair that `p` belongs to, and the bits the two halves share
      are the start of that pair. */
  lemma {:induction false} XorPair(p: nat, k: nat)
    requires Multiple(p, k)
    ensures Halves(p, BitXor(p, Pow2(k)), BitAnd(p, BitXor(p, Pow2(k))), k)
    decreases k
  {
    if k == 0 {
      XorOne(p);
    } else {
      var a, h := p / 2, Pow2(k - 1);
      var b := BitXor(a, h);
      XorPair(a, k - 1);
      HalvesDouble(a, b, BitAnd(a, b), k - 1);
      XorDouble(a, h);
      AndDouble(a, b);
    }
  }

  lemma HalvesDouble(p: nat, b: nat, m: nat, k: nat)
    requires Halves(p, b, m, k)
    ensures Halves(2 * p, 2 * b, 2 * m, k + 1)
  {
    MultipleDouble(p, k);
    MultipleDouble(p, k + 1);
    MultipleDouble(b, k);
    MultipleDouble(m, k + 1);
  }

  lemma XorOne(p: nat)
    ensures BitXor(p, 1) == if p % 2 == 0 then p + 1 else p - 1
    ensures BitAnd(p, BitXor(p, 1)) == p - p % 2
  {
    XorZero(p / 2);
    AndSelf(p / 2);
  }

  lemma XorDouble(a: nat, b: nat)
    ensures BitXor(2 * a, 2 * b) == 2 * BitXor(a, b)
  {
  }

  lemma AndDouble(a: nat, b: nat)
    ensures BitAnd(2 * a, 2 * b) == 2 * BitAnd(a, b)
  {
  }

  lemma MultipleDouble(a: nat, k: nat)
    ensures Multiple(2 * a, k + 1) == Multiple(a, k)
  {
  }

  /** Flipping the low `k` bits of a `k`-bit number complements it. */
  lemma {:induction false} XorAllOnes(c: nat, k: nat)
    requires c < Pow2(k)
    ensures BitXor(c, Pow2(k) - 1) == Pow2(k) - 1 - c
    decreases k
  {
    if k > 0 {
      var h := Pow2(k - 1);
      XorAllOnes(c / 2, k - 1);
      XorDigits(c, 2 * h - 1);
      assert (2 * h - 1) / 2 == h - 1 && (2 * h - 1) % 2 == 1;
    }
  }

  lemma XorDigits(a: nat, b: nat)
    ensures BitXor(a, b) == 2 * BitXor(a / 2, b / 2) + (a % 2 + b % 2) % 2
  {
  }

  lemma XorParts(a: nat, b: nat)
    ensures BitXor(a, b) / 2 == BitXor(a / 2, b / 2) && BitXor(a, b) % 2 == (a % 2 + b % 2) % 2
  {
    XorDigits(a, b);
  }

  lemma XorSixtyThree(c: nat)
    requires c < 64
    ensures BitXor(c, 63) == 63 - c
  {
    assert Pow2(3) == 8 && Pow2(6) == 8 * Pow2(3);
    XorAllOnes(c, 6);
  }

  /** Adding `2^k` to a multiple of `2^(k+1)` leaves the low `k` bits zero. */
  lemma {:induction false} MultipleHalves(p: nat, k: nat)
    requires Multiple(p, k + 1)
    ensures Multiple(p, k) && Multiple(p + Pow2(k), k)
    decreases k
  {
    if k > 0 {
      MultipleHalves(p / 2, k - 1);
      assert (p + Pow2(k)) / 2 == p / 2 + Pow2(k - 1);
    }
  }

  lemma {:induction false} MultipleWeaken(p: nat, k: nat, j: nat)
    requires j <= k && Multiple(p, k)
    ensures Multiple(p, j)
    decreases j
  {
    if j > 0 {
      MultipleWeaken(p / 2, k - 1, j - 1);
    }
  }

  /** A `2^k`-aligned run of `2^k` numbers cannot straddle a multiple of `2^k`. */
  lemma {:induction false} NoStraddle(p: nat, k: nat, bound: nat)
    requires Multiple(p, k) && Multiple(bound, k) && p < bound
    ensures p + Pow2(k) <= bound
    decreases k
  {
    if k > 0 {
      NoStraddle(p / 2, k - 1, bound / 2);
    }
  }

  lemma Pow2Eight(k: nat)
    ensures Pow2(k + 8) == 256 * Pow2(k)
  {
    assert Pow2(k + 2) == 4 * Pow2(k);
    assert Pow2(k + 4) == 4 * Pow2(k + 2);
    assert Pow2(k + 6) == 4 * Pow2(k + 4);
  }

  /** Quotient and remainder are unique. */
  lemma DivMod(n: nat, d: nat, q: nat, r: nat)
    requires d > 0 && r < d && n == d * q + r
    ensures n / d == q && n % d == r
  {
    var q', r' := n / d, n % d;
    assert n == d * q' + r';
    assert d * (q - q') == r' - r;
    ScaleBound(d, q - q');
  }

  /** The low `k` bits of `x` are its remainder by `2^k`. */
  lemma {:induction false} AndOnes(x: nat, k: nat)
    ensures BitAnd(x, Pow2(k) - 1) == x % Pow2(k)
    decreases k
  {
    if k > 0 {
      var h := Pow2(k - 1);
      AndOnes(x / 2, k - 1);
      HalveRemainder(x, h);
      assert (2 * h - 1) / 2 == h - 1;
    }
  }

  lemma HalveRemainder(x: nat, h: nat)
    requires h > 0
    ensures x % (2 * h) == 2 * (x / 2 % h) + x % 2
  {
    var q, r := x / 2 / h, x / 2 % h;
    assert x / 2 == h * q + r;
    assert x == (2 * h) * q + (2 * r + x % 2);
    DivMod(x, 2 * h, q, 2 * r + x % 2);
  }

  lemma HalveQuotient(x: nat, h: nat)
    requires h > 0
    ensures x / (2 * h) == x / 2 / h
  {
    var q, r := x / 2 / h, x / 2 % h;
    assert x / 2 == h * q + r;
    assert x == (2 * h) * q + (2 * r + x % 2);
    DivMod(x, 2 * h, q, 2 * r + x % 2);
  }

  /** A mask of ones above `n` zeros selects the bits of `x` from `n` on. */
  lemma {:induction false} AndMask(x: nat, ones: nat, n: nat, h: nat, mask: nat, top: nat)
    requires h == Pow2(n) && mask == ones * h && top == x / h
    ensures BitAnd(x, mask) == BitAnd(top, ones) * h
    decreases n
  {
    if n > 0 {
      var g := Pow2(n - 1);
      var m := ones * g;
      HalveQuotient(x, g);
      AndMask(x / 2, ones, n - 1, g, m, top);
      MaskStep(x, m, ones, g, BitAnd(top, ones));
    }
  }

  lemma MaskStep(x: nat, m: nat, ones: nat, g: nat, b: nat)
    requires m == ones * g && BitAnd(x / 2, m) == b * g
    ensures BitAnd(x, ones * (2 * g)) == b * (2 * g)
  {
    AndEven(x, m);
    Twice(ones, g);
    Twice(b, g);
  }

  lemma Twice(a: nat, b: nat)
    ensures a * (2 * b) == 2 * (a * b)
  {
  }

  lemma AndEven(x: nat, m: nat)
    ensures BitAnd(x, 2 * m) == 2 * BitAnd(x / 2, m)
  {
    assert 2 * m / 2 == m && 2 * m % 2 == 0;
  }

  lemma OrEven(a: nat, b: nat)
    ensures BitOr(2 * a, b) == 2 * BitOr(a, b / 2) + b % 2
  {
  }

  /** Or with a number whose low `n` bits are zero keeps the other one's low `n` bits. */
  lemma {:induction false} OrShift(q: nat, f: nat, n: nat, h: nat, m: nat, top: nat, low: nat)
    requires h == Pow2(n) && m == q * h && top == f / h && low == f % h
    ensures BitOr(m, f) == BitOr(q, top) * h + low
    decreases n
  {
    if n > 0 {
      var g := Pow2(n - 1);
      var r := f / 2 % g;
      HalveQuotient(f, g);
      HalveRemainder(f, g);
      OrShift(q, f / 2, n - 1, g, q * g, top, r);
      OrStep(q, f, g, BitOr(q, top), r);
    }
  }

  lemma OrStep(q: nat, f: nat, g: nat, b: nat, r: nat)
    requires BitOr(q * g, f / 2) == b * g + r
    ensures BitOr(q * (2 * g), f) == b * (2 * g) + (2 * r + f % 2)
  {
    OrEven(q * g, f);
    Twice(q, g);
    Twice(b, g);
  }

  /** Bit `k` of `b`. */
  predicate TestBit(b: nat, k: nat)
    decreases k, b
  {
    if k == 0 then b % 2 == 1 else TestBit(b / 2, k - 1)
  }

  lemma {:induction false} TestZero(k: nat)
    ensures !TestBit(0, k)
    decreases k
  {
    if k > 0 {
      TestZero(k - 1);
    }
  }

  lemma {:induction false} TestOr(a: nat, b: nat, k: nat)
    ensures TestBit(BitOr(a, b), k) <==> TestBit(a, k) || TestBit(b, k)
    decreases k
  {
    OrDigits(a, b);
    if k > 0 {
      TestOr(a / 2, b / 2, k - 1);
    }
  }

  lemma OrDigits(a: nat, b: nat)
    ensures BitOr(a, b) / 2 == BitOr(a / 2, b / 2)
    ensures BitOr(a, b) % 2 == if a % 2 == 1 || b % 2 == 1 then 1 else 0
  {
  }

  lemma {:induction false} TestAnd(a: nat, b: nat, k: nat)
    ensures TestBit(BitAnd(a, b), k) <==> TestBit(a, k) && TestBit(b, k)
    decreases k
  {
    if a == 0 || b == 0 {
      TestZero(k);
    } else if k > 0 {
      TestAnd(a / 2, b / 2, k - 1);
    }
  }

  /** A power of two has one bit set. */
  lemma {:induction false} TestPow2(p: nat, k: nat)
    ensures TestBit(Pow2(p), k) <==> k == p
    decreases k
  {
    if p == 0 {
      if k > 0 {
        TestZero(k - 1);
      }
    } else if k > 0 {
      TestPow2(p - 1, k - 1);
    }
  }

  /** The complement of a power of two in `n` bits has every other bit set. */
  lemma {:induction false} TestComplement(p: nat, n: nat, k: nat)
    requires p < n && k < n
    ensures Pow2(p) < Pow2(n) && (TestBit(Pow2(n) - 1 - Pow2(p), k) <==> k != p)
    decreases k
  {
    Pow2Below(p, n);
    if p == 0 {
      if k > 0 {
        TestOnes(n - 1, k - 1);
        assert (Pow2(n) - 2) / 2 == Pow2(n - 1) - 1;
      }
    } else if k > 0 {
      TestComplement(p - 1, n - 1, k - 1);
      assert (Pow2(n) - 1 - Pow2(p)) / 2 == Pow2(n - 1) - 1 - Pow2(p - 1);
    }
  }

  lemma {:induction false} TestOnes(n: nat, k: nat)
    requires k < n
    ensures TestBit(Pow2(n) - 1, k)
    decreases k
  {
    if k > 0 {
      TestOnes(n - 1, k - 1);
      assert (Pow2(n) - 1) / 2 == Pow2(n - 1) - 1;
    }
  }

  /** A number below `2^n` has no bit from `n` on. */
  lemma {:induction false} TestSmall(x: nat, n: nat, k: nat)
    requires x < Pow2(n) && n <= k
    ensures !TestBit(x, k)
    decreases k
  {
    if n == 0 {
      TestZero(k);
    } else {
      TestSmall(x / 2, n - 1, k - 1);
    }
  }

  /** Multiplying by `2^n` moves every bit up by `n`. */
  lemma {:induction false} TestShift(x: nat, n: nat, h: nat, m: nat, k: nat)
    requires h == Pow2(n) && m == x * h
    ensures TestBit(m, k) <==> k >= n && TestBit(x, k - n)
    decreases n
  {
    if n > 0 {
      var g := Pow2(n - 1);
      Twice(x, g);
      if k > 0 {
        TestShift(x, n - 1, g, x * g, k - 1);
      }
    }
  }

  lemma {:induction false} Pow2Below(p: nat, n: nat)
    requires p < n
    ensures Pow2(p) < Pow2(n)
    decreases n
  {
    if p + 1 < n {
      Pow2Below(p, n - 1);
    }
  }

  /** A number that is not zero has a set bit. */
  lemma {:induction false} SomeBit(b: nat) returns (k: nat)
    requires b > 0
    ensures TestBit(b, k)
    decreases b
  {
    if b % 2 == 1 {
      k := 0;
    } else {
      k := SomeBit(b / 2);
      k := k + 1;
    }
  }
}
