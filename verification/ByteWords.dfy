/** Words written as big-endian bytes. */
module ByteWords {
  type Byte = b: nat | b < 256

  /** `x >> k` on an unsigned word. */
  function Shr(x: nat, k: nat): nat
    decreases k, x
  {
    if k == 0 then x else Shr(x / 2, k - 1)
  }

  /** The low `n` bytes of `x`, highest first. */
  function Bytes(x: nat, n: nat): (b: seq<Byte>)
    ensures |b| == n
  {
    seq(n, i requires 0 <= i < n => Shr(x, 8 * (n - 1 - i)) % 256)
  }

  function FromBytes(b: seq<Byte>): nat {
    if b == [] then 0 else 256 * FromBytes(b[..|b| - 1]) + b[|b| - 1]
  }

  /** `x` has at most `n` bytes. */
  predicate Fits(x: nat, n: nat)
    decreases n, x
  {
    if n == 0 then x == 0 else Fits(x / 256, n - 1)
  }

  function Zeros(n: nat): (z: seq<Byte>)
    ensures |z| == n && forall i :: 0 <= i < n ==> z[i] == 0
  {
    seq(n, i => 0)
  }

  lemma ShrByte(x: nat, k: nat)
    ensures Shr(x, k + 8) == Shr(x / 256, k)
  {
    ShrTwo(x, k + 6);
    ShrTwo(x / 4, k + 4);
    ShrTwo(x / 16, k + 2);
    ShrTwo(x / 64, k);
    assert x / 4 / 4 == x / 16 && x / 16 / 4 == x / 64 && x / 64 / 4 == x / 256;
  }

  lemma ShrTwo(x: nat, k: nat)
    ensures Shr(x, k + 2) == Shr(x / 4, k)
  {
    assert x / 2 / 2 == x / 4;
    assert Shr(x / 2, k + 1) == Shr(x / 2 / 2, k);
  }

  lemma BytesSplit(x: nat, n: nat)
    ensures Bytes(x, n + 1) == Bytes(x / 256, n) + [x % 256]
  {
    var b, c := Bytes(x, n + 1), Bytes(x / 256, n) + [x % 256];
    forall i | 0 <= i < n + 1
      ensures b[i] == c[i]
    {
      if i < n {
        var k := 8 * (n - 1 - i);
        ShrByte(x, k);
        assert b[i] == Shr(x, k + 8) % 256;
        assert c[i] == Shr(x / 256, k) % 256;
      } else {
        assert b[i] == Shr(x, 0) % 256;
      }
    }
  }

  /** Writing and reading back a word that fits returns it. */
  lemma {:induction false} RoundTrip(x: nat, n: nat)
    requires Fits(x, n)
    ensures FromBytes(Bytes(x, n)) == x
    decreases n
  {
    if n > 0 {
      RoundTrip(x / 256, n - 1);
      BytesSplit(x, n - 1);
      assert Bytes(x, n)[..n - 1] == Bytes(x / 256, n - 1);
    }
  }

  /** Different byte strings of one length read as different numbers. */
  lemma {:induction false} FromBytesInjective(a: seq<Byte>, b: seq<Byte>)
    requires |a| == |b| && FromBytes(a) == FromBytes(b)
    ensures a == b
    decreases |a|
  {
    if a != [] {
      FromBytesInjective(a[..|a| - 1], b[..|b| - 1]);
      assert a == a[..|a| - 1] + [a[|a| - 1]] && b == b[..|b| - 1] + [b[|b| - 1]];
    }
  }

  lemma AppendZeros(b: seq<Byte>)
    ensures FromBytes(b + [0, 0, 0, 0]) == 0x1_0000_0000 * FromBytes(b)
  {
    AppendByte(b, 0);
    AppendByte(b + [0], 0);
    AppendByte(b + [0, 0], 0);
    AppendByte(b + [0, 0, 0], 0);
    assert b + [0] + [0] == b + [0, 0] && b + [0, 0] + [0] == b + [0, 0, 0];
    assert b + [0, 0, 0] + [0] == b + [0, 0, 0, 0];
  }

  lemma AppendByte(b: seq<Byte>, x: Byte)
    ensures FromBytes(b + [x]) == 256 * FromBytes(b) + x
  {
    assert (b + [x])[..|b|] == b;
  }

  lemma FitsWord(x: nat)
    requires x < 0x1_0000_0000_0000_0000
    ensures Fits(x, 8)
  {
    FitsFour(x / 0x1_0000_0000);
    FitsShift(x, 4);
  }

  lemma FitsFour(x: nat)
    requires x < 0x1_0000_0000
    ensures Fits(x, 4)
  {
    assert x / 256 / 256 / 256 / 256 == 0;
    assert Fits(x / 256 / 256, 2);
  }

  lemma FitsShift(x: nat, n: nat)
    requires Fits(x / 0x1_0000_0000, n)
    ensures Fits(x, n + 4)
  {
    assert x / 256 / 256 / 256 / 256 == x / 0x1_0000_0000;
    assert Fits(x / 256 / 256, n + 2);
  }

  lemma FitsDouble(x: nat)
    requires x < 0x1_0000_0000_0000_0000 * 0x1_0000_0000_0000_0000
    ensures Fits(x, 16)
  {
    var y := x / 0x1_0000_0000;
    var z := y / 0x1_0000_0000;
    FitsWord(z);
    FitsShift(y, 8);
    FitsShift(x, 12);
  }
}
