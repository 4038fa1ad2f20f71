/** The code's padding against the padding of section 5.1.2 of FIPS 180-4. */
module Sha512Padding {
  import opened Bits
  import opened ByteWords
  import opened Sha512

  /** Byte by byte: behind the message the mark 0x80, then zeros, then sixteen bytes that read
      as `2^64` times the bit count of the message and its padding. */
  lemma PaddedBytes(m: seq<Byte>, i: nat)
    requires |m| <= i < |Padded(m)| - 16
    ensures Padded(m)[i] == if i == |m| then 0x80 else 0
    ensures |Padded(m)| == |m| + PadLength(|m| % BLOCK) + 16
    ensures var n := |Padded(m)| - 16; FromBytes(Padded(m)[n..]) == n * 8 % TWO64 * TWO64
  {
    var n := |Padded(m)| - 16;
    assert Padded(m)[n..] == LengthBytes(n * 8 % TWO64);
    LengthReads(n * 8 % TWO64);
  }

  /** Different messages are padded differently. */
  lemma PaddedInjective(a: seq<Byte>, b: seq<Byte>)
    requires Padded(a) == Padded(b)
    ensures a == b
  {
    if |a| < |b| {
      MarkAt(a, b);
    } else if |b| < |a| {
      MarkAt(b, a);
    } else {
      assert a == Padded(a)[..|a|] && b == Padded(b)[..|b|];
    }
  }

  /** The last byte before the length that is not zero is the mark behind the message. */
  lemma MarkAt(a: seq<Byte>, b: seq<Byte>)
    requires |a| < |b|
    ensures Padded(a) != Padded(b)
  {
    assert Padded(b)[|b|] == 0x80;
    if |Padded(a)| == |Padded(b)| {
      assert Padded(a)[|b|] == Padding(PadLength(|a| % BLOCK))[|b| - |a|] == 0;
    }
  }

  /** `k` zero bytes behind the mark end sixteen bytes before a block boundary. */
  predicate Ends(n: nat, k: nat) {
    (n + 1 + k) % BLOCK == 112
  }

  /** The standard's padding: a one bit, the fewest zero bits, the bit length in 128 bits. */
  ghost predicate IsStandard(p: seq<Byte>, m: seq<Byte>) {
    exists k: nat :: Ends(|m|, k) && (forall j: nat :: Ends(|m|, j) ==> k <= j)
      && p == m + [0x80] + Zeros(k) + Bytes(|m| * 8, 16)
  }

  /** The code adds the fewest zeros too. */
  lemma FewestZeros(n: nat, j: nat)
    ensures var k := PadLength(n % BLOCK) - 1; Ends(n, k) && (Ends(n, j) ==> k <= j)
  {
    var q, i, k := n / BLOCK, n % BLOCK, PadLength(n % BLOCK) - 1;
    DivMod(n + 1 + k, BLOCK, if i < 112 then q else q + 1, 112);
    if j < k {
      var e := if i + 1 + j < BLOCK then 0 else 1;
      DivMod(n + 1 + j, BLOCK, q + e, i + 1 + j - BLOCK * e);
    }
  }

  /** So only the length field can differ. */
  lemma StandardIffLength(m: seq<Byte>)
    ensures var count := (|m| + PadLength(|m| % BLOCK)) * 8 % TWO64;
      IsStandard(Padded(m), m) <==> LengthBytes(count) == Bytes(|m| * 8, 16)
  {
    var pad := PadLength(|m| % BLOCK);
    var count := (|m| + pad) * 8 % TWO64;
    FewestZeros(|m|, 0);
    forall j: nat | Ends(|m|, j)
      ensures pad - 1 <= j
    {
      FewestZeros(|m|, j);
    }
    if IsStandard(Padded(m), m) {
      var k: nat :| Ends(|m|, k) && (forall j: nat :: Ends(|m|, j) ==> k <= j)
        && Padded(m) == m + [0x80] + Zeros(k) + Bytes(|m| * 8, 16);
      assert k == pad - 1;
      assert LengthBytes(count) == Padded(m)[|m| + pad..] == Bytes(|m| * 8, 16);
    }
    if LengthBytes(count) == Bytes(|m| * 8, 16) {
      var k := pad - 1;
      assert Padding(pad) == [0x80] + Zeros(k);
      assert Padded(m) == m + [0x80] + Zeros(k) + Bytes(|m| * 8, 16);
    }
  }

  /** The code's length field reads as `2^64` times the bit count it is written from. */
  lemma LengthReads(count: Word)
    ensures FromBytes(LengthBytes(count)) == count * TWO64
  {
    FitsWord(count);
    RoundTrip(count, 8);
    var b := Bytes(count, 8);
    AppendZeros(b);
    AppendZeros(b + [0, 0, 0, 0]);
    assert LengthBytes(count) == b + [0, 0, 0, 0] + [0, 0, 0, 0];
  }

  lemma LengthField(count: Word, bits: nat)
    requires bits < TWO64 * TWO64
    ensures LengthBytes(count) == Bytes(bits, 16) <==> count * TWO64 == bits
  {
    LengthReads(count);
    FitsDouble(bits);
    RoundTrip(bits, 16);
    if count * TWO64 == bits {
      FromBytesInjective(LengthBytes(count), Bytes(bits, 16));
    }
  }

  lemma OneLength(n: nat)
    ensures (n + PadLength(n % BLOCK)) * 8 % TWO64 * TWO64 == n * 8 <==> n == 896 * 0x2000_0000_0000_0000
  {
    var count := (n + PadLength(n % BLOCK)) * 8 % TWO64;
    if count * TWO64 == n * 8 {
      CountOf(n, count);
    } else if n == 896 * 0x2000_0000_0000_0000 {
      CountOf(n, 896);
    }
  }

  /** At a multiple of `2^61` bytes the count wraps to the 896 bits of padding. */
  lemma CountOf(n: nat, k: nat)
    requires n == k * 0x2000_0000_0000_0000
    ensures (n + PadLength(n % BLOCK)) * 8 % TWO64 == 896
  {
    DivMod(n, BLOCK, k * 0x40_0000_0000_0000, 0);
    DivMod((n + 112) * 8, TWO64, k, 896);
  }

  /** The digest is not the standard's: among all messages the standard admits, the padding is
      the standard's exactly for the messages of 896 * 2^61 bytes. The length is taken after
      padding and stands in the high half of the field. */
  lemma StandardIff(m: seq<Byte>)
    requires |m| * 8 < TWO64 * TWO64
    ensures IsStandard(Padded(m), m) <==> |m| == 896 * 0x2000_0000_0000_0000
  {
    StandardIffLength(m);
    LengthField((|m| + PadLength(|m| % BLOCK)) * 8 % TWO64, |m| * 8);
    OneLength(|m|);
  }

  /** Concretely, the empty message. */
  lemma EmptyMessageDiffers()
    ensures !IsStandard(Padded([]), [])
  {
    StandardIff([]);
  }
}
