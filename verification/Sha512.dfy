/** The streaming hash: a chaining state, a bit count and a block buffer, over any
    compression function. */
module Sha512 {
  import opened Bits
  import opened ByteWords

  const BLOCK: nat := 128

  type Word = w: nat | w < TWO64

  type Chain = s: seq<Word> | |s| == 8 witness [0, 0, 0, 0, 0, 0, 0, 0]

  type Block = b: seq<Byte> | |b| == 128 witness seq(128, i => 0)

  type Compress = (Chain, Block) -> Chain

  datatype Ctx = Ctx(state: Chain, count: Word, buffer: Block)

  // ---------------------------------------------------------------- the operations

  const START: Chain := [
    0x6a09e667f3bcc908, 0xbb67ae8584caa73b, 0x3c6ef372fe94f82b, 0xa54ff53a5f1d36f1,
    0x510e527fade682d1, 0x9b05688c2b3e6c1f, 0x1f83d9abfb41bd6b, 0x5be0cd19137e2179]

  /** The fraction of the square root of `p`, whose whole part is `r`, to 64 bits. */
  predicate RootFraction(p: nat, r: nat, w: Word) {
    (r * TWO64 + w) * (r * TWO64 + w) <= p * TWO64 * TWO64 < (r * TWO64 + w + 1) * (r * TWO64 + w + 1)
  }

  /** The starting state is that of section 5.3.5 of FIPS 180-4: the first 64 bits of the
      fractions of the square roots of the first eight primes. */
  lemma StartIsStandard()
    ensures RootFraction(2, 1, START[0]) && RootFraction(3, 1, START[1])
    ensures RootFraction(5, 2, START[2]) && RootFraction(7, 2, START[3])
    ensures RootFraction(11, 3, START[4]) && RootFraction(13, 3, START[5])
    ensures RootFraction(17, 4, START[6]) && RootFraction(19, 4, START[7])
  {
  }

  /** The buffer is not initialised. */
  function Init(buffer: Block): Ctx {
    Ctx(START, 0, buffer)
  }

  /** Bytes waiting in the buffer. */
  function Index(count: Word): (i: nat)
    ensures i < BLOCK
  {
    count / 8 % BLOCK
  }

  /** The compression of the complete blocks of `m`, in order. */
  function Fold(f: Compress, s: Chain, m: seq<Byte>): Chain
    decreases |m|
  {
    if |m| < BLOCK then s else Fold(f, f(s, m[..BLOCK]), m[BLOCK..])
  }

  /** What is left of `m` after its complete blocks. */
  function Leftover(m: seq<Byte>): (r: seq<Byte>)
    ensures |r| == |m| % BLOCK
    decreases |m|
  {
    if |m| < BLOCK then m else Leftover(m[BLOCK..])
  }

  /** `b` with `d` written over it from position `i`. */
  function Overwrite(b: Block, i: nat, d: seq<Byte>): Block
    requires i + |d| <= BLOCK
  {
    b[..i] + d + b[i + |d|..]
  }

  function Advance(count: Word, n: nat): Word {
    (count + n * 8) % TWO64
  }

  function Update(f: Compress, ctx: Ctx, data: seq<Byte>): Ctx {
    var index := Index(ctx.count);
    var part := BLOCK - index;
    var count := Advance(ctx.count, |data|);
    if |data| >= part then
      var full := Overwrite(ctx.buffer, index, data[..part]);
      var rest := data[part..];
      Ctx(Fold(f, f(ctx.state, full), rest), count, Overwrite(full, 0, Leftover(rest)))
    else
      Ctx(ctx.state, count, Overwrite(ctx.buffer, index, data))
  }

  function PadLength(index: nat): (n: nat)
    requires index < BLOCK
    ensures 1 <= n <= BLOCK && (index + n + 16) % BLOCK == 0
  {
    if index < 112 then 112 - index else 240 - index
  }

  function Padding(n: nat): (p: seq<Byte>)
    requires n >= 1
    ensures |p| == n
  {
    [0x80] + Zeros(n - 1)
  }

  /** The bit count in the first eight bytes, zero in the last eight. */
  function LengthBytes(count: Word): (b: seq<Byte>)
    ensures |b| == 16
  {
    Bytes(count, 8) + Zeros(8)
  }

  function Pad(f: Compress, ctx: Ctx): Ctx {
    Update(f, ctx, Padding(PadLength(Index(ctx.count))))
  }

  function AppendLength(f: Compress, ctx: Ctx): Ctx {
    Update(f, ctx, LengthBytes(ctx.count))
  }

  function Final(f: Compress, ctx: Ctx): Ctx {
    AppendLength(f, Pad(f, ctx))
  }

  /** The chaining state as bytes. */
  function Serialize(s: seq<Word>): (h: seq<Byte>)
    ensures |h| == 8 * |s|
  {
    if s == [] then [] else Serialize(s[..|s| - 1]) + Bytes(s[|s| - 1], 8)
  }

  // ---------------------------------------------------------------- blocks of a concatenation

  /** Complete blocks in front of a message are absorbed first. */
  lemma {:induction false} FoldAppend(f: Compress, s: Chain, a: seq<Byte>, b: seq<Byte>)
    requires |a| % BLOCK == 0
    ensures Fold(f, s, a + b) == Fold(f, Fold(f, s, a), b)
    ensures Leftover(a + b) == Leftover(b)
    decreases |a|
  {
    if |a| < BLOCK {
      assert a + b == b;
    } else {
      assert (a + b)[..BLOCK] == a[..BLOCK] && (a + b)[BLOCK..] == a[BLOCK..] + b;
      FoldAppend(f, f(s, a[..BLOCK]), a[BLOCK..], b);
    }
  }

  /** A message is its complete blocks and then its leftover. */
  lemma Split(f: Compress, s: Chain, m: seq<Byte>) returns (a: seq<Byte>)
    ensures m == a + Leftover(m) && |a| % BLOCK == 0 && Fold(f, s, a) == Fold(f, s, m)
  {
    var n := |m| - |m| % BLOCK;
    a := m[..n];
    FoldAppend(f, s, a, m[n..]);
    assert m == a + m[n..];
  }

  // ---------------------------------------------------------------- what a context holds

  /** The context has absorbed the message `m`. */
  ghost predicate Holds(f: Compress, ctx: Ctx, m: seq<Byte>) {
    && ctx.state == Fold(f, START, m)
    && ctx.count == |m| * 8 % TWO64
    && ctx.buffer[..|m| % BLOCK] == Leftover(m)
  }

  lemma CountIndex(n: nat)
    ensures (n * 8 % TWO64) / 8 % BLOCK == n % BLOCK
  {
    var q, r := n / 0x2000_0000_0000_0000, n % 0x2000_0000_0000_0000;
    DivMod(n * 8, TWO64, q, 8 * r);
    DivMod(n, BLOCK, 0x40_0000_0000_0000 * q + r / BLOCK, r % BLOCK);
  }

  lemma CountAdvance(n: nat, k: nat)
    ensures Advance(n * 8 % TWO64, k) == (n + k) * 8 % TWO64
  {
    var q, c := n * 8 / TWO64, n * 8 % TWO64;
    var t, r := (c + k * 8) / TWO64, (c + k * 8) % TWO64;
    DivMod((n + k) * 8, TWO64, q + t, r);
  }

  /** One update absorbs one chunk. */
  lemma UpdateHolds(f: Compress, ctx: Ctx, m: seq<Byte>, data: seq<Byte>)
    requires Holds(f, ctx, m)
    ensures Holds(f, Update(f, ctx, data), m + data)
  {
    CountIndex(|m|);
    CountAdvance(|m|, |data|);
    var a := Split(f, START, m);
    var left := Leftover(m);
    assert m + data == a + (left + data);
    FoldAppend(f, START, a, left + data);
    UpdateBuffer(f, ctx, left, data);
  }

  /** The buffer's leftover and the chunk are absorbed as one run of bytes. */
  lemma UpdateBuffer(f: Compress, ctx: Ctx, left: seq<Byte>, data: seq<Byte>)
    requires Index(ctx.count) == |left| && ctx.buffer[..|left|] == left
    ensures var u := Update(f, ctx, data);
      && u.state == Fold(f, ctx.state, left + data)
      && u.buffer[..(|left| + |data|) % BLOCK] == Leftover(left + data)
  {
    var part := BLOCK - |left|;
    if |data| >= part {
      var full := Overwrite(ctx.buffer, |left|, data[..part]);
      var rest := data[part..];
      assert (left + data)[..BLOCK] == full && (left + data)[BLOCK..] == rest;
    } else {
      assert Overwrite(ctx.buffer, |left|, data)[..|left| + |data|] == left + data;
    }
  }

  // ---------------------------------------------------------------- chunking

  function Updates(f: Compress, ctx: Ctx, chunks: seq<seq<Byte>>): Ctx
    decreases |chunks|
  {
    if chunks == [] then ctx else Updates(f, Update(f, ctx, chunks[0]), chunks[1..])
  }

  function Joined(chunks: seq<seq<Byte>>): seq<Byte> {
    if chunks == [] then [] else chunks[0] + Joined(chunks[1..])
  }

  lemma {:induction false} UpdatesHold(f: Compress, ctx: Ctx, m: seq<Byte>, chunks: seq<seq<Byte>>)
    requires Holds(f, ctx, m)
    ensures Holds(f, Updates(f, ctx, chunks), m + Joined(chunks))
    decreases |chunks|
  {
    if chunks == [] {
      assert m + Joined(chunks) == m;
    } else {
      UpdateHolds(f, ctx, m, chunks[0]);
      UpdatesHold(f, Update(f, ctx, chunks[0]), m + chunks[0], chunks[1..]);
      assert m + chunks[0] + Joined(chunks[1..]) == m + Joined(chunks);
    }
  }

  lemma InitHolds(f: Compress, buffer: Block)
    ensures Holds(f, Init(buffer), [])
  {
    assert buffer[..0] == [];
  }

  // ---------------------------------------------------------------- finishing

  /** The message as the code pads it. */
  function Padded(m: seq<Byte>): (p: seq<Byte>)
    ensures |p| % BLOCK == 0 && m <= p
  {
    var pad := PadLength(|m| % BLOCK);
    PadEnds(|m|, pad);
    m + Padding(pad) + LengthBytes((|m| + pad) * 8 % TWO64)
  }

  lemma PadEnds(n: nat, pad: nat)
    requires (n % BLOCK + pad + 16) % BLOCK == 0
    ensures (n + pad + 16) % BLOCK == 0
  {
  }

  /** Finishing absorbs the padding: nothing is left in the buffer, and the state is the
      compression of the padded message. */
  lemma FinalHolds(f: Compress, ctx: Ctx, m: seq<Byte>)
    requires Holds(f, ctx, m)
    ensures Holds(f, Final(f, ctx), Padded(m)) && Leftover(Padded(m)) == [] && Index(Final(f, ctx).count) == 0
  {
    CountIndex(|m|);
    var p := Padding(PadLength(Index(ctx.count)));
    UpdateHolds(f, ctx, m, p);
    var padded := Update(f, ctx, p);
    UpdateHolds(f, padded, m + p, LengthBytes(padded.count));
    CountIndex(|Padded(m)|);
  }

  /** The digest depends on the message alone: not on how it was cut into chunks, nor on what
      the uninitialised buffer held. */
  lemma DigestOfMessage(f: Compress, buffer: Block, chunks: seq<seq<Byte>>)
    ensures Serialize(Final(f, Updates(f, Init(buffer), chunks)).state)
         == Serialize(Fold(f, START, Padded(Joined(chunks))))
  {
    InitHolds(f, buffer);
    UpdatesHold(f, Init(buffer), [], chunks);
    assert [] + Joined(chunks) == Joined(chunks);
    FinalHolds(f, Updates(f, Init(buffer), chunks), Joined(chunks));
  }

  /** The digest is the words of the state in order, each with its highest byte first. */
  lemma {:induction false} SerializeWords(s: seq<Word>, i: nat)
    requires i < |s|
    ensures FromBytes(Serialize(s)[8 * i..8 * i + 8]) == s[i]
    decreases |s|
  {
    var n := |s| - 1;
    if i == n {
      assert Serialize(s)[8 * i..8 * i + 8] == Bytes(s[n], 8);
      FitsWord(s[n]);
      RoundTrip(s[n], 8);
    } else {
      assert Serialize(s)[8 * i..8 * i + 8] == Serialize(s[..n])[8 * i..8 * i + 8];
      SerializeWords(s[..n], i);
    }
  }

  /** Different states have different digests. */
  lemma {:induction false} SerializeInjective(a: seq<Word>, b: seq<Word>)
    requires |a| == |b| && Serialize(a) == Serialize(b)
    ensures a == b
    decreases |a|
  {
    if a != [] {
      var n := |a| - 1;
      assert Serialize(a)[..8 * n] == Serialize(a[..n]) && Serialize(a)[8 * n..] == Bytes(a[n], 8);
      assert Serialize(b)[..8 * n] == Serialize(b[..n]) && Serialize(b)[8 * n..] == Bytes(b[n], 8);
      SerializeInjective(a[..n], b[..n]);
      FitsWord(a[n]);
      FitsWord(b[n]);
      RoundTrip(a[n], 8);
      RoundTrip(b[n], 8);
      assert a == a[..n] + [a[n]] && b == b[..n] + [b[n]];
    }
  }
}
