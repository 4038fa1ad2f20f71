/** The hash context as the object it is, its buffer filled in place. */
module Sha512Machine {
  import opened ByteWords
  import opened Sha512

  class Context {
    const compress: Compress
    const buffer: array<Byte>
    var state: Chain
    var count: Word

    ghost predicate Valid()
      reads this
    {
      buffer.Length == BLOCK
    }

    function Value(): Ctx
      requires Valid()
      reads this, buffer
    {
      Ctx(state, count, buffer[..])
    }

    /** The buffer is left as it was found. */
    constructor (f: Compress, b: array<Byte>)
      requires b.Length == BLOCK
      ensures Valid() && compress == f && buffer == b && Value() == Init(b[..])
    {
      compress, buffer := f, b;
      state, count := START, 0;
    }

    /** Copies `data[from..from + n]` over the buffer from position `index`. */
    method Copy(data: seq<Byte>, from: nat, index: nat, n: nat)
      requires Valid() && from + n <= |data| && index + n <= BLOCK
      modifies buffer
      ensures buffer[..] == Overwrite(old(buffer[..]), index, data[from..from + n])
    {
      ghost var was := buffer[..];
      for i := 0 to n
        invariant forall j :: 0 <= j < BLOCK ==>
          buffer[j] == if index <= j < index + i then data[from + j - index] else was[j]
      {
        buffer[index + i] := data[from + i];
      }
    }

    /** Compresses the complete blocks of `data` from position `from` on. */
    method Absorb(data: seq<Byte>, from: nat) returns (i: nat)
      requires Valid() && from <= |data|
      modifies this
      ensures state == Fold(compress, old(state), data[from..]) && count == old(count)
      ensures from <= i <= |data| && data[i..] == Leftover(data[from..])
    {
      i := from;
      while i + BLOCK <= |data|
        invariant from <= i <= |data|
        invariant Fold(compress, state, data[i..]) == Fold(compress, old(state), data[from..])
        invariant Leftover(data[i..]) == Leftover(data[from..])
        invariant count == old(count)
        decreases |data| - i
      {
        assert data[i..][..BLOCK] == data[i..i + BLOCK] && data[i..][BLOCK..] == data[i + BLOCK..];
        state := compress(state, data[i..i + BLOCK]);
        i := i + BLOCK;
      }
    }

    /** Fills the buffer from `data`, compresses it and every complete block behind it. */
    method FillBlock(data: seq<Byte>, index: nat) returns (i: nat)
      requires Valid() && index < BLOCK <= index + |data|
      modifies this, buffer
      ensures buffer[..] == Overwrite(old(buffer[..]), index, data[..BLOCK - index])
      ensures state == Fold(compress, compress(old(state), buffer[..]), data[BLOCK - index..])
      ensures count == old(count) && i <= |data| && data[i..] == Leftover(data[BLOCK - index..])
    {
      var part := BLOCK - index;
      Copy(data, 0, index, part);
      assert data[0..part] == data[..part];
      state := compress(state, buffer[..]);
      i := Absorb(data, part);
    }

    /** Keeps what is left behind the last complete block. */
    method Refill(data: seq<Byte>, index: nat)
      requires Valid() && index < BLOCK <= index + |data|
      modifies this, buffer
      ensures var full := Overwrite(old(buffer[..]), index, data[..BLOCK - index]);
        && state == Fold(compress, compress(old(state), full), data[BLOCK - index..])
        && buffer[..] == Overwrite(full, 0, Leftover(data[BLOCK - index..]))
      ensures count == old(count)
    {
      var i := FillBlock(data, index);
      assert data[i..i + (|data| - i)] == data[i..];
      Copy(data, i, 0, |data| - i);
    }

    method Update(data: seq<Byte>)
      requires Valid()
      modifies this, buffer
      ensures Value() == Sha512.Update(compress, old(Value()), data)
    {
      var index := count / 8 % BLOCK;
      count := Advance(count, |data|);
      if |data| >= BLOCK - index {
        Refill(data, index);
      } else {
        assert data[0..0 + |data|] == data;
        Copy(data, 0, index, |data|);
      }
    }

    method Pad()
      requires Valid()
      modifies this, buffer
      ensures Value() == Sha512.Pad(compress, old(Value()))
    {
      var index := count / 8 % BLOCK;
      var padLength := if index < 112 then 112 - index else 240 - index;
      Update(Padding(padLength));
    }

    method AppendLength()
      requires Valid()
      modifies this, buffer
      ensures Value() == Sha512.AppendLength(compress, old(Value()))
    {
      var length := WriteLength(count);
      Update(length);
    }

    method Final() returns (hash: seq<Byte>)
      requires Valid()
      modifies this, buffer
      ensures Value() == Sha512.Final(compress, old(Value()))
      ensures hash == Serialize(state)
    {
      Pad();
      AppendLength();
      hash := Digest();
    }

    /** Shifts the count out byte by byte. */
    method WriteLength(c: Word) returns (b: seq<Byte>)
      ensures b == LengthBytes(c)
    {
      b := Zeros(16);
      for i := 0 to 8
        invariant |b| == 16
        invariant forall j :: 0 <= j < i ==> b[j] == Shr(c, 56 - j * 8) % 256
        invariant forall j :: i <= j < 16 ==> b[j] == 0
      {
        b := b[i := Shr(c, 56 - i * 8) % 256];
        b := b[8 + i := 0];
      }
    }

    /** Shifts every word of the state out byte by byte. */
    method Digest() returns (hash: seq<Byte>)
      ensures hash == Serialize(state)
    {
      hash := [];
      for i := 0 to 8
        invariant hash == Serialize(state[..i])
      {
        var x := state[i];
        hash := hash + [
          Shr(x, 56) % 256, Shr(x, 48) % 256, Shr(x, 40) % 256, Shr(x, 32) % 256,
          Shr(x, 24) % 256, Shr(x, 16) % 256, Shr(x, 8) % 256, x % 256];
        NextWord(state, i);
      }
      assert state[..8] == state;
    }
  }

  lemma NextWord(s: Chain, i: nat)
    requires i < 8
    ensures Serialize(s[..i + 1]) == Serialize(s[..i]) + [
      Shr(s[i], 56) % 256, Shr(s[i], 48) % 256, Shr(s[i], 40) % 256, Shr(s[i], 32) % 256,
      Shr(s[i], 24) % 256, Shr(s[i], 16) % 256, Shr(s[i], 8) % 256, s[i] % 256]
  {
    assert s[..i + 1][..i] == s[..i];
    var x := s[i];
    assert Bytes(x, 8) == [
      Shr(x, 56) % 256, Shr(x, 48) % 256, Shr(x, 40) % 256, Shr(x, 32) % 256,
      Shr(x, 24) % 256, Shr(x, 16) % 256, Shr(x, 8) % 256, x % 256];
  }

  /** Hashes `data` with a context on the stack, whatever bytes `stack` holds. */
  method ComputeHash(f: Compress, stack: array<Byte>, data: seq<Byte>) returns (hash: seq<Byte>)
    requires stack.Length == BLOCK
    modifies stack
    ensures hash == Serialize(Fold(f, START, Padded(data)))
  {
    var ctx := new Context(f, stack);
    ghost var start := ctx.Value();
    InitHolds(f, stack[..]);
    ctx.Update(data);
    UpdateHolds(f, start, [], data);
    assert [] + data == data;
    FinalHolds(f, ctx.Value(), data);
    hash := ctx.Final();
  }
}
