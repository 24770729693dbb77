/** Streaming SHA-256 (`src/sha256.rs`), proved against FIPS 180-4: however a
    message is cut into `Update` calls, `Finalize` gives the hash the standard
    defines block by block over the padded message. */
module Sha256 {
  import opened Bytes

  type Word = bv32

  const K: seq<Word> :=
    [0x428a2f98, 0x71374491, 0xb5c0fbcf, 0xe9b5dba5, 0x3956c25b, 0x59f111f1,
     0x923f82a4, 0xab1c5ed5, 0xd807aa98, 0x12835b01, 0x243185be, 0x550c7dc3,
     0x72be5d74, 0x80deb1fe, 0x9bdc06a7, 0xc19bf174]
    + [0xe49b69c1, 0xefbe4786, 0x0fc19dc6, 0x240ca1cc, 0x2de92c6f, 0x4a7484aa,
       0x5cb0a9dc, 0x76f988da, 0x983e5152, 0xa831c66d, 0xb00327c8, 0xbf597fc7,
       0xc6e00bf3, 0xd5a79147, 0x06ca6351, 0x14292967]
    + [0x27b70a85, 0x2e1b2138, 0x4d2c6dfc, 0x53380d13, 0x650a7354, 0x766a0abb,
       0x81c2c92e, 0x92722c85, 0xa2bfe8a1, 0xa81a664b, 0xc24b8b70, 0xc76c51a3,
       0xd192e819, 0xd6990624, 0xf40e3585, 0x106aa070]
    + [0x19a4c116, 0x1e376c08, 0x2748774c, 0x34b0bcb5, 0x391c0cb3, 0x4ed8aa4a,
       0x5b9cca4f, 0x682e6ff3, 0x748f82ee, 0x78a5636f, 0x84c87814, 0x8cc70208,
       0x90befffa, 0xa4506ceb, 0xbef9a3f7, 0xc67178f2]

  const H0: Hash := Hash(0x6a09e667, 0xbb67ae85, 0x3c6ef372, 0xa54ff53a,
                         0x510e527f, 0x9b05688c, 0x1f83d9ab, 0x5be0cd19)

  /** The eight working words, `a` to `h`; also the hash value itself. */
  datatype Hash = Hash(a: Word, b: Word, c: Word, d: Word, e: Word, f: Word, g: Word, h: Word)

  // ------------------------------------------------ the standard's functions

  /** The upper- and lower-case sigmas, Ch and Maj (section 4.1.2); ROTR is
      a rotation to the right (section 3.2). */
  function BigSigma0(x: Word): Word { x.RotateRight(2) ^ x.RotateRight(13) ^ x.RotateRight(22) }
  function BigSigma1(x: Word): Word { x.RotateRight(6) ^ x.RotateRight(11) ^ x.RotateRight(25) }
  function SmallSigma0(x: Word): Word { x.RotateRight(7) ^ x.RotateRight(18) ^ (x >> 3) }
  function SmallSigma1(x: Word): Word { x.RotateRight(17) ^ x.RotateRight(19) ^ (x >> 10) }
  function Ch(x: Word, y: Word, z: Word): Word { (x & y) ^ (!x & z) }
  function Maj(x: Word, y: Word, z: Word): Word { (x & y) ^ (x & z) ^ (y & z) }

  /** Addition modulo 2^32 (section 3.2). */
  function Add(x: Word, y: Word): Word { x + y }

  /** Four bytes, most significant first, as a word. */
  function FromBe(b: seq<byte>, at: nat): Word
    requires at + 4 <= |b|
  {
    Joined(b[at] as Word, b[at + 1] as Word, b[at + 2] as Word, b[at + 3] as Word)
  }

  function Joined(a: Word, b: Word, c: Word, d: Word): Word {
    (a << 24) | (b << 16) | (c << 8) | d
  }

  function ToBe(w: Word): (b: seq<byte>)
    ensures |b| == 4
  {
    [(w >> 24) as bv8 as byte, ((w >> 16) & 0xff) as bv8 as byte,
     ((w >> 8) & 0xff) as bv8 as byte, (w & 0xff) as bv8 as byte]
  }

  /** The first `t` words of a block's message schedule (section 6.2.2, step 1). */
  function Schedule(block: seq<byte>, t: nat): (w: seq<Word>)
    requires |block| == 64 && t <= 64
    ensures |w| == t
  {
    if t == 0 then []
    else if t <= 16 then Schedule(block, t - 1) + [FromBe(block, 4 * (t - 1))]
    else
      var w := Schedule(block, t - 1);
      w + [Add(Add(Add(w[t - 17], SmallSigma0(w[t - 16])), w[t - 8]), SmallSigma1(w[t - 3]))]
  }

  /** One round (step 3). */
  function Round(v: Hash, k: Word, w: Word): Hash {
    var t1 := Add(Add(Add(Add(v.h, BigSigma1(v.e)), Ch(v.e, v.f, v.g)), k), w);
    var t2 := Add(BigSigma0(v.a), Maj(v.a, v.b, v.c));
    Hash(Add(t1, t2), v.a, v.b, v.c, Add(v.d, t1), v.e, v.f, v.g)
  }

  function Rounds(v: Hash, w: seq<Word>, t: nat): Hash
    requires t <= |w| == 64
  {
    if t == 0 then v else Round(Rounds(v, w, t - 1), K[t - 1], w[t - 1])
  }

  function AddWords(x: Hash, y: Hash): Hash {
    Hash(Add(x.a, y.a), Add(x.b, y.b), Add(x.c, y.c), Add(x.d, y.d),
         Add(x.e, y.e), Add(x.f, y.f), Add(x.g, y.g), Add(x.h, y.h))
  }

  /** Steps 2 to 4: the next intermediate hash value. */
  function CompressBlock(h: Hash, block: seq<byte>): Hash
    requires |block| == 64
  {
    AddWords(Rounds(h, Schedule(block, |block|), |block|), h)
  }

  /** H^(n), after the first `n` 64-byte blocks of `m`. */
  function HashBlocks(m: seq<byte>, n: nat): Hash
    requires 64 * n <= |m|
  {
    if n == 0 then H0 else CompressBlock(HashBlocks(m, n - 1), m[64 * (n - 1)..64 * n])
  }

  /** A length in bits as 64 bits, most significant byte first. */
  function Be64(n: nat): (b: seq<byte>)
    requires n < U64_LIMIT
    ensures |b| == 8
  {
    [(n / 0x100_0000_0000_0000 % 256) as byte, (n / 0x1_0000_0000_0000 % 256) as byte,
     (n / 0x100_0000_0000 % 256) as byte, (n / 0x1_0000_0000 % 256) as byte,
     (n / 0x100_0000 % 256) as byte, (n / 0x1_0000 % 256) as byte,
     (n / 0x100 % 256) as byte, (n % 256) as byte]
  }

  /** A 64-bit counter's value after counting to `n`. */
  function Wrap(n: nat): (w: nat)
    ensures w < U64_LIMIT
  {
    n % U64_LIMIT
  }

  /** Whole turns of the counter do not show. */
  lemma {:induction false} WrapTurns(n: nat, turns: nat)
    ensures Wrap(n + turns * U64_LIMIT) == Wrap(n)
  {
    if turns > 0 {
      WrapTurns(n, turns - 1);
      assert n + turns * U64_LIMIT == n + (turns - 1) * U64_LIMIT + U64_LIMIT;
    }
  }

  lemma WrapSum(a: nat, b: nat)
    ensures Wrap(Wrap(a) + b) == Wrap(a + b)
  {
    WrapTurns(Wrap(a) + b, a / U64_LIMIT);
  }

  lemma WrapEightfold(a: nat)
    ensures Wrap(Wrap(a) * 8) == Wrap(8 * a)
  {
    WrapTurns(Wrap(a) * 8, 8 * (a / U64_LIMIT));
  }

  /** How many zero bytes the padding has: the fewest that leave 8 bytes of the
      last block for the length (section 5.1.1). */
  function PadZeros(length: nat): nat {
    (119 - length % 64) % 64
  }

  function Pad(m: seq<byte>): (p: seq<byte>)
    ensures |p| % 64 == 0 && m <= p
  {
    PaddedToABlock(|m|);
    m + ([0x80] + Zeros(PadZeros(|m|)) + Be64(Wrap(8 * |m|)))
  }

  function Bytes32(h: Hash): (b: seq<byte>)
    ensures |b| == 32
  {
    ToBe(h.a) + ToBe(h.b) + ToBe(h.c) + ToBe(h.d) + ToBe(h.e) + ToBe(h.f) + ToBe(h.g) + ToBe(h.h)
  }

  /** SHA-256 of a message (section 6.2). For a message of 2^61 bytes or more,
      which the standard does not define, the length field wraps. */
  function Sha(m: seq<byte>): (d: seq<byte>)
    ensures |d| == 32
  {
    var p := Pad(m);
    Bytes32(HashBlocks(p, |p| / 64))
  }

  lemma PaddedToABlock(length: nat)
    ensures (length + 1 + PadZeros(length) + 8) % 64 == 0
  {
    var q, r := length / 64, length % 64;
    assert length == 64 * q + r;
    assert r + 9 + (119 - r) % 64 == if r <= 55 then 64 else 128;
  }

  lemma PadDistance(length: nat, zeros: nat, blocks: nat, filled: nat)
    requires zeros <= PadZeros(length) && filled < 64
    requires length + 1 + zeros == 64 * blocks + filled
    ensures filled == 56 <==> zeros == PadZeros(length)
  {
    var q, r := length / 64, length % 64;
    assert length == 64 * q + r;
    assert PadZeros(length) == if r <= 55 then 55 - r else 119 - r;
  }

  lemma OneWayToSplit(length: nat, blocks: nat, filled: nat)
    requires length == 64 * blocks + filled && filled < 64
    ensures blocks == length / 64 && filled == length % 64
  {
  }

  /** The padding is the shortest one: one more byte of message room is never
      paid for with a block that was not needed. */
  lemma PaddingIsShortest(m: seq<byte>, zeros: nat)
    requires (|m| + 1 + zeros + 8) % 64 == 0
    ensures |Pad(m)| <= |m| + 1 + zeros + 8
  {
    var q, r := |m| / 64, |m| % 64;
    assert |m| == 64 * q + r;
    assert (r + 9 + zeros) % 64 == 0;
    assert r + 9 + PadZeros(|m|) == if r <= 55 then 64 else 128;
  }

  /** Only the bytes of the first `n` blocks matter to H^(n). */
  lemma {:induction false} HashBlocksOfPrefix(m: seq<byte>, longer: seq<byte>, n: nat)
    requires m <= longer && 64 * n <= |m|
    ensures HashBlocks(m, n) == HashBlocks(longer, n)
  {
    hide CompressBlock;
    if n > 0 {
      HashBlocksOfPrefix(m, longer, n - 1);
      assert m[64 * (n - 1)..64 * n] == longer[64 * (n - 1)..64 * n];
    }
  }

  /** A hash being computed. */
  class Hasher {
    var state: Hash
    const block: array<byte>
    var filled: nat
    var total: nat
    /** Every byte given to `Update` so far. */
    ghost var fed: seq<byte>
    /** How many whole blocks of it have been compressed. */
    ghost var blocks: nat

    ghost predicate Valid()
      reads this, block
    {
      Buffered() && total == Wrap(|fed|)
    }

    /** The compressed blocks and the partial one make up what was fed. */
    ghost predicate Buffered()
      reads this, block
    {
      && block.Length == 64
      && filled < 64
      && |fed| == 64 * blocks + filled
      && block[..filled] == fed[64 * blocks..]
      && state == HashBlocks(fed, blocks)
    }

    constructor ()
      ensures Valid() && fresh(block) && fed == []
    {
      hide CompressBlock;
      state, filled, total, fed, blocks := H0, 0, 0, [], 0;
      block := new byte[64](_ => 0);
    }

    /** Take the next bytes of the message. */
    method Update(data: seq<byte>)
      requires Valid()
      modifies this, block
      ensures Valid() && fed == old(fed) + data
    {
      hide CompressBlock, HashBlocks, Wrap;
      WrapSum(|fed|, |data|);
      total := Wrap(total + |data|);
      var rest := data;
      if filled > 0 {
        rest := TopUp(data);
      }
      if filled == 0 {
        WholeBlocks(rest);
      }
    }

    /** The buffered bytes come first. Either it fills and is compressed, or
        all of `data` went into it. */
    method TopUp(data: seq<byte>) returns (rest: seq<byte>)
      requires Buffered() && 0 < filled
      modifies this`filled, this`state, this`fed, this`blocks, block
      ensures Buffered() && fed + rest == old(fed) + data
      ensures filled == 0 || rest == []
    {
      hide CompressBlock;
      var take := Min(64 - filled, |data|);
      CopyIn(block, filled, data[..take]);
      filled := filled + take;
      rest := data[take..];
      ghost var before := fed;
      fed := fed + data[..take];
      HashBlocksOfPrefix(before, fed, blocks);
      assert block[..filled] == fed[64 * blocks..];
      if filled == 64 {
        assert fed[64 * blocks..64 * (blocks + 1)] == block[..];
        Compress(block[..]);
        filled, blocks := 0, blocks + 1;
      }
    }

    /** The fast path, from a block boundary: every whole block of `data`
        straight in, and the rest kept for later. */
    method WholeBlocks(data: seq<byte>)
      requires Buffered() && filled == 0
      modifies this`filled, this`state, this`fed, this`blocks, block
      ensures Buffered() && fed == old(fed) + data
    {
      hide CompressBlock;
      HashBlocksOfPrefix(fed, fed + data, blocks);
      fed := fed + data;
      var rest := data;
      while |rest| >= 64
        invariant fed == old(fed) + data
        invariant |fed| == 64 * blocks + |rest| && rest == fed[64 * blocks..]
        invariant state == HashBlocks(fed, blocks)
      {
        assert rest[..64] == fed[64 * blocks..64 * (blocks + 1)];
        Compress(rest[..64]);
        rest, blocks := rest[64..], blocks + 1;
      }
      CopyIn(block, 0, rest);
      filled := |rest|;
    }

    /** The digest of everything fed in. The padding is fed through `Update`
        itself, and `bits` is the length before it. */
    method Finalize() returns (digest: seq<byte>)
      requires Valid()
      modifies this, block
      ensures digest == Sha(old(fed))
    {
      hide CompressBlock, HashBlocks, Wrap, PadZeros;
      ghost var message := fed;
      var bits := Wrap(total * 8);
      WrapEightfold(|message|);
      PadToLength();
      Update(Be64(bits));
      assert fed == Pad(message);
      OneWayToSplit(|fed|, blocks, filled);
      digest := Bytes32(state);
    }

    /** A 1 bit, then zeros until only the length is missing from a block. */
    method PadToLength()
      requires Valid()
      modifies this, block
      ensures Valid() && filled == 56
      ensures fed == old(fed) + ([0x80] + Zeros(PadZeros(|old(fed)|)))
    {
      hide CompressBlock, HashBlocks, Wrap, PadZeros;
      ghost var message := fed;
      Update([0x80]);
      ghost var zeros := 0;
      PadDistance(|message|, zeros, blocks, filled);
      while filled != 56
        invariant Valid() && zeros <= PadZeros(|message|)
        invariant fed == message + ([0x80] + Zeros(zeros))
        invariant filled == 56 <==> zeros == PadZeros(|message|)
        decreases PadZeros(|message|) - zeros
      {
        Update([0x00]);
        assert Zeros(zeros) + [0x00] == Zeros(zeros + 1);
        zeros := zeros + 1;
        PadDistance(|message|, zeros, blocks, filled);
      }
    }

    /** Absorb one whole block. */
    method Compress(input: seq<byte>)
      requires |input| == 64
      modifies this`state
      ensures state == CompressBlock(old(state), input)
    {
      hide Add, Schedule, BigSigma0, BigSigma1, Ch, Maj;
      var w := Expand(input);
      var Hash(a, b, c, d, e, f, g, h) := state;
      for i := 0 to w.Length
        invariant Hash(a, b, c, d, e, f, g, h) == Rounds(state, w[..], i)
      {
        var t1 := Add(Add(Add(Add(h, BigSigma1(e)), Ch(e, f, g)), K[i]), w[i]);
        var t2 := Add(BigSigma0(a), Maj(a, b, c));
        a, b, c, d, e, f, g, h := Add(t1, t2), a, b, c, Add(d, t1), e, f, g;
      }
      state := AddWords(Hash(a, b, c, d, e, f, g, h), state);
    }
  }

  /** The message schedule of a block, filled in place. */
  method Expand(input: seq<byte>) returns (w: array<Word>)
    requires |input| == 64
    ensures fresh(w) && w.Length == 64
    ensures w[..] == Schedule(input, |input|)
  {
    hide Add, FromBe, SmallSigma0, SmallSigma1;
    w := new Word[|input|](_ => 0);
    for i := 0 to 16
      invariant w[..i] == Schedule(input, i)
    {
      w[i] := FromBe(input, 4 * i);
    }
    for i := 16 to w.Length
      invariant w[..i] == Schedule(input, i)
    {
      var s0 := SmallSigma0(w[i - 15]);
      var s1 := SmallSigma1(w[i - 2]);
      w[i] := Add(Add(Add(w[i - 16], s0), w[i - 7]), s1);
    }
  }

  /** `target[at..at + |source|]` becomes `source`. */
  method CopyIn(target: array<byte>, at: nat, source: seq<byte>)
    requires at + |source| <= target.Length
    modifies target
    ensures target[..] == old(target[..at]) + source + old(target[at + |source|..])
  {
    forall i | 0 <= i < |source| {
      target[at + i] := source[i];
    }
  }

  /** One piece, start to end. */
  method Digest(data: seq<byte>) returns (digest: seq<byte>)
    ensures digest == Sha(data)
  {
    var h := new Hasher();
    h.Update(data);
    assert h.fed == data;
    digest := h.Finalize();
  }

  /** A message that arrives in pieces, hashed as it arrives. */
  method DigestPieces(pieces: seq<seq<byte>>) returns (digest: seq<byte>)
    ensures digest == Sha(Concat(pieces))
  {
    var h := new Hasher();
    for i := 0 to |pieces|
      invariant h.Valid() && fresh(h) && fresh(h.block) && h.fed == Concat(pieces[..i])
    {
      assert pieces[..i + 1][..i] == pieces[..i];
      h.Update(pieces[i]);
    }
    assert pieces[..|pieces|] == pieces;
    digest := h.Finalize();
  }
}
