/** Numbers as the on-disk formats write them, low byte first, and read back. */
module LittleEndian {
  import opened Bytes

  function Two(v: nat): (b: seq<byte>)
    requires v < 0x1_0000
    ensures |b| == 2 && Le16(b, 0) == v
  {
    [(v % 0x100) as byte, (v / 0x100) as byte]
  }

  function Four(v: nat): (b: seq<byte>)
    requires v < U32_LIMIT
    ensures |b| == 4 && Le32(b, 0) == v
  {
    var low, high := Two(v % 0x1_0000), Two(v / 0x1_0000);
    assert Le16(low + high, 0) == Le16(low, 0) && Le16(low + high, 2) == Le16(high, 0);
    low + high
  }

  function EightBytes(v: nat): (b: seq<byte>)
    requires v < U64_LIMIT
    ensures |b| == 8 && Le64(b, 0) == v
  {
    var low, high := Four(v % U32_LIMIT), Four(v / U32_LIMIT);
    hide Four;
    assert Le32(low + high, 0) == Le32(low, 0) && Le32(low + high, 4) == Le32(high, 0);
    low + high
  }

  /** Units as they are stored, low byte first. */
  function Wide(us: seq<nat>): (b: seq<byte>)
    requires forall i :: 0 <= i < |us| ==> us[i] <= 0xFFFF
    ensures |b| == 2 * |us|
  {
    if us == [] then [] else Wide(us[..|us| - 1]) + Two(us[|us| - 1])
  }

  /** The bytes at a place are these. */
  predicate Holds(b: seq<byte>, at: nat, piece: seq<byte>) {
    at + |piece| <= |b| && b[at..at + |piece|] == piece
  }

  lemma TwoReads(b: seq<byte>, at: nat, v: nat)
    requires v < 0x1_0000 && Holds(b, at, Two(v))
    ensures Le16(b, at) == v
  {
    var t := Two(v);
    assert b[at] == b[at..at + 2][0] && b[at + 1] == b[at..at + 2][1];
  }

  lemma FourReads(b: seq<byte>, at: nat, v: nat)
    requires v < U32_LIMIT && Holds(b, at, Four(v))
    ensures Le32(b, at) == v
  {
    var f := b[at..at + 4];
    assert b[at] == f[0] && b[at + 1] == f[1] && b[at + 2] == f[2] && b[at + 3] == f[3];
  }

  lemma ByteReads(b: seq<byte>, at: nat, v: byte)
    requires Holds(b, at, [v])
    ensures b[at] == v
  {
    assert b[at] == b[at..at + 1][0];
  }

  lemma EightReads(b: seq<byte>, at: nat, v: nat)
    requires v < U64_LIMIT && Holds(b, at, EightBytes(v))
    ensures Le64(b, at) == v
  {
    hide EightBytes;
    var f := b[at..at + 8];
    assert b[at] == f[0] && b[at + 1] == f[1] && b[at + 2] == f[2] && b[at + 3] == f[3];
    assert b[at + 4] == f[4] && b[at + 5] == f[5] && b[at + 6] == f[6] && b[at + 7] == f[7];
  }

  lemma {:induction false} UnitAt(b: seq<byte>, at: nat, us: seq<nat>, i: nat)
    requires (forall k :: 0 <= k < |us| ==> us[k] <= 0xFFFF) && Holds(b, at, Wide(us)) && i < |us|
    ensures at + 2 * i + 2 <= |b| && Le16(b, at + 2 * i) == us[i]
  {
    hide Two, Le16;
    var n := |us| - 1;
    var front, last := Wide(us[..n]), Two(us[n]);
    var all := front + last;
    assert b[at..at + 2 * n] == all[..2 * n] == front;
    if i == n {
      assert b[at + 2 * n..at + 2 * n + 2] == all[2 * n..] == last;
      TwoReads(b, at + 2 * n, us[n]);
    } else {
      UnitAt(b, at, us[..n], i);
    }
  }

  /** The low byte comes first. */
  lemma LowByteFirst()
    ensures Two(0x1234) == [0x34, 0x12] && Four(0x1234_5678) == [0x78, 0x56, 0x34, 0x12]
    ensures EightBytes(0x1234_5678_9ABC_DEF0) == [0xF0, 0xDE, 0xBC, 0x9A, 0x78, 0x56, 0x34, 0x12]
  {
  }
}
