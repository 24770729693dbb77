/** CRC-32 as the GPT uses it (`crc32_update` in `src/esp.rs`). */
module Crc {
  import opened Bytes
  import opened Arith

  function Bit(b: byte, k: nat, mask: bv32): bv32
    requires k > 0
  {
    if b as nat / k % 2 == 1 then mask else 0
  }

  /** A byte as the low eight bits of a word. */
  function Word(b: byte): bv32 {
    Bit(b, 1, 1) | Bit(b, 2, 2) | Bit(b, 4, 4) | Bit(b, 8, 8)
    | Bit(b, 16, 16) | Bit(b, 32, 32) | Bit(b, 64, 64) | Bit(b, 128, 128)
  }

  function WordAt(b: seq<byte>, at: nat): bv32
    requires at + 4 <= |b|
  {
    Joined(Word(b[at]), Word(b[at + 1]), Word(b[at + 2]), Word(b[at + 3]))
  }

  function Joined(a: bv32, b: bv32, c: bv32, d: bv32): bv32 {
    a | (b << 8) | (c << 16) | (d << 24)
  }

  function Shift(s: bv32): bv32 {
    if s & 1 != 0 then (s >> 1) ^ 0xEDB8_8320 else s >> 1
  }

  function Shifts(s: bv32, k: nat): bv32 {
    if k == 0 then s else Shift(Shifts(s, k - 1))
  }

  function Step(s: bv32, b: byte): bv32 {
    Shifts(s ^ Word(b), 8)
  }

  /** What the bytes, one after another, make of a state. */
  function After(s: bv32, data: seq<byte>): bv32 {
    if data == [] then s
    else Step(After(s, data[..|data| - 1]), data[|data| - 1])
  }

  function Crc32(data: seq<byte>): bv32 {
    !After(0xFFFF_FFFF, data)
  }

  method Update(start: bv32, data: seq<byte>) returns (state: bv32)
    ensures state == After(start, data)
  {
    state := start;
    for i := 0 to |data|
      invariant state == After(start, data[..i])
    {
      assert data[..i + 1][..i] == data[..i];
      state := state ^ Word(data[i]);
      ghost var mixed := state;
      for k := 0 to 8
        invariant state == Shifts(mixed, k)
      {
        state := if state & 1 != 0 then (state >> 1) ^ 0xEDB8_8320 else state >> 1;
      }
    }
    assert data[..|data|] == data;
  }

  /** Chunk by chunk is the same as all at once. */
  lemma {:induction false} AfterInTwo(s: bv32, a: seq<byte>, b: seq<byte>)
    ensures After(s, a + b) == After(After(s, a), b)
  {
    hide Step;
    if b == [] {
      assert a + b == a;
    } else {
      assert (a + b)[..|a + b| - 1] == a + b[..|b| - 1];
      AfterInTwo(s, a, b[..|b| - 1]);
    }
  }

  // ------------------------------------------- what the checksum notices

  lemma WordIsTheByte(a: byte, b: byte)
    requires Word(a) == Word(b)
    ensures a == b
  {
    hide *;
    SameBits(a, b);
    BitShows(a, b, 1, 1);
    BitShows(a, b, 2, 2);
    BitShows(a, b, 4, 4);
    BitShows(a, b, 8, 8);
    BitShows(a, b, 16, 16);
    BitShows(a, b, 32, 32);
    BitShows(a, b, 64, 64);
    BitShows(a, b, 128, 128);
    SameBitsSameByte(a, b);
  }

  lemma SameBits(a: byte, b: byte)
    requires Word(a) == Word(b)
    ensures Bit(a, 1, 1) == Bit(b, 1, 1) && Bit(a, 2, 2) == Bit(b, 2, 2)
    ensures Bit(a, 4, 4) == Bit(b, 4, 4) && Bit(a, 8, 8) == Bit(b, 8, 8)
    ensures Bit(a, 16, 16) == Bit(b, 16, 16) && Bit(a, 32, 32) == Bit(b, 32, 32)
    ensures Bit(a, 64, 64) == Bit(b, 64, 64) && Bit(a, 128, 128) == Bit(b, 128, 128)
  {
    hide Bit;
    EachIsABit(a);
    EachIsABit(b);
    BitsDecide(Bit(a, 1, 1), Bit(a, 2, 2), Bit(a, 4, 4), Bit(a, 8, 8),
               Bit(a, 16, 16), Bit(a, 32, 32), Bit(a, 64, 64), Bit(a, 128, 128),
               Bit(b, 1, 1), Bit(b, 2, 2), Bit(b, 4, 4), Bit(b, 8, 8),
               Bit(b, 16, 16), Bit(b, 32, 32), Bit(b, 64, 64), Bit(b, 128, 128));
  }

  lemma EachIsABit(b: byte)
    ensures (Bit(b, 1, 1) == 0 || Bit(b, 1, 1) == 1) && (Bit(b, 2, 2) == 0 || Bit(b, 2, 2) == 2)
    ensures (Bit(b, 4, 4) == 0 || Bit(b, 4, 4) == 4) && (Bit(b, 8, 8) == 0 || Bit(b, 8, 8) == 8)
    ensures (Bit(b, 16, 16) == 0 || Bit(b, 16, 16) == 16) && (Bit(b, 32, 32) == 0 || Bit(b, 32, 32) == 32)
    ensures (Bit(b, 64, 64) == 0 || Bit(b, 64, 64) == 64) && (Bit(b, 128, 128) == 0 || Bit(b, 128, 128) == 128)
  {
  }

  lemma BitShows(a: byte, b: byte, k: nat, mask: bv32)
    requires k > 0 && mask != 0 && Bit(a, k, mask) == Bit(b, k, mask)
    ensures SameBit(a, b, k)
  {
  }

  lemma SameBitsSameByte(a: byte, b: byte)
    requires SameBit(a, b, 1) && SameBit(a, b, 2) && SameBit(a, b, 4) && SameBit(a, b, 8)
    requires SameBit(a, b, 16) && SameBit(a, b, 32) && SameBit(a, b, 64) && SameBit(a, b, 128)
    ensures a == b
  {
    BitsAddUp(a as nat);
    BitsAddUp(b as nat);
  }

  predicate SameBit(a: byte, b: byte, k: nat)
    requires k > 0
  {
    a as nat / k % 2 == b as nat / k % 2
  }

  lemma BitsAddUp(n: nat)
    requires n < 256
    ensures n == n % 2 + n / 2 % 2 * 2 + n / 4 % 2 * 4 + n / 8 % 2 * 8
              + n / 16 % 2 * 16 + n / 32 % 2 * 32 + n / 64 % 2 * 64 + n / 128 % 2 * 128
  {
    FourBitsAddUp(n);
    FourBitsAddUp(n / 16);
    assert n / 16 / 16 == 0;
    assert n / 16 / 2 == n / 32;
    assert n / 16 / 4 == n / 64;
    assert n / 16 / 8 == n / 128;
  }

  lemma FourBitsAddUp(n: nat)
    ensures n == n % 2 + n / 2 % 2 * 2 + n / 4 % 2 * 4 + n / 8 % 2 * 8 + n / 16 * 16
  {
    HalfAgain(n, 2, 4);
    HalfAgain(n, 4, 8);
    HalfAgain(n, 8, 16);
  }

  lemma HalfAgain(n: nat, k: nat, twice: nat)
    requires k > 0 && twice == 2 * k
    ensures n / k == n / twice * 2 + n / k % 2
  {
    Floor(n, k);
    Floor(n / k, 2);
    DivModUnique(n, twice, n / k / 2, n / k % 2 * k + n % k);
  }

  lemma BitsDecide(a0: bv32, a1: bv32, a2: bv32, a3: bv32, a4: bv32, a5: bv32, a6: bv32, a7: bv32,
                   b0: bv32, b1: bv32, b2: bv32, b3: bv32, b4: bv32, b5: bv32, b6: bv32, b7: bv32)
    requires (a0 == 0 || a0 == 1) && (a1 == 0 || a1 == 2) && (a2 == 0 || a2 == 4) && (a3 == 0 || a3 == 8)
    requires (a4 == 0 || a4 == 16) && (a5 == 0 || a5 == 32) && (a6 == 0 || a6 == 64) && (a7 == 0 || a7 == 128)
    requires (b0 == 0 || b0 == 1) && (b1 == 0 || b1 == 2) && (b2 == 0 || b2 == 4) && (b3 == 0 || b3 == 8)
    requires (b4 == 0 || b4 == 16) && (b5 == 0 || b5 == 32) && (b6 == 0 || b6 == 64) && (b7 == 0 || b7 == 128)
    requires a0 | a1 | a2 | a3 | a4 | a5 | a6 | a7 == b0 | b1 | b2 | b3 | b4 | b5 | b6 | b7
    ensures a0 == b0 && a1 == b1 && a2 == b2 && a3 == b3 && a4 == b4 && a5 == b5 && a6 == b6 && a7 == b7
  {
  }

  lemma WordIsSmall(b: byte)
    ensures Within(Word(b), 1)
  {
    SmallBits(Bit(b, 1, 1), Bit(b, 2, 2), Bit(b, 4, 4), Bit(b, 8, 8),
              Bit(b, 16, 16), Bit(b, 32, 32), Bit(b, 64, 64), Bit(b, 128, 128));
  }

  lemma SmallBits(a0: bv32, a1: bv32, a2: bv32, a3: bv32, a4: bv32, a5: bv32, a6: bv32, a7: bv32)
    requires (a0 == 0 || a0 == 1) && (a1 == 0 || a1 == 2) && (a2 == 0 || a2 == 4) && (a3 == 0 || a3 == 8)
    requires (a4 == 0 || a4 == 16) && (a5 == 0 || a5 == 32) && (a6 == 0 || a6 == 64) && (a7 == 0 || a7 == 128)
    ensures a0 | a1 | a2 | a3 | a4 | a5 | a6 | a7 < 0x100
  {
  }

  /** One bit's step loses nothing, and is linear. */
  lemma ShiftKeeps(s: bv32, t: bv32)
    ensures Shift(s) == Shift(t) ==> s == t
  {
  }

  lemma EvenEven(s: bv32, t: bv32)
    requires s & 1 == 0 && t & 1 == 0
    ensures Shift(s ^ t) == Shift(s) ^ Shift(t)
  {
  }

  lemma EvenOdd(s: bv32, t: bv32)
    requires s & 1 == 0 && t & 1 == 1
    ensures Shift(s ^ t) == Shift(s) ^ Shift(t)
  {
  }

  lemma OddOdd(s: bv32, t: bv32)
    requires s & 1 == 1 && t & 1 == 1
    ensures Shift(s ^ t) == Shift(s) ^ Shift(t)
  {
  }

  lemma XorTurns(s: bv32, t: bv32)
    ensures Xor(s, t) == Xor(t, s)
  {
  }

  lemma LowBit(s: bv32)
    ensures s & 1 == 0 || s & 1 == 1
  {
  }

  function Xor(a: bv32, b: bv32): bv32 { a ^ b }

  lemma ShiftIsLinear(s: bv32, t: bv32)
    ensures Shift(Xor(s, t)) == Xor(Shift(s), Shift(t))
  {
    hide Shift;
    LowBit(s);
    LowBit(t);
    if s & 1 == 0 && t & 1 == 0 {
      EvenEven(s, t);
    } else if s & 1 == 0 {
      EvenOdd(s, t);
    } else if t & 1 == 0 {
      XorTurns(s, t);
      XorTurns(Shift(s), Shift(t));
      EvenOdd(t, s);
    } else {
      OddOdd(s, t);
    }
  }

  lemma {:induction false} ShiftsKeep(s: bv32, t: bv32, k: nat)
    ensures Shifts(s, k) == Shifts(t, k) ==> s == t
  {
    hide Shift;
    if k > 0 {
      ShiftsKeep(s, t, k - 1);
      ShiftKeeps(Shifts(s, k - 1), Shifts(t, k - 1));
    }
  }

  lemma StepKeeps(x: bv32, y: bv32, b: byte)
    ensures Step(x, b) == Step(y, b) ==> x == y
  {
    hide Shifts, Word;
    ShiftsKeep(x ^ Word(b), y ^ Word(b), 8);
    XorKeeps(x, y, Word(b));
  }

  /** Different states stay different over the same bytes. */
  lemma {:induction false} StatesStayApart(s: bv32, t: bv32, data: seq<byte>)
    requires s != t
    ensures After(s, data) != After(t, data)
  {
    hide Step;
    if data != [] {
      var before := data[..|data| - 1];
      StatesStayApart(s, t, before);
      StepKeeps(After(s, before), After(t, before), data[|data| - 1]);
    }
  }

  lemma XorKeeps(x: bv32, y: bv32, w: bv32)
    ensures x ^ w == y ^ w <==> x == y
  {
  }

  function Eight(x: bv32): bv32 {
    Shift(Shift(Shift(Shift(Shift(Shift(Shift(Shift(x))))))))
  }

  lemma ShiftsAreEight(x: bv32)
    ensures Shifts(x, 8) == Eight(x)
  {
    hide Shift;
    assert Shifts(x, 1) == Shift(x);
    assert Shifts(x, 2) == Shift(Shift(x));
    assert Shifts(x, 3) == Shift(Shift(Shift(x)));
    assert Shifts(x, 4) == Shift(Shift(Shift(Shift(x))));
    assert Shifts(x, 5) == Shift(Shifts(x, 4));
    assert Shifts(x, 6) == Shift(Shifts(x, 5));
    assert Shifts(x, 7) == Shift(Shifts(x, 6));
  }

  lemma EightIsLinear(s: bv32, t: bv32)
    ensures Eight(Xor(s, t)) == Xor(Eight(s), Eight(t))
  {
    hide Shift, Xor;
    FourAreLinear(s, t);
    FourAreLinear(Shift(Shift(Shift(Shift(s)))), Shift(Shift(Shift(Shift(t)))));
  }

  lemma FourAreLinear(s: bv32, t: bv32)
    ensures Shift(Shift(Shift(Shift(Xor(s, t))))) == Xor(Shift(Shift(Shift(Shift(s)))), Shift(Shift(Shift(Shift(t)))))
  {
    hide Shift, Xor;
    ShiftIsLinear(s, t);
    ShiftIsLinear(Shift(s), Shift(t));
    ShiftIsLinear(Shift(Shift(s)), Shift(Shift(t)));
    ShiftIsLinear(Shift(Shift(Shift(s))), Shift(Shift(Shift(t))));
  }

  predicate LowClear(d: bv32) { d & 0xFF == 0 }

  function Rest(d: bv32): bv32 { d >> 8 }

  /** All of it is in its low `k` bytes. */
  predicate Within(d: bv32, k: nat) {
    (k == 0 && d == 0) || (k == 1 && d < 0x100) || (k == 2 && d < 0x1_0000) || (k == 3 && d < 0x100_0000)
  }

  lemma OneByteWider(d: bv32, k: nat)
    requires Within(Rest(d), k) && k < 3
    ensures Within(d, k + 1)
  {
  }

  lemma NothingBetween()
    ensures Within(0, 0)
  {
  }

  lemma WithinMore(d: bv32, k: nat)
    requires Within(d, k)
    ensures Within(d, 3)
  {
  }

  /** Eight steps fill the top byte from the low one. */
  lemma LowByteShows(x: bv32)
    requires Within(Eight(x), 3)
    ensures LowClear(x) && Eight(x) == Rest(x)
  {
  }

  lemma XorRegroups(x: bv32, y: bv32, v: bv32, w: bv32)
    ensures Xor(Xor(x, v), Xor(y, w)) == Xor(Xor(x, y), Xor(v, w))
  {
    hide Xor;
    XorTogether(x, v, Xor(y, w));
    XorTogether(v, y, w);
    XorTurns(v, y);
    XorTogether(y, v, w);
    XorTogether(x, y, Xor(v, w));
  }

  lemma XorTogether(x: bv32, y: bv32, z: bv32)
    ensures Xor(Xor(x, y), z) == Xor(x, Xor(y, z))
  {
  }

  lemma XorOfSame(x: bv32, v: bv32)
    ensures Xor(x, x) == 0 && Xor(0, v) == v
  {
  }

  lemma XorOfEqual(x: bv32, y: bv32)
    ensures Xor(x, y) == 0 <==> x == y
  {
  }

  lemma BytesXor(v: bv32, w: bv32)
    requires Within(v, 1) && Within(w, 1)
    ensures Within(Xor(v, w), 1)
  {
  }

  lemma ByteDrops(d: bv32, u: bv32)
    requires Within(u, 1)
    ensures Rest(Xor(d, u)) == Rest(d)
  {
  }

  lemma ByteIsZero(u: bv32)
    requires Within(u, 1) && LowClear(u)
    ensures u == 0
  {
  }

  /** How far apart two runs are after a byte each tells how far apart they were
      before it; from one and the same state, the bytes are the same. */
  lemma StepBack(x: bv32, y: bv32, a: byte, b: byte)
    requires Within(Xor(Step(x, a), Step(y, b)), 3)
    ensures Rest(Xor(x, y)) == Xor(Step(x, a), Step(y, b))
    ensures x == y ==> a == b
  {
    hide *;
    var v, w := Word(a), Word(b);
    var u := Xor(v, w);
    StepsAsOne(x, y, a, b);
    LowByteShows(Xor(Xor(x, v), Xor(y, w)));
    XorRegroups(x, y, v, w);
    WordIsSmall(a);
    WordIsSmall(b);
    BytesXor(v, w);
    ByteDrops(Xor(x, y), u);
    if x == y {
      XorOfSame(x, u);
      ByteIsZero(u);
      XorOfEqual(v, w);
      WordIsTheByte(a, b);
    }
  }

  lemma StepsAsOne(x: bv32, y: bv32, a: byte, b: byte)
    ensures Xor(Step(x, a), Step(y, b)) == Eight(Xor(Xor(x, Word(a)), Xor(y, Word(b))))
  {
    hide Word, Shifts, Eight;
    ShiftsAreEight(x ^ Word(a));
    ShiftsAreEight(y ^ Word(b));
    EightIsLinear(x ^ Word(a), y ^ Word(b));
  }

  /** Four bytes that differ at all leave different states. */
  lemma FourBytesShow(s: bv32, a: seq<byte>, b: seq<byte>)
    requires |a| == |b| == 4 && After(s, a) == After(s, b)
    ensures a == b
  {
    hide *;
    var x1, y1 := Step(s, a[0]), Step(s, b[0]);
    var x2, y2 := Step(x1, a[1]), Step(y1, b[1]);
    var x3, y3 := Step(x2, a[2]), Step(y2, b[2]);
    AfterFour(s, a);
    AfterFour(s, b);
    XorOfEqual(Step(x3, a[3]), Step(y3, b[3]));
    NothingBetween();
    ApartBefore(x3, y3, a[3], b[3], 0);
    ApartBefore(x2, y2, a[2], b[2], 1);
    ApartBefore(x1, y1, a[1], b[1], 2);
    WithinMore(Xor(x1, y1), 3);
    StepBack(s, s, a[0], b[0]);
    assert a == [a[0], a[1], a[2], a[3]] && b == [b[0], b[1], b[2], b[3]];
  }

  lemma ApartBefore(x: bv32, y: bv32, a: byte, b: byte, k: nat)
    requires k < 3 && Within(Xor(Step(x, a), Step(y, b)), k)
    ensures Within(Xor(x, y), k + 1)
    ensures x == y ==> a == b
  {
    WithinMore(Xor(Step(x, a), Step(y, b)), k);
    StepBack(x, y, a, b);
    hide Step, Xor, Rest, Within;
    OneByteWider(Xor(x, y), k);
  }

  lemma AfterFour(s: bv32, a: seq<byte>)
    requires |a| == 4
    ensures After(s, a) == Step(Step(Step(Step(s, a[0]), a[1]), a[2]), a[3])
  {
    assert a[..3][..2] == a[..2] && a[..2][..1] == a[..1] && a[..1][..0] == [];
    hide Step;
    assert After(s, a[..1]) == Step(s, a[0]);
    assert After(s, a[..2]) == Step(After(s, a[..1]), a[1]);
    assert After(s, a[..3]) == Step(After(s, a[..2]), a[2]);
  }

  /** A change within four bytes in a row, 32 bits, never goes unnoticed. */
  lemma ChangeIsCaught(a: seq<byte>, b: seq<byte>, i: nat)
    requires |a| == |b| && i + 4 <= |a| && a[..i] == b[..i] && a[i + 4..] == b[i + 4..]
    ensures Crc32(a) == Crc32(b) <==> a == b
  {
    var from: bv32 := 0xFFFF_FFFF;
    hide After;
    AfterInThree(from, a, i);
    AfterInThree(from, b, i);
    var s := After(from, a[..i]);
    var x, y := After(s, a[i..i + 4]), After(s, b[i..i + 4]);
    if Crc32(a) == Crc32(b) {
      NotKeeps(After(from, a), After(from, b));
      hide Crc32;
      if x != y {
        StatesStayApart(x, y, a[i + 4..]);
      }
      FourBytesShow(s, a[i..i + 4], b[i..i + 4]);
      assert a == a[..i] + a[i..i + 4] + a[i + 4..];
      assert b == b[..i] + b[i..i + 4] + b[i + 4..];
    }
  }

  lemma NotKeeps(x: bv32, y: bv32)
    ensures !x == !y ==> x == y
  {
  }

  lemma AfterInThree(s: bv32, a: seq<byte>, i: nat)
    requires i + 4 <= |a|
    ensures After(s, a) == After(After(After(s, a[..i]), a[i..i + 4]), a[i + 4..])
  {
    assert a == a[..i] + a[i..];
    assert a[i..] == a[i..i + 4] + a[i + 4..];
    AfterInTwo(s, a[..i], a[i..]);
    AfterInTwo(After(s, a[..i]), a[i..i + 4], a[i + 4..]);
  }

  // --------------------------------------------------- which checksum it is

  lemma EightOfClear(x: bv32)
    requires LowClear(x)
    ensures Eight(x) == Rest(x)
  {
  }

  /** What is taken in after eight steps might as well have been taken in, a byte
      higher, before them. */
  lemma TakenInBefore(s: bv32, x: bv32)
    requires LowClear(x)
    ensures Xor(Eight(s), Rest(x)) == Eight(Xor(s, x))
  {
    hide Eight, Xor, Rest, LowClear;
    EightOfClear(x);
    EightIsLinear(s, x);
  }

  /** A byte, and where it is in a word. */
  function Up(w: bv32, k: nat): bv32 {
    if k == 0 then w else if k == 1 then w << 8 else if k == 2 then w << 16 else w << 24
  }

  lemma UpIsClear(w: bv32)
    requires Within(w, 1)
    ensures LowClear(Up(w, 1)) && Rest(Up(w, 1)) == Up(w, 0)
    ensures LowClear(Up(w, 2)) && Rest(Up(w, 2)) == Up(w, 1)
    ensures LowClear(Up(w, 3)) && Rest(Up(w, 3)) == Up(w, 2)
  {
  }

  function FourTimesEight(x: bv32): bv32 {
    Eight(Eight(Eight(Eight(x))))
  }

  /** Four bytes taken in one by one are one word taken in at once. */
  lemma FourAtOnce(s: bv32, a: bv32, b: bv32, c: bv32, d: bv32)
    requires Within(a, 1) && Within(b, 1) && Within(c, 1) && Within(d, 1)
    ensures Eight(Xor(Eight(Xor(Eight(Xor(Eight(Xor(s, a)), b)), c)), d))
         == FourTimesEight(Xor(Xor(Xor(Xor(s, a), Up(b, 1)), Up(c, 2)), Up(d, 3)))
  {
    hide Eight, Xor, Up, Within, LowClear, Rest;
    UpIsWhole(b);
    UpIsWhole(c);
    UpIsWhole(d);
    UpIsClear(b);
    UpIsClear(c);
    UpIsClear(d);
    var x := Xor(s, a);
    TakenInBefore(x, Up(b, 1));
    var y := Xor(x, Up(b, 1));
    TakenInBefore(Eight(y), Up(c, 1));
    TakenInBefore(y, Up(c, 2));
    var z := Xor(y, Up(c, 2));
    TakenInBefore(Eight(Eight(z)), Up(d, 1));
    TakenInBefore(Eight(z), Up(d, 2));
    TakenInBefore(z, Up(d, 3));
  }

  lemma UpIsWhole(w: bv32)
    ensures Up(w, 0) == w
  {
  }

  lemma JoinedByXor(s: bv32, a: bv32, b: bv32, c: bv32, d: bv32)
    requires Within(a, 1) && Within(b, 1) && Within(c, 1) && Within(d, 1)
    ensures Xor(Xor(Xor(Xor(s, a), Up(b, 1)), Up(c, 2)), Up(d, 3)) == Xor(s, Joined(a, b, c, d))
  {
    hide Xor, Up, Joined, Within;
    ApartInAWord(a, b, c, d);
    XorTogether(s, a, Up(b, 1));
    XorTogether(s, Xor(a, Up(b, 1)), Up(c, 2));
    XorTogether(s, Xor(Xor(a, Up(b, 1)), Up(c, 2)), Up(d, 3));
  }

  lemma ApartInAWord(a: bv32, b: bv32, c: bv32, d: bv32)
    requires Within(a, 1) && Within(b, 1) && Within(c, 1) && Within(d, 1)
    ensures Joined(a, b, c, d) == Xor(Xor(Xor(a, Up(b, 1)), Up(c, 2)), Up(d, 3))
  {
    var x := a | Up(b, 1);
    var y := x | Up(c, 2);
    hide Xor, Up;
    ByteAndUp(a, b);
    TwoAndUp(x, c);
    ThreeAndUp(y, d);
    OrOfUps(a, b, c, d);
  }

  lemma OrOfUps(a: bv32, b: bv32, c: bv32, d: bv32)
    ensures Joined(a, b, c, d) == a | Up(b, 1) | Up(c, 2) | Up(d, 3)
  {
  }

  lemma ByteAndUp(x: bv32, b: bv32)
    requires Within(x, 1) && Within(b, 1)
    ensures x | Up(b, 1) == Xor(x, Up(b, 1)) && Within(x | Up(b, 1), 2)
  {
  }

  lemma TwoAndUp(x: bv32, b: bv32)
    requires Within(x, 2) && Within(b, 1)
    ensures x | Up(b, 2) == Xor(x, Up(b, 2)) && Within(x | Up(b, 2), 3)
  {
  }

  lemma ThreeAndUp(x: bv32, b: bv32)
    requires Within(x, 3) && Within(b, 1)
    ensures x | Up(b, 3) == Xor(x, Up(b, 3))
  {
  }

  lemma StepIsEight(s: bv32, b: byte)
    ensures Step(s, b) == Eight(Xor(s, Word(b)))
  {
    hide Word, Shifts, Eight;
    ShiftsAreEight(s ^ Word(b));
  }

  lemma WordAtOnce(s: bv32, b: seq<byte>)
    requires |b| == 4
    ensures After(s, b) == FourTimesEight(Xor(s, WordAt(b, 0)))
  {
    hide After, Step, Eight, Xor, Within, Up, Word, Joined, FourTimesEight;
    AfterFour(s, b);
    var x := Step(s, b[0]);
    var y := Step(x, b[1]);
    var z := Step(y, b[2]);
    StepIsEight(s, b[0]);
    StepIsEight(x, b[1]);
    StepIsEight(y, b[2]);
    StepIsEight(z, b[3]);
    WordIsSmall(b[0]);
    WordIsSmall(b[1]);
    WordIsSmall(b[2]);
    WordIsSmall(b[3]);
    FourAtOnce(s, Word(b[0]), Word(b[1]), Word(b[2]), Word(b[3]));
    JoinedByXor(s, Word(b[0]), Word(b[1]), Word(b[2]), Word(b[3]));
  }

  lemma FourKeep(x: bv32, y: bv32)
    ensures FourTimesEight(x) == FourTimesEight(y) ==> x == y
  {
    hide Eight;
    EightKeeps(x, y);
    EightKeeps(Eight(x), Eight(y));
    EightKeeps(Eight(Eight(x)), Eight(Eight(y)));
    EightKeeps(Eight(Eight(Eight(x))), Eight(Eight(Eight(y))));
  }

  lemma EightKeeps(x: bv32, y: bv32)
    ensures Eight(x) == Eight(y) ==> x == y
  {
    hide Eight, Shifts;
    ShiftsAreEight(x);
    ShiftsAreEight(y);
    ShiftsKeep(x, y, 8);
  }

  const RESIDUE: bv32 := 0xDEBB_20E3

  lemma ResidueOfOnes()
    ensures FourTimesEight(0xFFFF_FFFF) == RESIDUE
  {
    assert Eight(0xFFFF_FFFF) == 0x2DFD_1072;
    assert Eight(0x2DFD_1072) == 0xBE26_ED00;
    assert Eight(0xBE26_ED00) == 0x00BE_26ED;
    assert Eight(0x00BE_26ED) == RESIDUE;
  }

  function Flipped(s: bv32): bv32 { !s }

  lemma FlippedMakesOnes(s: bv32)
    ensures s ^ Flipped(s) == 0xFFFF_FFFF
  {
  }

  lemma XorTellsApart(s: bv32, v: bv32, w: bv32)
    ensures s ^ v == s ^ w ==> v == w
  {
  }

  lemma OnesExactlyWhen(s: bv32, w: bv32)
    ensures Xor(s, w) == 0xFFFF_FFFF <==> w == Flipped(s)
  {
    hide Flipped;
    FlippedMakesOnes(s);
    XorTellsApart(s, w, Flipped(s));
  }

  lemma FlippedIsTheChecksum(data: seq<byte>)
    ensures Crc32(data) == Flipped(After(0xFFFF_FFFF, data))
  {
    hide After;
  }

  /** Whatever the data, the state after it and four more bytes is the residue of
      CRC-32 exactly when those are its checksum. */
  lemma ResidueExactlyWhen(data: seq<byte>, sum: seq<byte>)
    requires |sum| == 4
    ensures After(0xFFFF_FFFF, data + sum) == RESIDUE <==> WordAt(sum, 0) == Crc32(data)
  {
    hide *;
    var s := After(0xFFFF_FFFF, data);
    FlippedIsTheChecksum(data);
    AfterInTwo(0xFFFF_FFFF, data, sum);
    WordAtOnce(s, sum);
    ResidueOfOnes();
    FourKeep(Xor(s, WordAt(sum, 0)), 0xFFFF_FFFF);
    OnesExactlyWhen(s, WordAt(sum, 0));
  }

  /** "123456789". */
  const DIGITS: seq<byte> := [0x31, 0x32, 0x33, 0x34, 0x35, 0x36, 0x37, 0x38, 0x39]

  ghost predicate StateAt(k: nat, s: bv32)
    requires k <= |DIGITS|
  {
    After(0xFFFF_FFFF, DIGITS[..k]) == s
  }

  lemma NextState(k: nat, s: bv32, w: bv32, next: bv32)
    requires k < |DIGITS| && StateAt(k, s) && Word(DIGITS[k]) == w && Eight(s ^ w) == next
    ensures StateAt(k + 1, next)
  {
    hide Word, Eight, Step, DIGITS;
    StepIsEight(s, DIGITS[k]);
    assert DIGITS[..k + 1][..k] == DIGITS[..k];
  }

  lemma OneToThree()
    ensures Word(0x31) == 0x31 && Word(0x32) == 0x32 && Word(0x33) == 0x33
  {
  }

  lemma FourToSix()
    ensures Word(0x34) == 0x34 && Word(0x35) == 0x35 && Word(0x36) == 0x36
  {
  }

  lemma SevenToNine()
    ensures Word(0x37) == 0x37 && Word(0x38) == 0x38 && Word(0x39) == 0x39
  {
  }

  lemma NothingTaken()
    ensures StateAt(0, 0xFFFF_FFFF)
  {
  }

  lemma StatesOnTheWay()
    ensures StateAt(9, 0x340B_C6D9)
  {
    hide StateAt, Word;
    NothingTaken();
    OneToThree();
    FourToSix();
    SevenToNine();
    NextState(0, 0xFFFF_FFFF, 0x31, 0x7C23_1048);
    NextState(1, 0x7C23_1048, 0x32, 0xB0AC_BB32);
    NextState(2, 0xB0AC_BB32, 0x33, 0x77B7_9C2D);
    NextState(3, 0x77B7_9C2D, 0x34, 0x641C_1F5C);
    NextState(4, 0x641C_1F5C, 0x35, 0x340A_C5E3);
    NextState(5, 0x340A_C5E3, 0x36, 0xF68D_2C9E);
    NextState(6, 0xF68D_2C9E, 0x37, 0xAFFC_9660);
    NextState(7, 0xAFFC_9660, 0x38, 0x651F_2550);
    NextState(8, 0x651F_2550, 0x39, 0x340B_C6D9);
  }

  /** The check value. */
  lemma CheckValue()
    ensures Crc32(DIGITS) == 0xCBF4_3926
  {
    hide After;
    StatesOnTheWay();
    assert DIGITS[..9] == DIGITS;
  }
}
