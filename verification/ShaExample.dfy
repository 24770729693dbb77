/** The digest of "abc", the first example of FIPS 180-4, through every word of its
    schedule and every round. */
module ShaExample {
  import opened Bytes
  import opened Sha256
  import opened ShaVectors

  const ABC: seq<byte> := ['a' as byte, 'b' as byte, 'c' as byte]

  /** The message's one block: itself, a 1 bit, zeros, and its 24 bits counted. */
  function Block(): (b: seq<byte>)
    ensures |b| == 64
  {
    [0x61, 0x62, 0x63, 0x80] + Zeros(59) + [24]
  }

  lemma BlockIsPadded()
    ensures Pad(ABC) == Block()
  {
  }

  // ------------------------------------------------------------ the schedule

  ghost predicate WordIs(t: nat, w: Word) {
    t < 64 && Schedule(Block(), 64)[t] == w
  }

  lemma {:induction false} SchedulePrefix(block: seq<byte>, t: nat, u: nat)
    requires |block| == 64 && t <= u <= 64
    ensures Schedule(block, t) == Schedule(block, u)[..t]
    decreases u
  {
    hide FromBe, Add;
    if t < u {
      SchedulePrefix(block, t, u - 1);
      assert Schedule(block, u)[..u - 1] == Schedule(block, u - 1);
      assert Schedule(block, u)[..t] == Schedule(block, u)[..u - 1][..t];
    } else {
      assert Schedule(block, u)[..t] == Schedule(block, t);
    }
  }

  lemma FirstIs(t: nat, w: Word)
    requires t < 16 && FromBe(Block(), 4 * t) == w
    ensures WordIs(t, w)
  {
    hide FromBe, Add, Block;
    SchedulePrefix(Block(), t + 1, 64);
    assert Schedule(Block(), t + 1)[t] == w;
  }

  lemma LaterIs(t: nat, a: Word, b: Word, c: Word, d: Word, w: Word)
    requires 16 <= t < 64 && WordIs(t - 16, a) && WordIs(t - 15, b) && WordIs(t - 7, c) && WordIs(t - 2, d)
    requires w == Add(Add(Add(a, SmallSigma0(b)), c), SmallSigma1(d))
    ensures WordIs(t, w)
  {
    hide FromBe, Add, Block, SmallSigma0, SmallSigma1;
    SchedulePrefix(Block(), t, 64);
    SchedulePrefix(Block(), t + 1, 64);
    var before := Schedule(Block(), t);
    assert before[t - 16] == a && before[t - 15] == b && before[t - 7] == c && before[t - 2] == d;
    assert Schedule(Block(), t + 1)[t] == w;
  }

  lemma ZeroWord(t: nat)
    requires 1 <= t < 15
    ensures WordIs(t, 0)
  {
    FromZeros(Block(), 4 * t);
    FirstIs(t, 0);
  }

  lemma FromZeros(b: seq<byte>, at: nat)
    requires at + 4 <= |b| && b[at] == b[at + 1] == b[at + 2] == b[at + 3] == 0
    ensures FromBe(b, at) == 0
  {
  }

  lemma FirstWord()
    ensures FromBe(Block(), 0) == 0x61626380
  {
    assert Block()[0] as Word == 0x61;
    assert Block()[1] as Word == 0x62;
    assert Block()[2] as Word == 0x63;
    assert Block()[3] as Word == 0x80;
    assert Joined(0x61, 0x62, 0x63, 0x80) == 0x61626380;
  }

  lemma LastWord()
    ensures FromBe(Block(), 60) == 0x00000018
  {
    assert Block()[60] as Word == 0 && Block()[61] as Word == 0 && Block()[62] as Word == 0;
    assert Block()[63] as Word == 0x18;
    assert Joined(0, 0, 0, 0x18) == 0x18;
  }

  lemma Words0()
    ensures WordIs(0, 0x61626380) && WordIs(1, 0x00000000) && WordIs(2, 0x00000000) && WordIs(3, 0x00000000)
    ensures WordIs(4, 0x00000000) && WordIs(5, 0x00000000) && WordIs(6, 0x00000000) && WordIs(7, 0x00000000)
    ensures WordIs(8, 0x00000000) && WordIs(9, 0x00000000) && WordIs(10, 0x00000000) && WordIs(11, 0x00000000)
    ensures WordIs(12, 0x00000000) && WordIs(13, 0x00000000) && WordIs(14, 0x00000000) && WordIs(15, 0x00000018)
  {
    hide WordIs, FromBe, Block;
    FirstWord();
    LastWord();
    FirstIs(0, 0x61626380);
    FirstIs(15, 0x00000018);
    forall t | 1 <= t < 15
      ensures WordIs(t, 0)
    {
      ZeroWord(t);
    }
  }

  lemma Words16()
    ensures WordIs(16, 0x61626380) && WordIs(17, 0x000f0000) && WordIs(18, 0x7da86405) && WordIs(19, 0x600003c6)
    ensures WordIs(20, 0x3e9d7b78) && WordIs(21, 0x0183fc00) && WordIs(22, 0x12dcbfdb) && WordIs(23, 0xe2e2c38e)
    ensures WordIs(24, 0xc8215c1a) && WordIs(25, 0xb73679a2) && WordIs(26, 0xe5bc3909) && WordIs(27, 0x32663c5b)
    ensures WordIs(28, 0x9d209d67) && WordIs(29, 0xec8726cb) && WordIs(30, 0x702138a4) && WordIs(31, 0xd3b7973b)
  {
    hide WordIs;
    Words0();
    LaterIs(16, 0x61626380, 0x00000000, 0x00000000, 0x00000000, 0x61626380);
    LaterIs(17, 0x00000000, 0x00000000, 0x00000000, 0x00000018, 0x000f0000);
    LaterIs(18, 0x00000000, 0x00000000, 0x00000000, 0x61626380, 0x7da86405);
    LaterIs(19, 0x00000000, 0x00000000, 0x00000000, 0x000f0000, 0x600003c6);
    LaterIs(20, 0x00000000, 0x00000000, 0x00000000, 0x7da86405, 0x3e9d7b78);
    LaterIs(21, 0x00000000, 0x00000000, 0x00000000, 0x600003c6, 0x0183fc00);
    LaterIs(22, 0x00000000, 0x00000000, 0x00000018, 0x3e9d7b78, 0x12dcbfdb);
    LaterIs(23, 0x00000000, 0x00000000, 0x61626380, 0x0183fc00, 0xe2e2c38e);
    LaterIs(24, 0x00000000, 0x00000000, 0x000f0000, 0x12dcbfdb, 0xc8215c1a);
    LaterIs(25, 0x00000000, 0x00000000, 0x7da86405, 0xe2e2c38e, 0xb73679a2);
    LaterIs(26, 0x00000000, 0x00000000, 0x600003c6, 0xc8215c1a, 0xe5bc3909);
    LaterIs(27, 0x00000000, 0x00000000, 0x3e9d7b78, 0xb73679a2, 0x32663c5b);
    LaterIs(28, 0x00000000, 0x00000000, 0x0183fc00, 0xe5bc3909, 0x9d209d67);
    LaterIs(29, 0x00000000, 0x00000000, 0x12dcbfdb, 0x32663c5b, 0xec8726cb);
    LaterIs(30, 0x00000000, 0x00000018, 0xe2e2c38e, 0x9d209d67, 0x702138a4);
    LaterIs(31, 0x00000018, 0x61626380, 0xc8215c1a, 0xec8726cb, 0xd3b7973b);
  }

  lemma Words32()
    ensures WordIs(32, 0x93f5997f) && WordIs(33, 0x3b68ba73) && WordIs(34, 0xaff4ffc1) && WordIs(35, 0xf10a5c62)
    ensures WordIs(36, 0x0a8b3996) && WordIs(37, 0x72af830a) && WordIs(38, 0x9409e33e) && WordIs(39, 0x24641522)
    ensures WordIs(40, 0x9f47bf94) && WordIs(41, 0xf0a64f5a) && WordIs(42, 0x3e246a79) && WordIs(43, 0x27333ba3)
    ensures WordIs(44, 0x0c4763f2) && WordIs(45, 0x840abf27) && WordIs(46, 0x7a290d5d) && WordIs(47, 0x065c43da)
  {
    hide WordIs;
    Words16();
    LaterIs(32, 0x61626380, 0x000f0000, 0xb73679a2, 0x702138a4, 0x93f5997f);
    LaterIs(33, 0x000f0000, 0x7da86405, 0xe5bc3909, 0xd3b7973b, 0x3b68ba73);
    LaterIs(34, 0x7da86405, 0x600003c6, 0x32663c5b, 0x93f5997f, 0xaff4ffc1);
    LaterIs(35, 0x600003c6, 0x3e9d7b78, 0x9d209d67, 0x3b68ba73, 0xf10a5c62);
    LaterIs(36, 0x3e9d7b78, 0x0183fc00, 0xec8726cb, 0xaff4ffc1, 0x0a8b3996);
    LaterIs(37, 0x0183fc00, 0x12dcbfdb, 0x702138a4, 0xf10a5c62, 0x72af830a);
    LaterIs(38, 0x12dcbfdb, 0xe2e2c38e, 0xd3b7973b, 0x0a8b3996, 0x9409e33e);
    LaterIs(39, 0xe2e2c38e, 0xc8215c1a, 0x93f5997f, 0x72af830a, 0x24641522);
    LaterIs(40, 0xc8215c1a, 0xb73679a2, 0x3b68ba73, 0x9409e33e, 0x9f47bf94);
    LaterIs(41, 0xb73679a2, 0xe5bc3909, 0xaff4ffc1, 0x24641522, 0xf0a64f5a);
    LaterIs(42, 0xe5bc3909, 0x32663c5b, 0xf10a5c62, 0x9f47bf94, 0x3e246a79);
    LaterIs(43, 0x32663c5b, 0x9d209d67, 0x0a8b3996, 0xf0a64f5a, 0x27333ba3);
    LaterIs(44, 0x9d209d67, 0xec8726cb, 0x72af830a, 0x3e246a79, 0x0c4763f2);
    LaterIs(45, 0xec8726cb, 0x702138a4, 0x9409e33e, 0x27333ba3, 0x840abf27);
    LaterIs(46, 0x702138a4, 0xd3b7973b, 0x24641522, 0x0c4763f2, 0x7a290d5d);
    LaterIs(47, 0xd3b7973b, 0x93f5997f, 0x9f47bf94, 0x840abf27, 0x065c43da);
  }

  lemma Words48()
    ensures WordIs(48, 0xfb3e89cb) && WordIs(49, 0xcc7617db) && WordIs(50, 0xb9e66c34) && WordIs(51, 0xa9993667)
    ensures WordIs(52, 0x84badedd) && WordIs(53, 0xc21462bc) && WordIs(54, 0x1487472c) && WordIs(55, 0xb20f7a99)
    ensures WordIs(56, 0xef57b9cd) && WordIs(57, 0xebe6b238) && WordIs(58, 0x9fe3095e) && WordIs(59, 0x78bc8d4b)
    ensures WordIs(60, 0xa43fcf15) && WordIs(61, 0x668b2ff8) && WordIs(62, 0xeeaba2cc) && WordIs(63, 0x12b1edeb)
  {
    hide WordIs;
    Words32();
    LaterIs(48, 0x93f5997f, 0x3b68ba73, 0xf0a64f5a, 0x7a290d5d, 0xfb3e89cb);
    LaterIs(49, 0x3b68ba73, 0xaff4ffc1, 0x3e246a79, 0x065c43da, 0xcc7617db);
    LaterIs(50, 0xaff4ffc1, 0xf10a5c62, 0x27333ba3, 0xfb3e89cb, 0xb9e66c34);
    LaterIs(51, 0xf10a5c62, 0x0a8b3996, 0x0c4763f2, 0xcc7617db, 0xa9993667);
    LaterIs(52, 0x0a8b3996, 0x72af830a, 0x840abf27, 0xb9e66c34, 0x84badedd);
    LaterIs(53, 0x72af830a, 0x9409e33e, 0x7a290d5d, 0xa9993667, 0xc21462bc);
    LaterIs(54, 0x9409e33e, 0x24641522, 0x065c43da, 0x84badedd, 0x1487472c);
    LaterIs(55, 0x24641522, 0x9f47bf94, 0xfb3e89cb, 0xc21462bc, 0xb20f7a99);
    LaterIs(56, 0x9f47bf94, 0xf0a64f5a, 0xcc7617db, 0x1487472c, 0xef57b9cd);
    LaterIs(57, 0xf0a64f5a, 0x3e246a79, 0xb9e66c34, 0xb20f7a99, 0xebe6b238);
    LaterIs(58, 0x3e246a79, 0x27333ba3, 0xa9993667, 0xef57b9cd, 0x9fe3095e);
    LaterIs(59, 0x27333ba3, 0x0c4763f2, 0x84badedd, 0xebe6b238, 0x78bc8d4b);
    LaterIs(60, 0x0c4763f2, 0x840abf27, 0xc21462bc, 0x9fe3095e, 0xa43fcf15);
    LaterIs(61, 0x840abf27, 0x7a290d5d, 0x1487472c, 0x78bc8d4b, 0x668b2ff8);
    LaterIs(62, 0x7a290d5d, 0x065c43da, 0xb20f7a99, 0xa43fcf15, 0xeeaba2cc);
    LaterIs(63, 0x065c43da, 0xfb3e89cb, 0xef57b9cd, 0x668b2ff8, 0x12b1edeb);
  }

  // -------------------------------------------------------------- the rounds

  ghost predicate RoundsGive(t: nat, v: Hash) {
    t <= 64 && Rounds(H0, Schedule(Block(), 64), t) == v
  }

  /** The round that takes `v` to `a` and `e` in front of what it keeps. */
  lemma NextRound(t: nat, v: Hash, k: Word, w: Word, a: Word, e: Word) returns (next: Hash)
    requires t < 64 && RoundsGive(t, v) && K[t] == k && WordIs(t, w)
    requires Round(v, k, w) == Hash(a, v.a, v.b, v.c, e, v.e, v.f, v.g)
    ensures next == Hash(a, v.a, v.b, v.c, e, v.e, v.f, v.g) && RoundsGive(t + 1, next)
  {
    hide Round, H0, K, Schedule, Block;
    next := Hash(a, v.a, v.b, v.c, e, v.e, v.f, v.g);
  }

  lemma NoRoundYet()
    ensures RoundsGive(0, Hash(0x6a09e667, 0xbb67ae85, 0x3c6ef372, 0xa54ff53a,
                               0x510e527f, 0x9b05688c, 0x1f83d9ab, 0x5be0cd19))
  {
    hide Schedule, Block;
  }

  lemma Rounds0()
    ensures RoundsGive(8, Hash(0x85a07b5f, 0xe5030380, 0x2b4209f5, 0x04409a6a,
                               0x0c657a79, 0x9b27a401, 0x714260ad, 0x43ada245))
  {
    hide K, RoundsGive, WordIs;
    K0();
    Words0();
    NoRoundYet();
    var v := Hash(0x6a09e667, 0xbb67ae85, 0x3c6ef372, 0xa54ff53a,
                  0x510e527f, 0x9b05688c, 0x1f83d9ab, 0x5be0cd19);
    v := NextRound(0, v, 0x428a2f98, 0x61626380, 0x5d6aebcd, 0xfa2a4622);
    v := NextRound(1, v, 0x71374491, 0x00000000, 0x5a6ad9ad, 0x78ce7989);
    v := NextRound(2, v, 0xb5c0fbcf, 0x00000000, 0xc8c347a7, 0xf92939eb);
    v := NextRound(3, v, 0xe9b5dba5, 0x00000000, 0xd550f666, 0x24e00850);
    v := NextRound(4, v, 0x3956c25b, 0x00000000, 0x04409a6a, 0x43ada245);
    v := NextRound(5, v, 0x59f111f1, 0x00000000, 0x2b4209f5, 0x714260ad);
    v := NextRound(6, v, 0x923f82a4, 0x00000000, 0xe5030380, 0x9b27a401);
    v := NextRound(7, v, 0xab1c5ed5, 0x00000000, 0x85a07b5f, 0x0c657a79);
  }

  lemma Rounds8()
    ensures RoundsGive(16, Hash(0xb0fa238e, 0xc0645fde, 0xd932eb16, 0x87912990,
                                0x07590dcd, 0x0b92f20c, 0x745a48de, 0x1e578218))
  {
    hide K, RoundsGive, WordIs;
    K8();
    Words0();
    Rounds0();
    var v := Hash(0x85a07b5f, 0xe5030380, 0x2b4209f5, 0x04409a6a,
                  0x0c657a79, 0x9b27a401, 0x714260ad, 0x43ada245);
    v := NextRound(8, v, 0xd807aa98, 0x00000000, 0x8e04ecb9, 0x32ca2d8c);
    v := NextRound(9, v, 0x12835b01, 0x00000000, 0x8c87346b, 0x1cc92596);
    v := NextRound(10, v, 0x243185be, 0x00000000, 0x4798a3f4, 0x436b23e8);
    v := NextRound(11, v, 0x550c7dc3, 0x00000000, 0xf71fc5a9, 0x816fd6e9);
    v := NextRound(12, v, 0x72be5d74, 0x00000000, 0x87912990, 0x1e578218);
    v := NextRound(13, v, 0x80deb1fe, 0x00000000, 0xd932eb16, 0x745a48de);
    v := NextRound(14, v, 0x9bdc06a7, 0x00000000, 0xc0645fde, 0x0b92f20c);
    v := NextRound(15, v, 0xc19bf174, 0x00000018, 0xb0fa238e, 0x07590dcd);
  }

  lemma Rounds16()
    ensures RoundsGive(24, Hash(0xc5d53d8d, 0xa7a3623f, 0xc2606d6d, 0x9dc68b63,
                                0xaa47c347, 0x49f5114a, 0xe1257970, 0x8ada8930))
  {
    hide K, RoundsGive, WordIs;
    K16();
    Words16();
    Rounds8();
    var v := Hash(0xb0fa238e, 0xc0645fde, 0xd932eb16, 0x87912990,
                  0x07590dcd, 0x0b92f20c, 0x745a48de, 0x1e578218);
    v := NextRound(16, v, 0xe49b69c1, 0x61626380, 0x21da9a9b, 0x8034229c);
    v := NextRound(17, v, 0xefbe4786, 0x000f0000, 0xc2fbd9d1, 0x846ee454);
    v := NextRound(18, v, 0x0fc19dc6, 0x7da86405, 0xfe777bbf, 0xcc899961);
    v := NextRound(19, v, 0x240ca1cc, 0x600003c6, 0xe1f20c33, 0xb0638179);
    v := NextRound(20, v, 0x2de92c6f, 0x3e9d7b78, 0x9dc68b63, 0x8ada8930);
    v := NextRound(21, v, 0x4a7484aa, 0x0183fc00, 0xc2606d6d, 0xe1257970);
    v := NextRound(22, v, 0x5cb0a9dc, 0x12dcbfdb, 0xa7a3623f, 0x49f5114a);
    v := NextRound(23, v, 0x76f988da, 0xe2e2c38e, 0xc5d53d8d, 0xaa47c347);
  }

  lemma Rounds24()
    ensures RoundsGive(32, Hash(0x73b33bf5, 0xea992a22, 0xa0060b30, 0x363482c9,
                                0xba591112, 0x0109ab3a, 0xade79437, 0x6112a3b7))
  {
    hide K, RoundsGive, WordIs;
    K24();
    Words16();
    Rounds16();
    var v := Hash(0xc5d53d8d, 0xa7a3623f, 0xc2606d6d, 0x9dc68b63,
                  0xaa47c347, 0x49f5114a, 0xe1257970, 0x8ada8930);
    v := NextRound(24, v, 0x983e5152, 0xc8215c1a, 0x1c2c2838, 0x2823ef91);
    v := NextRound(25, v, 0xa831c66d, 0xb73679a2, 0xcde8037d, 0x14383d8e);
    v := NextRound(26, v, 0xb00327c8, 0xe5bc3909, 0xb62ec4bc, 0xc74c6516);
    v := NextRound(27, v, 0xbf597fc7, 0x32663c5b, 0x77d37528, 0xedffbff8);
    v := NextRound(28, v, 0xc6e00bf3, 0x9d209d67, 0x363482c9, 0x6112a3b7);
    v := NextRound(29, v, 0xd5a79147, 0xec8726cb, 0xa0060b30, 0xade79437);
    v := NextRound(30, v, 0x06ca6351, 0x702138a4, 0xea992a22, 0x0109ab3a);
    v := NextRound(31, v, 0x14292967, 0xd3b7973b, 0x73b33bf5, 0xba591112);
  }

  lemma Rounds32()
    ensures RoundsGive(40, Hash(0x79ea687a, 0x6dc57a8a, 0x34df1604, 0x41a65cb1,
                                0x1efbc0a0, 0xf0781bc8, 0xa507a53d, 0x0772a26b))
  {
    hide K, RoundsGive, WordIs;
    K32();
    Words32();
    Rounds24();
    var v := Hash(0x73b33bf5, 0xea992a22, 0xa0060b30, 0x363482c9,
                  0xba591112, 0x0109ab3a, 0xade79437, 0x6112a3b7);
    v := NextRound(32, v, 0x27b70a85, 0x93f5997f, 0x98e12507, 0x9cd9f5f6);
    v := NextRound(33, v, 0x2e1b2138, 0x3b68ba73, 0xfe604df5, 0x59249dd3);
    v := NextRound(34, v, 0x4d2c6dfc, 0xaff4ffc1, 0xa9a7738c, 0x085f3833);
    v := NextRound(35, v, 0x53380d13, 0xf10a5c62, 0x65a0cfe4, 0xf4b002d6);
    v := NextRound(36, v, 0x650a7354, 0x0a8b3996, 0x41a65cb1, 0x0772a26b);
    v := NextRound(37, v, 0x766a0abb, 0x72af830a, 0x34df1604, 0xa507a53d);
    v := NextRound(38, v, 0x81c2c92e, 0x9409e33e, 0x6dc57a8a, 0xf0781bc8);
    v := NextRound(39, v, 0x92722c85, 0x24641522, 0x79ea687a, 0x1efbc0a0);
  }

  lemma Rounds40()
    ensures RoundsGive(48, Hash(0x4172328d, 0xa14c14b0, 0x72ab4b91, 0x26628815,
                                0xfecf0bc6, 0xd57b94a9, 0xb7755da1, 0xa80f11f0))
  {
    hide K, RoundsGive, WordIs;
    K40();
    Words32();
    Rounds32();
    var v := Hash(0x79ea687a, 0x6dc57a8a, 0x34df1604, 0x41a65cb1,
                  0x1efbc0a0, 0xf0781bc8, 0xa507a53d, 0x0772a26b);
    v := NextRound(40, v, 0xa2bfe8a1, 0x9f47bf94, 0xd6670766, 0x26352d63);
    v := NextRound(41, v, 0xa81a664b, 0xf0a64f5a, 0xdf46652f, 0x838b2711);
    v := NextRound(42, v, 0xc24b8b70, 0x3e246a79, 0x17aa0dfe, 0xdecd4715);
    v := NextRound(43, v, 0xc76c51a3, 0x27333ba3, 0x9d4baf93, 0xfda24c2e);
    v := NextRound(44, v, 0xd192e819, 0x0c4763f2, 0x26628815, 0xa80f11f0);
    v := NextRound(45, v, 0xd6990624, 0x840abf27, 0x72ab4b91, 0xb7755da1);
    v := NextRound(46, v, 0xf40e3585, 0x7a290d5d, 0xa14c14b0, 0xd57b94a9);
    v := NextRound(47, v, 0x106aa070, 0x065c43da, 0x4172328d, 0xfecf0bc6);
  }

  lemma Rounds48()
    ensures RoundsGive(56, Hash(0x38cc9913, 0x3ec45cdb, 0xf5702fdb, 0x101fd28f,
                                0x54cb266b, 0xe50e1b4f, 0x9f4787c3, 0x529e7d00))
  {
    hide K, RoundsGive, WordIs;
    K48();
    Words48();
    Rounds40();
    var v := Hash(0x4172328d, 0xa14c14b0, 0x72ab4b91, 0x26628815,
                  0xfecf0bc6, 0xd57b94a9, 0xb7755da1, 0xa80f11f0);
    v := NextRound(48, v, 0x19a4c116, 0xfb3e89cb, 0x05757ceb, 0xbd714038);
    v := NextRound(49, v, 0x1e376c08, 0xcc7617db, 0xf11bfaa8, 0x6e5c390c);
    v := NextRound(50, v, 0x2748774c, 0xb9e66c34, 0x7a0508a1, 0x52f1ccf7);
    v := NextRound(51, v, 0x34b0bcb5, 0xa9993667, 0x886e7a22, 0x49231c1e);
    v := NextRound(52, v, 0x391c0cb3, 0x84badedd, 0x101fd28f, 0x529e7d00);
    v := NextRound(53, v, 0x4ed8aa4a, 0xc21462bc, 0xf5702fdb, 0x9f4787c3);
    v := NextRound(54, v, 0x5b9cca4f, 0x1487472c, 0x3ec45cdb, 0xe50e1b4f);
    v := NextRound(55, v, 0x682e6ff3, 0xb20f7a99, 0x38cc9913, 0x54cb266b);
  }

  lemma Rounds56()
    ensures RoundsGive(64, Hash(0x506e3058, 0xd39a2165, 0x04d24d6c, 0xb85e2ce9,
                                0x5ef50f24, 0xfb121210, 0x948d25b6, 0x961f4894))
  {
    hide K, RoundsGive, WordIs;
    K56();
    Words48();
    Rounds48();
    var v := Hash(0x38cc9913, 0x3ec45cdb, 0xf5702fdb, 0x101fd28f,
                  0x54cb266b, 0xe50e1b4f, 0x9f4787c3, 0x529e7d00);
    v := NextRound(56, v, 0x748f82ee, 0xef57b9cd, 0xfcd1887b, 0x9b5e906c);
    v := NextRound(57, v, 0x78a5636f, 0xebe6b238, 0xc062d46f, 0x7e44008e);
    v := NextRound(58, v, 0x84c87814, 0x9fe3095e, 0xffb70472, 0x6d83bfc6);
    v := NextRound(59, v, 0x8cc70208, 0x78bc8d4b, 0xb6ae8fff, 0xb21bad3d);
    v := NextRound(60, v, 0x90befffa, 0xa43fcf15, 0xb85e2ce9, 0x961f4894);
    v := NextRound(61, v, 0xa4506ceb, 0x668b2ff8, 0x04d24d6c, 0x948d25b6);
    v := NextRound(62, v, 0xbef9a3f7, 0xeeaba2cc, 0xd39a2165, 0xfb121210);
    v := NextRound(63, v, 0xc67178f2, 0x12b1edeb, 0x506e3058, 0x5ef50f24);
  }

  lemma HashOfAbc()
    ensures HashBlocks(Block(), 1) == Hash(0xba7816bf, 0x8f01cfea, 0x414140de, 0x5dae2223,
                                           0xb00361a3, 0x96177a9c, 0xb410ff61, 0xf20015ad)
  {
    hide Rounds, Schedule, Block, K;
    Rounds56();
    OneBlock();
    assert AddWords(Hash(0x506e3058, 0xd39a2165, 0x04d24d6c, 0xb85e2ce9,
                         0x5ef50f24, 0xfb121210, 0x948d25b6, 0x961f4894), H0)
        == Hash(0xba7816bf, 0x8f01cfea, 0x414140de, 0x5dae2223,
                0xb00361a3, 0x96177a9c, 0xb410ff61, 0xf20015ad);
  }

  lemma OneBlock()
    ensures HashBlocks(Block(), 1) == AddWords(Rounds(H0, Schedule(Block(), 64), 64), H0)
  {
    hide Rounds, Schedule, Block, AddWords;
    assert HashBlocks(Block(), 0) == H0;
    assert Block()[64 * (1 - 1)..64 * 1] == Block();
  }

  /** The digest of the three bytes "abc". */
  lemma DigestOfAbc()
    ensures Sha(ABC) == [
              0xba, 0x78, 0x16, 0xbf, 0x8f, 0x01, 0xcf, 0xea,
              0x41, 0x41, 0x40, 0xde, 0x5d, 0xae, 0x22, 0x23,
              0xb0, 0x03, 0x61, 0xa3, 0x96, 0x17, 0x7a, 0x9c,
              0xb4, 0x10, 0xff, 0x61, 0xf2, 0x00, 0x15, 0xad]
  {
    hide HashBlocks, Block, Pad;
    BlockIsPadded();
    HashOfAbc();
    WordsInBytes();
  }

  lemma WordsInBytes()
    ensures ToBe(0xba7816bf) == [0xba, 0x78, 0x16, 0xbf]
    ensures ToBe(0x8f01cfea) == [0x8f, 0x01, 0xcf, 0xea]
    ensures ToBe(0x414140de) == [0x41, 0x41, 0x40, 0xde]
    ensures ToBe(0x5dae2223) == [0x5d, 0xae, 0x22, 0x23]
    ensures ToBe(0xb00361a3) == [0xb0, 0x03, 0x61, 0xa3]
    ensures ToBe(0x96177a9c) == [0x96, 0x17, 0x7a, 0x9c]
    ensures ToBe(0xb410ff61) == [0xb4, 0x10, 0xff, 0x61]
    ensures ToBe(0xf20015ad) == [0xf2, 0x00, 0x15, 0xad]
  {
  }
}
