/** SHA-256's constants by what they are (section 4.2.2 and 5.3.3 of FIPS 180-4),
    and the digest of the standard's first example, "abc", with every word of its
    schedule and every round on the way. */
module ShaVectors {
  import opened Bytes
  import opened Sha256

  // ----------------------------------------------------------- the constants

  /** The first 64 primes. */
  const PRIMES: seq<nat> :=
    [2, 3, 5, 7, 11, 13, 17, 19, 23, 29, 31, 37, 41, 43, 47, 53]
    + [59, 61, 67, 71, 73, 79, 83, 89, 97, 101, 103, 107, 109, 113, 127, 131]
    + [137, 139, 149, 151, 157, 163, 167, 173, 179, 181, 191, 193, 197, 199, 211, 223]
    + [227, 229, 233, 239, 241, 251, 257, 263, 269, 271, 277, 281, 283, 293, 307, 311]

  /** `n` and the 32 bits `w` after the point are where the square root of `p` starts. */
  predicate SquareRootStarts(p: nat, n: nat, w: Word) {
    var m := n * U32_LIMIT + w as nat;
    m * m <= p * U32_LIMIT * U32_LIMIT < (m + 1) * (m + 1)
  }

  predicate CubeRootStarts(p: nat, n: nat, w: Word) {
    var m := n * U32_LIMIT + w as nat;
    m * m * m <= p * U32_LIMIT * U32_LIMIT * U32_LIMIT < (m + 1) * (m + 1) * (m + 1)
  }

  ghost predicate IsSquareRootPart(p: nat, w: Word) {
    exists n: nat :: SquareRootStarts(p, n, w)
  }

  ghost predicate IsCubeRootPart(p: nat, w: Word) {
    exists n: nat :: CubeRootStarts(p, n, w)
  }

  lemma OfSquareRoot(p: nat, n: nat, w: Word)
    requires SquareRootStarts(p, n, w)
    ensures IsSquareRootPart(p, w)
  {
    hide SquareRootStarts;
  }

  lemma OfCubeRoot(p: nat, n: nat, w: Word)
    requires CubeRootStarts(p, n, w)
    ensures IsCubeRootPart(p, w)
  {
    hide CubeRootStarts;
  }

  /** The hash starts with how the square roots of eight primes go on after the point. */
  lemma StartIsSquareRoots()
    ensures IsSquareRootPart(2, H0.a) && IsSquareRootPart(3, H0.b) && IsSquareRootPart(5, H0.c)
    ensures IsSquareRootPart(7, H0.d) && IsSquareRootPart(11, H0.e) && IsSquareRootPart(13, H0.f)
    ensures IsSquareRootPart(17, H0.g) && IsSquareRootPart(19, H0.h)
  {
    hide IsSquareRootPart;
    OfSquareRoot(2, 1, 0x6a09e667);
    OfSquareRoot(3, 1, 0xbb67ae85);
    OfSquareRoot(5, 2, 0x3c6ef372);
    OfSquareRoot(7, 2, 0xa54ff53a);
    OfSquareRoot(11, 3, 0x510e527f);
    OfSquareRoot(13, 3, 0x9b05688c);
    OfSquareRoot(17, 4, 0x1f83d9ab);
    OfSquareRoot(19, 4, 0x5be0cd19);
  }

  lemma K0()
    ensures K[0] == 0x428a2f98 && K[1] == 0x71374491 && K[2] == 0xb5c0fbcf && K[3] == 0xe9b5dba5
    ensures K[4] == 0x3956c25b && K[5] == 0x59f111f1 && K[6] == 0x923f82a4 && K[7] == 0xab1c5ed5
  {
  }

  lemma K8()
    ensures K[8] == 0xd807aa98 && K[9] == 0x12835b01 && K[10] == 0x243185be && K[11] == 0x550c7dc3
    ensures K[12] == 0x72be5d74 && K[13] == 0x80deb1fe && K[14] == 0x9bdc06a7 && K[15] == 0xc19bf174
  {
  }

  lemma K16()
    ensures K[16] == 0xe49b69c1 && K[17] == 0xefbe4786 && K[18] == 0x0fc19dc6 && K[19] == 0x240ca1cc
    ensures K[20] == 0x2de92c6f && K[21] == 0x4a7484aa && K[22] == 0x5cb0a9dc && K[23] == 0x76f988da
  {
  }

  lemma K24()
    ensures K[24] == 0x983e5152 && K[25] == 0xa831c66d && K[26] == 0xb00327c8 && K[27] == 0xbf597fc7
    ensures K[28] == 0xc6e00bf3 && K[29] == 0xd5a79147 && K[30] == 0x06ca6351 && K[31] == 0x14292967
  {
  }

  lemma K32()
    ensures K[32] == 0x27b70a85 && K[33] == 0x2e1b2138 && K[34] == 0x4d2c6dfc && K[35] == 0x53380d13
    ensures K[36] == 0x650a7354 && K[37] == 0x766a0abb && K[38] == 0x81c2c92e && K[39] == 0x92722c85
  {
  }

  lemma K40()
    ensures K[40] == 0xa2bfe8a1 && K[41] == 0xa81a664b && K[42] == 0xc24b8b70 && K[43] == 0xc76c51a3
    ensures K[44] == 0xd192e819 && K[45] == 0xd6990624 && K[46] == 0xf40e3585 && K[47] == 0x106aa070
  {
  }

  lemma K48()
    ensures K[48] == 0x19a4c116 && K[49] == 0x1e376c08 && K[50] == 0x2748774c && K[51] == 0x34b0bcb5
    ensures K[52] == 0x391c0cb3 && K[53] == 0x4ed8aa4a && K[54] == 0x5b9cca4f && K[55] == 0x682e6ff3
  {
  }

  lemma K56()
    ensures K[56] == 0x748f82ee && K[57] == 0x78a5636f && K[58] == 0x84c87814 && K[59] == 0x8cc70208
    ensures K[60] == 0x90befffa && K[61] == 0xa4506ceb && K[62] == 0xbef9a3f7 && K[63] == 0xc67178f2
  {
  }

  lemma Primes0()
    ensures PRIMES[0] == 2 && PRIMES[1] == 3 && PRIMES[2] == 5 && PRIMES[3] == 7
    ensures PRIMES[4] == 11 && PRIMES[5] == 13 && PRIMES[6] == 17 && PRIMES[7] == 19
  {
  }

  lemma Primes8()
    ensures PRIMES[8] == 23 && PRIMES[9] == 29 && PRIMES[10] == 31 && PRIMES[11] == 37
    ensures PRIMES[12] == 41 && PRIMES[13] == 43 && PRIMES[14] == 47 && PRIMES[15] == 53
  {
  }

  lemma Primes16()
    ensures PRIMES[16] == 59 && PRIMES[17] == 61 && PRIMES[18] == 67 && PRIMES[19] == 71
    ensures PRIMES[20] == 73 && PRIMES[21] == 79 && PRIMES[22] == 83 && PRIMES[23] == 89
  {
  }

  lemma Primes24()
    ensures PRIMES[24] == 97 && PRIMES[25] == 101 && PRIMES[26] == 103 && PRIMES[27] == 107
    ensures PRIMES[28] == 109 && PRIMES[29] == 113 && PRIMES[30] == 127 && PRIMES[31] == 131
  {
  }

  lemma Primes32()
    ensures PRIMES[32] == 137 && PRIMES[33] == 139 && PRIMES[34] == 149 && PRIMES[35] == 151
    ensures PRIMES[36] == 157 && PRIMES[37] == 163 && PRIMES[38] == 167 && PRIMES[39] == 173
  {
  }

  lemma Primes40()
    ensures PRIMES[40] == 179 && PRIMES[41] == 181 && PRIMES[42] == 191 && PRIMES[43] == 193
    ensures PRIMES[44] == 197 && PRIMES[45] == 199 && PRIMES[46] == 211 && PRIMES[47] == 223
  {
  }

  lemma Primes48()
    ensures PRIMES[48] == 227 && PRIMES[49] == 229 && PRIMES[50] == 233 && PRIMES[51] == 239
    ensures PRIMES[52] == 241 && PRIMES[53] == 251 && PRIMES[54] == 257 && PRIMES[55] == 263
  {
  }

  lemma Primes56()
    ensures PRIMES[56] == 269 && PRIMES[57] == 271 && PRIMES[58] == 277 && PRIMES[59] == 281
    ensures PRIMES[60] == 283 && PRIMES[61] == 293 && PRIMES[62] == 307 && PRIMES[63] == 311
  {
  }

  lemma CubeRoots0()
    ensures |PRIMES| == |K| == 64 && forall i :: 0 <= i < 8 ==> IsCubeRootPart(PRIMES[i], K[i])
  {
    hide K, PRIMES, IsCubeRootPart;
    SixtyFour();
    K0();
    Primes0();
    OfCubeRoot(2, 1, 0x428a2f98);
    OfCubeRoot(3, 1, 0x71374491);
    OfCubeRoot(5, 1, 0xb5c0fbcf);
    OfCubeRoot(7, 1, 0xe9b5dba5);
    OfCubeRoot(11, 2, 0x3956c25b);
    OfCubeRoot(13, 2, 0x59f111f1);
    OfCubeRoot(17, 2, 0x923f82a4);
    OfCubeRoot(19, 2, 0xab1c5ed5);
  }

  lemma CubeRoots8()
    ensures |PRIMES| == |K| == 64 && forall i :: 8 <= i < 16 ==> IsCubeRootPart(PRIMES[i], K[i])
  {
    hide K, PRIMES, IsCubeRootPart;
    SixtyFour();
    K8();
    Primes8();
    OfCubeRoot(23, 2, 0xd807aa98);
    OfCubeRoot(29, 3, 0x12835b01);
    OfCubeRoot(31, 3, 0x243185be);
    OfCubeRoot(37, 3, 0x550c7dc3);
    OfCubeRoot(41, 3, 0x72be5d74);
    OfCubeRoot(43, 3, 0x80deb1fe);
    OfCubeRoot(47, 3, 0x9bdc06a7);
    OfCubeRoot(53, 3, 0xc19bf174);
  }

  lemma CubeRoots16()
    ensures |PRIMES| == |K| == 64 && forall i :: 16 <= i < 24 ==> IsCubeRootPart(PRIMES[i], K[i])
  {
    hide K, PRIMES, IsCubeRootPart;
    SixtyFour();
    K16();
    Primes16();
    OfCubeRoot(59, 3, 0xe49b69c1);
    OfCubeRoot(61, 3, 0xefbe4786);
    OfCubeRoot(67, 4, 0x0fc19dc6);
    OfCubeRoot(71, 4, 0x240ca1cc);
    OfCubeRoot(73, 4, 0x2de92c6f);
    OfCubeRoot(79, 4, 0x4a7484aa);
    OfCubeRoot(83, 4, 0x5cb0a9dc);
    OfCubeRoot(89, 4, 0x76f988da);
  }

  lemma CubeRoots24()
    ensures |PRIMES| == |K| == 64 && forall i :: 24 <= i < 32 ==> IsCubeRootPart(PRIMES[i], K[i])
  {
    hide K, PRIMES, IsCubeRootPart;
    SixtyFour();
    K24();
    Primes24();
    OfCubeRoot(97, 4, 0x983e5152);
    OfCubeRoot(101, 4, 0xa831c66d);
    OfCubeRoot(103, 4, 0xb00327c8);
    OfCubeRoot(107, 4, 0xbf597fc7);
    OfCubeRoot(109, 4, 0xc6e00bf3);
    OfCubeRoot(113, 4, 0xd5a79147);
    OfCubeRoot(127, 5, 0x06ca6351);
    OfCubeRoot(131, 5, 0x14292967);
  }

  lemma CubeRoots32()
    ensures |PRIMES| == |K| == 64 && forall i :: 32 <= i < 40 ==> IsCubeRootPart(PRIMES[i], K[i])
  {
    hide K, PRIMES, IsCubeRootPart;
    SixtyFour();
    K32();
    Primes32();
    OfCubeRoot(137, 5, 0x27b70a85);
    OfCubeRoot(139, 5, 0x2e1b2138);
    OfCubeRoot(149, 5, 0x4d2c6dfc);
    OfCubeRoot(151, 5, 0x53380d13);
    OfCubeRoot(157, 5, 0x650a7354);
    OfCubeRoot(163, 5, 0x766a0abb);
    OfCubeRoot(167, 5, 0x81c2c92e);
    OfCubeRoot(173, 5, 0x92722c85);
  }

  lemma CubeRoots40()
    ensures |PRIMES| == |K| == 64 && forall i :: 40 <= i < 48 ==> IsCubeRootPart(PRIMES[i], K[i])
  {
    hide K, PRIMES, IsCubeRootPart;
    SixtyFour();
    K40();
    Primes40();
    OfCubeRoot(179, 5, 0xa2bfe8a1);
    OfCubeRoot(181, 5, 0xa81a664b);
    OfCubeRoot(191, 5, 0xc24b8b70);
    OfCubeRoot(193, 5, 0xc76c51a3);
    OfCubeRoot(197, 5, 0xd192e819);
    OfCubeRoot(199, 5, 0xd6990624);
    OfCubeRoot(211, 5, 0xf40e3585);
    OfCubeRoot(223, 6, 0x106aa070);
  }

  lemma CubeRoots48()
    ensures |PRIMES| == |K| == 64 && forall i :: 48 <= i < 56 ==> IsCubeRootPart(PRIMES[i], K[i])
  {
    hide K, PRIMES, IsCubeRootPart;
    SixtyFour();
    K48();
    Primes48();
    OfCubeRoot(227, 6, 0x19a4c116);
    OfCubeRoot(229, 6, 0x1e376c08);
    OfCubeRoot(233, 6, 0x2748774c);
    OfCubeRoot(239, 6, 0x34b0bcb5);
    OfCubeRoot(241, 6, 0x391c0cb3);
    OfCubeRoot(251, 6, 0x4ed8aa4a);
    OfCubeRoot(257, 6, 0x5b9cca4f);
    OfCubeRoot(263, 6, 0x682e6ff3);
  }

  lemma CubeRoots56()
    ensures |PRIMES| == |K| == 64 && forall i :: 56 <= i < 64 ==> IsCubeRootPart(PRIMES[i], K[i])
  {
    hide K, PRIMES, IsCubeRootPart;
    SixtyFour();
    K56();
    Primes56();
    OfCubeRoot(269, 6, 0x748f82ee);
    OfCubeRoot(271, 6, 0x78a5636f);
    OfCubeRoot(277, 6, 0x84c87814);
    OfCubeRoot(281, 6, 0x8cc70208);
    OfCubeRoot(283, 6, 0x90befffa);
    OfCubeRoot(293, 6, 0xa4506ceb);
    OfCubeRoot(307, 6, 0xbef9a3f7);
    OfCubeRoot(311, 6, 0xc67178f2);
  }

  /** A round's constant is how its prime's cube root goes on after the point. */
  lemma ConstantsAreCubeRoots(i: nat)
    requires i < 64
    ensures |PRIMES| == |K| == 64 && IsCubeRootPart(PRIMES[i], K[i])
  {
    hide K, PRIMES, IsCubeRootPart;
    CubeRoots0();
    CubeRoots8();
    CubeRoots16();
    CubeRoots24();
    CubeRoots32();
    CubeRoots40();
    CubeRoots48();
    CubeRoots56();
  }

  lemma SixtyFour()
    ensures |PRIMES| == |K| == 64
  {
  }
}
