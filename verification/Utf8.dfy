/** UTF-8 as section 3 of RFC 3629 writes it, and that `Wire.Decode` takes exactly
    that, as Rust's `from_utf8` does. */
module Utf8 {
  import opened Bytes
  import opened Wire

  /** A character's bytes: one, or a first one that says how many follow and six
      bits in each of those. */
  function CharBytes(c: char): (b: seq<byte>)
    ensures 1 <= |b| <= 4
  {
    var v := c as nat;
    if v < 0x80 then [v as byte]
    else if v < 0x800 then [(0xC0 + v / 0x40) as byte, Low(v)]
    else if v < 0x1_0000 then [(0xE0 + v / 0x1000) as byte, Low(v / 0x40), Low(v)]
    else [(0xF0 + v / 0x4_0000) as byte, Low(v / 0x1000), Low(v / 0x40), Low(v)]
  }

  function Low(v: nat): (b: byte)
    ensures 0x80 <= b < 0xC0 && b as nat % 64 == v % 0x40
  {
    (0x80 + v % 0x40) as byte
  }

  function Encode(s: string): seq<byte> {
    if s == "" then [] else CharBytes(s[0]) + Encode(s[1..])
  }

  lemma OneFollows(code: nat, b: seq<byte>)
    requires |b| == 1
    ensures Continued(code, b) == code * 0x40 + b[0] as nat % 64
  {
    assert b[1..] == [];
  }

  lemma TwoFollow(code: nat, b: seq<byte>)
    requires |b| == 2
    ensures Continued(code, b) == (code * 0x40 + b[0] as nat % 64) * 0x40 + b[1] as nat % 64
  {
    OneFollows(code * 64 + b[0] as nat % 64, b[1..]);
  }

  lemma ThreeFollow(code: nat, b: seq<byte>)
    requires |b| == 3
    ensures Continued(code, b)
         == ((code * 0x40 + b[0] as nat % 64) * 0x40 + b[1] as nat % 64) * 0x40 + b[2] as nat % 64
  {
    TwoFollow(code * 64 + b[0] as nat % 64, b[1..]);
  }

  /** The bytes of one character: of the width their first one says, those after it
      of six bits each. */
  predicate IsRun(b: seq<byte>) {
    b != [] && Width(b[0]) == |b| && forall i :: 1 <= i < |b| ==> 0x80 <= b[i] < 0xC0
  }

  /** Digits of six bits each. */
  lemma TwoDigits(v: nat, x: nat, y: nat)
    requires y < 0x40
    ensures v == x * 0x40 + y <==> x == v / 0x40 && y == v % 0x40
  {
  }

  lemma ThreeDigits(v: nat, x: nat, y: nat, z: nat)
    requires y < 0x40 && z < 0x40
    ensures v == (x * 0x40 + y) * 0x40 + z <==> x == v / 0x1000 && y == v / 0x40 % 0x40 && z == v % 0x40
  {
    TwoDigits(v, x * 0x40 + y, z);
    TwoDigits(v / 0x40, x, y);
    assert v / 0x1000 == v / 0x40 / 0x40;
  }

  lemma FourDigits(v: nat, w: nat, x: nat, y: nat, z: nat)
    requires x < 0x40 && y < 0x40 && z < 0x40
    ensures v == ((w * 0x40 + x) * 0x40 + y) * 0x40 + z
       <==> w == v / 0x4_0000 && x == v / 0x1000 % 0x40 && y == v / 0x40 % 0x40 && z == v % 0x40
  {
    TwoDigits(v, (w * 0x40 + x) * 0x40 + y, z);
    ThreeDigits(v / 0x40, w, x, y);
    assert v / 0x1000 == v / 0x40 / 0x40 && v / 0x4_0000 == v / 0x40 / 0x1000;
  }

  lemma RunOfOne(b: seq<byte>, c: char)
    requires IsRun(b) && |b| == 1
    ensures b == CharBytes(c) <==> CodeOf(b) == c as nat
  {
    assert b[1..] == [];
    assert b == [b[0]];
  }

  lemma RunOfTwo(b: seq<byte>, c: char)
    requires IsRun(b) && |b| == 2
    ensures b == CharBytes(c) <==> CodeOf(b) == c as nat && 0x80 <= c as nat
  {
    var v, x, y := c as nat, b[0] as nat - 0xC0, b[1] as nat - 0x80;
    OneFollows(x, b[1..]);
    assert CodeOf(b) == x * 0x40 + y;
    hide Continued, CodeOf;
    assert b == [b[0], b[1]];
    TwoDigits(v, x, y);
  }

  lemma RunOfThree(b: seq<byte>, c: char)
    requires IsRun(b) && |b| == 3
    ensures b == CharBytes(c) <==> CodeOf(b) == c as nat && 0x800 <= c as nat
  {
    var v, x, y, z := c as nat, b[0] as nat - 0xE0, b[1] as nat - 0x80, b[2] as nat - 0x80;
    TwoFollow(x, b[1..]);
    assert CodeOf(b) == (x * 0x40 + y) * 0x40 + z;
    hide Continued, CodeOf;
    assert b == [b[0], b[1], b[2]];
    ThreeDigits(v, x, y, z);
  }

  lemma CodeOfFour(b: seq<byte>, w: nat, x: nat, y: nat, z: nat)
    requires |b| == 4 && w < 8 && x < 0x40 && y < 0x40 && z < 0x40
    requires b[0] as nat == 0xF0 + w && b[1] as nat == 0x80 + x && b[2] as nat == 0x80 + y && b[3] as nat == 0x80 + z
    ensures CodeOf(b) == ((w * 0x40 + x) * 0x40 + y) * 0x40 + z
  {
    ThreeFollow(w, b[1..]);
  }

  lemma RunOfFour(b: seq<byte>, c: char)
    requires IsRun(b) && |b| == 4
    ensures b == CharBytes(c) <==> CodeOf(b) == c as nat && 0x1_0000 <= c as nat
  {
    hide Continued, CodeOf;
    var v, w, x, y, z := c as nat, b[0] as nat - 0xF0, b[1] as nat - 0x80, b[2] as nat - 0x80, b[3] as nat - 0x80;
    CodeOfFour(b, w, x, y, z);
    FourDigits(v, w, x, y, z);
    assert b == [b[0], b[1], b[2], b[3]];
  }

  /** A run is a character's bytes exactly when it has its code and is none too long
      for it. */
  lemma RunIsCharBytes(b: seq<byte>, c: char)
    requires IsRun(b)
    ensures b == CharBytes(c) <==> CodeOf(b) == c as nat && Least(|b|) <= c as nat
  {
    hide CharBytes, CodeOf, IsRun;
    RunIsShort(b);
    if |b| == 1 {
      RunOfOne(b, c);
    } else if |b| == 2 {
      RunOfTwo(b, c);
    } else if |b| == 3 {
      RunOfThree(b, c);
    } else {
      RunOfFour(b, c);
    }
  }

  lemma RunIsShort(b: seq<byte>)
    requires IsRun(b)
    ensures 1 <= |b| <= 4
  {
  }

  lemma CharBytesAreARun(c: char)
    ensures IsRun(CharBytes(c))
  {
  }

  lemma DecodesFirst(b: seq<byte>)
    requires b != []
    ensures var n := Width(b[0]);
            Decode(b)
            == if n == 0 || n > |b| || !IsRun(b[..n]) || CodeOf(b[..n]) < Least(n) || !IsScalar(CodeOf(b[..n]))
                  || Decode(b[n..]).None? then None
               else Some([CodeOf(b[..n]) as char] + Decode(b[n..]).value)
  {
    hide CodeOf;
    var n := Width(b[0]);
    if 0 < n <= |b| {
      assert forall i :: 1 <= i < n ==> b[..n][i] == b[i];
    }
  }

  lemma {:induction false} EncodedIsDecoded(s: string)
    ensures Decode(Encode(s)) == Some(s)
  {
    hide Decode, CodeOf, CharBytes, IsRun;
    if s == "" {
      DecodesNothing();
    } else {
      var b, cs := Encode(s), CharBytes(s[0]);
      CharBytesAreARun(s[0]);
      RunStarts(cs);
      DecodesFirst(b);
      assert b[..|cs|] == cs && b[|cs|..] == Encode(s[1..]);
      RunIsCharBytes(cs, s[0]);
      CharIsScalar(s[0]);
      EncodedIsDecoded(s[1..]);
      assert [s[0]] + s[1..] == s;
    }
  }

  lemma {:induction false} DecodedIsEncoded(b: seq<byte>)
    requires Decode(b).Some?
    ensures b == Encode(Decode(b).value)
  {
    hide Decode, CodeOf, CharBytes, IsRun;
    if b == [] {
      DecodesNothing();
    } else {
      var n, s := Width(b[0]), Decode(b).value;
      DecodesFirst(b);
      RunIsCharBytes(b[..n], s[0]);
      DecodedIsEncoded(b[n..]);
      assert s[1..] == Decode(b[n..]).value;
      assert b == b[..n] + b[n..];
    }
  }

  /** Bytes decode to a text exactly when they are its UTF-8. */
  lemma DecodesExactlyWhen(b: seq<byte>, s: string)
    ensures Decode(b) == Some(s) <==> b == Encode(s)
  {
    hide Decode, Encode;
    EncodedIsDecoded(s);
    if Decode(b) == Some(s) {
      DecodedIsEncoded(b);
    }
  }

  lemma DecodesNothing()
    ensures Decode([]) == Some("")
  {
  }

  lemma RunStarts(b: seq<byte>)
    requires IsRun(b)
    ensures b != [] && Width(b[0]) == |b|
  {
  }

  lemma CharIsScalar(c: char)
    ensures IsScalar(c as nat)
  {
  }
}
