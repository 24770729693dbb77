/** What the readers of bytes off the network share: UTF-8, as
    `core::str::from_utf8` takes it, and the first place a pattern is. */
module Wire {
  import opened Bytes

  const CRLF: seq<byte> := [0x0D, 0x0A]

  predicate IsAt(b: seq<byte>, w: seq<byte>, i: nat) {
    i + |w| <= |b| && b[i..i + |w|] == w
  }

  /** `windows(n).position(..)`. */
  function Find(b: seq<byte>, w: seq<byte>): (i: Option<nat>)
    requires w != []
    ensures i.Some? ==> IsAt(b, w, i.value)
    ensures forall j: nat :: (i.Some? ==> j < i.value) ==> !IsAt(b, w, j)
  {
    if |w| > |b| then None
    else if b[..|w|] == w then Some(0)
    else
      var i := Find(b[1..], w);
      Moved(b, w);
      if i.None? then None else Some(i.value + 1)
  }

  lemma Moved(b: seq<byte>, w: seq<byte>)
    requires b != []
    ensures forall j: nat :: j > 0 ==> (IsAt(b, w, j) <==> IsAt(b[1..], w, j - 1))
  {
    forall j: nat | j > 0 && j + |w| <= |b|
      ensures IsAt(b, w, j) <==> IsAt(b[1..], w, j - 1)
    {
      SameSlice(b, j, |w|);
    }
  }

  lemma SameSlice(b: seq<byte>, j: nat, n: nat)
    requires 0 < j && j + n <= |b|
    ensures b[j..j + n] == b[1..][j - 1..j - 1 + n]
  {
    var x, y := b[j..j + n], b[1..][j - 1..j - 1 + n];
    forall i | 0 <= i < n
      ensures x[i] == y[i]
    {
    }
    assert x == y;
  }

  /** How many bytes a character that starts like this takes, 0 if none does. */
  function Width(b: byte): (n: nat)
    ensures n <= 4
  {
    if b < 0x80 then 1
    else if 0xC0 <= b < 0xE0 then 2
    else if 0xE0 <= b < 0xF0 then 3
    else if 0xF0 <= b < 0xF8 then 4
    else 0
  }

  /** The bits a first byte and those after it add up to. */
  function CodeOf(b: seq<byte>): nat
    requires |b| > 0
  {
    var first := b[0] as nat;
    var lead := if |b| == 1 then first else if |b| == 2 then first % 32 else if |b| == 3 then first % 16 else first % 8;
    Continued(lead, b[1..])
  }

  function Continued(code: nat, b: seq<byte>): nat
    decreases |b|
  {
    if b == [] then code else Continued(code * 64 + b[0] as nat % 64, b[1..])
  }

  /** The smallest code a character of so many bytes may have. */
  function Least(n: nat): nat {
    if n <= 1 then 0 else if n == 2 then 0x80 else if n == 3 then 0x800 else 0x1_0000
  }

  predicate IsScalar(v: nat) {
    v < 0xD800 || 0xE000 <= v < 0x11_0000
  }

  /** The text some bytes are, if they are UTF-8: no character longer than it
      need be, and no surrogates. */
  function Decode(b: seq<byte>): (s: Option<string>)
    decreases |b|
  {
    if b == [] then Some("")
    else
      var n := Width(b[0]);
      if n == 0 || n > |b| || exists i :: 1 <= i < n && !(0x80 <= b[i] < 0xC0) then None
      else
        var v := CodeOf(b[..n]);
        var rest := Decode(b[n..]);
        if v < Least(n) || !IsScalar(v) || rest.None? then None else Some([v as char] + rest.value)
  }

  predicate IsAscii(s: string) {
    forall i :: 0 <= i < |s| ==> s[i] as nat < 0x80
  }

  /** ASCII text as bytes. */
  function Plain(s: string): (b: seq<byte>)
    requires IsAscii(s)
    ensures |b| == |s|
  {
    seq(|s|, i requires 0 <= i < |s| => s[i] as byte)
  }

  lemma {:induction false} PlainDecodes(s: string)
    requires IsAscii(s)
    ensures Decode(Plain(s)) == Some(s)
  {
    if s != "" {
      var b := Plain(s);
      assert b[1..] == Plain(s[1..]);
      PlainDecodes(s[1..]);
      assert CodeOf(b[..1]) == s[0] as nat by {
        assert b[..1][1..] == [];
      }
      assert [s[0]] + s[1..] == s;
    }
  }

  // ------------------------------------------------------------- finding

  lemma FoundAt(b: seq<byte>, w: seq<byte>, i: nat)
    requires w != [] && IsAt(b, w, i) && forall j :: 0 <= j < i ==> !IsAt(b, w, j)
    ensures Find(b, w) == Some(i)
  {
    var f := Find(b, w);
    assert f.None? ==> !IsAt(b, w, i);
  }

  lemma AtInMore(b: seq<byte>, more: seq<byte>, w: seq<byte>, i: nat)
    requires i + |w| <= |b|
    ensures IsAt(b + more, w, i) <==> IsAt(b, w, i)
  {
    assert (b + more)[i..i + |w|] == b[i..i + |w|];
  }

  /** What has been found stays where it is when more arrives. */
  lemma FoundStays(b: seq<byte>, more: seq<byte>, w: seq<byte>)
    requires w != []
    ensures Find(b, w).Some? ==> Find(b + more, w) == Find(b, w)
    ensures Find(b, w).None? && Find(b + more, w).Some? ==> Find(b + more, w).value + |w| > |b|
  {
    forall j: nat | j + |w| <= |b|
      ensures IsAt(b + more, w, j) <==> IsAt(b, w, j)
    {
      AtInMore(b, more, w, j);
    }
    hide IsAt;
    if Find(b, w).Some? {
      FoundAt(b + more, w, Find(b, w).value);
    }
  }
}
