/** A file allocation table as it is written: every entry is read back as it was,
    whichever width it has and wherever it lies (`next` in `src/esp.rs`). */
module FatTables {
  import opened Bytes
  import opened Arith
  import opened LittleEndian
  import opened FatLayout
  import opened FatChain

  /** Two twelve-bit entries in three bytes. */
  function Pair(a: nat, b: nat): (p: seq<byte>)
    requires a < 0x1000 && b < 0x1000
    ensures |p| == 3
  {
    [(a % 0x100) as byte, (a / 0x100 + b % 16 * 16) as byte, (b / 16) as byte]
  }

  predicate Fit(vs: seq<nat>, kind: nat) {
    forall i :: 0 <= i < |vs| ==> vs[i] < if kind == 12 then 0x1000 else if kind == 16 then 0x1_0000 else U32_LIMIT
  }

  /** The table these entries make. */
  function Table(vs: seq<nat>, kind: nat): (b: seq<byte>)
    requires Fit(vs, kind)
    decreases |vs|
  {
    if vs == [] then []
    else if kind == 12 then
      if |vs| == 1 then Two(vs[0]) else Pair(vs[0], vs[1]) + Table(vs[2..], kind)
    else (if kind == 16 then Two(vs[0]) else Four(vs[0])) + Table(vs[1..], kind)
  }

  /** Where the entry of cluster `c` is in its table, and how long it is. */
  function Place(kind: nat, c: nat): nat {
    if kind == 12 then c + c / 2 else if kind == 16 then c * 2 else c * 4
  }

  function Width(kind: nat): nat {
    if kind == 12 || kind == 16 then 2 else 4
  }

  lemma PairReads(a: nat, b: nat)
    requires a < 0x1000 && b < 0x1000
    ensures EntryValue(12, 0, Pair(a, b)[0..2]) == a && EntryValue(12, 1, Pair(a, b)[1..3]) == b
  {
    var low, mid, high := a % 0x100, a / 0x100 + b % 16 * 16, b / 16;
    assert (low + 0x100 * mid) % 0x1000 == a by {
      assert low + 0x100 * mid == a + b % 16 * 0x1000;
    }
    assert (mid + 0x100 * high) / 16 == b by {
      assert mid + 0x100 * high == a / 0x100 + 16 * b;
    }
  }

  lemma OnlyParityMatters(c: nat, raw: seq<byte>)
    requires |raw| == 2
    ensures EntryValue(12, c, raw) == EntryValue(12, c % 2, raw) && EntryValue(12, c + 2, raw) == EntryValue(12, c, raw)
  {
  }

  ghost predicate ReadsAt(b: seq<byte>, kind: nat, c: nat, v: nat) {
    var at, w := Place(kind, c), Width(kind);
    at + w <= |b| && EntryValue(kind, c, b[at..at + w]) == if kind == 32 then v % 0x1000_0000 else v
  }

  /** Each entry of a table is read back. */
  lemma EntryComesBack(vs: seq<nat>, kind: nat, c: nat)
    requires Fit(vs, kind) && c < |vs| && (kind == 12 || kind == 16 || kind == 32)
    ensures ReadsAt(Table(vs, kind), kind, c, vs[c])
  {
    if kind == 12 {
      PackedEntry(vs, c);
    } else {
      WholeEntry(vs, kind, c);
    }
  }

  lemma {:induction false} PackedEntry(vs: seq<nat>, c: nat)
    requires Fit(vs, 12) && c < |vs|
    ensures ReadsAt(Table(vs, 12), 12, c, vs[c])
    decreases |vs|
  {
    hide EntryValue, Table, Pair, Two;
    PackedInPairs(vs);
    if |vs| == 1 {
      LastOne(vs[0]);
    } else {
      var p, rest := Pair(vs[0], vs[1]), Table(vs[2..], 12);
      if c < 2 {
        PairReads(vs[0], vs[1]);
        assert (p + rest)[0..2] == p[0..2] && (p + rest)[1..3] == p[1..3];
      } else {
        PackedEntry(vs[2..], c - 2);
        ReadsFurtherOn(p, rest, c - 2, vs[c]);
      }
    }
  }

  lemma PackedInPairs(vs: seq<nat>)
    requires Fit(vs, 12) && vs != []
    ensures |vs| == 1 ==> Table(vs, 12) == Two(vs[0])
    ensures |vs| > 1 ==> Table(vs, 12) == Pair(vs[0], vs[1]) + Table(vs[2..], 12)
  {
  }

  lemma ReadsFurtherOn(p: seq<byte>, rest: seq<byte>, c: nat, v: nat)
    requires |p| == 3 && ReadsAt(rest, 12, c, v)
    ensures ReadsAt(p + rest, 12, c + 2, v)
  {
    hide EntryValue;
    var b, at := p + rest, Place(12, c + 2);
    assert Place(12, c) == at - 3;
    assert b[at..at + 2] == rest[at - 3..at - 1];
    OnlyParityMatters(c, b[at..at + 2]);
  }

  lemma LastOne(v: nat)
    requires v < 0x1000
    ensures EntryValue(12, 0, Two(v)[0..2]) == v
  {
    assert Two(v)[0..2] == Two(v);
  }

  lemma {:induction false} WholeEntry(vs: seq<nat>, kind: nat, c: nat)
    requires Fit(vs, kind) && c < |vs| && (kind == 16 || kind == 32)
    ensures ReadsAt(Table(vs, kind), kind, c, vs[c])
    decreases |vs|
  {
    hide EntryValue, Table, Two, Four;
    OneByOne(vs, kind);
    var first, rest := if kind == 16 then Two(vs[0]) else Four(vs[0]), Table(vs[1..], kind);
    if c == 0 {
      assert (first + rest)[0..Width(kind)] == first;
      OneReads(vs[0], kind);
    } else {
      WholeEntry(vs[1..], kind, c - 1);
      ReadsOneOn(first, rest, kind, c - 1, vs[c]);
    }
  }

  lemma OneByOne(vs: seq<nat>, kind: nat)
    requires Fit(vs, kind) && vs != [] && (kind == 16 || kind == 32)
    ensures Table(vs, kind) == (if kind == 16 then Two(vs[0]) else Four(vs[0])) + Table(vs[1..], kind)
  {
  }

  lemma ReadsOneOn(first: seq<byte>, rest: seq<byte>, kind: nat, c: nat, v: nat)
    requires (kind == 16 || kind == 32) && |first| == Width(kind) && ReadsAt(rest, kind, c, v)
    ensures ReadsAt(first + rest, kind, c + 1, v)
  {
    hide EntryValue;
    var b, at, w := first + rest, Place(kind, c + 1), Width(kind);
    assert Place(kind, c) == at - w;
    assert b[at..at + w] == rest[at - w..at];
    NoParity(kind, c + 1, b[at..at + w]);
  }

  lemma OneReads(v: nat, kind: nat)
    requires v < (if kind == 16 then 0x1_0000 else U32_LIMIT) && (kind == 16 || kind == 32)
    ensures EntryValue(kind, 0, if kind == 16 then Two(v) else Four(v)) == if kind == 32 then v % 0x1000_0000 else v
  {
  }

  lemma NoParity(kind: nat, c: nat, raw: seq<byte>)
    requires (kind == 16 || kind == 32) && |raw| == Width(kind) && c > 0
    ensures EntryValue(kind, c, raw) == EntryValue(kind, c - 1, raw)
  {
  }

  /** So a cluster's link on the disk is the one its table was written with: the
      next cluster, the end of the chain, or a number that is no cluster. */
  lemma LinkIsAsWritten(l: Layout, img: seq<byte>, vs: seq<nat>, c: nat)
    requires OnDisk(l, img) && l.Valid(c) && c < |vs| && Fit(vs, l.kind)
    requires l.fatAt + |Table(vs, l.kind)| <= |img| && img[l.fatAt..l.fatAt + |Table(vs, l.kind)|] == Table(vs, l.kind)
    ensures LinkOf(l, img, c) == LinkFor(l, if l.kind == 32 then vs[c] % 0x1000_0000 else vs[c])
  {
    hide Table, EntryValue, LinkFor;
    EntryComesBack(vs, l.kind, c);
    EntriesAreInside(l, c);
    SliceInSlice(img, l.fatAt, |Table(vs, l.kind)|, Place(l.kind, c), Width(l.kind));
  }

  lemma SliceInSlice(img: seq<byte>, at: nat, n: nat, from: nat, w: nat)
    requires at + n <= |img| && from + w <= n
    ensures img[at..at + n][from..from + w] == img[at + from..at + from + w]
  {
    var x, y := img[at..at + n][from..from + w], img[at + from..at + from + w];
    forall i | 0 <= i < w
      ensures x[i] == y[i]
    {
    }
    assert x == y;
  }
}
