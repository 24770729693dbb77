/** A partition table as it is written: header, checksums and entries at their
    places. `walk_gpt` and `partitions` in `src/esp.rs` read it back. */
module GptTables {
  import opened Bytes
  import opened Arith
  import opened LittleEndian
  import opened Crc
  import opened Gpt

  // ---------------------------------------------------------------- entries

  /** A GUID's bytes: the first three fields are stored low byte first, the rest as
      they are printed. */
  function GuidBytes(a: nat, b: nat, c: nat, rest: seq<byte>): (g: seq<byte>)
    requires a < U32_LIMIT && b < 0x1_0000 && c < 0x1_0000 && |rest| == 8
    ensures |g| == 16
  {
    Four(a) + Two(b) + Two(c) + rest
  }

  /** The type of an EFI system partition is C12A7328-F81F-11D2-BA4B-00A0C93EC93B
      (section 5.3.3 of the UEFI specification). */
  lemma EspTypeIsItsGuid()
    ensures ESP_TYPE == GuidBytes(0xC12A_7328, 0xF81F, 0x11D2, [0xBA, 0x4B, 0x00, 0xA0, 0xC9, 0x3E, 0xC9, 0x3B])
  {
  }

  /** An entry with this partition written in it: its type, its own GUID, its first
      and last block, and its name, ended by a zero unless it takes all 36 units. */
  predicate HasPartition(e: seq<byte>, x: GptEntry, units: seq<nat>) {
    && |e| >= 128 && |x.kind| == 16 && |x.partition.guid| == 16
    && x.partition.first < U64_LIMIT && x.partition.last < U64_LIMIT
    && |units| == 36 && (forall i :: 0 <= i < 36 ==> units[i] <= 0xFFFF)
    && x.name <= units && 0 !in x.name && (|x.name| < 36 ==> units[|x.name|] == 0)
    && Holds(e, 0, x.kind) && Holds(e, 16, x.partition.guid)
    && Holds(e, 32, EightBytes(x.partition.first)) && Holds(e, 40, EightBytes(x.partition.last))
      && Holds(e, 56, Wide(units))
  }

  lemma OneUnit(e: seq<byte>, i: nat)
    requires |e| >= 128 && i < 36
    ensures UnitsFrom(e, i) == if Le16(e, 56 + 2 * i) == 0 then [] else [Le16(e, 56 + 2 * i)] + UnitsFrom(e, i + 1)
  {
    hide Le16;
  }

  lemma LastUnit(e: seq<byte>)
    requires |e| >= 128
    ensures UnitsFrom(e, 36) == []
  {
  }

  lemma {:induction false} NameReads(e: seq<byte>, units: seq<nat>, name: seq<nat>, i: nat)
    requires |e| >= 128 && |units| == 36 && (forall k :: 0 <= k < 36 ==> units[k] <= 0xFFFF)
    requires Holds(e, 56, Wide(units)) && i <= |name| && name <= units && 0 !in name
    requires |name| < 36 ==> units[|name|] == 0
    ensures UnitsFrom(e, i) == name[i..]
    decreases 36 - i
  {
    hide Holds, Wide, Le16, UnitsFrom;
    if i < 36 {
      UnitAt(e, 56, units, i);
      OneUnit(e, i);
      if i < |name| {
        assert name[i] == units[i] && name[i] in name;
        NameReads(e, units, name, i + 1);
        assert name[i..] == [name[i]] + name[i + 1..];
      }
    } else {
      LastUnit(e);
    }
  }

  /** A written entry is the partition it was written from. */
  lemma PartitionComesBack(e: seq<byte>, x: GptEntry, units: seq<nat>)
    requires HasPartition(e, x, units)
    ensures GptEntryOf(Numbered(x.partition.number, e)) == x
  {
    hide Wide, EightBytes, Le64, UnitsFrom;
    EightReads(e, 32, x.partition.first);
    EightReads(e, 40, x.partition.last);
    NameReads(e, units, x.name, 0);
    assert x.name[0..] == x.name;
  }

  // ------------------------------------------------------------ whole tables

  predicate SizeOk(esize: nat) {
    esize == 128 || esize == 256 || esize == 512 || esize == 1024 || esize == 2048 || esize == 4096
  }

  /** A header at its place: the signature EFI PART, its own size and checksum, where
      the array is, how many entries it has and how long they are, and its checksum. */
  predicate HasHeader(hdr: seq<byte>, size: nat, lba: nat, count: nat, esize: nat, crc: bv32) {
    && |hdr| == 512 && 92 <= size <= 512 && lba < U64_LIMIT && count < U32_LIMIT && SizeOk(esize)
    && Holds(hdr, 0, ['E' as byte, 'F' as byte, 'I' as byte, ' ' as byte,
                      'P' as byte, 'A' as byte, 'R' as byte, 'T' as byte])
    && Holds(hdr, 12, Four(size)) && WordAt(hdr, 16) == Crc32(hdr[..16] + [0, 0, 0, 0] + hdr[20..size])
    && Holds(hdr, 72, EightBytes(lba)) && Holds(hdr, 80, Four(count)) && Holds(hdr, 84, Four(esize))
    && WordAt(hdr, 88) == crc
  }

  /** A disk with this table: the header in its second block, the entries where it
      says, no more than a mebibyte of them. */
  predicate HasTable(bytes: seq<byte>, bs: nat, size: nat, lba: nat, es: seq<seq<byte>>, esize: nat) {
    && bs + 512 <= |bytes| && Product(lba, bs) < U64_LIMIT && Product(|es|, esize) <= 0x10_0000
    && HasHeader(bytes[bs..bs + 512], size, lba, |es|, esize, Crc32(Concat(es)))
    && (forall i :: 0 <= i < |es| ==> |es[i]| == esize)
    && (es != [] ==> Holds(bytes, Product(lba, bs), Concat(es)))
  }

  lemma SizesArePowers(esize: nat)
    requires SizeOk(esize)
    ensures PowerOfTwo(esize)
  {
    assert PowerOfTwo(2) && PowerOfTwo(4) && PowerOfTwo(8) && PowerOfTwo(16) && PowerOfTwo(32) && PowerOfTwo(64);
    assert PowerOfTwo(128) && PowerOfTwo(256) && PowerOfTwo(512) && PowerOfTwo(1024) && PowerOfTwo(2048);
  }

  lemma HeaderReads(hdr: seq<byte>, bs: nat, size: nat, lba: nat, count: nat, esize: nat, crc: bv32)
    requires HasHeader(hdr, size, lba, count, esize, crc) && Product(lba, bs) < U64_LIMIT
             && Product(count, esize) <= MAX_TABLE
    ensures HeaderOf(hdr, bs) == Ok(Header(Product(lba, bs), count, esize, crc))
  {
    hide Four, EightBytes, Le32, Le64, Crc32, WordAt, PowerOfTwo;
    SizesArePowers(esize);
    FourReads(hdr, 12, size);
    EightReads(hdr, 72, lba);
    FourReads(hdr, 80, count);
    FourReads(hdr, 84, esize);
    assert (hdr[..16] + Zeros(4) + hdr[20..])[..size] == hdr[..16] + [0, 0, 0, 0] + hdr[20..size];
  }

  /** The entries with their numbers. */
  function InOrder(es: seq<seq<byte>>): (ns: seq<Numbered>)
    ensures |ns| == |es|
  {
    seq(|es|, i requires 0 <= i < |es| => Numbered(i + 1, es[i]))
  }

  lemma {:induction false} EntriesOfJoined(es: seq<seq<byte>>, esize: nat)
    requires forall i :: 0 <= i < |es| ==> |es[i]| == esize
    ensures |Concat(es)| == |es| * esize && Entries(Concat(es), |es|, esize) == InOrder(es)
  {
    hide Entries;
    if es == [] {
      NoEntries(esize);
    } else {
      var n := |es| - 1;
      EntriesOfJoined(es[..n], esize);
      OneMoreEntry(Concat(es[..n]), n, es[n], esize);
      assert InOrder(es) == InOrder(es[..n]) + [Numbered(n + 1, es[n])];
    }
  }

  lemma NoEntries(esize: nat)
    ensures Entries([], 0, esize) == []
  {
  }

  /** A written table is read: all its entries, in order. */
  lemma TableComesBack(bytes: seq<byte>, bs: nat, size: nat, lba: nat, es: seq<seq<byte>>, esize: nat)
    requires HasTable(bytes, bs, size, lba, es, esize)
    ensures TableOf(bytes, bs) == Ok(InOrder(es))
  {
    hide HasHeader, HeaderOf, Crc32, Entries, InOrder, Concat;
    HeaderReads(bytes[bs..bs + 512], bs, size, lba, |es|, esize, Crc32(Concat(es)));
    EntriesOfJoined(es, esize);
    HeaderIsSized(bytes[bs..bs + 512], size, lba, |es|, esize, Crc32(Concat(es)));
    NothingJoined();
    if es != [] {
      MulOrder(1, |es|, esize);
    }
  }

  lemma NothingJoined()
    ensures Concat([]) == []
  {
  }

  lemma HeaderIsSized(hdr: seq<byte>, size: nat, lba: nat, count: nat, esize: nat, crc: bv32)
    requires HasHeader(hdr, size, lba, count, esize, crc)
    ensures esize >= 128
  {
  }

  // ------------------------------------------------------------ what is listed

  /** The entry is this partition's, or is free, as a type of zeros says. */
  ghost predicate IsSlot(e: seq<byte>, number: nat, x: Option<GptEntry>) {
    match x
    case None => |e| >= 128 && e[0..16] == Zeros(16)
    case Some(p) => p.partition.number == number && p.kind != Zeros(16) && exists units :: HasPartition(e, p, units)
  }

  function Taken(xs: seq<Option<GptEntry>>): seq<GptEntry> {
    if xs == [] then []
    else Taken(xs[..|xs| - 1]) + match xs[|xs| - 1] case Some(x) => [x] case None => []
  }

  lemma {:induction false} UsedAreTaken(es: seq<seq<byte>>, xs: seq<Option<GptEntry>>)
    requires |es| == |xs| && forall i :: 0 <= i < |es| ==> IsSlot(es[i], i + 1, xs[i])
    ensures Whole(InOrder(es)) && Used(InOrder(es)) == Taken(xs)
  {
    hide IsSlot, InUse, GptEntryOf;
    SlotsAreWhole(es, xs);
    if es != [] {
      var n := |es| - 1;
      UsedAreTaken(es[..n], xs[..n]);
      assert InOrder(es)[..n] == InOrder(es[..n]);
      SlotReads(es[n], n + 1, xs[n]);
    }
  }

  lemma SlotsAreWhole(es: seq<seq<byte>>, xs: seq<Option<GptEntry>>)
    requires |es| == |xs| && forall i :: 0 <= i < |es| ==> IsSlot(es[i], i + 1, xs[i])
    ensures Whole(InOrder(es))
  {
    forall i | 0 <= i < |es|
      ensures |InOrder(es)[i].e| >= 128
    {
      assert IsSlot(es[i], i + 1, xs[i]);
    }
  }

  lemma SlotReads(e: seq<byte>, number: nat, x: Option<GptEntry>)
    requires IsSlot(e, number, x)
    ensures |e| >= 128 && (InUse(Numbered(number, e)) <==> x.Some?)
    ensures x.Some? ==> GptEntryOf(Numbered(number, e)) == x.value
  {
    hide GptEntryOf, Wide, EightBytes;
    if x.Some? {
      var units: seq<nat> :| HasPartition(e, x.value, units);
      PartitionComesBack(e, x.value, units);
    }
  }

  /** The partitions of a written table are listed, each as it was written, and the
      free entries are not. */
  lemma WrittenTableIsListed(bytes: seq<byte>, bs: nat, size: nat, lba: nat, es: seq<seq<byte>>, esize: nat,
                             xs: seq<Option<GptEntry>>)
    requires HasTable(bytes, bs, size, lba, es, esize)
    requires |es| == |xs| && forall i :: 0 <= i < |es| ==> IsSlot(es[i], i + 1, xs[i])
    ensures TableOf(bytes, bs) == Ok(InOrder(es)) && Whole(InOrder(es)) && Used(InOrder(es)) == Taken(xs)
  {
    hide HasTable, TableOf, IsSlot, InOrder, Used, Whole;
    TableComesBack(bytes, bs, size, lba, es, esize);
    UsedAreTaken(es, xs);
  }
}
