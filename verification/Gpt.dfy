/** The primary GPT of a disk (`walk_gpt`, `find_esp` and `partitions` in
    `src/esp.rs`): what it says counts only once header and array
    match their checksums. */
module Gpt {
  import opened Bytes
  import opened Arith
  import opened Disks
  import opened Crc

  const CHUNK: nat := 4096
  const MAX_TABLE: nat := 0x10_0000

  datatype Error =
    Io | NoHeader | HeaderSize | HeaderCrc | EntryLba | EntrySize | ArrayTooLarge | ArrayCrc | NoEsp | EmptyRange

  /** Where the entry array is, and the checksum it should have. */
  datatype Header = Header(at: nat, count: nat, esize: nat, crc: bv32)

  /** An entry with its number, from 1. */
  datatype Numbered = Numbered(number: nat, e: seq<byte>)

  const SIGNATURE: seq<byte> := [0x45, 0x46, 0x49, 0x20, 0x50, 0x41, 0x52, 0x54]

  /** The header's checksum is taken with its own field zero. */
  predicate ChecksOut(hdr: seq<byte>, size: nat)
    requires size <= |hdr| == 512
  {
    Crc32((hdr[..16] + Zeros(4) + hdr[20..])[..size]) == WordAt(hdr, 16)
  }

  function Product(a: nat, b: nat): nat { a * b }

  /** Where the 512 bytes after the first block say the entry array is. */
  function PlaceOf(hdr: seq<byte>, bs: nat): (r: Result<Header, Error>)
    requires |hdr| == 512
    ensures r.Ok? ==> 128 <= r.value.esize <= CHUNK && PowerOfTwo(r.value.esize)
    ensures r.Ok? ==> Product(r.value.count, r.value.esize) <= MAX_TABLE
  {
    var at := Product(Le64(hdr, 72), bs);
    var count := Le32(hdr, 80);
    var esize := Le32(hdr, 84);
    if at >= U64_LIMIT then Err(EntryLba)
    else if esize < 128 || !PowerOfTwo(esize) || esize > CHUNK then Err(EntrySize)
    else if Product(count, esize) > MAX_TABLE then Err(ArrayTooLarge)
    else Ok(Header(at, count, esize, WordAt(hdr, 88)))
  }

  function HeaderOf(hdr: seq<byte>, bs: nat): (r: Result<Header, Error>)
    requires |hdr| == 512
    ensures r.Ok? ==> 128 <= r.value.esize <= CHUNK && PowerOfTwo(r.value.esize)
    ensures r.Ok? ==> Product(r.value.count, r.value.esize) <= MAX_TABLE
  {
    var size := Le32(hdr, 12);
    if hdr[0..8] != SIGNATURE then Err(NoHeader)
    else if !(92 <= size <= 512) then Err(HeaderSize)
    else if !ChecksOut(hdr, size) then Err(HeaderCrc)
    else PlaceOf(hdr, bs)
  }

  /** The `count` entries of an array, numbered. */
  function Entries(raw: seq<byte>, count: nat, esize: nat): (es: seq<Numbered>)
    requires |raw| == count * esize
    ensures |es| == count
    ensures forall i :: 0 <= i < count ==> es[i].number == i + 1
  {
    seq(count, i requires 0 <= i < count =>
      InArray(i, count, esize); Numbered(i + 1, raw[i * esize..i * esize + esize]))
  }

  lemma InArray(i: nat, count: nat, esize: nat)
    requires i < count
    ensures i * esize + esize <= count * esize
  {
    MulOrder(i + 1, count, esize);
    MulPlus(i, 1, esize);
  }

  /** The array a header speaks of; an empty one is nowhere. */
  function ArrayOf(bytes: seq<byte>, h: Header): (raw: Option<seq<byte>>)
    ensures raw.Some? ==> |raw.value| == h.count * h.esize
  {
    var total := h.count * h.esize;
    if total == 0 then Some([])
    else if h.at + total > |bytes| then None
    else Some(bytes[h.at..h.at + total])
  }

  /** What a disk's bytes make of its GPT: the array's checksum is of the whole
      array. */
  function TableOf(bytes: seq<byte>, bs: nat): Result<seq<Numbered>, Error> {
    if bs + 512 > |bytes| then Err(Io)
    else
      var header := HeaderOf(bytes[bs..bs + 512], bs);
      if header.Err? then Err(header.error) else EntriesOf(bytes, header.value)
  }

  function EntriesOf(bytes: seq<byte>, h: Header): Result<seq<Numbered>, Error> {
    var raw := ArrayOf(bytes, h);
    if raw.None? then Err(Io)
    else if Crc32(raw.value) != h.crc then Err(ArrayCrc)
    else Ok(Entries(raw.value, h.count, h.esize))
  }

  /** Chunks are whole entries, so none straddles two. */
  lemma {:induction false} ChunkIsWholeEntries(n: nat, m: nat)
    requires PowerOfTwo(n) && PowerOfTwo(m) && n <= m
    ensures m % n == 0
  {
    if n > 1 {
      ChunkIsWholeEntries(n / 2, m / 2);
      var q := m / 2 / (n / 2);
      Floor(m / 2, n / 2);
      assert m == q * n;
      MulMod(q, n);
    }
  }

  lemma NoEntryStraddles(i: nat, esize: nat)
    requires PowerOfTwo(esize) && esize <= CHUNK
    ensures i * esize / CHUNK == (i * esize + esize - 1) / CHUNK
  {
    var per := WholeEntries(esize);
    Floor(i, per);
    InOneChunk(i, i / per, per, i % per, esize);
  }

  /** How many entries a chunk takes. */
  lemma WholeEntries(esize: nat) returns (per: nat)
    requires PowerOfTwo(esize) && esize <= CHUNK
    ensures per > 0 && per * esize == CHUNK
  {
    ChunkIsAPower();
    assert esize > 0;
    hide PowerOfTwo;
    ChunkIsWholeEntries(esize, CHUNK);
    per := CHUNK / esize;
    WholeQuotient(CHUNK, esize);
  }

  lemma WholeQuotient(a: nat, b: nat)
    requires a > 0 && b > 0 && a % b == 0
    ensures a / b > 0 && a / b * b == a
  {
    Floor(a, b);
  }

  lemma ChunkIsAPower()
    ensures PowerOfTwo(CHUNK)
  {
    assert PowerOfTwo(2) && PowerOfTwo(4) && PowerOfTwo(8) && PowerOfTwo(16);
    assert PowerOfTwo(32) && PowerOfTwo(64) && PowerOfTwo(128) && PowerOfTwo(256);
    assert PowerOfTwo(512) && PowerOfTwo(1024) && PowerOfTwo(2048);
  }

  lemma InOneChunk(i: nat, q: nat, per: nat, r: nat, esize: nat)
    requires esize > 0 && r < per && i == q * per + r && per * esize == CHUNK
    ensures i * esize / CHUNK == (i * esize + esize - 1) / CHUNK
  {
    InArray(r, per, esize);
    Regroup(q, per, r, esize);
    DivModUnique(i * esize, CHUNK, q, r * esize);
    DivModUnique(i * esize + esize - 1, CHUNK, q, r * esize + esize - 1);
  }

  lemma Regroup(q: nat, per: nat, r: nat, esize: nat)
    ensures (q * per + r) * esize == q * (per * esize) + r * esize
  {
    MulPlus(q * per, r, esize);
    assert q * per * esize == q * (per * esize);
  }

  lemma OneMoreEntry(raw: seq<byte>, k: nat, e: seq<byte>, esize: nat)
    requires |raw| == k * esize && |e| == esize
    ensures |raw + e| == (k + 1) * esize
    ensures Entries(raw + e, k + 1, esize) == Entries(raw, k, esize) + [Numbered(k + 1, e)]
  {
    MulPlus(k, 1, esize);
    var all := raw + e;
    assert |all| == (k + 1) * esize;
    forall i | 0 <= i < k
      ensures Entries(all, k + 1, esize)[i] == Entries(raw, k, esize)[i]
    {
      InArray(i, k, esize);
      InFront(raw, e, i * esize, esize);
    }
    assert all[k * esize..k * esize + esize] == e;
    assert Entries(all, k + 1, esize)[k] == Numbered(k + 1, e);
  }

  lemma InFront(raw: seq<byte>, e: seq<byte>, at: nat, n: nat)
    requires at + n <= |raw|
    ensures (raw + e)[at..at + n] == raw[at..at + n]
  {
  }

  /** Hand on the entries of one chunk, which come after those of `raw`. */
  method EachOf(chunk: seq<byte>, off: nat, esize: nat, seen: seq<Numbered>, ghost raw: seq<byte>, ghost k: nat,
                ghost j: nat)
    returns (more: seq<Numbered>)
    requires esize > 0 && |raw| == off == k * esize && |chunk| == j * esize && seen == Entries(raw, k, esize)
    ensures |raw + chunk| == (k + j) * esize && more == Entries(raw + chunk, k + j, esize)
  {
    more := seen;
    MulMod(j, esize);
    MulMod(k, esize);
    MulPlus(k, j, esize);
    assert raw + chunk[..0] == raw;
    for i := 0 to |chunk| / esize
      invariant i * esize <= |chunk| && |raw + chunk[..i * esize]| == (k + i) * esize
      invariant more == Entries(raw + chunk[..i * esize], k + i, esize)
    {
      InArray(i, j, esize);
      MulPlus(i, 1, esize);
      var e := chunk[i * esize..i * esize + esize];
      OneMoreEntry(raw + chunk[..i * esize], k + i, e, esize);
      assert raw + chunk[..i * esize] + e == raw + chunk[..i * esize + esize];
      more := more + [Numbered(off / esize + i + 1, e)];
    }
    assert chunk[..j * esize] == chunk;
  }

  /** How many entries the next chunk takes. */
  lemma NextChunk(count: nat, k: nat, esize: nat) returns (j: nat)
    requires PowerOfTwo(esize) && esize <= CHUNK && k * esize < count * esize
    ensures 0 < j <= count - k && j * esize == Min(count * esize - k * esize, CHUNK)
  {
    if k >= count {
      MulOrder(count, k, esize);
    }
    var per := WholeEntries(esize);
    hide PowerOfTwo;
    j := Min(count - k, per);
    MulMinus(count, k, esize);
    MulOrder(j, per, esize);
    MulOrder(j, count - k, esize);
  }

  method CheckHeader(hdr: array<byte>, bs: nat) returns (r: Result<Header, Error>)
    requires hdr.Length == 512
    ensures r == HeaderOf(hdr[..], bs)
  {
    hide Crc32, After, Le32, WordAt, PlaceOf, PowerOfTwo;
    var bytes := hdr[..];
    if bytes[0..8] != SIGNATURE {
      return Err(NoHeader);
    }
    var size := Le32(bytes, 12);
    if !(92 <= size <= 512) {
      return Err(HeaderSize);
    }
    var ok := CheckSum(bytes, size);
    if !ok {
      return Err(HeaderCrc);
    }
    return PlaceOf(bytes, bs);
  }

  method CheckSum(hdr: seq<byte>, size: nat) returns (ok: bool)
    requires size <= |hdr| == 512
    ensures ok == ChecksOut(hdr, size)
  {
    var zeroed := hdr[..16] + Zeros(4) + hdr[20..];
    var state := Update(0xFFFF_FFFF, zeroed[..size]);
    ok := !state == WordAt(hdr, 16);
  }

  /** What a failed read or the disk itself made of the table. */
  ghost predicate Judged(r: Result<(), Error>, seen: seq<Numbered>, due: Result<seq<Numbered>, Error>, faulty: bool) {
    && (r.Ok? ==> due == Ok(seen))
    && (!faulty && r.Err? ==> due == Err(r.error))
  }

  /** The table's entries in order, empty ones too. */
  method WalkGpt(disk: Disk, bs: nat) returns (r: Result<(), Error>, seen: seq<Numbered>)
    requires disk.Valid()
    modifies disk`bounce, disk`strays, disk.dev`faults
    ensures old(disk.dev.faults) <= disk.dev.faults
    ensures Judged(r, seen, TableOf(disk.dev.bytes, bs), disk.dev.faults > old(disk.dev.faults))
  {
    seen := [];
    var hdr := new byte[512];
    var ok := disk.Read(bs, hdr, 0, 512);
    if !ok {
      return Err(Io), [];
    }
    assert hdr[..] == hdr[0..512] == disk.dev.bytes[bs..bs + 512];
    var header := CheckHeader(hdr, bs);
    if header.Err? {
      return Err(header.error), [];
    }
    r, seen := WalkEntries(disk, header.value);
  }

  /** `raw`, the first `k` entries, has been read, summed and handed on. */
  ghost predicate SoFar(bytes: seq<byte>, h: Header, off: nat, raw: seq<byte>, k: nat, state: bv32,
                        seen: seq<Numbered>) {
    && |raw| == off == k * h.esize <= Product(h.count, h.esize)
    && (off > 0 ==> h.at + off <= |bytes| && raw == bytes[h.at..h.at + off])
    && state == After(0xFFFF_FFFF, raw) && seen == Entries(raw, k, h.esize)
  }

  method WalkEntries(disk: Disk, h: Header) returns (r: Result<(), Error>, seen: seq<Numbered>)
    requires disk.Valid() && 128 <= h.esize <= CHUNK && PowerOfTwo(h.esize)
    modifies disk`bounce, disk`strays, disk.dev`faults
    ensures old(disk.dev.faults) <= disk.dev.faults
    ensures Judged(r, seen, EntriesOf(disk.dev.bytes, h), disk.dev.faults > old(disk.dev.faults))
  {
    var total := h.count * h.esize;
    var chunk := new byte[CHUNK];
    var ok := true;
    var state: bv32 := 0xFFFF_FFFF;
    var off := 0;
    ghost var raw, k, faults := [], 0, disk.dev.faults;
    seen := [];
    assert SoFar(disk.dev.bytes, h, off, raw, k, state, seen);
    hide SoFar, Product, EntriesOf, After, Entries, Crc32;
    while ok && off < total
      invariant faults <= disk.dev.faults && total == Product(h.count, h.esize)
      invariant ok ==> SoFar(disk.dev.bytes, h, off, raw, k, state, seen)
      invariant !ok && disk.dev.faults == faults ==> EntriesOf(disk.dev.bytes, h) == Err(Io)
      decreases ok, total - off
    {
      ok, off, state, seen, raw, k := OneChunk(disk, h, total, off, chunk, state, seen, raw, k);
    }
    if ok {
      AllRead(disk.dev.bytes, h, off, raw, k, state, seen);
      r := if !state != h.crc then Err(ArrayCrc) else Ok(());
    } else {
      r := Err(Io);
    }
  }

  method OneChunk(disk: Disk, h: Header, total: nat, off: nat, chunk: array<byte>, state: bv32, seen: seq<Numbered>,
                  ghost raw: seq<byte>, ghost k: nat)
    returns (ok: bool, end: nat, next: bv32, more: seq<Numbered>, ghost all: seq<byte>, ghost m: nat)
    requires disk.Valid() && 128 <= h.esize <= CHUNK && PowerOfTwo(h.esize) && chunk.Length == CHUNK
    requires SoFar(disk.dev.bytes, h, off, raw, k, state, seen) && off < total == Product(h.count, h.esize)
    modifies disk`bounce, disk`strays, disk.dev`faults, chunk
    ensures old(disk.dev.faults) <= disk.dev.faults && off < end
    ensures ok ==> SoFar(disk.dev.bytes, h, end, all, m, next, more)
    ensures !ok && disk.dev.faults == old(disk.dev.faults) ==> EntriesOf(disk.dev.bytes, h) == Err(Io)
  {
    hide SoFar, EntriesOf, PowerOfTwo, Product;
    var n := Min(total - off, CHUNK);
    ghost var bytes := disk.dev.bytes;
    ok := ReadChunk(disk, h.at + off, chunk, n);
    end, next, more, all, m := off + n, state, seen, raw, k;
    if ok {
      next, more, all, m := TakeChunk(bytes, h, off, chunk[..n], state, seen, raw, k);
    } else if disk.dev.faults == old(disk.dev.faults) {
      PastTheEnd(bytes, h, off, n);
    }
  }

  method TakeChunk(ghost bytes: seq<byte>, h: Header, off: nat, piece: seq<byte>, state: bv32, seen: seq<Numbered>,
                   ghost raw: seq<byte>, ghost k: nat)
    returns (next: bv32, more: seq<Numbered>, ghost all: seq<byte>, ghost m: nat)
    requires SoFar(bytes, h, off, raw, k, state, seen) && off < Product(h.count, h.esize)
    requires 128 <= h.esize <= CHUNK && PowerOfTwo(h.esize)
    requires |piece| == Min(Product(h.count, h.esize) - off, CHUNK)
    requires h.at + off + |piece| <= |bytes| && piece == bytes[h.at + off..h.at + off + |piece|]
    ensures SoFar(bytes, h, off + |piece|, all, m, next, more)
  {
    hide After, Entries, PowerOfTwo;
    ghost var j := NextChunk(h.count, k, h.esize);
    AfterInTwo(0xFFFF_FFFF, raw, piece);
    next := Update(state, piece);
    more := EachOf(piece, off, h.esize, seen, raw, k, j);
    all, m := raw + piece, k + j;
  }

  lemma PastTheEnd(bytes: seq<byte>, h: Header, off: nat, n: nat)
    requires 0 < n && off + n <= Product(h.count, h.esize) && h.at + off + n > |bytes|
    ensures EntriesOf(bytes, h) == Err(Io)
  {
  }

  lemma AllRead(bytes: seq<byte>, h: Header, off: nat, raw: seq<byte>, k: nat, state: bv32, seen: seq<Numbered>)
    requires SoFar(bytes, h, off, raw, k, state, seen) && off >= Product(h.count, h.esize) && h.esize > 0
    ensures EntriesOf(bytes, h) == if !state != h.crc then Err(ArrayCrc) else Ok(seen)
  {
    hide After, Entries;
    MulMod(k, h.esize);
    MulMod(h.count, h.esize);
    assert k == h.count;
    assert ArrayOf(bytes, h) == Some(raw);
  }

  method ReadChunk(disk: Disk, at: nat, chunk: array<byte>, n: nat) returns (ok: bool)
    requires disk.Valid() && n <= chunk.Length
    modifies disk`bounce, disk`strays, disk.dev`faults, chunk
    ensures old(disk.dev.faults) <= disk.dev.faults
    ensures ok ==> at + n <= |disk.dev.bytes| && chunk[..n] == disk.dev.bytes[at..at + n]
    ensures disk.dev.faults == old(disk.dev.faults) && at + n <= |disk.dev.bytes| ==> ok
  {
    ok := disk.Read(at, chunk, 0, n);
    assert ok ==> chunk[..][0..0 + n] == chunk[..n];
  }

  // ------------------------------------------------------- what is listed

  const ESP_TYPE: seq<byte> := [0x28, 0x73, 0x2A, 0xC1, 0x1F, 0xF8, 0xD2, 0x11,
                                0xBA, 0x4B, 0x00, 0xA0, 0xC9, 0x3E, 0xC9, 0x3B]

  datatype Partition = Partition(number: nat, first: nat, last: nat, guid: seq<byte>)

  datatype GptEntry = GptEntry(partition: Partition, kind: seq<byte>, name: seq<nat>)
  {
    predicate IsEsp() { kind == ESP_TYPE }
  }

  predicate Whole(es: seq<Numbered>) {
    forall i :: 0 <= i < |es| ==> |es[i].e| >= 128
  }

  function PartitionOf(n: Numbered): Partition
    requires |n.e| >= 128
  {
    Partition(n.number, Le64(n.e, 32), Le64(n.e, 40), n.e[16..32])
  }

  /** The name's units up to its terminator. */
  function UnitsFrom(e: seq<byte>, i: nat): seq<nat>
    requires |e| >= 128 && i <= 36
    decreases 36 - i
  {
    if i == 36 || Le16(e, 56 + 2 * i) == 0 then [] else [Le16(e, 56 + 2 * i)] + UnitsFrom(e, i + 1)
  }

  function GptEntryOf(n: Numbered): GptEntry
    requires |n.e| >= 128
  {
    GptEntry(PartitionOf(n), n.e[0..16], UnitsFrom(n.e, 0))
  }

  predicate InUse(n: Numbered)
    requires |n.e| >= 128
  {
    n.e[0..16] != Zeros(16)
  }

  /** The used entries, in table order. */
  function Used(es: seq<Numbered>): (us: seq<GptEntry>)
    requires Whole(es)
    ensures |us| <= |es|
  {
    if es == [] then []
    else
      var n := es[|es| - 1];
      Used(es[..|es| - 1]) + if InUse(n) then [GptEntryOf(n)] else []
  }

  /** The first of a list that is an ESP. */
  function FirstEsp(us: seq<GptEntry>): (p: Option<Partition>)
    ensures p.Some? ==> exists i :: 0 <= i < |us| && us[i].IsEsp() && us[i].partition == p.value
                                    && forall j :: 0 <= j < i ==> !us[j].IsEsp()
    ensures p.None? ==> forall i :: 0 <= i < |us| ==> !us[i].IsEsp()
  {
    if us == [] then None
    else if us[0].IsEsp() then Some(us[0].partition)
    else
      var p := FirstEsp(us[1..]);
      assert forall j :: 1 <= j < |us| ==> us[j] == us[1..][j - 1];
      p
  }

  lemma TableIsWhole(bytes: seq<byte>, bs: nat)
    requires TableOf(bytes, bs).Ok?
    ensures var es := TableOf(bytes, bs).value;
            Whole(es) && forall i :: 0 <= i < |es| ==> es[i].number == i + 1
  {
    hide Crc32, HeaderOf;
    var h := HeaderOf(bytes[bs..bs + 512], bs).value;
    var raw := ArrayOf(bytes, h).value;
    forall i | 0 <= i < h.count
      ensures |Entries(raw, h.count, h.esize)[i].e| >= 128
    {
      InArray(i, h.count, h.esize);
    }
  }

  lemma {:induction false} FirstEspOfMore(us: seq<GptEntry>, u: GptEntry)
    ensures FirstEsp(us + [u])
            == if FirstEsp(us).Some? then FirstEsp(us) else if u.IsEsp() then Some(u.partition) else None
  {
    if us != [] {
      assert (us + [u])[1..] == us[1..] + [u];
      FirstEspOfMore(us[1..], u);
    } else {
      assert (us + [u])[1..] == [];
    }
  }

  /** The ESP a disk has: the first that `partitions` lists, if it is anywhere. */
  function EspOf(es: seq<Numbered>): Result<Partition, Error>
    requires Whole(es)
  {
    var p := FirstEsp(Used(es));
    if p.None? then Err(NoEsp)
    else if p.value.first == 0 || p.value.last < p.value.first then Err(EmptyRange)
    else Ok(p.value)
  }

  /** What a disk's bytes say its ESP is. */
  ghost function EspDue(bytes: seq<byte>, bs: nat): Result<Partition, Error> {
    var table := TableOf(bytes, bs);
    if table.Err? then Err(table.error) else TableIsWhole(bytes, bs); EspOf(table.value)
  }

  method FindEsp(disk: Disk, bs: nat) returns (r: Result<Partition, Error>)
    requires disk.Valid()
    modifies disk`bounce, disk`strays, disk.dev`faults
    ensures old(disk.dev.faults) <= disk.dev.faults
    ensures r.Ok? || disk.dev.faults == old(disk.dev.faults) ==> r == EspDue(disk.dev.bytes, bs)
  {
    ghost var bytes := disk.dev.bytes;
    var walked, seen := WalkGpt(disk, bs);
    if walked.Err? {
      return Err(walked.error);
    }
    TableIsWhole(bytes, bs);
    hide TableOf, GptEntryOf, InUse;
    var found := None;
    for i := 0 to |seen|
      invariant old(disk.dev.faults) <= disk.dev.faults
      invariant found == FirstEsp(Used(seen[..i]))
    {
      FirstEspStep(seen, i);
      if found.None? && seen[i].e[0..16] == ESP_TYPE {
        found := Some(PartitionOf(seen[i]));
      }
    }
    assert seen[..|seen|] == seen;
    if found.None? {
      return Err(NoEsp);
    }
    if found.value.first == 0 || found.value.last < found.value.first {
      return Err(EmptyRange);
    }
    return Ok(found.value);
  }

  lemma FirstEspStep(seen: seq<Numbered>, i: nat)
    requires Whole(seen) && i < |seen|
    ensures Whole(seen[..i]) && Whole(seen[..i + 1])
    ensures FirstEsp(Used(seen[..i + 1]))
         == if FirstEsp(Used(seen[..i])).Some? then FirstEsp(Used(seen[..i]))
            else if seen[i].e[0..16] == ESP_TYPE then Some(PartitionOf(seen[i])) else None
  {
    assert seen[..i + 1][..i] == seen[..i];
    FirstEspOfMore(Used(seen[..i]), GptEntryOf(seen[i]));
    EspIsInUse(seen[i]);
    hide FirstEsp, UnitsFrom, InUse, ESP_TYPE;
    assert Used(seen[..i + 1]) == Used(seen[..i]) + if InUse(seen[i]) then [GptEntryOf(seen[i])] else [];
    assert Used(seen[..i]) + [] == Used(seen[..i]);
  }

  lemma EspIsInUse(n: Numbered)
    requires |n.e| >= 128
    ensures n.e[0..16] == ESP_TYPE ==> InUse(n)
  {
    assert ESP_TYPE[0] != Zeros(16)[0];
  }

  /** What `partitions` leaves in a caller's slots. */
  ghost predicate Listing(now: seq<GptEntry>, before: seq<GptEntry>, us: seq<GptEntry>) {
    var n := Min(|us|, |now|);
    |now| == |before| && now[..n] == us[..n] && now[n..] == before[n..]
  }

  /** A used entry goes into the next slot, if there is one; it counts anyway. */
  method Keep(out: array<GptEntry>, n: nat, e: Numbered, ghost before: seq<GptEntry>, ghost es: seq<Numbered>)
    returns (m: nat)
    requires |e.e| >= 128 && Whole(es) && n == |Used(es)| && Listing(out[..], before, Used(es))
    modifies out
    ensures Whole(es + [e]) && m == |Used(es + [e])| && Listing(out[..], before, Used(es + [e]))
  {
    hide GptEntryOf, InUse;
    assert (es + [e])[..|es|] == es;
    ghost var us := Used(es);
    m := n;
    if InUse(e) {
      ghost var more := us + [GptEntryOf(e)];
      if n < out.Length {
        out[n] := GptEntryOf(e);
        assert out[..n] == us && out[n + 1..] == before[n + 1..];
        assert out[..n + 1] == more;
      } else {
        assert more[..out.Length] == us[..out.Length];
      }
      m := n + 1;
      hide Used;
    } else {
      assert us + [] == us;
    }
  }

  /** The used entries into `out`, as many as it holds; how many there are. */
  method Partitions(disk: Disk, bs: nat, out: array<GptEntry>) returns (r: Result<nat, Error>)
    requires disk.Valid()
    modifies disk`bounce, disk`strays, disk.dev`faults, out
    ensures old(disk.dev.faults) <= disk.dev.faults
    ensures r.Ok? ==>
              && TableOf(disk.dev.bytes, bs).Ok? && Whole(TableOf(disk.dev.bytes, bs).value)
              && var us := Used(TableOf(disk.dev.bytes, bs).value);
                 r.value == |us| && Listing(out[..], old(out[..]), us)
    ensures r.Err? && disk.dev.faults == old(disk.dev.faults) ==> TableOf(disk.dev.bytes, bs) == Err(r.error)
  {
    var walked, seen := WalkGpt(disk, bs);
    if walked.Err? {
      return Err(walked.error);
    }
    TableIsWhole(disk.dev.bytes, bs);
    hide TableOf, Used, Listing, EspOf;
    var n := KeepAll(out, seen);
    return Ok(n);
  }

  method KeepAll(out: array<GptEntry>, seen: seq<Numbered>) returns (n: nat)
    requires Whole(seen)
    modifies out
    ensures n == |Used(seen)| && Listing(out[..], old(out[..]), Used(seen))
  {
    ghost var before := out[..];
    n := 0;
    assert Used([]) == [] && Listing(before, before, []);
    hide Listing, Used;
    for i := 0 to |seen|
      invariant Whole(seen[..i]) && n == |Used(seen[..i])| && Listing(out[..], before, Used(seen[..i]))
    {
      assert seen[..i + 1] == seen[..i] + [seen[i]];
      n := Keep(out, n, seen[i], before, seen[..i]);
    }
    assert seen[..|seen|] == seen;
  }

  /** Damage to the entry array within four bytes in a row is always noticed. */
  lemma DamageIsNoticed(a: seq<byte>, b: seq<byte>, bs: nat, i: nat)
    requires TableOf(a, bs).Ok? && |a| == |b| && a[bs..bs + 512] == b[bs..bs + 512]
    requires var h := HeaderOf(a[bs..bs + 512], bs).value; h.at <= i && i + 4 <= h.at + h.count * h.esize
    requires i + 4 <= |a| && a[..i] == b[..i] && a[i + 4..] == b[i + 4..]
    ensures TableOf(b, bs) == if a == b then TableOf(a, bs) else Err(ArrayCrc)
  {
    hide Crc32, HeaderOf, Entries;
    var h := HeaderOf(a[bs..bs + 512], bs).value;
    var total := h.count * h.esize;
    var x, y := a[h.at..h.at + total], b[h.at..h.at + total];
    assert ArrayOf(a, h) == Some(x) && ArrayOf(b, h) == Some(y);
    SameAround(a, b, i, h.at, total);
    ChangeIsCaught(x, y, i - h.at);
  }

  lemma SameAround(a: seq<byte>, b: seq<byte>, i: nat, at: nat, n: nat)
    requires |a| == |b| && at <= i && i + 4 <= at + n <= |a| && a[..i] == b[..i] && a[i + 4..] == b[i + 4..]
    ensures var x, y := a[at..at + n], b[at..at + n];
            && x[..i - at] == y[..i - at] && x[i - at + 4..] == y[i - at + 4..] && (x == y <==> a == b)
  {
    var j := i + 4;
    SliceOfSlice(a, at, n, 0, i - at);
    SliceOfSlice(b, at, n, 0, i - at);
    SliceOfSlice(a, at, n, j - at, n);
    SliceOfSlice(b, at, n, j - at, n);
    SliceOfSlice(a, at, n, i - at, j - at);
    SliceOfSlice(b, at, n, i - at, j - at);
    SliceOfSlice(a, 0, i, at, i);
    SliceOfSlice(b, 0, i, at, i);
    SliceOfSlice(a, j, |a| - j, 0, at + n - j);
    SliceOfSlice(b, j, |a| - j, 0, at + n - j);
    if a[at..at + n] == b[at..at + n] {
      assert a[i..j] == b[i..j];
      InParts(a, i, j);
      InParts(b, i, j);
    }
  }

  lemma SliceOfSlice(a: seq<byte>, at: nat, n: nat, p: nat, q: nat)
    requires at + n <= |a| && p <= q <= n
    ensures a[at..at + n][p..q] == a[at + p..at + q]
    ensures at + n == |a| ==> a[at..] == a[at..at + n]
    ensures at == 0 ==> a[..n] == a[at..at + n]
    ensures q == n ==> a[at..at + n][p..] == a[at + p..at + q]
    ensures p == 0 ==> a[at..at + n][..q] == a[at + p..at + q]
  {
    var x, y := a[at..at + n][p..q], a[at + p..at + q];
    forall i | 0 <= i < q - p
      ensures x[i] == y[i]
    {
    }
    assert x == y;
  }

  lemma InParts(a: seq<byte>, i: nat, j: nat)
    requires i <= j <= |a|
    ensures a == a[..i] + a[i..j] + a[j..]
  {
  }
}
