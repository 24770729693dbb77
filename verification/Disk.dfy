/** Any byte range of a block device (`NsDisk` in `src/blockio.rs`, `RawDisk`
    in `src/espfs.rs`): whole blocks are read to
    where they are wanted, anything else through a bounce buffer. */
module Disks {
  import opened Bytes
  import opened Arith

  /** The device under the adapter: whole blocks, or an error. */
  class Device {
    const bytes: seq<byte>
    const block: nat
    ghost var faults: nat

    ghost predicate Valid() {
      block > 0 && |bytes| % block == 0
    }

    constructor (bytes: seq<byte>, block: nat)
      requires block > 0 && |bytes| % block == 0
      ensures Valid() && this.bytes == bytes && this.block == block && faults == 0
    {
      this.bytes, this.block, faults := bytes, block, 0;
    }

    /** `data` is what the buffer then holds: the blocks, or, after an error,
        anything. */
    method ReadBlocks(lba: nat, n: nat) returns (ok: bool, data: seq<byte>)
      requires Valid() && n % block == 0
      modifies this`faults
      ensures |data| == n
      ensures ok ==> lba * block + n <= |bytes| && data == bytes[lba * block..lba * block + n]
      ensures old(faults) <= faults
      ensures faults == old(faults) && lba * block + n <= |bytes| ==> ok
    {
      var refused: bool := *;
      if lba * block + n > |bytes| || refused {
        data := seq(n, i requires 0 <= i < n => Garbage(i));
        faults := faults + 1;
        return false, data;
      }
      return true, bytes[lba * block..lba * block + n];
    }
  }

  function Garbage(i: nat): byte {
    (i % 256) as byte
  }

  /** `esp::Disk`: which of the two adapters it is does not show. */
  class Disk {
    const dev: Device
    const raw: bool
    var bounce: seq<byte>
    /** The part of the disk the reader was given, and how many of its reads
        have strayed outside it. */
    ghost const lo: nat
    ghost const hi: nat
    ghost var strays: nat

    ghost predicate Valid() {
      dev.Valid()
    }

    constructor (dev: Device, raw: bool, ghost lo: nat, ghost hi: nat)
      requires dev.Valid()
      ensures Valid() && this.dev == dev && this.raw == raw && this.lo == lo && this.hi == hi && strays == 0
    {
      this.dev, this.raw, this.lo, this.hi := dev, raw, lo, hi;
      bounce, strays := [], 0;
    }

    /** `out[at..at + n]` becomes the `n` bytes at `offset`. */
    method Read(offset: nat, out: array<byte>, at: nat, n: nat) returns (ok: bool)
      requires Valid() && at + n <= out.Length
      modifies this`bounce, this`strays, dev`faults, out
      ensures Landed(ok, offset, n, out[..], old(out[..]), at)
      ensures old(dev.faults) <= dev.faults
      ensures dev.faults == old(dev.faults) && offset + n <= |dev.bytes| ==> ok
      ensures strays == old(strays) + if lo <= offset && offset + n <= hi then 0 else 1
    {
      strays := strays + if lo <= offset && offset + n <= hi then 0 else 1;
      if raw {
        ok := ReadRaw(offset, out, at, n);
      } else {
        ok := ReadNs(offset, out, at, n);
      }
    }

    /** `NsDisk::read`: the bounce buffer stays in its place. */
    method ReadNs(offset: nat, out: array<byte>, at: nat, n: nat) returns (ok: bool)
      requires Valid() && at + n <= out.Length
      modifies this`bounce, dev`faults, out
      ensures Landed(ok, offset, n, out[..], old(out[..]), at)
      ensures old(dev.faults) <= dev.faults
      ensures dev.faults == old(dev.faults) && offset + n <= |dev.bytes| ==> ok
    {
      if offset % dev.block == 0 && n % dev.block == 0 {
        ok := ReadAligned(offset, out, at, n);
        return;
      }
      var first, size, from := Span(offset, n);
      ok, bounce := dev.ReadBlocks(first, size);
      if !ok {
        return false;
      }
      Fill(out, at, bounce[from..from + n]);
      PieceOf(dev.bytes, first * dev.block, size, from, n);
    }

    /** `RawDisk::read`: the bounce buffer is taken out and put back. */
    method ReadRaw(offset: nat, out: array<byte>, at: nat, n: nat) returns (ok: bool)
      requires Valid() && at + n <= out.Length
      modifies this`bounce, dev`faults, out
      ensures Landed(ok, offset, n, out[..], old(out[..]), at)
      ensures old(dev.faults) <= dev.faults
      ensures dev.faults == old(dev.faults) && offset + n <= |dev.bytes| ==> ok
    {
      if offset % dev.block == 0 && n % dev.block == 0 {
        ok := ReadAligned(offset, out, at, n);
        return;
      }
      var first, size, from := Span(offset, n);
      bounce := [];
      var taken;
      ok, taken := dev.ReadBlocks(first, size);
      if ok {
        Fill(out, at, taken[from..from + n]);
        PieceOf(dev.bytes, first * dev.block, size, from, n);
      }
      bounce := taken;
    }

    /** Blocks read to where they are wanted, without the bounce buffer. */
    method ReadAligned(offset: nat, out: array<byte>, at: nat, n: nat) returns (ok: bool)
      requires Valid() && at + n <= out.Length && offset % dev.block == 0 && n % dev.block == 0
      modifies dev`faults, out
      ensures Landed(ok, offset, n, out[..], old(out[..]), at)
      ensures old(dev.faults) <= dev.faults
      ensures dev.faults == old(dev.faults) && offset + n <= |dev.bytes| ==> ok
    {
      Floor(offset, dev.block);
      var data;
      ok, data := dev.ReadBlocks(offset / dev.block, n);
      Fill(out, at, data);
    }

    /** The whole blocks a range is in: the first, their size in bytes, and
        where in them it starts. */
    method Span(offset: nat, n: nat) returns (first: nat, size: nat, from: nat)
      requires Valid()
      ensures size % dev.block == 0 && from + n <= size
      ensures first * dev.block + from == offset
      ensures offset + n <= |dev.bytes| ==> first * dev.block + size <= |dev.bytes|
    {
      Cover(offset, n, dev.block, |dev.bytes|);
      first := offset / dev.block;
      size := (DivCeil(offset + n, dev.block) - first) * dev.block;
      from := offset - first * dev.block;
    }

    /** The outcome of a read into `[at..at + n]`: the disk's bytes there when
        it worked, anything when not, and nothing changed around them. */
    ghost predicate Landed(ok: bool, offset: nat, n: nat, now: seq<byte>, before: seq<byte>, at: nat)
      requires at + n <= |before|
    {
      && |now| == |before| && now[..at] == before[..at] && now[at + n..] == before[at + n..]
      && (ok ==> offset + n <= |dev.bytes| && now[at..at + n] == dev.bytes[offset..offset + n])
    }
  }

  lemma PieceOf(bytes: seq<byte>, start: nat, size: nat, from: nat, n: nat)
    requires start + size <= |bytes| && from + n <= size
    ensures bytes[start..start + size][from..from + n] == bytes[start + from..start + from + n]
  {
    var x, y := bytes[start..start + size][from..from + n], bytes[start + from..start + from + n];
    forall i | 0 <= i < n
      ensures x[i] == y[i]
    {
    }
    assert x == y;
  }

  /** `out[at..]` takes `data`. */
  method Fill(out: array<byte>, at: nat, data: seq<byte>)
    requires at + |data| <= out.Length
    modifies out
    ensures out[at..at + |data|] == data
    ensures out[..at] == old(out[..at]) && out[at + |data|..] == old(out[at + |data|..])
  {
    forall i | 0 <= i < |data| {
      out[at + i] := data[i];
    }
  }

  /** The blocks from the one `offset` is in to the one the range ends in hold
      the range, and are on the device if the range is. */
  lemma Cover(offset: nat, n: nat, bs: nat, total: nat)
    requires bs > 0 && total % bs == 0
    ensures var first, end := offset / bs, DivCeil(offset + n, bs);
            && first <= end
            && first * bs <= offset && offset + n <= first * bs + (end - first) * bs
            && (end - first) * bs % bs == 0
            && (offset + n <= total ==> first * bs + (end - first) * bs <= total)
  {
    var first, end := offset / bs, DivCeil(offset + n, bs);
    Floor(offset, bs);
    Floor(offset + n + bs - 1, bs);
    Floor(total, bs);
    if end < first {
      MulOrder(end + 1, first, bs);
      MulPlus(end, 1, bs);
    }
    MulMinus(end, first, bs);
    MulMod(end - first, bs);
    if offset + n <= total {
      if end > total / bs {
        MulOrder(total / bs + 1, end, bs);
        MulPlus(total / bs, 1, bs);
      }
      MulOrder(end, total / bs, bs);
    }
  }
}
