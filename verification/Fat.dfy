/** The FAT reader (`Fat` in `src/esp.rs`): two one-sector caches, chains
    followed with a hint, runs of clusters read at once. */
module Fats {
  import opened Bytes
  import opened Arith
  import opened Disks
  import opened FatLayout
  import opened FatChain

  /** A sector read before, and where it was read from. */
  class Cache {
    var at: Option<nat>
    const buf: array<byte>

    ghost predicate Holds(img: seq<byte>, sector: nat)
      reads this, buf
    {
      && buf.Length == 4096 && 0 < sector <= 4096
      && (at.Some? ==> at.value + sector <= |img| && buf[..sector] == img[at.value..at.value + sector])
    }

    lemma HasSectors(img: seq<byte>, sector: nat)
      requires Holds(img, sector)
      ensures 0 < sector <= 4096
    {
    }

    constructor ()
      ensures at == None && buf.Length == 4096 && fresh(buf)
    {
      at := None;
      buf := new byte[4096](_ => 0);
    }
  }

  /** What the disk shows of a volume's `img`: all of it, or the front of it
      when the partition runs past the end of the disk. */
  ghost predicate Shows(disk: Disk, img: seq<byte>) {
    disk.dev.bytes <= img
  }

  function FloorTo(a: nat, sector: nat): int
    requires sector > 0
  {
    a / sector * sector
  }

  lemma SectorInside(a: nat, end: nat, sector: nat)
    requires sector > 0 && a < end && end % sector == 0
    ensures 0 <= FloorTo(a, sector) <= a < FloorTo(a, sector) + sector <= end
  {
    Floor(a, sector);
    Floor(end, sector);
    if a / sector >= end / sector {
      MulOrder(end / sector, a / sector, sector);
    }
    MulOrder(a / sector + 1, end / sector, sector);
    MulPlus(a / sector, 1, sector);
  }

  /** Where the sector that `off` is in starts. */
  function SectorOf(base: nat, sector: nat, off: nat): nat
    requires sector > 0 && base <= off
  {
    Floor(off - base, sector);
    base + FloorTo(off - base, sector)
  }

  /** `out` becomes the bytes at `off`, sector by sector through a cache, which
      holds nothing after a failure. */
  method Cached(disk: Disk, cache: Cache, base: nat, sector: nat, off: nat, out: array<byte>,
                ghost img: seq<byte>, ghost end: nat)
    returns (ok: bool)
    requires disk.Valid() && Shows(disk, img) && cache.Holds(img, sector) && cache.buf != out
    requires base <= off && off + out.Length <= end <= |img| && (end - base) % sector == 0
    requires disk.lo <= base && end <= disk.hi
    modifies disk`bounce, disk`strays, disk.dev`faults, cache`at, cache.buf, out
    ensures cache.Holds(img, sector) && disk.strays == old(disk.strays)
    ensures ok ==> out[..] == img[off..off + out.Length]
    ensures old(disk.dev.faults) <= disk.dev.faults
    ensures disk.dev.faults == old(disk.dev.faults) && end <= |disk.dev.bytes| ==> ok
  {
    hide SectorOf, Shows, Cache.Holds, Disk.Valid, Device.Valid;
    cache.HasSectors(img, sector);
    var done := 0;
    ok := true;
    while ok && done < out.Length
      invariant done <= out.Length
      invariant cache.Holds(img, sector) && disk.strays == old(disk.strays)
      invariant ok ==> out[..done] == img[off..off + done]
      invariant old(disk.dev.faults) <= disk.dev.faults
      invariant disk.dev.faults == old(disk.dev.faults) && end <= |disk.dev.bytes| ==> ok
      decreases ok, out.Length - done
    {
      ghost var before := out[..done];
      var n;
      var at := SectorOf(base, sector, off + done);
      SectorBounds(base, sector, off + done, end);
      ok, n := FromSector(disk, cache, sector, at, off + done, out, done, img);
      if ok {
        assert img[off..off + done] + img[off + done..off + done + n] == img[off..off + done + n];
        done := done + n;
      }
    }
    assert ok ==> out[..out.Length] == out[..];
  }

  lemma SectorBounds(base: nat, sector: nat, off: nat, end: nat)
    requires sector > 0 && base <= off < end && (end - base) % sector == 0
    ensures base <= SectorOf(base, sector, off) <= off < SectorOf(base, sector, off) + sector <= end
  {
    hide FloorTo;
    SectorInside(off - base, end - base, sector);
  }

  /** What one sector has of it. */
  method FromSector(disk: Disk, cache: Cache, sector: nat, at: nat, here: nat, out: array<byte>, done: nat,
                    ghost img: seq<byte>)
    returns (ok: bool, n: nat)
    requires disk.Valid() && Shows(disk, img) && cache.Holds(img, sector) && cache.buf != out
    requires done < out.Length && here + (out.Length - done) <= |img|
    requires disk.lo <= at <= here < at + sector <= |img| && at + sector <= disk.hi
    modifies disk`bounce, disk`strays, disk.dev`faults, cache`at, cache.buf, out
    ensures cache.Holds(img, sector) && disk.strays == old(disk.strays)
    ensures ok ==> 0 < n && done + n <= out.Length && out[..done + n] == old(out[..done]) + img[here..here + n]
    ensures old(disk.dev.faults) <= disk.dev.faults
    ensures disk.dev.faults == old(disk.dev.faults) && at + sector <= |disk.dev.bytes| ==> ok
  {
    hide Shows, Cache.Holds;
    cache.HasSectors(img, sector);
    ok := Load(disk, cache, sector, at, img);
    n := Min(at + sector - here, out.Length - done);
    if ok {
      PartHeld(cache, img, sector, at, here - at, n);
      CopyOut(cache, here - at, out, done, n);
    }
  }

  lemma PartHeld(cache: Cache, img: seq<byte>, sector: nat, at: nat, from: nat, n: nat)
    requires cache.Holds(img, sector) && cache.at == Some(at) && from + n <= sector
    ensures from + n <= cache.buf.Length && at + from + n <= |img|
    ensures cache.buf[from..from + n] == img[at + from..at + from + n]
  {
    Sliced(img, at, sector, from, n);
    Sliced(cache.buf[..], 0, sector, from, n);
    assert cache.buf[..][0..sector] == cache.buf[..sector];
    assert cache.buf[..][from..from + n] == cache.buf[from..from + n];
  }

  lemma Sliced(s: seq<byte>, at: nat, length: nat, from: nat, n: nat)
    requires at + length <= |s| && from + n <= length
    ensures s[at..at + length][from..from + n] == s[at + from..at + from + n]
  {
    var a, b := s[at..at + length][from..from + n], s[at + from..at + from + n];
    forall i | 0 <= i < n
      ensures a[i] == b[i]
    {
    }
    assert a == b;
  }

  method CopyOut(cache: Cache, from: nat, out: array<byte>, at: nat, n: nat)
    requires from + n <= cache.buf.Length && at + n <= out.Length && cache.buf != out
    modifies out
    ensures out[..at + n] == old(out[..at]) + cache.buf[from..from + n]
  {
    forall i | 0 <= i < n {
      out[at + i] := cache.buf[from + i];
    }
  }

  /** Have the sector at `at` in the cache. */
  method Load(disk: Disk, cache: Cache, sector: nat, at: nat, ghost img: seq<byte>) returns (ok: bool)
    requires disk.Valid() && Shows(disk, img) && cache.Holds(img, sector)
    requires at + sector <= |img| && disk.lo <= at && at + sector <= disk.hi
    modifies disk`bounce, disk`strays, disk.dev`faults, cache`at, cache.buf
    ensures cache.Holds(img, sector) && disk.strays == old(disk.strays)
    ensures ok ==> cache.at == Some(at)
    ensures old(disk.dev.faults) <= disk.dev.faults
    ensures disk.dev.faults == old(disk.dev.faults) && at + sector <= |disk.dev.bytes| ==> ok
  {
    if cache.at == Some(at) {
      return true;
    }
    cache.at := None;
    ok := disk.Read(at, cache.buf, 0, sector);
    if ok {
      assert cache.buf[..sector] == cache.buf[0..sector];
      cache.at := Some(at);
    }
  }

  /** A file or directory, as its directory entry gives it. */
  datatype Entry = Entry(firstCluster: nat, size: nat, dir: bool)

  /** A cluster of a file's chain and its index there; cluster 0 stands for no
      such knowledge. */
  datatype Hint = Hint(index: nat, cluster: nat)

  const NO_HINT := Hint(0, 0)

  /** The hint names a true cluster of the file's chain. */
  ghost predicate HintTrue(l: Layout, img: seq<byte>, file: Entry, hint: Hint)
    requires OnDisk(l, img)
  {
    hint.cluster != 0 ==>
      var cs := Clusters(l, img, file.firstCluster, hint.index);
      cs.Some? && cs.value[hint.index] == hint.cluster
  }

  /** A place in a chain: the `idx`th cluster, and the steps taken to it. */
  datatype Place = Place(idx: nat, c: nat, steps: nat)

  /** Where a run ends, how much it gives, and the cluster, or the place, after it
      if that was not enough. */
  datatype RunEnd = RunEnd(q: Place, n: nat, next: Option<nat>)
  datatype WholeEnd = WholeEnd(q: Place, n: nat, next: Option<Place>)

  /** The contents of a chain's clusters up to the `idx`th. */
  ghost function Upto(l: Layout, img: seq<byte>, first: nat, idx: nat): seq<byte>
    requires OnDisk(l, img)
  {
    var cs := Clusters(l, img, first, idx);
    if cs.Some? then Contents(l, img, cs.value) else []
  }

  /** A walk to the `last` cluster that will come to `w` has got to `p`. */
  ghost predicate OnCourse(l: Layout, img: seq<byte>, first: nat, p: Place, last: nat, w: Walked)
    requires OnDisk(l, img)
  {
    var cs := Clusters(l, img, first, p.idx);
    && cs.Some? && cs.value[p.idx] == p.c && p.idx <= last
    && Walk(l, img, p.c, last - p.idx, p.steps) == w
  }

  lemma CourseStep(l: Layout, img: seq<byte>, first: nat, p: Place, last: nat, w: Walked)
    requires OnDisk(l, img) && OnCourse(l, img, first, p, last, w)
    ensures l.Valid(p.c) && p.idx <= last
    ensures Clusters(l, img, first, p.idx).Some? && Clusters(l, img, first, p.idx).value[p.idx] == p.c
    ensures p.idx < last ==>
              var link := LinkOf(l, img, p.c);
              && (link.End? ==> w == Failed(ChainEnds))
              && (link.Leaves? ==> w == Failed(ChainLeaves))
              && (link.To? && p.steps + 1 > l.clusters ==> w == Failed(ChainLoops))
              && (link.To? && p.steps + 1 <= l.clusters ==>
                    OnCourse(l, img, first, Place(p.idx + 1, link.cluster, p.steps + 1), last, w))
    ensures p.idx == last ==> w == At(p.c)
  {
    hide LinkOf, OnDisk;
  }

  lemma UptoGrows(l: Layout, img: seq<byte>, first: nat, a: nat, b: nat)
    requires OnDisk(l, img) && a <= b && Clusters(l, img, first, b).Some?
    ensures Clusters(l, img, first, a).Some? && Upto(l, img, first, a) <= Upto(l, img, first, b)
    ensures |Upto(l, img, first, a)| == l.Size(a + 1)
  {
    ClustersPrefix(l, img, first, a, b);
    ContentsPrefix(l, img, Clusters(l, img, first, b).value, a + 1);
  }

  /** From `p` to `q` the chain runs on along the disk. */
  ghost predicate RunsOn(l: Layout, img: seq<byte>, first: nat, p: Place, q: Place)
    requires OnDisk(l, img)
  {
    var cs := Clusters(l, img, first, q.idx);
    && p.idx <= q.idx && cs.Some?
    && forall i :: p.idx <= i <= q.idx ==> cs.value[i] == p.c + (i - p.idx)
  }

  /** What one read of the disk gives of a run is that much of the file. */
  lemma RunGives(l: Layout, img: seq<byte>, first: nat, p: Place, q: Place, off: nat, n: nat)
    requires OnDisk(l, img) && RunsOn(l, img, first, p, q) && l.Valid(p.c)
    requires off + n <= l.Size(q.idx - p.idx + 1)
    ensures l.ClusterAt(p.c) + off + n <= l.End()
    ensures l.Size(p.idx) + off + n <= |Upto(l, img, first, q.idx)|
    ensures img[l.ClusterAt(p.c) + off..l.ClusterAt(p.c) + off + n]
         == Upto(l, img, first, q.idx)[l.Size(p.idx) + off..l.Size(p.idx) + off + n]
  {
    var cs := Clusters(l, img, first, q.idx).value;
    var run := q.idx - p.idx + 1;
    RunIsOneStretch(l, img, cs, p.idx, run);
    hide Contents, Clusters;
    var all := Contents(l, img, cs);
    var k, size, at := l.Size(p.idx), l.Size(run), l.ClusterAt(p.c);
    hide Layout.Size, Layout.ClusterAt;
    assert all[k..] == img[at..at + size];
    SlicedFrom(all, k, off, n);
    Sliced(img, at, size, off, n);
  }

  /** The piece that follows what is there makes more of the same. */
  lemma Joined(front: seq<byte>, piece: seq<byte>, a: seq<byte>, b: seq<byte>, pos: nat)
    requires a <= b && pos + |front| <= |a| && front == a[pos..pos + |front|]
    requires pos + |front| + |piece| <= |b| && piece == b[pos + |front|..pos + |front| + |piece|]
    ensures front + piece == b[pos..pos + |front| + |piece|]
  {
  }

  lemma SlicedFrom(s: seq<byte>, at: nat, from: nat, n: nat)
    requires at + from + n <= |s|
    ensures s[at..][from..from + n] == s[at + from..at + from + n]
  {
    var a, b := s[at..][from..from + n], s[at + from..at + from + n];
    assert forall i :: 0 <= i < n ==> a[i] == b[i];
  }

  /** The cluster a read starts its walk from. */
  function StartOf(file: Entry, target: nat, hint: Hint): Place {
    if hint.cluster != 0 && hint.index <= target then Place(hint.index, hint.cluster, 0)
    else Place(0, file.firstCluster, 0)
  }

  /** The last cluster a read of `want` bytes at `pos` needs. */
  function LastOf(l: Layout, pos: nat, want: nat): nat
    requires l.cluster > 0 && want > 0
  {
    Floor(pos + want - 1, l.cluster);
    (pos + want - 1) / l.cluster
  }

  lemma LastBounds(l: Layout, pos: nat, want: nat)
    requires l.cluster > 0 && want > 0
    ensures 0 <= pos / l.cluster <= LastOf(l, pos, want)
    ensures l.Size(pos / l.cluster) <= pos < l.Size(pos / l.cluster) + l.cluster
    ensures l.Size(LastOf(l, pos, want)) < pos + want <= l.Size(LastOf(l, pos, want) + 1)
  {
    var last := LastOf(l, pos, want);
    Floor(pos, l.cluster);
    Floor(pos + want - 1, l.cluster);
    MulPlus(last, 1, l.cluster);
    if last + 1 <= pos / l.cluster {
      MulOrder(last + 1, pos / l.cluster, l.cluster);
    }
  }

  /** What a read comes to on a disk that reads: the error its walk meets, or
      as many bytes as there are. */
  ghost function ReadOutcome(l: Layout, img: seq<byte>, file: Entry, pos: nat, n: nat, hint: Hint): Result<nat, Error>
    requires OnDisk(l, img) && HintTrue(l, img, file, hint)
  {
    if file.dir then Err(NotAFile)
    else if pos >= file.size || n == 0 then Ok(0)
    else
      var want := Min(n, file.size - pos);
      LastBounds(l, pos, want);
      var start := StartOf(file, pos / l.cluster, hint);
      if !l.Valid(start.c) then Err(StartsOutside)
      else
        match Walk(l, img, start.c, LastOf(l, pos, want) - start.idx, 0)
        case At(_) => Ok(want)
        case Failed(e) => Err(e)
  }

  /** What reading a whole file comes to on a disk that reads. */
  ghost function FileOutcome(l: Layout, img: seq<byte>, file: Entry, n: nat): Option<Error>
    requires OnDisk(l, img)
  {
    if file.dir then Some(NotAFile)
    else if n != file.size then Some(WrongSize)
    else if file.size == 0 then None
    else if !l.Valid(file.firstCluster) then Some(StartsOutside)
    else
      LastBounds(l, 0, file.size);
      match Walk(l, img, file.firstCluster, LastOf(l, 0, file.size), 0)
      case At(_) => None
      case Failed(e) => Some(e)
  }

  /** Reading a file whole and reading it from the start with no hint come to
      the same thing. */
  lemma WholeIsFromTheStart(l: Layout, img: seq<byte>, file: Entry)
    requires OnDisk(l, img)
    ensures var whole, piece := FileOutcome(l, img, file, file.size), ReadOutcome(l, img, file, 0, file.size, NO_HINT);
            piece == if whole.None? then Ok(file.size) else Err(whole.value)
  {
    if !file.dir && file.size > 0 {
      LastBounds(l, 0, file.size);
      assert 0 / l.cluster == 0;
    }
    hide Walk, LastOf;
  }

  /** On a chain with no repeats, long enough for the file, no true hint and no
      position makes a read fail. */
  lemma AcyclicIsNeverRefused(l: Layout, img: seq<byte>, file: Entry, pos: nat, n: nat, hint: Hint)
    requires OnDisk(l, img) && HintTrue(l, img, file, hint) && !file.dir
    requires pos < file.size && n > 0
    requires Clusters(l, img, file.firstCluster, LastOf(l, 0, file.size)).Some?
    requires NoRepeats(Clusters(l, img, file.firstCluster, LastOf(l, 0, file.size)).value)
    ensures ReadOutcome(l, img, file, pos, n, hint) == Ok(Min(n, file.size - pos))
  {
    hide LastOf, NoRepeats, Walk, Layout.Size, OnDisk;
    HasClusters(l, img);
    var want := Min(n, file.size - pos);
    LastBounds(l, pos, want);
    LastBounds(l, 0, file.size);
    LastWithin(l, pos, want, file.size);
    var start := StartOf(file, pos / l.cluster, hint);
    var last, whole := LastOf(l, pos, want), LastOf(l, 0, file.size);
    ClustersPrefix(l, img, file.firstCluster, 0, whole);
    WalksTheRest(l, img, file.firstCluster, start.idx, last, whole);
  }

  lemma HasClusters(l: Layout, img: seq<byte>)
    requires OnDisk(l, img)
    ensures l.cluster > 0
  {
  }

  lemma WalksTheRest(l: Layout, img: seq<byte>, first: nat, a: nat, last: nat, whole: nat)
    requires OnDisk(l, img) && a <= last <= whole && Clusters(l, img, first, whole).Some?
    requires NoRepeats(Clusters(l, img, first, whole).value)
    ensures Clusters(l, img, first, a).Some?
    ensures Walk(l, img, Clusters(l, img, first, a).value[a], last - a, 0).At?
  {
    ClustersPrefix(l, img, first, last, whole);
    PrefixDistinct(Clusters(l, img, first, whole).value, last + 1);
    ClustersPrefix(l, img, first, a, last);
    AcyclicIsWalked(l, img, first, a, last);
  }

  lemma PrefixDistinct(cs: seq<nat>, n: nat)
    requires NoRepeats(cs) && n <= |cs|
    ensures NoRepeats(cs[..n])
  {
  }

  lemma LastWithin(l: Layout, pos: nat, want: nat, size: nat)
    requires l.cluster > 0 && want > 0 && pos + want <= size
    ensures LastOf(l, pos, want) <= LastOf(l, 0, size)
  {
    Floor(pos + want - 1, l.cluster);
    Floor(size - 1, l.cluster);
    var a, b := LastOf(l, pos, want), LastOf(l, 0, size);
    if b + 1 <= a {
      MulOrder(b + 1, a, l.cluster);
      MulPlus(b, 1, l.cluster);
    }
  }

  /** "A file's chain loops" is only said of a chain that comes back on itself. */
  lemma LoopIsTrue(l: Layout, img: seq<byte>, file: Entry, pos: nat, n: nat, hint: Hint)
    requires OnDisk(l, img) && HintTrue(l, img, file, hint)
    requires ReadOutcome(l, img, file, pos, n, hint) == Err(ChainLoops)
    ensures Revisits(l, img, file.firstCluster)
  {
    var want := Min(n, file.size - pos);
    LastBounds(l, pos, want);
    var start := StartOf(file, pos / l.cluster, hint);
    LoopsIsTrue(l, img, start.c, LastOf(l, pos, want) - start.idx);
    RevisitsFrom(l, img, file.firstCluster, start.idx);
  }

  lemma RevisitsFrom(l: Layout, img: seq<byte>, first: nat, m: nat)
    requires OnDisk(l, img) && Clusters(l, img, first, m).Some?
    requires Revisits(l, img, Clusters(l, img, first, m).value[m])
    ensures Revisits(l, img, first)
  {
    var c := Clusters(l, img, first, m).value[m];
    assert Clusters(l, img, c, 0) == Some([c]);
    hide OnDisk, Clusters, Layout.Valid;
    var n: nat :| Clusters(l, img, c, n).Some? && !NoRepeats(Clusters(l, img, c, n).value);
    ClustersPrefix(l, img, c, 0, n);
    ClustersFrom(l, img, first, m, n);
    var rest, whole := Clusters(l, img, c, n).value, Clusters(l, img, first, m + n).value;
    var i, j :| 0 <= i < j < |rest| && rest[i] == rest[j];
    assert whole[m + i] == rest[i] && whole[m + j] == rest[j];
  }

  /** The disk's bytes, made up to `end` where the disk is shorter. */
  ghost function Image(bytes: seq<byte>, end: nat): (img: seq<byte>)
    ensures bytes <= img && end <= |img|
  {
    if end <= |bytes| then bytes else bytes + Zeros(end - |bytes|)
  }

  lemma NotJustIo(b: seq<byte>, base: nat, length: nat)
    requires |b| == 512
    ensures LayoutOf(b, base, length) != Err(Io)
  {
    hide BootSector.LayoutAt, BootSector.FitsIn, BootSector.ShapeOk;
  }

  lemma SectorFits(b: seq<byte>, base: nat, length: nat)
    requires |b| == 512 && LayoutOf(b, base, length).Ok?
    ensures 512 <= length
  {
    hide BootSector.LayoutAt;
    var s := BootSectorOf(b);
    MulOrder(1, s.total, s.bps);
  }

  /** A mounted volume. */
  class Fat {
    const l: Layout
    const fatCache: Cache
    const dirCache: Cache
    /** The volume's bytes: the disk's, and whatever the partition claims past
        the end of it. */
    ghost const img: seq<byte>

    ghost predicate Valid(disk: Disk)
      reads disk, fatCache, fatCache.buf, dirCache, dirCache.buf
    {
      && disk.Valid() && Shows(disk, img) && OnDisk(l, img)
      && disk.lo <= l.base && l.End() <= disk.hi
      && fatCache.Holds(img, l.sector) && dirCache.Holds(img, l.sector)
      && fatCache != dirCache && fatCache.buf != dirCache.buf
    }

    lemma ReadsADisk(disk: Disk)
      requires Valid(disk)
      ensures OnDisk(l, img) && l.cluster > 0
    {
    }

    constructor (l: Layout, ghost img: seq<byte>)
      ensures this.l == l && this.img == img
      ensures fatCache.at == None && dirCache.at == None
      ensures fresh(fatCache) && fresh(fatCache.buf) && fresh(dirCache) && fresh(dirCache.buf)
      ensures fatCache != dirCache && fatCache.buf != dirCache.buf
      ensures fatCache.buf.Length == dirCache.buf.Length == 4096
    {
      this.l, this.img := l, img;
      fatCache := new Cache();
      dirCache := new Cache();
    }

    /** The volume in a partition of `length` bytes at `base`, if there is one.
        From then on no read strays from them. */
    static method Mount(disk: Disk, base: nat, length: nat) returns (r: Result<Fat, Error>)
      requires disk.Valid() && disk.lo == base && disk.hi == base + length
      modifies disk`bounce, disk`strays, disk.dev`faults
      ensures old(disk.dev.faults) <= disk.dev.faults
      ensures r.Ok? ==>
                && r.value.Valid(disk) && fresh(r.value)
                && fresh(r.value.fatCache) && fresh(r.value.fatCache.buf)
                && fresh(r.value.dirCache) && fresh(r.value.dirCache.buf)
                && disk.strays == old(disk.strays)
                && base + 512 <= |disk.dev.bytes|
                && LayoutOf(disk.dev.bytes[base..base + 512], base, length) == Ok(r.value.l)
      ensures r.Err? && r.error != Io ==>
                && base + 512 <= |disk.dev.bytes|
                && LayoutOf(disk.dev.bytes[base..base + 512], base, length) == Err(r.error)
      ensures disk.dev.faults == old(disk.dev.faults) && base + 512 <= |disk.dev.bytes| ==> r != Err(Io)
    {
      var b := new byte[512];
      var ok := disk.Read(base, b, 0, 512);
      if !ok {
        return Err(Io);
      }
      assert b[..] == b[0..512] == disk.dev.bytes[base..base + 512];
      NotJustIo(b[..], base, length);
      var layout := LayoutOf(b[..], base, length);
      if layout.Err? {
        return Err(layout.error);
      }
      MountedIsSound(b[..], base, length);
      SectorFits(b[..], base, length);
      hide LayoutOf, Layout.Sound, Layout.End;
      var fat := new Fat(layout.value, Image(disk.dev.bytes, layout.value.End()));
      return Ok(fat);
    }

    /** The cluster after `c`, none at the end of its chain. */
    method Next(disk: Disk, c: nat) returns (r: Result<Option<nat>, Error>)
      requires Valid(disk) && l.Valid(c)
      modifies disk`bounce, disk`strays, disk.dev`faults, fatCache`at, fatCache.buf
      ensures Valid(disk) && disk.strays == old(disk.strays)
      ensures old(disk.dev.faults) <= disk.dev.faults
      ensures r == Err(Io) || r == AsResult(LinkOf(l, img, c))
      ensures disk.dev.faults == old(disk.dev.faults) && l.End() <= |disk.dev.bytes| ==> r != Err(Io)
    {
      EntriesAreInside(l, c);
      EndIsAligned(l);
      var raw := new byte[l.EntryWidth()];
      hide Cache.Holds;
      var ok := Cached(disk, fatCache, l.base, l.sector, l.fatAt + l.EntryAt(c), raw, img, l.End());
      if !ok {
        return Err(Io);
      }
      return AsResult(DecodeEntry(l, c, raw[..]));
    }

    /** Up to `want` bytes more from the place `p`: the consecutive clusters
        from there, and the cluster after them if that is not enough. */
    method Run(disk: Disk, p: Place, off: nat, need: nat, ghost first: nat, ghost last: nat, ghost w: Walked)
      returns (r: Result<RunEnd, Error>)
      requires Valid(disk) && OnCourse(l, img, first, p, last, w) && off < l.cluster
      requires l.Size(last) < l.Size(p.idx) + off + need <= l.Size(last + 1)
      modifies disk`bounce, disk`strays, disk.dev`faults, fatCache`at, fatCache.buf
      ensures Valid(disk) && disk.strays == old(disk.strays) && old(disk.dev.faults) <= disk.dev.faults
      ensures r.Err? ==> r.error == Io || w == Failed(r.error)
      ensures disk.dev.faults == old(disk.dev.faults) && l.End() <= |disk.dev.bytes| ==> r != Err(Io)
      ensures r.Ok? ==>
                var q, span, after := r.value.q, r.value.n, r.value.next;
                && OnCourse(l, img, first, q, last, w) && RunFound(l, img, first, p, q, off, need, span, after, last)
    {
      hide Layout.Size, OnCourse, RunsOn, LinkOf, OnDisk;
      var q := p;
      var span: nat := l.cluster - off;
      RunStarts(l, img, first, p, last, w);
      while span < need
        invariant Valid(disk) && disk.strays == old(disk.strays) && old(disk.dev.faults) <= disk.dev.faults
        invariant OnCourse(l, img, first, q, last, w) && RunsOn(l, img, first, p, q)
        invariant p.idx <= q.idx && l.cluster <= off + span == l.Size(q.idx - p.idx + 1)
        decreases last - q.idx
      {
        NotThereYet(l, p, q, off, span, need, last);
        CourseStep(l, img, first, q, last, w);
        var next := Next(disk, q.c);
        match next {
          case Err(e) => return Err(e);
          case Ok(None) => return Err(ChainEnds);
          case Ok(Some(n)) =>
            if n != q.c + 1 {
              return Ok(RunEnd(q, span, Some(n)));
            }
            if q.steps + 1 > l.clusters {
              return Err(ChainLoops);
            }
            RunLonger(l, img, first, p, q, n);
            SizeStep(l, q.idx - p.idx + 1);
            q := Place(q.idx + 1, n, q.steps + 1);
            span := span + l.cluster;
        }
      }
      CourseStep(l, img, first, q, last, w);
      ThereNow(l, p, q, off, span, need, last);
      return Ok(RunEnd(q, span, None));
    }

    /** Follow a chain to its `target`th cluster. */
    method Seek(disk: Disk, start: Place, target: nat, ghost first: nat, ghost last: nat, ghost w: Walked)
      returns (r: Result<Place, Error>)
      requires Valid(disk) && OnCourse(l, img, first, start, last, w) && start.idx <= target <= last
      modifies disk`bounce, disk`strays, disk.dev`faults, fatCache`at, fatCache.buf
      ensures Valid(disk) && disk.strays == old(disk.strays) && old(disk.dev.faults) <= disk.dev.faults
      ensures r.Err? ==> r.error == Io || w == Failed(r.error)
      ensures disk.dev.faults == old(disk.dev.faults) && l.End() <= |disk.dev.bytes| ==> r != Err(Io)
      ensures r.Ok? ==> OnCourse(l, img, first, r.value, last, w) && r.value.idx == target
    {
      hide OnCourse, LinkOf, OnDisk;
      var p := start;
      while p.idx < target
        invariant Valid(disk) && disk.strays == old(disk.strays) && old(disk.dev.faults) <= disk.dev.faults
        invariant OnCourse(l, img, first, p, last, w) && p.idx <= target
      {
        CourseStep(l, img, first, p, last, w);
        var next := Next(disk, p.c);
        match next {
          case Err(e) => return Err(e);
          case Ok(None) => return Err(ChainEnds);
          case Ok(Some(n)) =>
            if p.steps + 1 > l.clusters {
              return Err(ChainLoops);
            }
            p := Place(p.idx + 1, n, p.steps + 1);
        }
      }
      return Ok(p);
    }

    /** The volume's own bytes at `at`, straight into the caller's buffer. */
    method ReadVolume(disk: Disk, at: nat, out: array<byte>, done: nat, n: nat, ghost before: seq<byte>,
                      ghost want: nat)
      returns (ok: bool)
      requires Valid(disk) && out != fatCache.buf && out != dirCache.buf
      requires l.base <= at && at + n <= l.End() && done + n <= want <= out.Length && Untouched(before, out, want)
      modifies disk`bounce, disk`strays, disk.dev`faults, out
      ensures Valid(disk) && disk.strays == old(disk.strays) && old(disk.dev.faults) <= disk.dev.faults
      ensures disk.dev.faults == old(disk.dev.faults) && l.End() <= |disk.dev.bytes| ==> ok
      ensures ok ==> out[..done + n] == old(out[..done]) + img[at..at + n]
      ensures Untouched(before, out, want)
    {
      hide Layout.Sound, Layout.End;
      ghost var sofar := out[..];
      ok := disk.Read(at, out, done, n);
      assert out[..done + n] == out[..done] + out[done..done + n];
      assert sofar[want..] == sofar[done + n..][want - done - n..];
      assert out[want..] == out[done + n..][want - done - n..];
    }

    /** The disk's bytes for a run. */
    method Fetch(disk: Disk, p: Place, q: Place, off: nat, n: nat, out: array<byte>, done: nat,
                 ghost first: nat, ghost pos: nat, ghost before: seq<byte>, ghost want: nat)
      returns (ok: bool)
      requires Valid(disk) && out != fatCache.buf && out != dirCache.buf
      requires RunsOn(l, img, first, p, q) && l.Valid(p.c) && off + n <= l.Size(q.idx - p.idx + 1)
      requires done + n <= want <= out.Length && pos + done == l.Size(p.idx) + off
      requires Got(l, img, first, p.idx, pos, out, done) && Untouched(before, out, want)
      modifies disk`bounce, disk`strays, disk.dev`faults, out
      ensures Valid(disk) && disk.strays == old(disk.strays) && old(disk.dev.faults) <= disk.dev.faults
      ensures disk.dev.faults == old(disk.dev.faults) && l.End() <= |disk.dev.bytes| ==> ok
      ensures ok ==> Got(l, img, first, q.idx, pos, out, done + n)
      ensures Untouched(before, out, want)
    {
      hide Fat.Valid, OnDisk, RunsOn, Upto, Clusters, Contents, Layout.Size, Layout.ClusterAt, Layout.Sound, Layout.End;
      ReadsADisk(disk);
      RunGives(l, img, first, p, q, off, n);
      RunIsOnChain(l, img, first, p, q);
      ClustersAreInside(l, p.c);
      ghost var at := l.ClusterAt(p.c) + off;
      Joined(out[..done], img[at..at + n], Upto(l, img, first, p.idx), Upto(l, img, first, q.idx), pos);
      ok := ReadVolume(disk, l.ClusterAt(p.c) + off, out, done, n, before, want);
    }

    /** Up to `out.Length` bytes of `file` from `pos`: how many were read, none
        at or past the end. `after` is where the read ended. */
    method ReadAt(disk: Disk, file: Entry, pos: nat, out: array<byte>, hint: Hint)
      returns (r: Result<nat, Error>, after: Hint)
      requires Valid(disk) && out != fatCache.buf && out != dirCache.buf && HintTrue(l, img, file, hint)
      modifies disk`bounce, disk`strays, disk.dev`faults, fatCache`at, fatCache.buf, out
      ensures Valid(disk) && disk.strays == old(disk.strays) && old(disk.dev.faults) <= disk.dev.faults
      ensures HintTrue(l, img, file, after) && (r.Err? ==> after == hint)
      ensures r == Err(Io) || r == ReadOutcome(l, img, file, pos, out.Length, hint)
      ensures disk.dev.faults == old(disk.dev.faults) && l.End() <= |disk.dev.bytes| ==> r != Err(Io)
      ensures r.Ok? && r.value > 0 ==>
                && r.value <= out.Length && out[r.value..] == old(out[r.value..])
                && pos + r.value <= |Upto(l, img, file.firstCluster, LastOf(l, pos, r.value))|
                && out[..r.value] == Upto(l, img, file.firstCluster, LastOf(l, pos, r.value))[pos..pos + r.value]
    {
      hide Fat.Valid, Walk, Upto, Clusters, LastOf, OnDisk, Layout.Size;
      ReadsADisk(disk);
      if file.dir {
        return Err(NotAFile), hint;
      }
      if pos >= file.size || out.Length == 0 {
        return Ok(0), hint;
      }
      var want := Min(out.Length, file.size - pos);
      LastBounds(l, pos, want);
      var start := StartOf(file, pos / l.cluster, hint);
      if !l.Valid(start.c) {
        return Err(StartsOutside), hint;
      }
      ghost var last := LastOf(l, pos, want);
      ghost var w := Walk(l, img, start.c, last - start.idx, 0);
      StartIsOnCourse(l, img, file, pos / l.cluster, hint, last);
      var p := Seek(disk, start, pos / l.cluster, file.firstCluster, last, w);
      if p.Err? {
        return Err(p.error), hint;
      }
      r, after := ReadRuns(disk, p.value, pos, want, out, hint, file, last, w);
    }

    /** One run found and fetched: where it ends, how much it gave, and what
        comes after it if that was not enough. */
    method OneRun(disk: Disk, p: Place, pos: nat, done: nat, want: nat, out: array<byte>, ghost before: seq<byte>,
                  ghost first: nat, ghost last: nat, ghost w: Walked)
      returns (r: Result<RunEnd, Error>)
      requires Valid(disk) && out != fatCache.buf && out != dirCache.buf
      requires OnCourse(l, img, first, p, last, w) && done < want <= out.Length
      requires l.Size(last) < pos + want <= l.Size(last + 1)
      requires Filled(l, img, first, p.idx, pos, out, done) && Untouched(before, out, want)
      modifies disk`bounce, disk`strays, disk.dev`faults, fatCache`at, fatCache.buf, out
      ensures Valid(disk) && disk.strays == old(disk.strays) && old(disk.dev.faults) <= disk.dev.faults
      ensures r.Err? ==> r.error == Io || w == Failed(r.error)
      ensures disk.dev.faults == old(disk.dev.faults) && l.End() <= |disk.dev.bytes| ==> r != Err(Io)
      ensures Untouched(before, out, want)
      ensures r.Ok? ==>
                var q, n, next := r.value.q, r.value.n, r.value.next;
                0 < n && done + n <= want && RunDone(l, img, first, q, next, pos, out, done + n, want, last, w)
    {
      hide *;
      ReadsADisk(disk);
      FilledIsGot(l, img, first, p.idx, pos, out, done);
      CourseStep(l, img, first, p, last, w);
      var off := pos + done - l.Size(p.idx);
      var run := Run(disk, p, off, want - done, first, last, w);
      if run.Err? {
        r := Err(run.error);
      } else {
        var q, span, next := run.value.q, run.value.n, run.value.next;
        RunNeeds(l, img, first, p, q, off, want - done, span, next, last);
        var ok := TakeRun(disk, p, q, off, span, next, pos, done, want, out, before, first, last, w);
        MinBounds(span, want - done);
        r := if ok then Ok(RunEnd(q, Min(span, want - done), next)) else Err(Io);
      }
    }

    /** As much of a run as is wanted, to its place in `out`. */
    method TakeRun(disk: Disk, p: Place, q: Place, off: nat, span: nat, ghost next: Option<nat>, ghost pos: nat,
                   done: nat, want: nat, out: array<byte>, ghost before: seq<byte>, ghost first: nat, ghost last: nat,
                   ghost w: Walked)
      returns (ok: bool)
      requires Valid(disk) && out != fatCache.buf && out != dirCache.buf && done < want <= out.Length
      requires OnCourse(l, img, first, q, last, w) && l.Valid(p.c) && off < l.cluster
      requires RunFound(l, img, first, p, q, off, want - done, span, next, last) && Untouched(before, out, want)
      requires pos + done == l.Size(p.idx) + off && Got(l, img, first, p.idx, pos, out, done)
      modifies disk`bounce, disk`strays, disk.dev`faults, out
      ensures Valid(disk) && disk.strays == old(disk.strays) && old(disk.dev.faults) <= disk.dev.faults
      ensures disk.dev.faults == old(disk.dev.faults) && l.End() <= |disk.dev.bytes| ==> ok
      ensures Untouched(before, out, want)
      ensures ok ==> RunDone(l, img, first, q, next, pos, out, done + Min(span, want - done), want, last, w)
    {
      hide *;
      ReadsADisk(disk);
      RunNeeds(l, img, first, p, q, off, want - done, span, next, last);
      MinBounds(span, want - done);
      var n := Min(span, want - done);
      ok := Fetch(disk, p, q, off, n, out, done, first, pos, before, want);
      if ok {
        RunIsDone(l, img, first, p, q, off, span, next, pos, done, want, out, done + n, last, w);
      }
    }

    /** Run by run, until `want` bytes are in `out`. */
    method ReadRuns(disk: Disk, from: Place, pos: nat, want: nat, out: array<byte>, hint: Hint,
                    ghost file: Entry, ghost last: nat, ghost w: Walked)
      returns (r: Result<nat, Error>, after: Hint)
      requires Valid(disk) && out != fatCache.buf && out != dirCache.buf
      requires OnCourse(l, img, file.firstCluster, from, last, w)
      requires 0 < want <= out.Length && l.Size(from.idx) <= pos < l.Size(from.idx) + l.cluster
      requires l.Size(last) < pos + want <= l.Size(last + 1)
      modifies disk`bounce, disk`strays, disk.dev`faults, fatCache`at, fatCache.buf, out
      ensures Valid(disk) && disk.strays == old(disk.strays) && old(disk.dev.faults) <= disk.dev.faults
      ensures r.Err? ==> after == hint && (r.error == Io || w == Failed(r.error))
      ensures disk.dev.faults == old(disk.dev.faults) && l.End() <= |disk.dev.bytes| ==> r != Err(Io)
      ensures r.Ok? ==>
                && r.value == want && w.At? && HintTrue(l, img, file, after)
                && Untouched(old(out[..]), out, want)
                && Got(l, img, file.firstCluster, last, pos, out, want)
    {
      hide *;
      ghost var first := file.firstCluster;
      ghost var strays, faults, before := disk.strays, disk.dev.faults, out[..];
      ReadsADisk(disk);
      var p := from;
      var done := 0;
      r, after := Ok(0), hint;
      NothingRead(l, img, first, p, pos, out, want, last, w);
      while true
        invariant Valid(disk) && disk.strays == strays && faults <= disk.dev.faults
        invariant OnCourse(l, img, first, p, last, w) && done < want && after == hint
        invariant Filled(l, img, first, p.idx, pos, out, done) && Untouched(before, out, want)
        decreases want - done
      {
        var one := OneRun(disk, p, pos, done, want, out, before, first, last, w);
        if one.Err? {
          r := Err(one.error);
          break;
        }
        var q, n, next := one.value.q, one.value.n, one.value.next;
        done := done + n;
        OnToNext(l, img, file, q, next, pos, out, done, want, last, w);
        if done >= want {
          r, after := Ok(want), Hint(q.idx, q.c);
          break;
        }
        if q.steps + 1 > l.clusters {
          r := Err(ChainLoops);
          break;
        }
        p := Place(q.idx + 1, next.value, q.steps + 1);
      }
    }

    /** All of a file at once; `out` has to be of the same length. */
    method ReadFile(disk: Disk, file: Entry, out: array<byte>) returns (r: Option<Error>)
      requires Valid(disk) && out != fatCache.buf && out != dirCache.buf
      modifies disk`bounce, disk`strays, disk.dev`faults, fatCache`at, fatCache.buf, out
      ensures Valid(disk) && disk.strays == old(disk.strays) && old(disk.dev.faults) <= disk.dev.faults
      ensures r == Some(Io) || r == FileOutcome(l, img, file, out.Length)
      ensures disk.dev.faults == old(disk.dev.faults) && l.End() <= |disk.dev.bytes| ==> r != Some(Io)
      ensures r.None? && file.size > 0 ==>
                && out.Length == file.size
                && file.size <= |Upto(l, img, file.firstCluster, LastOf(l, 0, file.size))|
                && out[..] == Upto(l, img, file.firstCluster, LastOf(l, 0, file.size))[..file.size]
    {
      hide Fat.Valid, Walk, Upto, Clusters, LastOf, OnDisk, Layout.Size;
      ReadsADisk(disk);
      if file.dir {
        return Some(NotAFile);
      }
      if out.Length != file.size {
        return Some(WrongSize);
      }
      if file.size == 0 {
        return None;
      }
      if !l.Valid(file.firstCluster) {
        return Some(StartsOutside);
      }
      LastBounds(l, 0, file.size);
      r := ReadWhole(disk, file.firstCluster, file.size, out, LastOf(l, 0, file.size));
    }

    method ReadWhole(disk: Disk, first: nat, size: nat, out: array<byte>, ghost last: nat) returns (r: Option<Error>)
      requires Valid(disk) && out != fatCache.buf && out != dirCache.buf && l.Valid(first)
      requires 0 < size == out.Length && l.Size(last) < size <= l.Size(last + 1)
      modifies disk`bounce, disk`strays, disk.dev`faults, fatCache`at, fatCache.buf, out
      ensures Valid(disk) && disk.strays == old(disk.strays) && old(disk.dev.faults) <= disk.dev.faults
      ensures r.Some? ==> r.value == Io || Walk(l, img, first, last, 0) == Failed(r.value)
      ensures disk.dev.faults == old(disk.dev.faults) && l.End() <= |disk.dev.bytes| ==> r != Some(Io)
      ensures r.None? ==>
                && Walk(l, img, first, last, 0).At?
                && size <= |Upto(l, img, first, last)| && out[..] == Upto(l, img, first, last)[..size]
    {
      hide *;
      ReadsADisk(disk);
      ghost var w := Walk(l, img, first, last, 0);
      var p := Place(0, first, 0);
      OnCourseAtFirst(l, img, first, last);
      NothingRead(l, img, first, p, 0, out, size, last, w);
      ghost var strays, faults := disk.strays, disk.dev.faults;
      var done := 0;
      r := None;
      while done < size
        invariant Valid(disk) && disk.strays == strays && faults <= disk.dev.faults && r.None? && done <= size
        invariant done < size ==>
                    OnCourse(l, img, first, p, last, w) && l.Size(p.idx) == done
                      && Filled(l, img, first, p.idx, 0, out, done)
        invariant done == size ==> w.At? && Got(l, img, first, last, 0, out, size)
        decreases size - done
      {
        var run := FetchRun(disk, p, done, size, out, first, last, w);
        if run.Err? {
          r := Some(run.error);
          return;
        }
        var q, n, next := run.value.q, run.value.n, run.value.next;
        done := done + n;
        if done < size {
          WholeGoesOn(l, img, first, q, next, out, done, size, last, w);
          p := next.value;
        } else {
          WholeEnds(l, img, first, q, next, out, size, last, w);
        }
      }
      GotWhole(l, img, first, last, out);
    }

    /** One run found and fetched. */
    method FetchRun(disk: Disk, p: Place, done: nat, size: nat, out: array<byte>, ghost first: nat, ghost last: nat,
                    ghost w: Walked)
      returns (r: Result<WholeEnd, Error>)
      requires Valid(disk) && out != fatCache.buf && out != dirCache.buf
      requires OnCourse(l, img, first, p, last, w) && size == out.Length
      requires l.Size(p.idx) == done < size && l.Size(last) < size <= l.Size(last + 1)
      requires Filled(l, img, first, p.idx, 0, out, done)
      modifies disk`bounce, disk`strays, disk.dev`faults, fatCache`at, fatCache.buf, out
      ensures Valid(disk) && disk.strays == old(disk.strays) && old(disk.dev.faults) <= disk.dev.faults
      ensures r.Err? ==> r.error == Io || w == Failed(r.error)
      ensures disk.dev.faults == old(disk.dev.faults) && l.End() <= |disk.dev.bytes| ==> r != Err(Io)
      ensures r.Ok? ==>
                var q, n, next := r.value.q, r.value.n, r.value.next;
                0 < n && done + n <= size && WholeDone(l, img, first, q, next, out, done + n, size, last, w)
    {
      hide OnCourse, RunsOn, LinkOf, OnDisk, Layout.Size, Upto, Clusters, Contents, Walk, Fat.Valid, Filled, Got,
           Untouched;
      ReadsADisk(disk);
      AllUntouched(out);
      FilledIsGot(l, img, first, p.idx, 0, out, done);
      CourseStep(l, img, first, p, last, w);
      var run := WholeRun(disk, p, done, size, first, last, w);
      if run.Err? {
        r := Err(run.error);
      } else {
        var q, length, next := run.value.q, run.value.n, run.value.next;
        CourseStep(l, img, first, q, last, w);
        var n := Min(length, size - done);
        var ok := Fetch(disk, p, q, 0, n, out, done, first, 0, out[..], size);
        r := if ok then Ok(WholeEnd(q, n, next)) else Err(Io);
      }
    }

    /** The consecutive clusters from `p`, as many as the file still needs, and
        the place after them when that is elsewhere. */
    method WholeRun(disk: Disk, p: Place, done: nat, size: nat, ghost first: nat, ghost last: nat, ghost w: Walked)
      returns (r: Result<WholeEnd, Error>)
      requires Valid(disk) && OnCourse(l, img, first, p, last, w)
      requires l.Size(p.idx) == done < size && l.Size(last) < size <= l.Size(last + 1)
      modifies disk`bounce, disk`strays, disk.dev`faults, fatCache`at, fatCache.buf
      ensures Valid(disk) && disk.strays == old(disk.strays) && old(disk.dev.faults) <= disk.dev.faults
      ensures r.Err? ==> r.error == Io || w == Failed(r.error)
      ensures disk.dev.faults == old(disk.dev.faults) && l.End() <= |disk.dev.bytes| ==> r != Err(Io)
      ensures r.Ok? ==>
                var q, length, next := r.value.q, r.value.n, r.value.next;
                && OnCourse(l, img, first, q, last, w) && RunsOn(l, img, first, p, q) && p.idx <= q.idx
                && length == l.Size(q.idx - p.idx + 1) && length >= l.cluster
                && (done + length >= size ==> q.idx == last)
                && (done + length < size ==> next.Some?)
                && (next.Some? ==>
                      && done + length < size && OnCourse(l, img, first, next.value, last, w)
                      && next.value.idx == q.idx + 1 && l.Size(next.value.idx) == done + length)
    {
      hide Layout.Size, OnCourse, RunsOn, LinkOf, OnDisk, Fat.Valid;
      ReadsADisk(disk);
      var q := p;
      var length := l.cluster;
      RunStarts(l, img, first, p, last, w);
      while done + length < size
        invariant Valid(disk) && disk.strays == old(disk.strays) && old(disk.dev.faults) <= disk.dev.faults
        invariant OnCourse(l, img, first, q, last, w) && RunsOn(l, img, first, p, q)
        invariant p.idx <= q.idx && l.cluster <= length == l.Size(q.idx - p.idx + 1)
        decreases last - q.idx
      {
        NotThereYet(l, p, q, 0, length, size - done, last);
        CourseStep(l, img, first, q, last, w);
        var step := Next(disk, q.c);
        match step {
          case Err(e) => return Err(e);
          case Ok(None) => return Err(ChainEnds);
          case Ok(Some(n)) =>
            if q.steps + 1 > l.clusters {
              return Err(ChainLoops);
            }
            if n != q.c + 1 {
              NextRunStarts(l, p, q, 0, length);
              return Ok(WholeEnd(q, length, Some(Place(q.idx + 1, n, q.steps + 1))));
            }
            RunLonger(l, img, first, p, q, n);
            SizeStep(l, q.idx - p.idx + 1);
            q := Place(q.idx + 1, n, q.steps + 1);
            length := length + l.cluster;
        }
      }
      CourseStep(l, img, first, q, last, w);
      ThereNow(l, p, q, 0, length, size - done, last);
      return Ok(WholeEnd(q, length, None));
    }
  }

  lemma UptoReaches(l: Layout, img: seq<byte>, first: nat, p: Place, last: nat, w: Walked)
    requires OnDisk(l, img) && OnCourse(l, img, first, p, last, w)
    ensures |Upto(l, img, first, p.idx)| == l.Size(p.idx) + l.cluster
  {
    hide LinkOf, OnDisk;
    UptoGrows(l, img, first, p.idx, p.idx);
    SizeStep(l, p.idx);
  }

  /** `n` bytes of `out`, read from `pos` on, end inside the `idx`th cluster. */
  ghost predicate Filled(l: Layout, img: seq<byte>, first: nat, idx: nat, pos: nat, out: array<byte>, n: nat)
    requires OnDisk(l, img) && n <= out.Length
    reads out
  {
    l.Size(idx) <= pos + n < l.Size(idx) + l.cluster && Got(l, img, first, idx, pos, out, n)
  }

  lemma FilledIsGot(l: Layout, img: seq<byte>, first: nat, idx: nat, pos: nat, out: array<byte>, n: nat)
    requires OnDisk(l, img) && n <= out.Length && Filled(l, img, first, idx, pos, out, n)
    ensures Got(l, img, first, idx, pos, out, n) && l.Size(idx) <= pos + n < l.Size(idx) + l.cluster
  {
  }

  /** From `k` on, as it was. */
  ghost predicate Untouched(before: seq<byte>, out: array<byte>, k: nat)
    reads out
  {
    |before| == out.Length && k <= out.Length && before[k..] == out[k..]
  }

  /** The first `n` bytes of `out` are the chain's from `pos` on. */
  ghost predicate Got(l: Layout, img: seq<byte>, first: nat, idx: nat, pos: nat, out: array<byte>, n: nat)
    requires OnDisk(l, img) && n <= out.Length
    reads out
  {
    pos + n <= |Upto(l, img, first, idx)| && out[..n] == Upto(l, img, first, idx)[pos..pos + n]
  }

  /** The run from `off` inside the place `p` ends at `q`, `span` bytes on; if
      fewer than `need`, the chain goes on elsewhere. */
  ghost predicate RunFound(l: Layout, img: seq<byte>, first: nat, p: Place, q: Place, off: nat, need: nat, span: nat,
                           after: Option<nat>, last: nat)
    requires OnDisk(l, img)
  {
    && RunsOn(l, img, first, p, q) && p.idx <= q.idx && l.Valid(q.c)
    && l.cluster <= off + span == l.Size(q.idx - p.idx + 1)
    && (span >= need ==> q.idx == last)
    && (span < need ==> q.idx < last && after.Some? && LinkOf(l, img, q.c) == To(after.value))
  }

  /** All up to the run's end has been read. */
  ghost predicate RunDone(l: Layout, img: seq<byte>, first: nat, q: Place, next: Option<nat>, pos: nat,
                          out: array<byte>, n: nat, want: nat, last: nat, w: Walked)
    requires OnDisk(l, img) && n <= out.Length
    reads out
  {
    && OnCourse(l, img, first, q, last, w) && l.Valid(q.c) && Got(l, img, first, q.idx, pos, out, n)
    && (n == want ==> q.idx == last)
    && (n < want ==>
          && q.idx < last && next.Some? && LinkOf(l, img, q.c) == To(next.value)
          && pos + n == l.Size(q.idx + 1))
  }

  ghost predicate WholeDone(l: Layout, img: seq<byte>, first: nat, q: Place, next: Option<Place>, out: array<byte>,
                            n: nat, size: nat, last: nat, w: Walked)
    requires OnDisk(l, img) && n <= out.Length
    reads out
  {
    && Got(l, img, first, q.idx, 0, out, n)
    && (n == size ==> q.idx == last && w.At?)
    && (n < size ==>
          && next.Some? && OnCourse(l, img, first, next.value, last, w)
          && next.value.idx == q.idx + 1 && l.Size(next.value.idx) == n)
  }

  lemma MinBounds(a: nat, b: nat)
    ensures Min(a, b) <= a && Min(a, b) <= b
    ensures Min(a, b) == a || Min(a, b) == b
  {
  }

  lemma RunNeeds(l: Layout, img: seq<byte>, first: nat, p: Place, q: Place, off: nat, need: nat, span: nat,
                 next: Option<nat>, last: nat)
    requires OnDisk(l, img) && RunFound(l, img, first, p, q, off, need, span, next, last) && off < l.cluster && need > 0
    ensures RunsOn(l, img, first, p, q) && p.idx <= q.idx && 0 < span && off + span == l.Size(q.idx - p.idx + 1)
  {
  }

  lemma RunIsDone(l: Layout, img: seq<byte>, first: nat, p: Place, q: Place, off: nat, span: nat, next: Option<nat>,
                  pos: nat, done: nat, want: nat, out: array<byte>, n: nat, last: nat, w: Walked)
    requires OnDisk(l, img) && OnCourse(l, img, first, q, last, w) && done < want && pos + done == l.Size(p.idx) + off
    requires RunFound(l, img, first, p, q, off, want - done, span, next, last)
    requires n == done + Min(span, want - done) <= out.Length && Got(l, img, first, q.idx, pos, out, n)
    ensures RunDone(l, img, first, q, next, pos, out, n, want, last, w)
  {
    hide OnCourse, RunsOn, LinkOf, OnDisk, Layout.Size, Got;
    NextRunStarts(l, p, q, off, span);
  }

  /** After a run that was not enough, the next starts where it ended. */
  lemma OnToNext(l: Layout, img: seq<byte>, file: Entry, q: Place, next: Option<nat>, pos: nat, out: array<byte>,
                 n: nat, want: nat, last: nat, w: Walked)
    requires OnDisk(l, img) && n <= out.Length && n <= want
    requires RunDone(l, img, file.firstCluster, q, next, pos, out, n, want, last, w)
    ensures n < want ==> next.Some?
    ensures n == want ==>
              Got(l, img, file.firstCluster, last, pos, out, n) && HintTrue(l, img, file, Hint(q.idx, q.c)) && w.At?
    ensures n < want && q.steps + 1 > l.clusters ==> w == Failed(ChainLoops)
    ensures n < want && q.steps + 1 <= l.clusters ==>
              && OnCourse(l, img, file.firstCluster, Place(q.idx + 1, next.value, q.steps + 1), last, w)
              && Filled(l, img, file.firstCluster, q.idx + 1, pos, out, n)
  {
    var first := file.firstCluster;
    hide OnCourse, LinkOf, OnDisk, Layout.Size, Upto, Filled, Got;
    CourseStep(l, img, first, q, last, w);
    if n < want && q.steps + 1 <= l.clusters {
      NowFilled(l, img, first, q.idx, Place(q.idx + 1, next.value, q.steps + 1), pos, out, n, last, w);
    }
  }

  lemma GotWhole(l: Layout, img: seq<byte>, first: nat, idx: nat, out: array<byte>)
    requires OnDisk(l, img) && Got(l, img, first, idx, 0, out, out.Length)
    ensures out.Length <= |Upto(l, img, first, idx)| && out[..] == Upto(l, img, first, idx)[..out.Length]
  {
    assert out[..out.Length] == out[..];
  }

  lemma RunIsOnChain(l: Layout, img: seq<byte>, first: nat, p: Place, q: Place)
    requires OnDisk(l, img) && RunsOn(l, img, first, p, q)
    ensures p.idx <= q.idx && Upto(l, img, first, p.idx) <= Upto(l, img, first, q.idx)
  {
    hide OnDisk, Clusters, Upto;
    UptoGrows(l, img, first, p.idx, q.idx);
  }

  lemma AllUntouched(out: array<byte>)
    ensures Untouched(out[..], out, out.Length)
  {
  }

  lemma StartIsOnCourse(l: Layout, img: seq<byte>, file: Entry, idx: nat, hint: Hint, last: nat)
    requires OnDisk(l, img) && HintTrue(l, img, file, hint) && idx <= last
    requires l.Valid(StartOf(file, idx, hint).c)
    ensures var start := StartOf(file, idx, hint);
            && start.idx <= idx
            && OnCourse(l, img, file.firstCluster, start, last, Walk(l, img, start.c, last - start.idx, 0))
  {
    hide Walk, OnDisk;
  }

  lemma OnCourseAtFirst(l: Layout, img: seq<byte>, first: nat, last: nat)
    requires OnDisk(l, img) && l.Valid(first)
    ensures OnCourse(l, img, first, Place(0, first, 0), last, Walk(l, img, first, last, 0)) && l.Size(0) == 0
  {
    SizeStep(l, 0);
  }

  lemma NothingRead(l: Layout, img: seq<byte>, first: nat, p: Place, pos: nat, out: array<byte>, want: nat, last: nat,
                    w: Walked)
    requires OnDisk(l, img) && OnCourse(l, img, first, p, last, w) && want <= out.Length
    requires l.Size(p.idx) <= pos < l.Size(p.idx) + l.cluster
    ensures Filled(l, img, first, p.idx, pos, out, 0) && Untouched(out[..], out, want)
  {
    hide LinkOf, OnDisk, Layout.Size, Upto, Clusters;
    UptoReaches(l, img, first, p, last, w);
  }

  lemma WholeGoesOn(l: Layout, img: seq<byte>, first: nat, q: Place, next: Option<Place>, out: array<byte>, n: nat,
                    size: nat, last: nat, w: Walked)
    requires OnDisk(l, img) && n <= out.Length && n < size && WholeDone(l, img, first, q, next, out, n, size, last, w)
    ensures next.Some? && OnCourse(l, img, first, next.value, last, w)
    ensures l.Size(next.value.idx) == n && Filled(l, img, first, next.value.idx, 0, out, n)
  {
    hide OnCourse, LinkOf, OnDisk, Layout.Size, Filled, Got;
    NowFilled(l, img, first, q.idx, next.value, 0, out, n, last, w);
  }

  lemma WholeEnds(l: Layout, img: seq<byte>, first: nat, q: Place, next: Option<Place>, out: array<byte>, size: nat,
                  last: nat, w: Walked)
    requires OnDisk(l, img) && size <= out.Length && WholeDone(l, img, first, q, next, out, size, size, last, w)
    ensures w.At? && Got(l, img, first, last, 0, out, size)
  {
  }

  lemma NowFilled(l: Layout, img: seq<byte>, first: nat, idx: nat, p: Place, pos: nat, out: array<byte>, n: nat,
                  last: nat, w: Walked)
    requires OnDisk(l, img) && OnCourse(l, img, first, p, last, w) && p.idx == idx + 1 && n <= out.Length
    requires Got(l, img, first, idx, pos, out, n) && pos + n == l.Size(p.idx)
    ensures Filled(l, img, first, p.idx, pos, out, n)
  {
    assert l.cluster > 0;
    CourseStep(l, img, first, p, last, w);
    hide LinkOf, OnDisk, Layout.Size, Upto;
    UptoReaches(l, img, first, p, last, w);
    UptoGrows(l, img, first, idx, p.idx);
  }

  lemma NextRunStarts(l: Layout, p: Place, q: Place, off: nat, span: nat)
    requires p.idx <= q.idx && off + span == l.Size(q.idx - p.idx + 1)
    ensures l.Size(q.idx + 1) == l.Size(p.idx) + off + span
  {
    SizeSum(l, p.idx, q.idx - p.idx + 1);
  }

  lemma SizeStep(l: Layout, k: nat)
    ensures l.Size(k + 1) == l.Size(k) + l.cluster
    ensures l.Size(0) == 0 && l.Size(1) == l.cluster
  {
    MulPlus(k, 1, l.cluster);
  }

  lemma SizeSum(l: Layout, a: nat, b: nat)
    ensures l.Size(a + b) == l.Size(a) + l.Size(b)
  {
    MulPlus(a, b, l.cluster);
  }

  lemma SizeOrder(l: Layout, a: nat, b: nat)
    requires a <= b
    ensures l.Size(a) <= l.Size(b)
  {
    MulOrder(a, b, l.cluster);
  }

  lemma RunStarts(l: Layout, img: seq<byte>, first: nat, p: Place, last: nat, w: Walked)
    requires OnDisk(l, img) && OnCourse(l, img, first, p, last, w)
    ensures l.Valid(p.c) && RunsOn(l, img, first, p, p) && l.Size(1) == l.cluster
  {
    hide LinkOf, OnDisk;
  }

  /** While the run is short of what is needed, it is short of the last cluster. */
  lemma NotThereYet(l: Layout, p: Place, q: Place, off: nat, span: nat, need: nat, last: nat)
    requires p.idx <= q.idx && off + span == l.Size(q.idx - p.idx + 1) && span < need
    requires l.Size(p.idx) + off + need <= l.Size(last + 1)
    ensures q.idx < last
  {
    SizeSum(l, p.idx, q.idx - p.idx + 1);
    if last <= q.idx {
      SizeOrder(l, last + 1, q.idx + 1);
    }
    hide Layout.Size;
  }

  lemma ThereNow(l: Layout, p: Place, q: Place, off: nat, span: nat, need: nat, last: nat)
    requires p.idx <= q.idx <= last && off + span == l.Size(q.idx - p.idx + 1) && span >= need
    requires l.Size(last) < l.Size(p.idx) + off + need
    ensures q.idx == last
  {
    SizeSum(l, p.idx, q.idx - p.idx + 1);
    if q.idx < last {
      SizeOrder(l, q.idx + 1, last);
    }
    hide Layout.Size;
  }

  lemma RunLonger(l: Layout, img: seq<byte>, first: nat, p: Place, q: Place, n: nat)
    requires OnDisk(l, img) && RunsOn(l, img, first, p, q)
    requires Clusters(l, img, first, q.idx).value[q.idx] == q.c && l.Valid(q.c)
    requires LinkOf(l, img, q.c) == To(n) && n == q.c + 1
    ensures RunsOn(l, img, first, p, Place(q.idx + 1, n, q.steps + 1))
  {
    hide LinkOf, OnDisk;
  }

  function AsResult(link: Link): Result<Option<nat>, Error> {
    match link
    case To(next) => Ok(Some(next))
    case End => Ok(None)
    case Leaves => Err(ChainLeaves)
  }
}
