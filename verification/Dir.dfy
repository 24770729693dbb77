/** Directory listings (`open_dir` and `next_entry` in `src/esp.rs`): 32-byte
    records read one at a time, of which only files and directories show. */
module Dirs {
  import opened Bytes
  import opened Arith
  import opened Disks
  import opened FatLayout
  import opened FatChain
  import opened Fats
  import opened Lfns

  datatype DirRef = Root | Chain(first: nat)

  /** A listed file or directory. */
  datatype Listed = Listed(entry: Entry, short: seq<byte>, long: bool, name: seq<nat>)

  function AttrOf(e: RawEntry): nat { e[11] as nat }

  function EntryOf(e: RawEntry, fat32: bool): Entry {
    Entry((if fat32 then Le16(e, 20) * 0x1_0000 else 0) + Le16(e, 26), Le32(e, 28), AttrOf(e) / 16 % 2 == 1)
  }

  /** 0x05 stands for a first byte of 0xE5. */
  function ShortOf(e: RawEntry): (s: seq<byte>)
    ensures |s| == 11
  {
    if e[0] == 0x05 then [0xE5] + e[1..11] else e[..11]
  }

  function TrimmedLength(part: seq<byte>): (n: nat)
    ensures n <= |part|
  {
    if part == [] || part[|part| - 1] != 0x20 then |part| else TrimmedLength(part[..|part| - 1])
  }

  function LowerUnit(c: byte): nat {
    if 0x41 <= c <= 0x5A then c as nat + 32 else c as nat
  }

  /** Half of an 8.3 name, with Windows NT's lower-case flag for it. */
  function Half(part: seq<byte>, lower: bool): seq<nat> {
    seq(TrimmedLength(part), i requires 0 <= i < TrimmedLength(part) =>
      if lower then LowerUnit(part[i]) else part[i] as nat)
  }

  function ShortName(e: RawEntry): seq<nat> {
    var s := ShortOf(e);
    var stem := Half(s[..8], e[12] as nat / 8 % 2 == 1);
    if s[8..11] == [0x20, 0x20, 0x20] then stem
    else stem + ['.' as nat] + Half(s[8..11], e[12] as nat / 16 % 2 == 1)
  }

  function ListedOf(a: Assembly, e: RawEntry, fat32: bool): Listed
    requires a.Sound()
  {
    var name := a.Name(Checksum(e[..11]));
    Listed(EntryOf(e, fat32), ShortOf(e), name.Some?, if name.Some? then name.value else ShortName(e))
  }

  /** What one record is to a listing: the end of it, nothing to show (with
      what it does to the long name under way), or an entry. */
  datatype Seen = Stop | Skip(a: Assembly) | Gives(listed: Listed) | Breaks

  function Look(a: Assembly, e: RawEntry, fat32: bool): (s: Seen)
    requires a.Sound()
    ensures s.Skip? ==> s.a.Sound()
  {
    if e[0] == 0x00 then Stop
    else if e[0] == 0xE5 then Skip(a.Reset())
    else if AttrOf(e) % 64 == 0x0F then (if a.Underflows(e) then Breaks else Skip(a.Push(e)))
    else if AttrOf(e) / 8 % 2 == 1 then Skip(a.Reset())
    else Gives(ListedOf(a, e, fat32))
  }

  /** Passing over records none of which shows; `None` if one does. */
  function SkipAll(a: Assembly, es: seq<RawEntry>, fat32: bool): (b: Option<Assembly>)
    requires a.Sound()
    ensures b.Some? ==> b.value.Sound()
  {
    if es == [] then Some(a)
    else
      var before := SkipAll(a, es[..|es| - 1], fat32);
      if before.None? then None
      else
        var s := Look(before.value, es[|es| - 1], fat32);
        if s.Skip? then Some(s.a) else None
  }

  /** The records one after another, as they are in the directory. */
  function Flat(es: seq<RawEntry>): (b: seq<byte>)
    ensures |b| == 32 * |es|
  {
    if es == [] then [] else Flat(es[..|es| - 1]) + es[|es| - 1]
  }

  /** The bytes of a directory: the fixed root area, or its clusters up to the `idx`th. */
  ghost function DirBytes(l: Layout, img: seq<byte>, dir: DirRef, idx: nat): seq<byte>
    requires OnDisk(l, img)
  {
    match dir
    case Root => RootAreaInside(l); img[l.rootAt..l.dataAt]
    case Chain(first) => Upto(l, img, first, idx)
  }

  lemma RootAreaInside(l: Layout)
    requires l.Sound()
    ensures l.base <= l.rootAt <= l.dataAt <= l.End()
  {
  }

  lemma Multiples(l: Layout)
    requires l.Sound()
    ensures l.rootLen % 32 == 0 && l.cluster % 32 == 0
  {
    SectorMultiple(l.rootLen, l.sector);
    SectorMultiple(l.cluster, l.sector);
  }

  lemma SectorMultiple(n: nat, sector: nat)
    requires sector == 512 || sector == 1024 || sector == 2048 || sector == 4096
    requires n % sector == 0
    ensures n % 32 == 0
  {
    Floor(n, sector);
    ProductMod(n / sector, sector, 32);
  }

  class DirCursor {
    const dir: DirRef
    var cluster: nat
    var at: nat
    var end: nat
    var steps: nat
    var done: bool
    const lfn: Lfn
    /** How many records are left before `end`. */
    ghost var left: nat

    /** How much of the directory is behind the cursor. */
    ghost function Behind(l: Layout): int
      reads this`at, this`end, this`steps
    {
      if dir.Root? then at - l.rootAt else l.Size(steps) + l.cluster - (end - at)
    }

    ghost predicate Valid(l: Layout, img: seq<byte>)
      requires OnDisk(l, img)
      reads this, lfn, lfn.units
    {
      && lfn.Valid() && at + 32 * left == end && steps <= l.clusters
      && match dir
         case Root => l.rootAt <= at && end == l.dataAt
         case Chain(first) =>
           && Clusters(l, img, first, steps).Some? && Clusters(l, img, first, steps).value[steps] == cluster
           && l.ClusterAt(cluster) <= at && end == l.ClusterAt(cluster) + l.cluster
    }

    constructor (dir: DirRef, cluster: nat, at: nat, length: nat)
      requires length % 32 == 0
      ensures this.dir == dir && this.cluster == cluster && this.at == at && end == at + length
      ensures at + 32 * left == end
      ensures steps == 0 && !done && fresh(lfn) && fresh(lfn.units) && lfn.Valid() && lfn.View() == NoName()
    {
      this.dir, this.cluster, this.at, end, left := dir, cluster, at, at + length, length / 32;
      steps, done := 0, false;
      lfn := new Lfn();
    }
  }

  /** A copy, to look ahead on. */
  method Clone(c: DirCursor, l: Layout, ghost img: seq<byte>) returns (d: DirCursor)
    requires OnDisk(l, img) && c.Valid(l, img)
    ensures fresh(d) && fresh(d.lfn) && fresh(d.lfn.units) && d.Valid(l, img)
    ensures d.dir == c.dir && d.done == c.done && d.steps == c.steps && d.at == c.at && d.end == c.end
    ensures d.lfn.View() == c.lfn.View()
  {
    hide OnDisk, Clusters, Layout.ClusterAt, Assembly.Sound, NoName;
    assert c.end - c.at == 32 * c.left;
    d := new DirCursor(c.dir, c.cluster, c.at, c.end - c.at);
    d.steps, d.done := c.steps, c.done;
    d.lfn.Become(c.lfn);
  }

  /** Which directory an entry means; cluster 0 stands for the root. */
  function RefOf(l: Layout, dir: Entry): DirRef {
    if dir.firstCluster == 0 then (if l.kind == 32 then Chain(l.rootCluster) else Root) else Chain(dir.firstCluster)
  }

  /** A cursor that has listed nothing of `dir` yet. */
  method OpenDir(fat: Fat, disk: Disk, dir: Entry) returns (r: Result<DirCursor, Error>)
    requires fat.Valid(disk)
    ensures r.Ok? ==>
              && fresh(r.value) && fresh(r.value.lfn) && fresh(r.value.lfn.units)
              && r.value.Valid(fat.l, fat.img) && !r.value.done && r.value.lfn.View() == NoName()
              && r.value.dir == RefOf(fat.l, dir) && r.value.Behind(fat.l) == 0
    ensures r.Err? ==> r.error == if dir.dir then StartsOutside else NotFound
    ensures r.Err? <==> !dir.dir || (RefOf(fat.l, dir).Chain? && !fat.l.Valid(RefOf(fat.l, dir).first))
  {
    if !dir.dir {
      return Err(NotFound);
    }
    var l := fat.l;
    Multiples(l);
    RootAreaInside(l);
    var ref := RefOf(l, dir);
    match ref {
      case Root =>
        var c := new DirCursor(ref, 0, l.rootAt, l.rootLen);
        return Ok(c);
      case Chain(first) =>
        if !l.Valid(first) {
          return Err(StartsOutside);
        }
        SizeStep(l, 0);
        var c := new DirCursor(ref, first, l.ClusterAt(first), l.cluster);
        assert Clusters(l, fat.img, first, 0) == Some([first]);
        return Ok(c);
    }
  }

  /** The records `passed` are what the directory holds from `from` to where the
      cursor is now. */
  ghost predicate Passed(l: Layout, img: seq<byte>, c: DirCursor, from: nat, passed: seq<RawEntry>)
    requires OnDisk(l, img)
    reads c`at, c`end, c`steps
  {
    && c.Behind(l) == from + 32 * |passed| <= |DirBytes(l, img, c.dir, c.steps)|
    && DirBytes(l, img, c.dir, c.steps)[from..from + 32 * |passed|] == Flat(passed)
  }

  /** Have a record in front of the cursor, in the next cluster if this one is
      used up; `more` is whether there is one. */
  method Forward(fat: Fat, disk: Disk, c: DirCursor, ghost from: nat, ghost passed: seq<RawEntry>)
    returns (r: Result<bool, Error>)
    requires fat.Valid(disk) && c.Valid(fat.l, fat.img) && !c.done && Passed(fat.l, fat.img, c, from, passed)
    modifies disk`bounce, disk`strays, disk.dev`faults, fat.fatCache`at, fat.fatCache.buf,
             c`cluster, c`at, c`end, c`steps, c`done, c`left
    ensures fat.Valid(disk) && disk.strays == old(disk.strays) && old(disk.dev.faults) <= disk.dev.faults
    ensures c.Valid(fat.l, fat.img) && Passed(fat.l, fat.img, c, from, passed) && old(c.steps) <= c.steps
    ensures r.Err? ==> ChainStuck(fat.l, fat.img, c, r.error)
    ensures disk.dev.faults == old(disk.dev.faults) && fat.l.End() <= |disk.dev.bytes| ==> r != Err(Io)
    ensures r == Ok(true) ==> !c.done && c.at < c.end
    ensures r == Ok(true) && old(c.steps) == c.steps ==> c.at == old(c.at) && c.end == old(c.end)
    ensures r == Ok(false) ==> c.done && ListingEnds(fat.l, fat.img, c)
  {
    hide Fat.Valid, OnDisk, Passed, Clusters, LinkOf, Layout.Size, Layout.ClusterAt, Layout.Valid;
    fat.ReadsADisk(disk);
    if c.at < c.end {
      r := Ok(true);
    } else if c.dir.Root? {
      c.done := true;
      r := Ok(false);
    } else {
      r := Onward(fat, disk, c, from, passed);
    }
  }

  /** Into the chain's next cluster. */
  method Onward(fat: Fat, disk: Disk, c: DirCursor, ghost from: nat, ghost passed: seq<RawEntry>)
    returns (r: Result<bool, Error>)
    requires fat.Valid(disk) && c.Valid(fat.l, fat.img) && !c.done && Passed(fat.l, fat.img, c, from, passed)
    requires c.dir.Chain? && c.at == c.end
    modifies disk`bounce, disk`strays, disk.dev`faults, fat.fatCache`at, fat.fatCache.buf,
             c`cluster, c`at, c`end, c`steps, c`done, c`left
    ensures fat.Valid(disk) && disk.strays == old(disk.strays) && old(disk.dev.faults) <= disk.dev.faults
    ensures c.Valid(fat.l, fat.img) && Passed(fat.l, fat.img, c, from, passed) && old(c.steps) <= c.steps
    ensures r == Ok(true) ==> !c.done && c.at < c.end && c.steps == old(c.steps) + 1
    ensures r.Err? ==> ChainStuck(fat.l, fat.img, c, r.error)
    ensures disk.dev.faults == old(disk.dev.faults) && fat.l.End() <= |disk.dev.bytes| ==> r != Err(Io)
    ensures r == Ok(false) ==> c.done && ListingEnds(fat.l, fat.img, c)
  {
    ghost var img := fat.img;
    assert OnDisk(fat.l, img) && fat.l.Valid(c.cluster);
    hide Fat.Valid, LinkOf, OnDisk, Clusters, Upto, Layout.Size, Layout.ClusterAt, Layout.Valid;
    var next := fat.Next(disk, c.cluster);
    if next.Err? {
      r := Err(next.error);
    } else if next.value.None? {
      c.done := true;
      r := Ok(false);
    } else {
      var n := next.value.value;
      if c.steps + 1 > fat.l.clusters {
        r := Err(ChainLoops);
      } else {
        Enter(fat.l, img, c, n, from, passed);
        r := Ok(true);
      }
    }
  }

  method Enter(l: Layout, ghost img: seq<byte>, c: DirCursor, n: nat, ghost from: nat, ghost passed: seq<RawEntry>)
    requires OnDisk(l, img) && c.Valid(l, img) && Passed(l, img, c, from, passed)
    requires c.dir.Chain? && c.at == c.end && c.steps + 1 <= l.clusters
    requires l.Valid(c.cluster) && LinkOf(l, img, c.cluster) == To(n)
    modifies c`cluster, c`at, c`end, c`steps, c`left
    ensures c.Valid(l, img) && Passed(l, img, c, from, passed)
    ensures c.at < c.end && c.steps == old(c.steps) + 1
  {
    NextCluster(l, img, c.dir.first, c.steps, c.cluster, n);
    hide LinkOf, OnDisk, Clusters, Upto, Layout.Size, Layout.Valid;
    c.steps := c.steps + 1;
    c.cluster := n;
    c.at := l.ClusterAt(n);
    c.end := c.at + l.cluster;
    c.left := l.cluster / 32;
  }

  /** Why there is nothing more: the root area is used up, or the chain ends. */
  ghost predicate ListingEnds(l: Layout, img: seq<byte>, c: DirCursor)
    requires OnDisk(l, img)
    reads c`at, c`end, c`cluster
  {
    c.at >= c.end && (c.dir.Chain? ==> l.Valid(c.cluster) && LinkOf(l, img, c.cluster) == End)
  }

  /** Why a listing cannot go on to another cluster: the device fails, or what
      the FAT has for the cluster it is at the end of is no cluster, or it has
      come to more clusters than the volume has. */
  ghost predicate ChainStuck(l: Layout, img: seq<byte>, c: DirCursor, e: Error)
    requires OnDisk(l, img)
    reads c`at, c`end, c`cluster, c`steps
  {
    || e == Io
    || (&& c.dir.Chain? && c.at >= c.end && l.Valid(c.cluster)
        && match LinkOf(l, img, c.cluster)
           case End => false
           case Leaves => e == ChainLeaves
           case To(_) => e == ChainLoops && c.steps + 1 > l.clusters)
  }

  lemma NextCluster(l: Layout, img: seq<byte>, first: nat, k: nat, c: nat, n: nat)
    requires OnDisk(l, img) && Clusters(l, img, first, k).Some? && Clusters(l, img, first, k).value[k] == c
    requires l.Valid(c) && LinkOf(l, img, c) == To(n)
    ensures Clusters(l, img, first, k + 1).Some? && Clusters(l, img, first, k + 1).value[k + 1] == n && l.Valid(n)
            && n >= 2
    ensures Upto(l, img, first, k) <= Upto(l, img, first, k + 1)
    ensures l.Size(k + 1) == l.Size(k) + l.cluster && l.cluster == 32 * (l.cluster / 32) > 0
    ensures |Upto(l, img, first, k)| == l.Size(k) + l.cluster
    ensures |Upto(l, img, first, k + 1)| == l.Size(k + 1) + l.cluster
  {
    Multiples(l);
    hide LinkOf, OnDisk;
    UptoGrows(l, img, first, k, k + 1);
    UptoGrows(l, img, first, k + 1, k + 1);
    SizeStep(l, k);
    SizeStep(l, k + 1);
  }

  /** The bytes in front of the cursor are the directory's next ones. */
  ghost predicate InFront(l: Layout, img: seq<byte>, c: DirCursor)
    requires OnDisk(l, img)
    reads c
  {
    var all, behind := DirBytes(l, img, c.dir, c.steps), c.Behind(l);
    && l.base <= c.at && c.at + 32 <= c.end <= l.End()
    && 0 <= behind && behind + 32 <= |all|
    && img[c.at..c.at + 32] == all[behind..behind + 32]
  }

  lemma RootInFront(l: Layout, img: seq<byte>, c: DirCursor)
    requires OnDisk(l, img) && c.Valid(l, img) && c.at < c.end && c.dir.Root?
    ensures InFront(l, img, c)
  {
    RootAreaInside(l);
    hide Layout.Sound, Layout.End;
    Sliced(img, l.rootAt, l.dataAt - l.rootAt, c.at - l.rootAt, 32);
  }

  lemma ChainInFront(l: Layout, img: seq<byte>, c: DirCursor)
    requires OnDisk(l, img) && c.Valid(l, img) && c.at < c.end && c.dir.Chain?
    ensures InFront(l, img, c)
  {
    var first, k := c.dir.first, c.steps;
    var p := Place(k, c.cluster, 0);
    ClustersAreInside(l, c.cluster);
    UptoGrows(l, img, first, k, k);
    SizeStep(l, k);
    SizeStep(l, 0);
    assert RunsOn(l, img, first, p, p);
    hide Upto, Clusters, Layout.Size, OnDisk, Layout.Sound, Layout.End, RunsOn;
    RunGives(l, img, first, p, p, c.at - l.ClusterAt(c.cluster), 32);
  }

  lemma RecordIsNext(l: Layout, img: seq<byte>, c: DirCursor, from: nat, passed: seq<RawEntry>, e: RawEntry)
    requires OnDisk(l, img) && InFront(l, img, c) && Passed(l, img, c, from, passed)
    requires e == img[c.at..c.at + 32]
    ensures DirBytes(l, img, c.dir, c.steps)[from..from + 32 * |passed + [e]|] == Flat(passed + [e])
  {
    hide DirBytes, OnDisk;
    var all, behind := DirBytes(l, img, c.dir, c.steps), from + 32 * |passed|;
    assert (passed + [e])[..|passed|] == passed;
    assert all[from..behind + 32] == all[from..behind] + all[behind..behind + 32];
  }

  /** The next record, and the cursor past it. */
  method ReadRecord(fat: Fat, disk: Disk, c: DirCursor, ghost from: nat, ghost passed: seq<RawEntry>)
    returns (ok: bool, e: RawEntry)
    requires fat.Valid(disk) && c.Valid(fat.l, fat.img) && Passed(fat.l, fat.img, c, from, passed) && c.at < c.end
    modifies disk`bounce, disk`strays, disk.dev`faults, fat.dirCache`at, fat.dirCache.buf, c`at, c`left
    ensures fat.Valid(disk) && disk.strays == old(disk.strays) && old(disk.dev.faults) <= disk.dev.faults
    ensures c.Valid(fat.l, fat.img)
    ensures if ok then Passed(fat.l, fat.img, c, from, passed + [e]) && c.at == old(c.at) + 32
            else Passed(fat.l, fat.img, c, from, passed) && c.at == old(c.at)
    ensures disk.dev.faults == old(disk.dev.faults) && fat.l.End() <= |disk.dev.bytes| ==> ok
  {
    hide Passed, DirCursor.Valid, OnDisk, DirBytes, DirCursor.Behind, Layout.End;
    fat.ReadsADisk(disk);
    CursorInFront(fat.l, fat.img, c);
    ok, e := LoadRecord(fat, disk, c.at);
    if ok {
      Past(fat.l, fat.img, c, e, from, passed);
    }
  }

  lemma CursorInFront(l: Layout, img: seq<byte>, c: DirCursor)
    requires OnDisk(l, img) && c.Valid(l, img) && c.at < c.end
    ensures InFront(l, img, c)
  {
    hide InFront;
    if c.dir.Root? {
      RootInFront(l, img, c);
    } else {
      ChainInFront(l, img, c);
    }
  }

  /** The cursor moves past the record just read. */
  method Past(l: Layout, ghost img: seq<byte>, c: DirCursor, e: RawEntry, ghost from: nat, ghost passed: seq<RawEntry>)
    requires OnDisk(l, img) && c.Valid(l, img) && c.at < c.end && InFront(l, img, c) && Passed(l, img, c, from, passed)
    requires e == img[c.at..c.at + 32]
    modifies c`at, c`left
    ensures c.Valid(l, img) && Passed(l, img, c, from, passed + [e]) && c.at == old(c.at) + 32
  {
    RecordIsNext(l, img, c, from, passed, e);
    hide Flat, DirBytes, Layout.Sound, Layout.End, Clusters, Layout.Size, Layout.ClusterAt, OnDisk;
    c.at, c.left := c.at + 32, c.left - 1;
  }

  method LoadRecord(fat: Fat, disk: Disk, at: nat) returns (ok: bool, e: RawEntry)
    requires fat.Valid(disk) && fat.l.base <= at && at + 32 <= fat.l.End()
    modifies disk`bounce, disk`strays, disk.dev`faults, fat.dirCache`at, fat.dirCache.buf
    ensures fat.Valid(disk) && disk.strays == old(disk.strays) && old(disk.dev.faults) <= disk.dev.faults
    ensures ok ==> e == fat.img[at..at + 32]
    ensures disk.dev.faults == old(disk.dev.faults) && fat.l.End() <= |disk.dev.bytes| ==> ok
  {
    EndIsAligned(fat.l);
    hide Layout.Sound, Layout.End;
    var raw := new byte[32];
    ok := Cached(disk, fat.dirCache, fat.l.base, fat.l.sector, at, raw, fat.img, fat.l.End());
    e := raw[..];
  }

  /** What a listing step comes to: the first record that shows, past records
      none of which does. */
  ghost predicate Answers(l: Layout, img: seq<byte>, c: DirCursor, a: Assembly, passed: seq<RawEntry>,
                          r: Result<Option<Listed>, Error>)
    requires OnDisk(l, img) && a.Sound()
    reads c, c.lfn, c.lfn.units
  {
    var n := |passed|;
    match r
    case Ok(Some(listed)) =>
      && n > 0
      && var before := SkipAll(a, passed[..n - 1], l.kind == 32);
         && before.Some? && Look(before.value, passed[n - 1], l.kind == 32) == Gives(listed)
         && c.lfn.View() == before.value.Reset()
    case Ok(None) =>
      && c.done
      && (|| (n > 0
              && var before := SkipAll(a, passed[..n - 1], l.kind == 32);
                 before.Some? && Look(before.value, passed[n - 1], l.kind == 32) == Stop)
          || (SkipAll(a, passed, l.kind == 32).Some? && ListingEnds(l, img, c)))
    case Err(e) => Stuck(l, img, c, a, passed, e)
  }

  /** Why a listing step fails: the chain cannot be followed past the records
      that do not show, or one of them counts below zero. */
  ghost predicate Stuck(l: Layout, img: seq<byte>, c: DirCursor, a: Assembly, passed: seq<RawEntry>, e: Error)
    requires OnDisk(l, img) && a.Sound()
    reads c`at, c`end, c`cluster, c`steps
  {
    var n := |passed|;
    if e == Underflow then
      && n > 0
      && var before := SkipAll(a, passed[..n - 1], l.kind == 32);
         before.Some? && Look(before.value, passed[n - 1], l.kind == 32) == Breaks
    else SkipAll(a, passed, l.kind == 32).Some? && ChainStuck(l, img, c, e)
  }

  lemma SkipOneMore(a: Assembly, passed: seq<RawEntry>, e: RawEntry, fat32: bool)
    requires a.Sound() && SkipAll(a, passed, fat32).Some?
    ensures (passed + [e])[..|passed + [e]| - 1] == passed && (passed + [e])[|passed|] == e
    ensures var s := Look(SkipAll(a, passed, fat32).value, e, fat32);
            s.Skip? ==> SkipAll(a, passed + [e], fat32) == Some(s.a)
  {
    assert (passed + [e])[..|passed|] == passed;
    hide Look;
  }

  lemma BehindStarts(l: Layout, img: seq<byte>, c: DirCursor)
    requires OnDisk(l, img) && c.Valid(l, img)
    ensures 0 <= c.Behind(l) <= |DirBytes(l, img, c.dir, c.steps)|
    ensures Passed(l, img, c, c.Behind(l), [])
  {
    if c.dir.Root? {
      RootAreaInside(l);
    } else {
      UptoGrows(l, img, c.dir.first, c.steps, c.steps);
      SizeStep(l, c.steps);
    }
    hide OnDisk, Upto, Layout.Size;
  }

  /** What a record does to the cursor. */
  method Digest(c: DirCursor, e: RawEntry, fat32: bool) returns (seen: Seen)
    requires c.lfn.Valid()
    modifies c`done, c.lfn, c.lfn.units
    ensures c.lfn.Valid() && seen == Look(old(c.lfn.View()), e, fat32)
    ensures seen.Skip? ==> c.lfn.View() == seen.a
    ensures seen.Gives? ==> c.lfn.View() == old(c.lfn.View()).Reset()
    ensures c.done == (old(c.done) || seen.Stop?)
  {
    hide ListedOf, Assembly.Push;
    if e[0] == 0x00 {
      c.done := true;
      seen := Stop;
    } else if e[0] == 0xE5 {
      c.lfn.Reset();
      seen := Skip(c.lfn.View());
    } else if AttrOf(e) % 64 == 0x0F {
      if c.lfn.View().Underflows(e) {
        return Breaks;
      }
      c.lfn.Push(e);
      seen := Skip(c.lfn.View());
    } else if AttrOf(e) / 8 % 2 == 1 {
      c.lfn.Reset();
      seen := Skip(c.lfn.View());
    } else {
      seen := Gives(ListedOf(c.lfn.View(), e, fat32));
      c.lfn.Reset();
    }
  }

  /** What the listing shows next, or that it is over.
      `passed` is every record this call went over. */
  method NextEntry(fat: Fat, disk: Disk, c: DirCursor)
    returns (r: Result<Option<Listed>, Error>, ghost passed: seq<RawEntry>)
    requires fat.Valid(disk) && c.Valid(fat.l, fat.img)
    modifies disk`bounce, disk`strays, disk.dev`faults, fat.fatCache`at, fat.fatCache.buf,
             fat.dirCache`at, fat.dirCache.buf, c`cluster, c`at, c`end, c`steps, c`done, c`left, c.lfn, c.lfn.units
    ensures fat.Valid(disk) && disk.strays == old(disk.strays) && old(disk.dev.faults) <= disk.dev.faults
    ensures c.Valid(fat.l, fat.img) && old(c.steps) <= c.steps
    ensures Passed(fat.l, fat.img, c, old(c.Behind(fat.l)), passed)
    ensures old(c.done) ==> r == Ok(None) && passed == [] && c.done
    ensures !old(c.done) ==> Answers(fat.l, fat.img, c, old(c.lfn.View()), passed, r)
    ensures r.Ok? && r.value.Some? ==>
              !c.done && (old(c.steps) < c.steps || (old(c.steps) == c.steps && c.left < old(c.left)))
    ensures disk.dev.faults == old(disk.dev.faults) && fat.l.End() <= |disk.dev.bytes| ==> r != Err(Io)
  {
    hide Fat.Valid, OnDisk, Passed, SkipAll, Look, ListingEnds, DirBytes, DirCursor.Behind, Assembly.Sound, Answers,
         CameTo, Stuck;
    fat.ReadsADisk(disk);
    ghost var steps, left, faults, strays := c.steps, c.left, disk.dev.faults, disk.strays;
    ghost var from, before := c.Behind(fat.l), c.lfn.View();
    passed, r := [], Ok(None);
    BehindStarts(fat.l, fat.img, c);
    NameUnderWay(fat.l, fat.img, c);
    if c.done {
      return;
    }
    var turn := Ok(Skipped);
    while turn == Ok(Skipped)
      invariant fat.Valid(disk) && disk.strays == strays && faults <= disk.dev.faults
      invariant turn == Ok(Skipped) ==> !c.done && SkipAll(before, passed, fat.l.kind == 32) == Some(c.lfn.View())
      invariant c.Valid(fat.l, fat.img) && Passed(fat.l, fat.img, c, from, passed) && steps <= c.steps
      invariant turn.Ok? && turn != Ok(Skipped) ==> CameTo(fat.l, fat.img, c, before, passed, turn.value)
      invariant turn.Err? ==> Stuck(fat.l, fat.img, c, before, passed, turn.error)
      invariant turn.Ok? && !turn.value.Ended? ==> steps < c.steps || (steps == c.steps && c.left <= left)
      invariant turn.Ok? && turn.value.Shown? ==> !c.done && (steps < c.steps || c.left < left)
      invariant disk.dev.faults == faults && fat.l.End() <= |disk.dev.bytes| ==> turn != Err(Io)
      decreases turn == Ok(Skipped), fat.l.clusters - c.steps, c.left
    {
      turn, passed := Turn(fat, disk, c, from, before, passed);
      if turn == Ok(Skipped) {
        StillSkipping(fat.l, fat.img, c, before, passed);
      }
    }
    r := Outcome(turn);
    GivesAnswer(fat.l, fat.img, c, before, passed, turn);
  }

  function Outcome(turn: Result<Turned, Error>): Result<Option<Listed>, Error> {
    match turn
    case Err(e) => Err(e)
    case Ok(Shown(listed)) => Ok(Some(listed))
    case Ok(_) => Ok(None)
  }

  lemma NameUnderWay(l: Layout, img: seq<byte>, c: DirCursor)
    requires OnDisk(l, img) && c.Valid(l, img)
    ensures c.lfn.View().Sound() && SkipAll(c.lfn.View(), [], l.kind == 32) == Some(c.lfn.View())
  {
  }

  lemma StillSkipping(l: Layout, img: seq<byte>, c: DirCursor, before: Assembly, passed: seq<RawEntry>)
    requires OnDisk(l, img) && before.Sound() && CameTo(l, img, c, before, passed, Skipped)
    ensures !c.done && SkipAll(before, passed, l.kind == 32) == Some(c.lfn.View())
  {
  }

  lemma GivesAnswer(l: Layout, img: seq<byte>, c: DirCursor, before: Assembly, passed: seq<RawEntry>,
                    turn: Result<Turned, Error>)
    requires OnDisk(l, img) && before.Sound() && turn != Ok(Skipped)
    requires turn.Ok? ==> CameTo(l, img, c, before, passed, turn.value)
    requires turn.Err? ==> Stuck(l, img, c, before, passed, turn.error)
    ensures Answers(l, img, c, before, passed, Outcome(turn))
  {
    hide SkipAll, Look, ListingEnds, Stuck;
  }

  datatype Turned = Skipped | Shown(listed: Listed) | Ended

  ghost predicate CameTo(l: Layout, img: seq<byte>, c: DirCursor, before: Assembly, more: seq<RawEntry>, t: Turned)
    requires OnDisk(l, img) && before.Sound()
    reads c, c.lfn, c.lfn.units
  {
    match t
    case Skipped => !c.done && SkipAll(before, more, l.kind == 32) == Some(c.lfn.View())
    case Shown(listed) => Answers(l, img, c, before, more, Ok(Some(listed)))
    case Ended => Answers(l, img, c, before, more, Ok(None))
  }

  function AsTurned(seen: Seen): Result<Turned, Error> {
    match seen
    case Stop => Ok(Ended)
    case Breaks => Err(Underflow)
    case Gives(listed) => Ok(Shown(listed))
    case Skip(_) => Ok(Skipped)
  }

  /** One round of the listing's loop. */
  method Turn(fat: Fat, disk: Disk, c: DirCursor, ghost from: nat, ghost before: Assembly, ghost passed: seq<RawEntry>)
    returns (r: Result<Turned, Error>, ghost more: seq<RawEntry>)
    requires fat.Valid(disk) && c.Valid(fat.l, fat.img) && !c.done && Passed(fat.l, fat.img, c, from, passed)
    requires before.Sound() && SkipAll(before, passed, fat.l.kind == 32) == Some(c.lfn.View())
    modifies disk`bounce, disk`strays, disk.dev`faults, fat.fatCache`at, fat.fatCache.buf,
             fat.dirCache`at, fat.dirCache.buf, c`cluster, c`at, c`end, c`steps, c`done, c`left, c.lfn, c.lfn.units
    ensures fat.Valid(disk) && disk.strays == old(disk.strays) && old(disk.dev.faults) <= disk.dev.faults
    ensures c.Valid(fat.l, fat.img) && Passed(fat.l, fat.img, c, from, more) && old(c.steps) <= c.steps
    ensures r.Ok? ==> CameTo(fat.l, fat.img, c, before, more, r.value)
    ensures r.Err? ==> Stuck(fat.l, fat.img, c, before, more, r.error)
    ensures disk.dev.faults == old(disk.dev.faults) && fat.l.End() <= |disk.dev.bytes| ==> r != Err(Io)
    ensures r.Ok? && !r.value.Ended? ==>
              !c.done && (old(c.steps) < c.steps || (old(c.steps) == c.steps && c.left < old(c.left)))
  {
    hide Fat.Valid, OnDisk, SkipAll, Look, DirBytes, Assembly.Sound, Passed, ListingEnds;
    fat.ReadsADisk(disk);
    more := passed;
    var record := NextRecord(fat, disk, c, from, passed);
    if record.Err? {
      r := Err(record.error);
    } else if record.value.None? {
      r := Ok(Ended);
    } else {
      more := passed + [record.value.value];
      r := Take(fat.l, fat.img, c, record.value.value, from, before, passed);
    }
  }

  /** What a record just read comes to. */
  method Take(l: Layout, ghost img: seq<byte>, c: DirCursor, e: RawEntry, ghost from: nat, ghost before: Assembly,
              ghost passed: seq<RawEntry>)
    returns (r: Result<Turned, Error>)
    requires OnDisk(l, img) && c.Valid(l, img) && !c.done && Passed(l, img, c, from, passed + [e])
    requires before.Sound() && SkipAll(before, passed, l.kind == 32) == Some(c.lfn.View())
    modifies c`done, c.lfn, c.lfn.units
    ensures c.Valid(l, img) && Passed(l, img, c, from, passed + [e])
    ensures r.Ok? ==> CameTo(l, img, c, before, passed + [e], r.value)
    ensures r.Err? ==> r.error == Underflow && Stuck(l, img, c, before, passed + [e], r.error)
    ensures r.Ok? && !r.value.Ended? ==> !c.done
  {
    SkipOneMore(before, passed, e, l.kind == 32);
    hide OnDisk, SkipAll, Look, Passed, ListingEnds, Clusters;
    var seen := Digest(c, e, l.kind == 32);
    r := AsTurned(seen);
  }

  /** The next record there is. */
  method NextRecord(fat: Fat, disk: Disk, c: DirCursor, ghost from: nat, ghost passed: seq<RawEntry>)
    returns (r: Result<Option<RawEntry>, Error>)
    requires fat.Valid(disk) && c.Valid(fat.l, fat.img) && !c.done && Passed(fat.l, fat.img, c, from, passed)
    modifies disk`bounce, disk`strays, disk.dev`faults, fat.fatCache`at, fat.fatCache.buf,
             fat.dirCache`at, fat.dirCache.buf, c`cluster, c`at, c`end, c`steps, c`done, c`left
    ensures fat.Valid(disk) && disk.strays == old(disk.strays) && old(disk.dev.faults) <= disk.dev.faults
    ensures c.Valid(fat.l, fat.img) && old(c.steps) <= c.steps
    ensures r.Err? ==> ChainStuck(fat.l, fat.img, c, r.error) && Passed(fat.l, fat.img, c, from, passed)
    ensures r.Ok? && r.value.Some? ==>
              && !c.done && Passed(fat.l, fat.img, c, from, passed + [r.value.value])
              && (old(c.steps) < c.steps || (old(c.steps) == c.steps && c.left < old(c.left)))
    ensures r == Ok(None) ==> c.done && ListingEnds(fat.l, fat.img, c) && Passed(fat.l, fat.img, c, from, passed)
    ensures disk.dev.faults == old(disk.dev.faults) && fat.l.End() <= |disk.dev.bytes| ==> r != Err(Io)
  {
    hide Fat.Valid, OnDisk, DirBytes, Passed, ListingEnds;
    fat.ReadsADisk(disk);
    var ahead := Forward(fat, disk, c, from, passed);
    if ahead.Err? {
      r := Err(ahead.error);
    } else if !ahead.value {
      r := Ok(None);
    } else {
      var ok, e := ReadRecord(fat, disk, c, from, passed);
      r := if ok then Ok(Some(e)) else Err(Io);
    }
  }

  // ------------------------------------------- a part that is numbered 0

  /** A long-name record: its first byte, which numbers it, and no units. */
  function PartNumbered(first: byte): RawEntry {
    seq(32, k requires 0 <= k < 32 => if k == 0 then first else if k == 11 then 0x0F else 0)
  }

  /** A complete name that a part numbered 0 follows, with the name's checksum,
      breaks a listing off. */
  lemma PartZeroBreaks(a: Assembly, e: RawEntry, fat32: bool)
    requires a.Sound() && a.Name(SumOf(e)).Some?
    requires AttrOf(e) % 64 == 0x0F && e[0] != 0x00 && SeqOf(e) == 0 && !IsLast(e)
    ensures Look(a, e, fat32) == Breaks
  {
    hide NameLength, Assembly.Push;
  }

  /** So these two records do: a name of one part, and a part 0. */
  lemma PartZeroBreaksOff(fat32: bool)
    ensures var one, zero := PartNumbered(0x41), PartNumbered(0x20);
            && SkipAll(NoName(), [one], fat32).Some?
            && Look(SkipAll(NoName(), [one], fat32).value, zero, fat32) == Breaks
  {
    hide NameLength, WithPart, NoUnits;
    var one, zero := PartNumbered(0x41), PartNumbered(0x20);
    var a := NoName().Push(one);
    assert SeqOf(one) == 1 && IsLast(one) && SumOf(one) == 0 && a.ok && a.next == 0 && a.sum == 0;
    assert Look(NoName(), one, fat32) == Skip(a);
    assert [one][..0] == [] && SkipAll(NoName(), [], fat32) == Some(NoName());
    assert SkipAll(NoName(), [one], fat32) == Some(a);
    PartZeroBreaks(a, zero, fat32);
  }
}
