/** A FAT volume's layout, as its boot sector gives it (`Fat::mount` in
    `src/esp.rs`), and the proof that once it is accepted nothing the reader
    can ask for lies outside the volume. */
module FatLayout {
  import opened Bytes
  import opened Arith

  datatype Error =
    | Io                // the disk refused a read
    | NotFat            // not a FAT this reader accepts
    | NotFound
    | NotAFile
    | WrongSize         // a whole read into a buffer of another length
    | NoActiveFat
    | BadRoot           // the root's first cluster is no cluster
    | StartsOutside     // a file or directory starts outside the volume
    | ChainLeaves       // a link to no cluster
    | ChainEnds         // a chain too short for its file
    | ChainLoops
    | Underflow         // not an error of the source's: it panics there

  datatype Layout = Layout(
    base: nat,          // where the volume starts on the disk
    sector: nat,
    cluster: nat,       // in bytes
    kind: nat,          // 12, 16 or 32
    fatAt: nat,
    rootAt: nat,        // FAT12/16's fixed root area
    rootLen: nat,
    rootCluster: nat,
    dataAt: nat,
    clusters: nat)
  {
    predicate Valid(c: nat) {
      c >= 2 && c < clusters + 2
    }

    function ClusterAt(c: nat): nat
      requires c >= 2
    {
      dataAt + (c - 2) * cluster
    }

    /** Where the data area ends. */
    function End(): nat {
      dataAt + clusters * cluster
    }

    /** The size of `k` clusters. */
    function Size(k: nat): nat {
      k * cluster
    }

    /** Where a cluster's FAT entry is from the start of the FAT, and how long. */
    function EntryAt(c: nat): nat {
      if kind == 12 then c + c / 2 else if kind == 16 then c * 2 else c * 4
    }

    function EntryWidth(): nat {
      if kind == 12 || kind == 16 then 2 else 4
    }

    /** What every accepted volume keeps: whole sectors, the FAT, the root area
        and the data area in that order. */
    predicate Sound() {
      && (sector == 512 || sector == 1024 || sector == 2048 || sector == 4096)
      && sector <= cluster && cluster % sector == 0
      && (kind == 12 || kind == 16 || kind == 32)
      && base <= fatAt && (fatAt - base) % sector == 0
      && fatAt + sector <= rootAt && (rootAt - base) % sector == 0
      && rootLen % sector == 0
      && dataAt == rootAt + rootLen
      && clusters < U32_LIMIT
      && (kind == 32 ==> Valid(rootCluster))
    }
  }

  /** The boot sector's fields that matter here. */
  datatype BootSector = BootSector(
    bps: nat,           // bytes per sector
    spc: nat,           // sectors per cluster
    reserved: nat,
    nfats: nat,
    rootEntries: nat,
    total: nat,
    fat16Size: nat,
    fat32Size: nat,
    flags: nat,
    rootCluster: nat)
  {
    function FatSize(): nat {
      if fat16Size != 0 then fat16Size else fat32Size
    }

    function FatsEnd(): nat {
      reserved + nfats * FatSize()
    }

    function RootSectors(): nat
      requires bps > 0
    {
      DivCeil(rootEntries * 32, bps)
    }

    function Meta(): nat
      requires bps > 0
    {
      FatsEnd() + RootSectors()
    }

    function Clusters(): nat
      requires bps > 0 && spc > 0 && Meta() < total
    {
      (total - Meta()) / spc
    }

    function Kind(): nat
      requires bps > 0 && spc > 0 && Meta() < total
    {
      if fat16Size == 0 then 32 else if Clusters() < 4085 then 12 else if Clusters() < 65525 then 16 else 32
    }

    /** Which FAT is current: with mirroring off, only the active one. */
    function ActiveFat(kind: nat): nat {
      if kind == 32 && flags / 128 % 2 == 1 then flags % 16 else 0
    }

    predicate ShapeOk()
    {
      && PowerOfTwo(bps) && 512 <= bps <= 4096
      && spc > 0 && PowerOfTwo(spc)
      && reserved > 0 && nfats > 0
      && total > 0 && FatSize() > 0
    }

    predicate FitsIn(len: nat)
      requires bps > 0
    {
      Meta() < total && total * bps <= len
    }

    predicate RootOk(kind: nat) {
      if kind == 32 then rootEntries == 0 && fat16Size == 0 else rootEntries != 0
    }

    function LayoutAt(base: nat): Layout
      requires bps > 0 && spc > 0 && Meta() < total
    {
      var kind := Kind();
      var rootAt := base + FatsEnd() * bps;
      var rootLen := RootSectors() * bps;
      Layout(base, bps, spc * bps, kind, base + (reserved + ActiveFat(kind) * FatSize()) * bps, rootAt, rootLen,
             if kind == 32 then rootCluster else 0, rootAt + rootLen, Clusters())
    }
  }

  function BootSectorOf(b: seq<byte>): BootSector
    requires |b| == 512
  {
    BootSector(Le16(b, 11), b[13] as nat, Le16(b, 14), b[16] as nat, Le16(b, 17),
               if Le16(b, 19) == 0 then Le32(b, 32) else Le16(b, 19),
               Le16(b, 22), Le32(b, 36), Le16(b, 40), Le32(b, 44))
  }

  /** `mount`'s judgement of a boot sector, check by check. */
  function Judged(s: BootSector, base: nat, len: nat): Result<Layout, Error> {
    if !s.ShapeOk() || !s.FitsIn(len) then Err(NotFat)
    else
      var l := s.LayoutAt(base);
      if !s.RootOk(l.kind) then Err(NotFat)
      else if s.ActiveFat(l.kind) >= s.nfats then Err(NoActiveFat)
      else if l.kind == 32 && !l.Valid(l.rootCluster) then Err(BadRoot)
      else Ok(l)
  }

  function LayoutOf(b: seq<byte>, base: nat, len: nat): Result<Layout, Error>
    requires |b| == 512
  {
    Judged(BootSectorOf(b), base, len)
  }

  lemma Le32Bound(b: seq<byte>, at: nat)
    requires at + 4 <= |b|
    ensures Le32(b, at) < U32_LIMIT
  {
  }

  /** There is one power of two between another and its double. */
  lemma {:induction false} PowersAreSparse(n: nat, p: nat)
    requires PowerOfTwo(n) && PowerOfTwo(p) && p <= n < 2 * p
    ensures n == p
  {
    if p > 1 {
      PowersAreSparse(n / 2, p / 2);
    }
  }

  lemma SectorSizes(bps: nat)
    requires PowerOfTwo(bps) && 512 <= bps <= 4096
    ensures bps == 512 || bps == 1024 || bps == 2048 || bps == 4096
  {
    assert PowerOfTwo(512) && PowerOfTwo(1024) && PowerOfTwo(2048) && PowerOfTwo(4096);
    PowersAreSparse(bps, if bps < 1024 then 512 else if bps < 2048 then 1024 else if bps < 4096 then 2048 else 4096);
  }

  /** The arithmetic of the checks, on their own. */
  lemma AreasInOrder(bps: nat, spc: nat, reserved: nat, nfats: nat, fatSize: nat, rootSectors: nat,
                     total: nat, active: nat, len: nat)
    requires bps > 0 && spc > 0 && fatSize > 0 && active < nfats
    requires reserved + nfats * fatSize + rootSectors < total && total * bps <= len
    ensures var meta := reserved + nfats * fatSize + rootSectors;
            && (reserved + active * fatSize) * bps + bps <= (reserved + nfats * fatSize) * bps
            && (reserved + nfats * fatSize) * bps + rootSectors * bps + (total - meta) / spc * (spc * bps) <= len
            && (total - meta) / spc <= total
  {
    var meta := reserved + nfats * fatSize + rootSectors;
    var clusters := (total - meta) / spc;
    MulOrder(active + 1, nfats, fatSize);
    MulPlus(active, 1, fatSize);
    MulOrder(reserved + active * fatSize + 1, reserved + nfats * fatSize, bps);
    MulPlus(reserved + active * fatSize, 1, bps);
    Floor(total - meta, spc);
    assert clusters * (spc * bps) == clusters * spc * bps;
    MulOrder(meta + clusters * spc, total, bps);
    MulPlus(meta, clusters * spc, bps);
    MulPlus(reserved + nfats * fatSize, rootSectors, bps);
    Smaller(total - meta, spc);
  }

  lemma Smaller(a: nat, b: nat)
    requires b > 0
    ensures a / b <= a
  {
    Floor(a, b);
    if a / b > a {
      MulOrder(1, b, a / b);
    }
  }

  /** A volume that mounts is laid out in order, and its data area ends inside
      the partition. */
  lemma MountedIsSound(b: seq<byte>, base: nat, len: nat)
    requires |b| == 512 && LayoutOf(b, base, len).Ok?
    ensures var l := LayoutOf(b, base, len).value;
            l.Sound() && l.base == base && l.End() <= base + len
  {
    Le32Bound(b, 32);
    Le32Bound(b, 36);
    hide Le16, Le32;
    JudgedFits(BootSectorOf(b), base, len);
    JudgedIsSound(BootSectorOf(b), base, len);
  }

  /** The same, in the boot sector's terms. */
  lemma AreasOf(s: BootSector, active: nat, len: nat)
    requires s.ShapeOk() && s.FitsIn(len) && active < s.nfats
    ensures (s.reserved + active * s.FatSize()) * s.bps + s.bps <= s.FatsEnd() * s.bps
    ensures s.FatsEnd() * s.bps + s.RootSectors() * s.bps + s.Clusters() * (s.spc * s.bps) <= len
    ensures s.Clusters() <= s.total
  {
    hide PowerOfTwo, DivCeil;
    AreasInOrder(s.bps, s.spc, s.reserved, s.nfats, s.FatSize(), s.RootSectors(), s.total, active, len);
  }

  lemma JudgedFits(s: BootSector, base: nat, len: nat)
    requires Judged(s, base, len).Ok? && s.total < U32_LIMIT
    ensures var l := Judged(s, base, len).value;
            l.base == base && l.End() <= base + len && l.clusters < U32_LIMIT && l.fatAt + l.sector <= l.rootAt
  {
    var active := s.ActiveFat(s.LayoutAt(base).kind);
    AreasOf(s, active, len);
    hide PowerOfTwo, DivCeil, BootSector.FatsEnd, BootSector.RootSectors, BootSector.Clusters, BootSector.FatSize,
         BootSector.Meta;
  }

  lemma WholeSectors(s: BootSector, base: nat)
    requires s.bps > 0 && s.spc > 0 && s.Meta() < s.total
    ensures var l := s.LayoutAt(base);
            && base <= l.fatAt && (l.fatAt - base) % l.sector == 0
            && base <= l.rootAt && (l.rootAt - base) % l.sector == 0
            && l.rootLen % l.sector == 0
            && l.cluster % l.sector == 0 && l.sector <= l.cluster
  {
    var active := s.ActiveFat(s.LayoutAt(base).kind);
    MulMod(s.reserved + active * s.FatSize(), s.bps);
    MulMod(s.FatsEnd(), s.bps);
    MulMod(s.RootSectors(), s.bps);
    MulMod(s.spc, s.bps);
    MulOrder(1, s.spc, s.bps);
    hide PowerOfTwo, DivCeil, BootSector.FatsEnd, BootSector.RootSectors, BootSector.Clusters, BootSector.FatSize,
         BootSector.Meta;
  }

  lemma JudgedIsSound(s: BootSector, base: nat, len: nat)
    requires Judged(s, base, len).Ok? && s.total < U32_LIMIT
    ensures Judged(s, base, len).value.Sound()
  {
    JudgedFits(s, base, len);
    SectorSizes(s.bps);
    WholeSectors(s, base);
    KindAndData(s, base);
    hide PowerOfTwo, BootSector.LayoutAt, BootSector.FatsEnd, BootSector.RootSectors, BootSector.FatSize,
         BootSector.Meta;
  }

  lemma KindAndData(s: BootSector, base: nat)
    requires s.bps > 0 && s.spc > 0 && s.Meta() < s.total
    ensures var l := s.LayoutAt(base);
            && l.sector == s.bps && l.dataAt == l.rootAt + l.rootLen
            && (l.kind == 12 || l.kind == 16 || l.kind == 32)
  {
    hide DivCeil, BootSector.FatsEnd, BootSector.RootSectors, BootSector.Clusters, BootSector.FatSize, BootSector.Meta;
  }

  /** The FAT size is never compared with the cluster count, yet every FAT
      entry the reader looks up is inside the volume: a cluster is 512 bytes or
      more, and its entry takes four or less. */
  lemma EntriesAreInside(l: Layout, c: nat)
    requires l.Sound() && l.Valid(c)
    ensures l.fatAt + l.EntryAt(c) + l.EntryWidth() <= l.End()
  {
    MulOrder(512, l.cluster, l.clusters);
  }

  /** So is every cluster. */
  lemma ClustersAreInside(l: Layout, c: nat)
    requires l.Sound() && l.Valid(c)
    ensures l.base <= l.ClusterAt(c) && l.dataAt <= l.ClusterAt(c) && l.ClusterAt(c) + l.cluster <= l.End()
    ensures l.ClusterAt(c + 1) == l.ClusterAt(c) + l.cluster
  {
    hide Layout.Sound;
    DataIsInside(l);
    var k := c - 2;
    assert l.ClusterAt(c + 1) == l.dataAt + (k + 1) * l.cluster;
    MulPlus(k, 1, l.cluster);
    MulOrder(k + 1, l.clusters, l.cluster);
  }

  lemma DataIsInside(l: Layout)
    requires l.Sound()
    ensures l.base <= l.dataAt
  {
  }

  /** The volume is whole sectors from its base to its end. */
  lemma EndIsAligned(l: Layout)
    requires l.Sound()
    ensures l.base <= l.End() && (l.End() - l.base) % l.sector == 0
    ensures (l.dataAt - l.base) % l.sector == 0
  {
    SumMod(l.rootAt - l.base, l.rootLen, l.sector);
    ProductMod(l.clusters, l.cluster, l.sector);
    SumMod(l.dataAt - l.base, l.clusters * l.cluster, l.sector);
  }
}
