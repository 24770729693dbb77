/** A FAT volume from its own side: where everything lies, said of the volume
    and its boot sector's bytes, and the proof that `Fat::mount` in `src/esp.rs`
    finds it there. */
module Geometry {
  import opened Bytes
  import opened Arith
  import opened LittleEndian
  import opened FatLayout
  import opened FatChain
  import opened FatTables

  // -------------------------------------------------------- the boot sector

  /** Each field fits its bytes. */
  predicate FieldsFit(g: BootSector) {
    && g.bps < 0x1_0000 && g.spc < 0x100 && g.reserved < 0x1_0000 && g.nfats < 0x100 && g.rootEntries < 0x1_0000
    && g.total < U32_LIMIT && g.fat16Size < 0x1_0000 && g.fat32Size < U32_LIMIT && g.flags < 0x1_0000
    && g.rootCluster < U32_LIMIT
  }

  /** The sector count, which a small volume may keep in two bytes. */
  predicate CountWritten(b: seq<byte>, total: nat)
    requires total < U32_LIMIT
  {
    || (0 < total < 0x1_0000 && Holds(b, 19, Two(total)))
    || (Holds(b, 19, Two(0)) && Holds(b, 32, Four(total)))
  }

  /** A boot sector with these fields written in it, and anything in between. */
  predicate WrittenIn(b: seq<byte>, g: BootSector) {
    && FieldsFit(g) && |b| == 512
    && Holds(b, 11, Two(g.bps)) && Holds(b, 13, [g.spc as byte]) && Holds(b, 14, Two(g.reserved))
    && Holds(b, 16, [g.nfats as byte]) && Holds(b, 17, Two(g.rootEntries)) && CountWritten(b, g.total)
    && Holds(b, 22, Two(g.fat16Size)) && Holds(b, 36, Four(g.fat32Size)) && Holds(b, 40, Two(g.flags))
    && Holds(b, 44, Four(g.rootCluster))
  }

  /** The fields are read back from their places. */
  lemma FieldsComeBack(b: seq<byte>, g: BootSector)
    requires WrittenIn(b, g)
    ensures BootSectorOf(b) == g
  {
    hide Le16, Le32, Two, Four, Holds;
    CountReads(b, g.total);
    TwoReads(b, 11, g.bps);
    ByteReads(b, 13, g.spc as byte);
    TwoReads(b, 14, g.reserved);
    ByteReads(b, 16, g.nfats as byte);
    TwoReads(b, 17, g.rootEntries);
    TwoReads(b, 22, g.fat16Size);
    FourReads(b, 36, g.fat32Size);
    TwoReads(b, 40, g.flags);
    FourReads(b, 44, g.rootCluster);
  }

  lemma CountReads(b: seq<byte>, total: nat)
    requires |b| == 512 && total < U32_LIMIT && CountWritten(b, total)
    ensures total == if Le16(b, 19) == 0 then Le32(b, 32) else Le16(b, 19)
  {
    hide Le16, Le32, Two, Four, Holds;
    if 0 < total < 0x1_0000 && Holds(b, 19, Two(total)) {
      TwoReads(b, 19, total);
    } else {
      TwoReads(b, 19, 0);
      FourReads(b, 32, total);
    }
  }

  // ----------------------------------------------------- where everything is

  /** What a volume's FAT takes of it, in sectors. */
  function FatSectors(g: BootSector): nat {
    if g.fat16Size != 0 then g.fat16Size else g.fat32Size
  }

  /** The FAT that counts, of those there are: the first, but a FAT32 volume may
      name another when its copies are not kept alike. */
  function Current(g: BootSector): nat {
    if g.fat16Size == 0 && g.flags / 0x80 % 2 == 1 then g.flags % 0x10 else 0
  }

  predicate Whole(n: nat, part: nat) {
    part > 0 && n % part == 0
  }

  /** The areas one after another: the reserved sectors, the FATs, a root area of
      as few sectors as its records need, and as many whole clusters as are left. */
  predicate LaidOut(g: BootSector, base: nat, l: Layout) {
    && l.base == base && l.sector == g.bps && l.cluster == g.spc * g.bps
    && l.fatAt == base + (g.reserved + Current(g) * FatSectors(g)) * g.bps
    && l.rootAt == base + (g.reserved + g.nfats * FatSectors(g)) * g.bps
    && l.rootLen - g.bps < g.rootEntries * 32 <= l.rootLen && Whole(l.rootLen, g.bps)
    && l.dataAt == l.rootAt + l.rootLen
    && l.dataAt + l.clusters * l.cluster <= base + g.total * g.bps < l.dataAt + (l.clusters + 1) * l.cluster
    && l.rootCluster == if l.kind == 32 then g.rootCluster else 0
  }

  /** How wide an entry is: 32 bits where there is no 16-bit FAT size, and
      otherwise the fewest in which every cluster's number is below the numbers that
      mean something else. */
  predicate WidthFits(g: BootSector, l: Layout) {
    && (l.kind == 32 <==> g.fat16Size == 0)
    && (l.kind == 12 <==> g.fat16Size != 0 && l.clusters + 2 < 0xFF7)
    && (l.kind == 16 <==> g.fat16Size != 0 && 0xFF7 <= l.clusters + 2 < 0xFFF7)
  }

  /** As few whole parts as take `n`. */
  lemma RoundedUp(n: nat, part: nat)
    requires part > 0
    ensures DivCeil(n, part) * part - part < n <= DivCeil(n, part) * part
  {
    Floor(n + part - 1, part);
  }

  /** Whole clusters, and less than one left over. */
  lemma WholeClusters(meta: nat, total: nat, spc: nat, bps: nat)
    requires bps > 0 && spc > 0 && meta < total
    ensures meta * bps + (total - meta) / spc * (spc * bps) <= total * bps
    ensures total * bps < meta * bps + ((total - meta) / spc + 1) * (spc * bps)
  {
    var n := (total - meta) / spc;
    Floor(total - meta, spc);
    MulPlus(n, 1, spc);
    assert n * (spc * bps) == n * spc * bps && (n + 1) * (spc * bps) == (n + 1) * spc * bps;
    MulPlus(meta, n * spc, bps);
    MulPlus(meta, (n + 1) * spc, bps);
    MulOrder(meta + n * spc, total, bps);
    MulOrder(total + 1, meta + (n + 1) * spc, bps);
    MulPlus(total, 1, bps);
  }

  /** Sectors and clusters of a size there is, a FAT that is there, and the root
      directory where its width has it. */
  predicate Sane(g: BootSector) {
    && (g.bps == 512 || g.bps == 1024 || g.bps == 2048 || g.bps == 4096)
    && (g.spc == 1 || g.spc == 2 || g.spc == 4 || g.spc == 8 || g.spc == 16 || g.spc == 32 || g.spc == 64
        || g.spc == 128)
    && g.reserved > 0 && g.nfats > 0 && FatSectors(g) > 0
    && (if g.fat16Size == 0 then g.rootEntries == 0 && Current(g) < g.nfats else g.rootEntries > 0)
  }

  /** The volume is laid out so, has data, and lies in its partition. */
  predicate Fits(g: BootSector, base: nat, len: nat, l: Layout) {
    && LaidOut(g, base, l) && WidthFits(g, l)
    && l.dataAt < base + g.total * g.bps <= base + len
    && (l.kind == 12 || l.kind == 16 || (l.kind == 32 && 2 <= g.rootCluster < l.clusters + 2))
  }

  lemma ShapeExactlyWhen(g: BootSector)
    requires FieldsFit(g)
    ensures PowerOfTwo(g.bps) && 512 <= g.bps <= 4096
       <==> g.bps == 512 || g.bps == 1024 || g.bps == 2048 || g.bps == 4096
  {
    assert PowerOfTwo(512) && PowerOfTwo(1024) && PowerOfTwo(2048) && PowerOfTwo(4096) by {
      assert PowerOfTwo(64) && PowerOfTwo(128) && PowerOfTwo(256);
    }
    if PowerOfTwo(g.bps) && 512 <= g.bps <= 4096 {
      SectorSizes(g.bps);
    }
  }

  lemma PowersOfAByte(n: nat)
    requires n < 0x100
    ensures PowerOfTwo(n)
       <==> n == 1 || n == 2 || n == 4 || n == 8 || n == 16 || n == 32 || n == 64 || n == 128
  {
    assert PowerOfTwo(1) && PowerOfTwo(2) && PowerOfTwo(4) && PowerOfTwo(8);
    assert PowerOfTwo(16) && PowerOfTwo(32) && PowerOfTwo(64) && PowerOfTwo(128);
    if PowerOfTwo(n) {
      var p := if n < 2 then 1 else if n < 4 then 2 else if n < 8 then 4 else if n < 16 then 8
               else if n < 32 then 16 else if n < 64 then 32 else if n < 128 then 64 else 128;
      PowersAreSparse(n, p);
    }
  }

  /** Whole parts that just take `n` are as many as it takes. */
  lemma RoundedUpIsOne(n: nat, part: nat, taken: nat)
    requires part > 0 && taken % part == 0 && taken - part < n <= taken
    ensures taken == DivCeil(n, part) * part
  {
    Floor(taken, part);
    var k := taken / part;
    assert taken == k * part;
    DivModUnique(n + part - 1, part, k, n + part - 1 - taken);
  }

  lemma CountIsOne(room: nat, cluster: nat, a: nat, b: nat)
    requires a * cluster <= room < (a + 1) * cluster && b * cluster <= room < (b + 1) * cluster
    ensures a == b
  {
    if a < b {
      MulOrder(a + 1, b, cluster);
    } else if b < a {
      MulOrder(b + 1, a, cluster);
    }
  }

  /** There is one layout that a boot sector can mean. */
  lemma OneLayout(g: BootSector, base: nat, l: Layout, m: Layout)
    requires g.bps > 0 && LaidOut(g, base, l) && LaidOut(g, base, m) && l.kind == m.kind
    ensures l == m
  {
    hide Current, FatSectors;
    RoundedUpIsOne(g.rootEntries * 32, g.bps, l.rootLen);
    RoundedUpIsOne(g.rootEntries * 32, g.bps, m.rootLen);
    hide DivCeil, Whole;
    CountIsOne(base + g.total * g.bps - l.dataAt, l.cluster, l.clusters, m.clusters);
  }

  /** The layout `mount` computes is the one, whatever else it checks. */
  lemma ComputedIsLaidOut(g: BootSector, base: nat)
    requires g.bps > 0 && g.spc > 0 && g.Meta() < g.total && (g.Kind() == 32 <==> g.fat16Size == 0)
    ensures LaidOut(g, base, g.LayoutAt(base)) && WidthFits(g, g.LayoutAt(base))
    ensures g.LayoutAt(base).dataAt == base + g.Meta() * g.bps
  {
    hide DivCeil;
    RoundedUp(g.rootEntries * 32, g.bps);
    WholeClusters(g.Meta(), g.total, g.spc, g.bps);
    MulPlus(g.FatsEnd(), g.RootSectors(), g.bps);
    MulMod(g.RootSectors(), g.bps);
  }

  /** A layout that fits has as many clusters as `mount` counts. */
  lemma FittingIsCounted(g: BootSector, base: nat, len: nat, l: Layout)
    requires g.bps > 0 && g.spc > 0 && Fits(g, base, len, l)
    ensures g.Meta() < g.total && l.clusters == g.Clusters() && l.kind == g.Kind()
  {
    RoundedUpIsOne(g.rootEntries * 32, g.bps, l.rootLen);
    MulPlus(g.FatsEnd(), g.RootSectors(), g.bps);
    if g.Meta() >= g.total {
      MulOrder(g.total, g.Meta(), g.bps);
    }
    WholeClusters(g.Meta(), g.total, g.spc, g.bps);
    hide DivCeil, Whole, BootSector.Meta, Current;
    CountIsOne(base + g.total * g.bps - l.dataAt, l.cluster, l.clusters, g.Clusters());
  }

  lemma FittingIsComputed(g: BootSector, base: nat, len: nat, l: Layout)
    requires g.bps > 0 && g.spc > 0 && Fits(g, base, len, l)
    ensures g.Meta() < g.total && l == g.LayoutAt(base)
  {
    FittingIsCounted(g, base, len, l);
    hide DivCeil, LaidOut, BootSector.Meta, BootSector.Clusters, BootSector.FatsEnd, BootSector.RootSectors;
    ComputedIsLaidOut(g, base);
    OneLayout(g, base, l, g.LayoutAt(base));
  }

  /** A boot sector mounts exactly when it is sane and there is a layout of its
      geometry that fits, and then as that. */
  lemma MountsExactlyWhen(g: BootSector, base: nat, len: nat, l: Layout)
    requires FieldsFit(g)
    ensures Judged(g, base, len) == Ok(l) <==> Sane(g) && Fits(g, base, len, l)
  {
    hide LaidOut, WidthFits, PowerOfTwo, DivCeil;
    ShapeExactlyWhen(g);
    PowersOfAByte(g.spc);
    if Judged(g, base, len) == Ok(l) {
      ComputedIsLaidOut(g, base);
    }
    if Sane(g) && Fits(g, base, len, l) {
      FittingIsComputed(g, base, len, l);
      FittingIsKind(g, l);
    }
  }

  lemma FittingIsKind(g: BootSector, l: Layout)
    requires WidthFits(g, l)
    ensures l.kind == 32 <==> g.fat16Size == 0
  {
  }

  /** A volume mounts as its boot sector's geometry lays it out. */
  lemma MountsAsWritten(b: seq<byte>, g: BootSector, base: nat, len: nat, l: Layout)
    requires WrittenIn(b, g)
    ensures LayoutOf(b, base, len) == Ok(l) <==> Sane(g) && Fits(g, base, len, l)
  {
    hide Judged, Fits, Sane, BootSectorOf;
    FieldsComeBack(b, g);
    MountsExactlyWhen(g, base, len, l);
  }

  // ------------------------------------------------------------ the clusters

  lemma PartOf(at: nat, k: nat, parts: nat, size: nat)
    requires size > 0 && at < parts * size
    ensures k < parts && k * size <= at < k * size + size <==> k == at / size
  {
    Floor(at, size);
    if at / size >= parts {
      MulOrder(parts, at / size, size);
    }
    if k * size <= at < k * size + size {
      DivModUnique(at, size, k, at - k * size);
    }
  }

  /** The clusters tile the data area: each of its bytes is in exactly one. */
  lemma ClustersTile(l: Layout, p: nat, c: nat)
    requires l.Sound() && l.dataAt <= p < l.End()
    ensures l.Valid(c) && l.ClusterAt(c) <= p < l.ClusterAt(c) + l.cluster
       <==> c == (p - l.dataAt) / l.cluster + 2
  {
    hide Layout.Sound;
    HasSize(l);
    var at := p - l.dataAt;
    if c >= 2 {
      PartOf(at, c - 2, l.clusters, l.cluster);
      assert l.ClusterAt(c) <= p < l.ClusterAt(c) + l.cluster
        <==> (c - 2) * l.cluster <= at < (c - 2) * l.cluster + l.cluster;
    } else {
      Floor(at, l.cluster);
    }
  }

  lemma HasSize(l: Layout)
    requires l.Sound()
    ensures l.cluster > 0
  {
  }

  /** Beside the data area the volume has less than a cluster left. */
  lemma LittleIsLeft(b: seq<byte>, g: BootSector, base: nat, len: nat)
    requires WrittenIn(b, g) && LayoutOf(b, base, len).Ok?
    ensures var l := LayoutOf(b, base, len).value;
            l.End() <= base + g.total * g.bps < l.End() + l.cluster
  {
    hide Holds, CountWritten, Judged, BootSectorOf, Sane;
    var l := LayoutOf(b, base, len).value;
    MountsAsWritten(b, g, base, len, l);
    MulPlus(l.clusters, 1, l.cluster);
  }

  /** How many numbers an entry can hold: 12, 16 or 28 bits of them. */
  function Numbers(kind: nat): nat {
    if kind == 12 then 0x1000 else if kind == 16 then 0x1_0000 else 0x1000_0000
  }

  /** The last eight numbers end a chain. */
  lemma MarksAreLast(l: Layout, v: nat)
    requires l.kind == 12 || l.kind == 16 || l.kind == 32
    ensures LinkFor(l, v) == FatChain.End <==> Numbers(l.kind) <= v + 8
  {
  }

  /** On a FAT12 or FAT16 volume that mounts every cluster can be linked to; on a
      FAT32 one exactly those whose number ends no chain. */
  lemma ClustersCanBeLinked(b: seq<byte>, base: nat, len: nat, c: nat)
    requires |b| == 512 && LayoutOf(b, base, len).Ok? && LayoutOf(b, base, len).value.Valid(c)
    ensures var l := LayoutOf(b, base, len).value;
            LinkFor(l, c) == To(c) <==> l.kind != 32 || c + 8 < Numbers(32)
  {
    hide DivCeil, PowerOfTwo, BootSector.Meta, BootSectorOf;
  }
}
