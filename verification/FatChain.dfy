/** Cluster chains as the bytes of the disk define them: the list a file's
    clusters make, their contents joined, and when a chain comes back to a
    cluster it has been at. */
module FatChain {
  import opened Bytes
  import opened Arith
  import opened FatLayout

  /** The volume is all on this disk. */
  predicate OnDisk(l: Layout, disk: seq<byte>) {
    l.Sound() && l.End() <= |disk|
  }

  datatype Link = To(cluster: nat) | End | Leaves

  /** What a FAT entry says comes after cluster `c`. */
  function LinkOf(l: Layout, disk: seq<byte>, c: nat): (link: Link)
    requires OnDisk(l, disk) && l.Valid(c)
    ensures link.To? ==> l.Valid(link.cluster)
  {
    EntriesAreInside(l, c);
    DecodeEntry(l, c, disk[l.fatAt + l.EntryAt(c)..l.fatAt + l.EntryAt(c) + l.EntryWidth()])
  }

  /** An entry's own bytes, decoded. */
  function DecodeEntry(l: Layout, c: nat, raw: seq<byte>): (link: Link)
    requires |raw| == l.EntryWidth()
    ensures link.To? ==> l.Valid(link.cluster)
  {
    LinkFor(l, EntryValue(l.kind, c, raw))
  }

  /** FAT12 packs two entries in three bytes; FAT32 keeps four bits for itself. */
  function EntryValue(kind: nat, c: nat, raw: seq<byte>): nat
    requires |raw| == if kind == 12 || kind == 16 then 2 else 4
  {
    if kind == 12 then (if c % 2 == 1 then Le16(raw, 0) / 16 else Le16(raw, 0) % 0x1000)
    else if kind == 16 then Le16(raw, 0)
    else Le32(raw, 0) % 0x1000_0000
  }

  function LinkFor(l: Layout, v: nat): (link: Link)
    ensures link.To? ==> l.Valid(link.cluster)
  {
    var end := if l.kind == 12 then 0xFF8 else if l.kind == 16 then 0xFFF8 else 0x0FFF_FFF8;
    if v >= end then End else if l.Valid(v) then To(v) else Leaves
  }

  /** The first `n + 1` clusters of the chain from `first`, if it has them. */
  function Clusters(l: Layout, disk: seq<byte>, first: nat, n: nat): (cs: Option<seq<nat>>)
    requires OnDisk(l, disk)
    ensures cs.Some? ==> |cs.value| == n + 1 && forall i :: 0 <= i <= n ==> l.Valid(cs.value[i])
  {
    if !l.Valid(first) then None
    else if n == 0 then Some([first])
    else
      var before := Clusters(l, disk, first, n - 1);
      if before.None? then None
      else
        match LinkOf(l, disk, before.value[n - 1])
        case To(next) => Some(before.value + [next])
        case _ => None
  }

  function ClusterBytes(l: Layout, disk: seq<byte>, c: nat): (b: seq<byte>)
    requires OnDisk(l, disk) && l.Valid(c)
    ensures |b| == l.cluster
  {
    ClustersAreInside(l, c);
    disk[l.ClusterAt(c)..l.ClusterAt(c) + l.cluster]
  }

  predicate AllValid(l: Layout, cs: seq<nat>) {
    forall i :: 0 <= i < |cs| ==> l.Valid(cs[i])
  }

  /** The clusters' contents, one after another. */
  function Contents(l: Layout, disk: seq<byte>, cs: seq<nat>): (b: seq<byte>)
    requires OnDisk(l, disk) && AllValid(l, cs)
    ensures |b| == |cs| * l.cluster
  {
    if cs == [] then []
    else
      MulPlus(|cs| - 1, 1, l.cluster);
      Contents(l, disk, cs[..|cs| - 1]) + ClusterBytes(l, disk, cs[|cs| - 1])
  }

  lemma {:induction false} ClustersPrefix(l: Layout, disk: seq<byte>, first: nat, m: nat, n: nat)
    requires OnDisk(l, disk) && m <= n && Clusters(l, disk, first, n).Some?
    ensures Clusters(l, disk, first, m).Some?
    ensures Clusters(l, disk, first, m).value == Clusters(l, disk, first, n).value[..m + 1]
  {
    hide LinkOf, Layout.Valid, OnDisk;
    var cs := Clusters(l, disk, first, n).value;
    if m == n {
      assert cs[..m + 1] == cs;
    } else {
      ClustersPrefix(l, disk, first, m, n - 1);
      var before := Clusters(l, disk, first, n - 1).value;
      assert cs[..m + 1] == before[..m + 1];
    }
  }

  /** A chain followed from its `m`th cluster is the rest of the chain. */
  lemma {:induction false} ClustersFrom(l: Layout, disk: seq<byte>, first: nat, m: nat, n: nat)
    requires OnDisk(l, disk) && Clusters(l, disk, first, m).Some?
    ensures var c := Clusters(l, disk, first, m).value[m];
            var rest, whole := Clusters(l, disk, c, n), Clusters(l, disk, first, m + n);
            && (rest.Some? <==> whole.Some?)
            && (rest.Some? ==> whole.value == Clusters(l, disk, first, m).value + rest.value[1..])
  {
    hide LinkOf, Layout.Valid, OnDisk;
    var c := Clusters(l, disk, first, m).value[m];
    var head := Clusters(l, disk, first, m).value;
    if n > 0 {
      ClustersFrom(l, disk, first, m, n - 1);
      var rest, whole := Clusters(l, disk, c, n - 1), Clusters(l, disk, first, m + n - 1);
      if rest.Some? {
        assert whole.value[m + n - 1] == rest.value[n - 1];
        var link := LinkOf(l, disk, rest.value[n - 1]);
        if link.To? {
          assert (rest.value + [link.cluster])[1..] == rest.value[1..] + [link.cluster];
        }
      }
    }
  }

  // ------------------------------------------------------ walking a chain

  /** What following `n` links comes to, counting steps from `steps`. */
  datatype Walked = At(cluster: nat) | Failed(error: Error)

  function Walk(l: Layout, disk: seq<byte>, c: nat, n: nat, steps: nat): (w: Walked)
    requires OnDisk(l, disk) && l.Valid(c)
    ensures w.At? ==> l.Valid(w.cluster)
    decreases n
  {
    if n == 0 then At(c)
    else
      match LinkOf(l, disk, c)
      case End => Failed(ChainEnds)
      case Leaves => Failed(ChainLeaves)
      case To(next) => if steps + 1 > l.clusters then Failed(ChainLoops) else Walk(l, disk, next, n - 1, steps + 1)
  }

  /** A walk gets there exactly when the chain does, within the step limit. */
  lemma {:induction false} WalkIsChain(l: Layout, disk: seq<byte>, c: nat, n: nat, steps: nat)
    requires OnDisk(l, disk) && l.Valid(c)
    ensures Walk(l, disk, c, n, steps).At? <==>
              Clusters(l, disk, c, n).Some? && (n == 0 || steps + n <= l.clusters)
    ensures Walk(l, disk, c, n, steps).At? ==> Walk(l, disk, c, n, steps).cluster == Clusters(l, disk, c, n).value[n]
    decreases n
  {
    hide LinkOf, Layout.Valid, OnDisk;
    if n > 0 {
      var link := LinkOf(l, disk, c);
      ClustersPrefixOne(l, disk, c);
      if link.To? {
        assert Clusters(l, disk, c, 1) == Some([c, link.cluster]);
        ClustersFrom(l, disk, c, 1, n - 1);
        if steps + 1 <= l.clusters {
          WalkIsChain(l, disk, link.cluster, n - 1, steps + 1);
        }
      } else if Clusters(l, disk, c, n).Some? {
        ClustersPrefix(l, disk, c, 1, n);
      }
    }
  }

  lemma ClustersPrefixOne(l: Layout, disk: seq<byte>, c: nat)
    requires OnDisk(l, disk) && l.Valid(c)
    ensures var link := LinkOf(l, disk, c);
            Clusters(l, disk, c, 1) == if link.To? then Some([c, link.cluster]) else None
  {
    hide LinkOf, OnDisk;
    var link := LinkOf(l, disk, c);
    assert Clusters(l, disk, c, 0) == Some([c]);
    assert link.To? ==> [c] + [link.cluster] == [c, link.cluster];
  }

  // --------------------------------------------------------------- loops

  /** Distinct clusters of a volume are no more than it has. */
  lemma {:induction false} Pigeonhole(cs: seq<nat>, lo: nat, count: nat)
    requires NoRepeats(cs) && forall i :: 0 <= i < |cs| ==> lo <= cs[i] < lo + count
    ensures |cs| <= count
    decreases count
  {
    if cs != [] {
      assert count > 0 by {
        assert lo <= cs[0] < lo + count;
      }
      var last := lo + count - 1;
      if last in cs {
        var k :| 0 <= k < |cs| && cs[k] == last;
        Pigeonhole(cs[..k] + cs[k + 1..], lo, count - 1);
      } else {
        Pigeonhole(cs, lo, count - 1);
      }
    }
  }

  /** The chain from `c` comes back to a cluster it has been at. */
  ghost predicate Revisits(l: Layout, disk: seq<byte>, c: nat)
    requires OnDisk(l, disk)
  {
    exists n :: Clusters(l, disk, c, n).Some? && !NoRepeats(Clusters(l, disk, c, n).value)
  }

  /** "The chain loops" is only ever said of a chain that does. */
  lemma {:induction false} LoopsIsTrue(l: Layout, disk: seq<byte>, c: nat, n: nat)
    requires OnDisk(l, disk) && l.Valid(c)
    requires Walk(l, disk, c, n, 0) == Failed(ChainLoops)
    ensures Revisits(l, disk, c)
  {
    LongWalk(l, disk, c, n, 0);
    var cs := Clusters(l, disk, c, l.clusters + 1).value;
    if NoRepeats(cs) {
      Pigeonhole(cs, 2, l.clusters);
    }
  }

  lemma {:induction false} LongWalk(l: Layout, disk: seq<byte>, c: nat, n: nat, steps: nat)
    requires OnDisk(l, disk) && l.Valid(c) && steps <= l.clusters
    requires Walk(l, disk, c, n, steps) == Failed(ChainLoops)
    ensures Clusters(l, disk, c, l.clusters + 1 - steps).Some?
    decreases n
  {
    hide LinkOf, Layout.Valid, OnDisk;
    ClustersPrefixOne(l, disk, c);
    var link := LinkOf(l, disk, c);
    if steps < l.clusters {
      LongWalk(l, disk, link.cluster, n - 1, steps + 1);
      ClustersFrom(l, disk, c, 1, l.clusters - steps);
    }
  }

  /** A chain without repeats is never refused: it gets as far as it goes,
      from wherever along it the walk starts. */
  lemma AcyclicIsWalked(l: Layout, disk: seq<byte>, first: nat, m: nat, n: nat)
    requires OnDisk(l, disk) && m <= n && Clusters(l, disk, first, n).Some?
    requires NoRepeats(Clusters(l, disk, first, n).value)
    ensures var cs := Clusters(l, disk, first, n).value;
            Walk(l, disk, cs[m], n - m, 0) == At(cs[n])
  {
    hide LinkOf, OnDisk, Walk;
    var cs := Clusters(l, disk, first, n).value;
    ClustersPrefix(l, disk, first, m, n);
    ClustersFrom(l, disk, first, m, n - m);
    WalkIsChain(l, disk, cs[m], n - m, 0);
    Pigeonhole(cs, 2, l.clusters);
  }

  // ------------------------------------------------------- runs of clusters

  lemma {:induction false} ContentsPrefix(l: Layout, disk: seq<byte>, cs: seq<nat>, n: nat)
    requires OnDisk(l, disk) && AllValid(l, cs) && n <= |cs|
    ensures n * l.cluster <= |cs| * l.cluster
    ensures Contents(l, disk, cs[..n]) == Contents(l, disk, cs)[..n * l.cluster]
  {
    MulOrder(n, |cs|, l.cluster);
    if n == |cs| {
      assert cs[..n] == cs;
    } else {
      ContentsPrefix(l, disk, cs[..|cs| - 1], n);
      MulOrder(n, |cs| - 1, l.cluster);
      assert cs[..|cs| - 1][..n] == cs[..n];
    }
  }

  lemma RunEnds(l: Layout, c: nat, run: nat)
    requires l.Sound() && run > 0 && l.Valid(c) && l.Valid(c + run - 1)
    ensures l.ClusterAt(c + run - 1) == l.ClusterAt(c) + (run - 1) * l.cluster
    ensures l.ClusterAt(c) + run * l.cluster == l.ClusterAt(c + run - 1) + l.cluster <= l.End()
  {
    MulPlus(c - 2, run - 1, l.cluster);
    MulPlus(run - 1, 1, l.cluster);
    ClustersAreInside(l, c + run - 1);
  }

  /** Clusters that follow one another in the chain and on the disk are one
      stretch of the disk. */
  lemma {:induction false} RunIsOneStretch(l: Layout, disk: seq<byte>, cs: seq<nat>, at: nat, run: nat)
    requires OnDisk(l, disk) && AllValid(l, cs) && at + run == |cs| && run > 0
    requires forall i :: at <= i < |cs| ==> cs[i] == cs[at] + (i - at)
    ensures l.ClusterAt(cs[at]) + run * l.cluster <= l.End()
    ensures at * l.cluster + run * l.cluster == |cs| * l.cluster
    ensures Contents(l, disk, cs)[at * l.cluster..]
         == disk[l.ClusterAt(cs[at])..l.ClusterAt(cs[at]) + run * l.cluster]
    decreases run
  {
    var c, last := cs[at], cs[|cs| - 1];
    MulPlus(at, run, l.cluster);
    RunEnds(l, c, run);
    var front := cs[..|cs| - 1];
    var size := l.cluster;
    assert Contents(l, disk, cs) == Contents(l, disk, front) + ClusterBytes(l, disk, last);
    if run == 1 {
      assert |Contents(l, disk, front)| == at * size;
    } else {
      RunIsOneStretch(l, disk, front, at, run - 1);
      Appended(Contents(l, disk, front), ClusterBytes(l, disk, last), at * size);
      MulPlus(run - 1, 1, size);
    }
  }

  lemma Appended(a: seq<byte>, b: seq<byte>, at: nat)
    requires at <= |a|
    ensures (a + b)[at..] == a[at..] + b
  {
  }
}
