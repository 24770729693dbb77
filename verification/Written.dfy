/** A file as whoever wrote the volume put it there: its links in the FAT, its
    bytes in its clusters. What `read_at` in `src/esp.rs` makes of it is that
    file. */
module Written {
  import opened Bytes
  import opened Arith
  import opened LittleEndian
  import opened FatLayout
  import opened FatChain
  import opened FatTables
  import opened Fats
  import opened Geometry
  import opened Dirs

  /** The chain is entered in the table: each cluster's entry has the next one's
      number, the last one's a mark. FAT32 keeps the top four bits for itself. */
  predicate ChainWritten(l: Layout, vs: seq<nat>, cs: seq<nat>) {
    var numbers := Numbers(l.kind);
    && cs != []
    && (forall i :: 0 <= i < |cs| ==> 2 <= cs[i] < l.clusters + 2 && cs[i] < |vs| && cs[i] + 8 < numbers)
    && (forall i :: 0 <= i < |cs| - 1 ==> vs[cs[i]] % numbers == cs[i + 1])
    && numbers <= vs[cs[|cs| - 1]] % numbers + 8
  }

  predicate TableWritten(l: Layout, img: seq<byte>, vs: seq<nat>) {
    Fit(vs, l.kind) && Holds(img, l.fatAt, Table(vs, l.kind))
  }

  /** A cluster's worth of the file in each of its clusters. */
  predicate DataWritten(l: Layout, img: seq<byte>, cs: seq<nat>, pieces: seq<seq<byte>>)
    requires forall i :: 0 <= i < |cs| ==> cs[i] >= 2
  {
    && |pieces| == |cs|
    && forall i :: 0 <= i < |cs| ==>
         |pieces[i]| == l.cluster && Holds(img, l.dataAt + (cs[i] - 2) * l.cluster, pieces[i])
  }

  /** The volume has a file of these clusters. */
  predicate FileWritten(l: Layout, img: seq<byte>, vs: seq<nat>, cs: seq<nat>, pieces: seq<seq<byte>>) {
    OnDisk(l, img) && TableWritten(l, img, vs) && ChainWritten(l, vs, cs) && DataWritten(l, img, cs, pieces)
  }

  lemma LinksAsWritten(l: Layout, img: seq<byte>, vs: seq<nat>, cs: seq<nat>, i: nat)
    requires OnDisk(l, img) && TableWritten(l, img, vs) && ChainWritten(l, vs, cs) && i < |cs|
    ensures l.Valid(cs[i]) && LinkOf(l, img, cs[i]) == if i + 1 < |cs| then To(cs[i + 1]) else FatChain.End
  {
    hide Table, LinkOf;
    LinkIsAsWritten(l, img, vs, cs[i]);
    EntryFits(vs, l.kind, cs[i]);
    var v := vs[cs[i]] % Numbers(l.kind);
    hide Layout.Sound, Fit;
    MarksAreLast(l, v);
  }

  lemma EntryFits(vs: seq<nat>, kind: nat, c: nat)
    requires Fit(vs, kind) && c < |vs| && (kind == 12 || kind == 16 || kind == 32)
    ensures (if kind == 32 then vs[c] % 0x1000_0000 else vs[c]) == vs[c] % Numbers(kind)
  {
  }

  /** The chain from its first cluster is the chain as written, and there ends. */
  lemma {:induction false} ChainAsWritten(l: Layout, img: seq<byte>, vs: seq<nat>, cs: seq<nat>, k: nat)
    requires OnDisk(l, img) && TableWritten(l, img, vs) && ChainWritten(l, vs, cs) && k < |cs|
    ensures Clusters(l, img, cs[0], k) == Some(cs[..k + 1])
  {
    hide OnDisk, TableWritten, LinkOf;
    if k == 0 {
      assert cs[..1] == [cs[0]];
    } else {
      ChainAsWritten(l, img, vs, cs, k - 1);
      LinksAsWritten(l, img, vs, cs, k - 1);
      assert cs[..k][k - 1] == cs[k - 1] && cs[..k] + [cs[k]] == cs[..k + 1];
    }
  }

  lemma ClusterAsWritten(l: Layout, img: seq<byte>, cs: seq<nat>, pieces: seq<seq<byte>>, i: nat)
    requires OnDisk(l, img) && AllValid(l, cs) && DataWritten(l, img, cs, pieces) && i < |cs|
    ensures ClusterBytes(l, img, cs[i]) == pieces[i]
  {
    hide OnDisk;
  }

  lemma {:induction false} ContentsAsWritten(l: Layout, img: seq<byte>, cs: seq<nat>, pieces: seq<seq<byte>>, n: nat)
    requires OnDisk(l, img) && AllValid(l, cs) && DataWritten(l, img, cs, pieces) && n <= |cs|
    ensures Contents(l, img, cs[..n]) == Concat(pieces[..n])
  {
    hide OnDisk, ClusterBytes;
    if n > 0 {
      ContentsAsWritten(l, img, cs, pieces, n - 1);
      ClusterAsWritten(l, img, cs, pieces, n - 1);
      assert cs[..n][..n - 1] == cs[..n - 1] && pieces[..n][..n - 1] == pieces[..n - 1];
    }
  }

  /** All of the chain, and that it is long enough. */
  lemma WholeFile(l: Layout, img: seq<byte>, vs: seq<nat>, cs: seq<nat>, pieces: seq<seq<byte>>)
    requires FileWritten(l, img, vs, cs, pieces)
    ensures Clusters(l, img, cs[0], |cs| - 1) == Some(cs)
    ensures Upto(l, img, cs[0], |cs| - 1) == Concat(pieces) && |Concat(pieces)| == l.Size(|cs|)
  {
    hide OnDisk, TableWritten, Contents, Concat;
    ChainAsWritten(l, img, vs, cs, |cs| - 1);
    assert cs[..|cs|] == cs && pieces[..|cs|] == pieces;
    ContentsAsWritten(l, img, cs, pieces, |cs|);
  }

  lemma LastIsThere(l: Layout, size: nat, count: nat)
    requires l.cluster > 0 && 0 < size <= l.Size(count)
    ensures LastOf(l, 0, size) < count
  {
    LastBounds(l, 0, size);
    hide LastOf;
    if count <= LastOf(l, 0, size) {
      MulOrder(count, LastOf(l, 0, size), l.cluster);
    }
  }

  /** On a disk that reads, a read comes to this part of the data. */
  ghost predicate ReadsAs(l: Layout, img: seq<byte>, file: Entry, pos: nat, n: nat, hint: Hint, data: seq<byte>)
    requires OnDisk(l, img) && HintTrue(l, img, file, hint) && pos < |data| && n > 0
  {
    var m := Min(n, |data| - pos);
    var there := Upto(l, img, file.firstCluster, LastOf(l, pos, m));
    && ReadOutcome(l, img, file, pos, n, hint) == Ok(m)
    && pos + m <= |there| && there[pos..pos + m] == data[pos..pos + m]
  }

  /** Any part of the file, read with any true hint, is that part of what was
      written. */
  lemma WrittenFileIsRead(l: Layout, img: seq<byte>, vs: seq<nat>, cs: seq<nat>, pieces: seq<seq<byte>>,
                          data: seq<byte>, pos: nat, n: nat, hint: Hint)
    requires FileWritten(l, img, vs, cs, pieces) && NoRepeats(cs) && data <= Concat(pieces)
    requires pos < |data| && n > 0
    requires HintTrue(l, img, Entry(cs[0], |data|, false), hint)
    ensures ReadsAs(l, img, Entry(cs[0], |data|, false), pos, n, hint, data)
  {
    hide OnDisk, TableWritten, DataWritten, Contents, Concat, Upto, Clusters, NoRepeats, HintTrue,
         ReadOutcome, LastOf, Layout.Size;
    var file := Entry(cs[0], |data|, false);
    var m := Min(n, |data| - pos);
    HasClusters(l, img);
    WholeFile(l, img, vs, cs, pieces);
    LastIsThere(l, |data|, |cs|);
    LastWithin(l, pos, m, |data|);
    var last, end := LastOf(l, 0, |data|), LastOf(l, pos, m);
    ClustersPrefix(l, img, cs[0], last, |cs| - 1);
    PrefixDistinct(cs, last + 1);
    AcyclicIsNeverRefused(l, img, file, pos, n, hint);
    UptoGrows(l, img, cs[0], end, |cs| - 1);
    LastBounds(l, pos, m);
    SamePart(Upto(l, img, cs[0], end), Concat(pieces), data, pos, m);
  }

  lemma SamePart(a: seq<byte>, whole: seq<byte>, data: seq<byte>, pos: nat, m: nat)
    requires a <= whole && data <= whole && pos + m <= |a| && pos + m <= |data|
    ensures a[pos..pos + m] == data[pos..pos + m]
  {
  }

  /** A directory written so is read so: below the root by the first cluster its entry
      has, and the root itself on FAT32 by the one its boot sector has. */
  lemma WrittenDirectoryIsRead(l: Layout, img: seq<byte>, vs: seq<nat>, cs: seq<nat>, pieces: seq<seq<byte>>, e: Entry)
    requires FileWritten(l, img, vs, cs, pieces)
    requires e.firstCluster == cs[0] || (e.firstCluster == 0 && l.kind == 32 && l.rootCluster == cs[0])
    ensures DirBytes(l, img, RefOf(l, e), |cs| - 1) == Concat(pieces)
  {
    hide OnDisk, TableWritten, DataWritten, Upto, Concat, Layout.Size;
    assert RefOf(l, e) == Chain(cs[0]);
    WholeFile(l, img, vs, cs, pieces);
  }

  /** On FAT12 and FAT16 the root is the fixed area in front of the data. */
  lemma WrittenRootIsRead(l: Layout, img: seq<byte>, e: Entry, records: seq<byte>, idx: nat)
    requires OnDisk(l, img) && l.kind != 32 && e.firstCluster == 0
    requires Holds(img, l.rootAt, records) && |records| == l.rootLen
    ensures DirBytes(l, img, RefOf(l, e), idx) == records
  {
  }
}
