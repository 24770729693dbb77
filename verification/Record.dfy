/** Directory records as they are written: an 8.3 name with its attributes,
    cluster and size, and the records a long name is spread over. The listing in
    `src/esp.rs` gives back what was written. */
module Records {
  import opened Bytes
  import opened Arith
  import opened LittleEndian
  import opened Fats
  import opened Lfns
  import opened Dirs

  // ------------------------------------------------------------ 8.3 records

  datatype Attributes =
    Attributes(readOnly: bool, hidden: bool, system: bool, volume: bool, dir: bool, archive: bool)
  {
    /** Each has its bit, from the lowest up. */
    function Value(): (v: nat)
      ensures v < 0x40
    {
      (if readOnly then 1 else 0) + (if hidden then 2 else 0) + (if system then 4 else 0)
      + (if volume then 8 else 0) + (if dir then 0x10 else 0) + (if archive then 0x20 else 0)
    }

    /** What a record of a long name has, and no file or directory. */
    predicate LongName() {
      readOnly && hidden && system && volume && !dir && !archive
    }
  }

  /** A name of up to eight and three characters, and whether either half is to be
      shown in lower case. */
  datatype Short = Short(stem: seq<byte>, ext: seq<byte>, lowStem: bool, lowExt: bool)
  {
    /** No half ends in a space, and the first byte is none that means something else. */
    predicate Ok() {
      && 1 <= |stem| <= 8 && |ext| <= 3
      && stem[|stem| - 1] != 0x20 && (ext != [] ==> ext[|ext| - 1] != 0x20)
      && stem[0] != 0x00 && stem[0] != 0x05
    }

    function Eleven(): (s: seq<byte>)
      requires Ok()
      ensures |s| == 11
    {
      stem + Spaces(8 - |stem|) + ext + Spaces(3 - |ext|)
    }

    /** `STEM.EXT`, or `STEM` alone. */
    function Shown(): seq<nat> {
      Cased(stem, lowStem) + if ext == [] then [] else ['.' as nat] + Cased(ext, lowExt)
    }
  }

  function Spaces(n: nat): (s: seq<byte>)
    ensures |s| == n
  {
    seq(n, _ => 0x20 as byte)
  }

  /** A letter's lower case, which is 32 after it. */
  function Cased(half: seq<byte>, lower: bool): (us: seq<nat>)
    ensures |us| == |half|
  {
    seq(|half|, i requires 0 <= i < |half| =>
      if lower && 'A' as nat <= half[i] as nat <= 'Z' as nat then half[i] as nat + 32 else half[i] as nat)
  }

  /** A name that begins with 0xE5, which marks a deleted record, is stored with a
      5 there. */
  function Stored(s: seq<byte>): (t: seq<byte>)
    requires |s| == 11
    ensures |t| == 11
  {
    if s[0] == 0xE5 then [0x05] + s[1..] else s
  }

  /** A file or a directory to be written. */
  datatype Item = Item(short: Short, attributes: Attributes, cluster: nat, size: nat)
  {
    predicate Ok() {
      short.Ok() && cluster < U32_LIMIT && size < U32_LIMIT
    }
  }

  /** The record has the item written in it, the cluster in two halves, whatever its
      other bytes and bits are. */
  predicate HasItem(e: RawEntry, x: Item) {
    && x.Ok() && Holds(e, 0, Stored(x.short.Eleven()))
    && e[11] as nat % 0x40 == x.attributes.Value()
    && (e[12] as nat / 8 % 2 == 1 <==> x.short.lowStem) && (e[12] as nat / 16 % 2 == 1 <==> x.short.lowExt)
    && Holds(e, 20, Two(x.cluster / 0x1_0000)) && Holds(e, 26, Two(x.cluster % 0x1_0000))
    && Holds(e, 28, Four(x.size))
  }

  lemma EntryComesBack(e: RawEntry, x: Item, fat32: bool)
    requires HasItem(e, x)
    ensures EntryOf(e, fat32)
         == Entry(if fat32 then x.cluster else x.cluster % 0x1_0000, x.size, x.attributes.dir)
  {
    hide Holds, Two, Four, Le16, Le32, Short.Eleven;
    TwoReads(e, 20, x.cluster / 0x1_0000);
    TwoReads(e, 26, x.cluster % 0x1_0000);
    FourReads(e, 28, x.size);
    DirectoryBit(e[11] as nat, x.attributes);
  }

  lemma DirectoryBit(v: nat, a: Attributes)
    requires v % 0x40 == a.Value()
    ensures v / 16 % 2 == 1 <==> a.dir
    ensures v / 8 % 2 == 1 <==> a.volume
    ensures v % 64 == 0x0F <==> a.LongName()
  {
    var low := (if a.readOnly then 1 else 0) + (if a.hidden then 2 else 0) + (if a.system then 4 else 0);
    var w, d, h := if a.volume then 1 else 0, if a.dir then 1 else 0, if a.archive then 1 else 0;
    BitsOf(v, v / 0x40, low, w, d, h);
  }

  lemma BitsOf(v: nat, q: nat, low: nat, w: nat, d: nat, h: nat)
    requires v == 64 * q + 32 * h + 16 * d + 8 * w + low && low < 8 && w < 2 && d < 2 && h < 2
    ensures v / 16 % 2 == d && v / 8 % 2 == w
  {
    var x := 8 * q + 4 * h + 2 * d + w;
    var y := 4 * q + 2 * h + d;
    Quotient(v, 8, x, low);
    Quotient(v, 16, y, 8 * w + low);
    Quotient(x, 2, y, w);
    Quotient(y, 2, 2 * q + h, d);
  }

  lemma Quotient(v: nat, n: nat, q: nat, rest: nat)
    requires v == n * q + rest && rest < n
    ensures v / n == q && v % n == rest
  {
    assert n * q == q * n;
    DivModUnique(v, n, q, rest);
  }

  lemma ShortComesBack(e: RawEntry, x: Item)
    requires HasItem(e, x)
    ensures ShortOf(e) == x.short.Eleven() && e[0] != 0x00 && e[0] != 0xE5
  {
    hide Two, Four;
    var s := x.short.Eleven();
    assert s[0] == x.short.stem[0];
    assert e[0] == e[0..11][0] && e[..11] == e[0..11];
    assert e[1..11] == e[0..11][1..];
  }

  lemma {:induction false} TrimsToName(half: seq<byte>, n: nat)
    requires half == [] || half[|half| - 1] != 0x20
    ensures TrimmedLength(half + Spaces(n)) == |half|
  {
    var all := half + Spaces(n);
    if n > 0 {
      assert all[..|all| - 1] == half + Spaces(n - 1);
      TrimsToName(half, n - 1);
    } else {
      assert all == half;
    }
  }

  lemma HalfComesBack(half: seq<byte>, n: nat, lower: bool)
    requires half == [] || half[|half| - 1] != 0x20
    ensures Half(half + Spaces(n), lower) == Cased(half, lower)
  {
    TrimsToName(half, n);
  }

  lemma Halves(x: Short)
    requires x.Ok()
    ensures var s := x.Eleven();
            && s[..8] == x.stem + Spaces(8 - |x.stem|) && s[8..11] == x.ext + Spaces(3 - |x.ext|)
            && (s[8..11] == [0x20, 0x20, 0x20] <==> x.ext == [])
  {
    var s := x.Eleven();
    assert s[8..11] == x.ext + Spaces(3 - |x.ext|);
    if x.ext != [] {
      assert s[8..11][|x.ext| - 1] == x.ext[|x.ext| - 1];
    }
  }

  /** The name is shown as it was to be. */
  lemma NameIsShown(e: RawEntry, x: Item)
    requires HasItem(e, x)
    ensures ShortName(e) == x.short.Shown()
  {
    hide Holds, Half, Cased, Two, Four, ShortOf, Short.Eleven, Spaces, Stored;
    ShortComesBack(e, x);
    Halves(x.short);
    HalfComesBack(x.short.stem, 8 - |x.short.stem|, x.short.lowStem);
    HalfComesBack(x.short.ext, 3 - |x.short.ext|, x.short.lowExt);
  }

  /** What there is to list of an item; FAT12 and FAT16 have the low half of its
      cluster. */
  function AsListed(x: Item, long: Option<seq<nat>>, fat32: bool): Listed
    requires x.Ok()
  {
    Listed(Entry(if fat32 then x.cluster else x.cluster % 0x1_0000, x.size, x.attributes.dir), x.short.Eleven(),
           long.Some?, if long.Some? then long.value else x.short.Shown())
  }

  /** A record that is no label and no part of a long name is listed as the item
      that was written, under its long name if one has been put together for it
      and under its 8.3 name if not. */
  lemma ItemIsListed(a: Assembly, e: RawEntry, x: Item, fat32: bool)
    requires a.Sound() && HasItem(e, x) && !x.attributes.volume
    ensures Look(a, e, fat32) == Gives(AsListed(x, a.Name(Checksum(e[..11])), fat32))
  {
    hide Holds, ShortOf, ShortName, Assembly.Name, Checksum, EntryOf, Short.Eleven, Short.Shown, Two, Four;
    EntryComesBack(e, x, fat32);
    ShortComesBack(e, x);
    NameIsShown(e, x);
    DirectoryBit(e[11] as nat, x.attributes);
  }

  /** And is passed over exactly when it is a label or part of a long name. */
  lemma ListedExactlyWhen(a: Assembly, e: RawEntry, x: Item, fat32: bool)
    requires a.Sound() && HasItem(e, x)
    ensures Look(a, e, fat32).Gives? <==> !x.attributes.volume
    ensures x.attributes.volume && !x.attributes.LongName() ==> Look(a, e, fat32) == Skip(a.Reset())
  {
    hide Holds, ListedOf, Short.Eleven, Two, Four;
    ShortComesBack(e, x);
    DirectoryBit(e[11] as nat, x.attributes);
  }

  /** A deleted record shows nothing and ends a long name; a zero ends the directory. */
  lemma DeletedIsNotListed(a: Assembly, e: RawEntry, fat32: bool)
    requires a.Sound()
    ensures e[0] == 0xE5 ==> Look(a, e, fat32) == Skip(a.Reset())
    ensures e[0] == 0x00 <==> Look(a, e, fat32) == Stop
  {
  }

  // ------------------------------------------------------ long-name records

  /** A record with a part of a long name in it: its number, with a bit for the
      last one, and five, six and two of its units. */
  predicate HasPart(e: RawEntry, part: nat, last: bool, sum: nat, us: seq<nat>) {
    && |us| == 13 && (forall i :: 0 <= i < 13 ==> us[i] <= 0xFFFF) && 1 <= part < 0x20
    && e[0] as nat == part + (if last then 0x40 else 0) && e[11] == 0x0F && e[13] as nat == sum
    && Holds(e, 1, Wide(us[..5])) && Holds(e, 14, Wide(us[5..11])) && Holds(e, 28, Wide(us[11..]))
  }

  lemma PartUnits(e: RawEntry, part: nat, last: bool, sum: nat, us: seq<nat>)
    requires HasPart(e, part, last, sum, us)
    ensures UnitsOf(e) == us
  {
    hide Wide, Le16, Holds;
    forall k | 0 <= k < 13
      ensures UnitOf(e, k) == us[k]
    {
      if k < 5 {
        UnitAt(e, 1, us[..5], k);
      } else if k < 11 {
        UnitAt(e, 14, us[5..11], k - 5);
      } else {
        UnitAt(e, 28, us[11..], k - 11);
      }
    }
  }

  /** The `i`th thirteen units of a name, its end and its padding. */
  function Thirteen(name: seq<nat>, i: nat): (us: seq<nat>)
    ensures |us| == 13
  {
    seq<nat>(13, k requires 0 <= k < 13 => Padded(name, 13 * i + k))
  }

  /** The records of a long name, last part first, as few as take it. */
  predicate HasName(es: seq<RawEntry>, name: seq<nat>, sum: nat) {
    && 13 * |es| - 13 < |name| <= 13 * |es|
    && forall j :: 0 <= j < |es| ==> HasPart(es[j], |es| - j, j == 0, sum, Thirteen(name, |es| - j - 1))
  }

  lemma NameIsOnDisk(es: seq<RawEntry>, name: seq<nat>, sum: nat)
    requires HasName(es, name, sum)
    ensures OnDiskAs(es, name, sum)
  {
    hide HasPart, Carries;
    assert PartsFor(name) == |es|;
    hide PartsFor;
    forall j | 0 <= j < |es|
      ensures Carries(es[j], name, |es| - j, sum)
    {
      PartCarries(es[j], name, |es| - j, |es|, sum);
    }
  }

  lemma PartCarries(e: RawEntry, name: seq<nat>, part: nat, parts: nat, sum: nat)
    requires 1 <= part <= parts == PartsFor(name) && HasPart(e, part, part == parts, sum, Thirteen(name, part - 1))
    ensures Carries(e, name, part, sum)
  {
    hide Padded, UnitOf, PartsFor, Holds, Wide;
    var us := Thirteen(name, part - 1);
    PartUnits(e, part, part == parts, sum, us);
    forall k | 0 <= k < 13
      ensures UnitOf(e, k) == Padded(name, (part - 1) * 13 + k)
    {
      assert UnitsOf(e)[k] == us[k];
    }
  }

  lemma PartIsPushed(a: Assembly, e: RawEntry, part: nat, last: bool, sum: nat, us: seq<nat>, fat32: bool)
    requires a.Sound() && HasPart(e, part, last, sum, us)
    ensures !a.Underflows(e) && Look(a, e, fat32) == Skip(a.Push(e))
  {
    hide Holds, Wide, Assembly.Push;
  }

  lemma {:induction false} PartsArePushed(a: Assembly, es: seq<RawEntry>, name: seq<nat>, sum: nat, n: nat, fat32: bool)
    requires a.Sound() && HasName(es, name, sum) && n <= |es| && Numbered(es)
    ensures SkipAll(a, es[..n], fat32) == Some(PushAll(a, es[..n]))
  {
    hide HasPart, Look, Assembly.Push, Assembly.Sound;
    if n > 0 {
      PartsArePushed(a, es, name, sum, n - 1, fat32);
      assert es[..n][..n - 1] == es[..n - 1] && es[..n][n - 1] == es[n - 1];
      PartIsPushed(PushAll(a, es[..n - 1]), es[n - 1], |es| - n + 1, n == 1, sum, Thirteen(name, |es| - n), fat32);
    }
  }

  /** A name's records, whatever came before them, and the item's own record list
      the item under that name. */
  lemma LongNameIsListed(a: Assembly, es: seq<RawEntry>, name: seq<nat>, e: RawEntry, x: Item, fat32: bool)
    requires a.Sound() && NameOk(name) && HasName(es, name, Checksum(e[..11]))
    requires HasItem(e, x) && !x.attributes.volume
    ensures SkipAll(a, es, fat32).Some?
    ensures Look(SkipAll(a, es, fat32).value, e, fat32) == Gives(AsListed(x, Some(name), fat32))
  {
    hide SkipAll, Look, PushAll, HasPart, HasItem, Assembly.Sound, Assembly.Name, Checksum, NameOk, AsListed, OnDiskAs;
    var sum := Checksum(e[..11]);
    NameIsOnDisk(es, name, sum);
    NameComesBack(a, es, name, sum);
    PartsArePushed(a, es, name, sum, |es|, fat32);
    assert es[..|es|] == es;
    ItemIsListed(PushAll(a, es), e, x, fat32);
  }

  // ------------------------------------------------------------ the checksum

  lemma TurnKeeps(s: nat, t: nat, c: nat)
    requires s < 256 && t < 256 && (s % 2 * 128 + s / 2 + c) % 256 == (t % 2 * 128 + t / 2 + c) % 256
    ensures s == t
  {
    var x, y := s % 2 * 128 + s / 2, t % 2 * 128 + t / 2;
    assert x < 256 && y < 256;
    assert x == y;
  }

  lemma AddKeeps(x: nat, c: nat, d: nat)
    requires c < 256 && d < 256 && (x + c) % 256 == (x + d) % 256
    ensures c == d
  {
  }

  /** One byte changed anywhere in a short name changes its checksum. */
  lemma {:induction false} ChangedByteShows(a: seq<byte>, b: seq<byte>, i: nat)
    requires |a| == |b| && i < |a| && a[..i] == b[..i] && a[i + 1..] == b[i + 1..]
    ensures Checksum(a) == Checksum(b) <==> a == b
    decreases |a|
  {
    var n := |a| - 1;
    var x, y := Checksum(a[..n]), Checksum(b[..n]);
    if Checksum(a) == Checksum(b) {
      if i == n {
        AddKeeps(x % 2 * 128 + x / 2, a[n] as nat, b[n] as nat);
        assert a == a[..n] + [a[n]] && b == b[..n] + [b[n]];
      } else {
        assert a[n] == a[i + 1..][n - i - 1] == b[n];
        TurnKeeps(x, y, a[n] as nat);
        assert a[..n][..i] == a[..i] && b[..n][..i] == b[..i];
        assert a[..n][i + 1..] == a[i + 1..][..n - i - 1] && b[..n][i + 1..] == b[i + 1..][..n - i - 1];
        ChangedByteShows(a[..n], b[..n], i);
        assert a == a[..n] + [a[n]] && b == b[..n] + [b[n]];
      }
    }
  }

  lemma Summed(s: seq<byte>, sum: nat, c: byte, next: nat)
    requires Checksum(s) == sum && next == (sum % 2 * 128 + sum / 2 + c as nat) % 256
    ensures Checksum(s + [c]) == next
  {
    assert (s + [c])[..|s|] == s;
  }

  lemma ChecksumOfStem()
    ensures Checksum([0x52, 0x45, 0x41, 0x44, 0x4D, 0x45]) == 0x0B
  {
    assert Checksum([]) == 0;
    hide Checksum;
    Summed([], 0x00, 0x52, 0x52);
    assert [] + [0x52] == [0x52];
    Summed([0x52], 0x52, 0x45, 0x6E);
    assert [0x52] + [0x45] == [0x52, 0x45];
    Summed([0x52, 0x45], 0x6E, 0x41, 0x78);
    assert [0x52, 0x45] + [0x41] == [0x52, 0x45, 0x41];
    Summed([0x52, 0x45, 0x41], 0x78, 0x44, 0x80);
    assert [0x52, 0x45, 0x41] + [0x44] == [0x52, 0x45, 0x41, 0x44];
    Summed([0x52, 0x45, 0x41, 0x44], 0x80, 0x4D, 0x8D);
    assert [0x52, 0x45, 0x41, 0x44] + [0x4D] == [0x52, 0x45, 0x41, 0x44, 0x4D];
    Summed([0x52, 0x45, 0x41, 0x44, 0x4D], 0x8D, 0x45, 0x0B);
    assert [0x52, 0x45, 0x41, 0x44, 0x4D] + [0x45] == [0x52, 0x45, 0x41, 0x44, 0x4D, 0x45];
  }

  /** The checksum of README.TXT's eleven bytes. */
  lemma ChecksumOfReadme()
    ensures Checksum([0x52, 0x45, 0x41, 0x44, 0x4D, 0x45, 0x20, 0x20, 0x54, 0x58, 0x54]) == 0x73
  {
    hide Checksum;
    ChecksumOfStem();
    Summed([0x52, 0x45, 0x41, 0x44, 0x4D, 0x45], 0x0B, 0x20, 0xA5);
    assert [0x52, 0x45, 0x41, 0x44, 0x4D, 0x45] + [0x20] == [0x52, 0x45, 0x41, 0x44, 0x4D, 0x45, 0x20];
    Summed([0x52, 0x45, 0x41, 0x44, 0x4D, 0x45, 0x20], 0xA5, 0x20, 0xF2);
    assert [0x52, 0x45, 0x41, 0x44, 0x4D, 0x45, 0x20] + [0x20] == [0x52, 0x45, 0x41, 0x44, 0x4D, 0x45, 0x20, 0x20];
    Summed([0x52, 0x45, 0x41, 0x44, 0x4D, 0x45, 0x20, 0x20], 0xF2, 0x54, 0xCD);
    assert [0x52, 0x45, 0x41, 0x44, 0x4D, 0x45, 0x20, 0x20] + [0x54]
           == [0x52, 0x45, 0x41, 0x44, 0x4D, 0x45, 0x20, 0x20, 0x54];
    Summed([0x52, 0x45, 0x41, 0x44, 0x4D, 0x45, 0x20, 0x20, 0x54], 0xCD, 0x58, 0x3E);
    assert [0x52, 0x45, 0x41, 0x44, 0x4D, 0x45, 0x20, 0x20, 0x54] + [0x58]
           == [0x52, 0x45, 0x41, 0x44, 0x4D, 0x45, 0x20, 0x20, 0x54, 0x58];
    Summed([0x52, 0x45, 0x41, 0x44, 0x4D, 0x45, 0x20, 0x20, 0x54, 0x58], 0x3E, 0x54, 0x73);
    assert [0x52, 0x45, 0x41, 0x44, 0x4D, 0x45, 0x20, 0x20, 0x54, 0x58] + [0x54]
           == [0x52, 0x45, 0x41, 0x44, 0x4D, 0x45, 0x20, 0x20, 0x54, 0x58, 0x54];
  }
}
