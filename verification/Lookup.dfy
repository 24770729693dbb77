/** A path followed from directory to directory (`find_in`, `lookup_in`,
    `short_name` and `lfn_eq` in `src/esp.rs`). */
module Lookups {
  import opened Bytes
  import opened Disks
  import opened FatLayout
  import opened FatChain
  import opened Fats
  import opened Lfns
  import opened Dirs

  // ------------------------------------------------------------------ names

  /** What may stand in an 8.3 name. */
  predicate InShort(c: char) {
    && ' ' < c && c as nat < 0x7F
    && c !in {'\U{0022}', '*', '+', ',', '.', '/', ':', ';', '<', '=', '>', '?', '[', '\U{005C}', ']', '|'}
  }

  predicate AllInShort(s: string) {
    forall i :: 0 <= i < |s| ==> InShort(s[i])
  }

  function Upper(c: char): byte
    requires c as nat < 0x80
  {
    if 'a' <= c <= 'z' then (c as int - 32) as byte else c as byte
  }

  /** A part in capitals, padded. */
  function Padded8(s: string, n: nat): (b: seq<byte>)
    requires |s| <= n && AllInShort(s)
    ensures |b| == n
  {
    seq(n, i requires 0 <= i < n => if i < |s| then assert InShort(s[i]); Upper(s[i]) else 0x20)
  }

  /** Where the last `c` is, -1 when it is nowhere. */
  function LastIndexOf(s: string, c: char): (i: int)
    ensures -1 <= i < |s|
    ensures i >= 0 ==> s[i] == c
  {
    if s == "" then -1 else if s[|s| - 1] == c then |s| - 1 else LastIndexOf(s[..|s| - 1], c)
  }

  /** The 8.3 entry a name has, if it has one. */
  function ShortNameOf(name: string): (s: Option<seq<byte>>)
    ensures s.Some? ==> |s.value| == 11
  {
    if name == "." then Some([0x2E] + Spaces(10))
    else if name == ".." then Some([0x2E, 0x2E] + Spaces(9))
    else
      var dot := LastIndexOf(name, '.');
      var stem := if dot < 0 then name else name[..dot];
      var ext := if dot < 0 then "" else name[dot + 1..];
      if stem == "" || |stem| > 8 || |ext| > 3 || !AllInShort(stem) || !AllInShort(ext) then None
      else Some(Padded8(stem, 8) + Padded8(ext, 3))
  }

  function Spaces(n: nat): (b: seq<byte>)
    ensures |b| == n
  {
    seq(n, _ => 0x20)
  }

  /** A character's UTF-16 units. */
  function UnitsFor(c: char): seq<nat> {
    var v := c as nat;
    if v < 0x1_0000 then [v] else [0xD800 + (v - 0x1_0000) / 0x400, 0xDC00 + (v - 0x1_0000) % 0x400]
  }

  function Utf16(s: string): seq<nat> {
    if s == "" then [] else UnitsFor(s[0]) + Utf16(s[1..])
  }

  predicate SameUnit(a: nat, b: nat) {
    a == b || (a < 0x80 && b < 0x80 && LowerAscii(a) == LowerAscii(b))
  }

  function LowerAscii(u: nat): nat {
    if 0x41 <= u <= 0x5A then u + 32 else u
  }

  /** `lfn_eq`: ASCII case apart. */
  predicate SameUnits(long: seq<nat>, units: seq<nat>) {
    |long| == |units| && forall i :: 0 <= i < |long| ==> SameUnit(long[i], units[i])
  }

  predicate Matches(l: Listed, name: string) {
    ShortNameOf(name) == Some(l.short) || (l.long && SameUnits(l.name, Utf16(name)))
  }

  // ------------------------------------------- what is shown can be found

  /** Half of a name as FAT keeps it: capitals, then only padding. */
  predicate PlainHalf(part: seq<byte>) {
    forall i :: 0 <= i < TrimmedLength(part) ==>
      part[i] < 0x80 && InShort(part[i] as char) && !('a' <= part[i] as char <= 'z')
  }

  /** Units as the characters they are. */
  function AsText(units: seq<nat>): string
    requires forall i :: 0 <= i < |units| ==> units[i] < 0x80
  {
    seq(|units|, i requires 0 <= i < |units| => units[i] as char)
  }

  lemma {:induction false} RestIsPadding(part: seq<byte>)
    ensures forall i :: TrimmedLength(part) <= i < |part| ==> part[i] == 0x20
  {
    if part != [] && part[|part| - 1] == 0x20 {
      RestIsPadding(part[..|part| - 1]);
    }
  }

  /** A half shown in either case is the half kept. */
  lemma HalfComesBack(part: seq<byte>, lower: bool)
    requires PlainHalf(part)
    ensures forall i :: 0 <= i < |Half(part, lower)| ==> Half(part, lower)[i] < 0x80
    ensures AllInShort(AsText(Half(part, lower))) && Padded8(AsText(Half(part, lower)), |part|) == part
  {
    RestIsPadding(part);
    var h := Half(part, lower);
    var s := AsText(h);
    forall i | 0 <= i < |s|
      ensures InShort(s[i]) && Upper(s[i]) == part[i]
    {
      LettersStayIn(part[i]);
    }
  }

  lemma LettersStayIn(c: byte)
    requires c < 0x80 && InShort(c as char) && !('a' <= c as char <= 'z')
    ensures LowerUnit(c) < 0x80 && InShort(LowerUnit(c) as char) && Upper(LowerUnit(c) as char) == c
    ensures Upper(c as char) == c
  {
  }

  lemma {:induction false} NoDotInside(s: string)
    requires AllInShort(s)
    ensures LastIndexOf(s, '.') == -1
  {
    if s != "" {
      assert InShort(s[|s| - 1]);
      NoDotInside(s[..|s| - 1]);
    }
  }

  lemma {:induction false} DotBeforeExt(stem: string, ext: string)
    requires AllInShort(ext)
    ensures LastIndexOf(stem + ['.'] + ext, '.') == |stem|
  {
    var s := stem + ['.'] + ext;
    if ext != "" {
      assert InShort(ext[|ext| - 1]);
      assert s[..|s| - 1] == stem + ['.'] + ext[..|ext| - 1];
      DotBeforeExt(stem, ext[..|ext| - 1]);
    }
  }

  lemma StemAndExt(stem: string, ext: string)
    requires AllInShort(stem) && AllInShort(ext) && 1 <= |stem| <= 8 && |ext| <= 3
    ensures ShortNameOf(if ext == "" then stem else stem + ['.'] + ext) == Some(Padded8(stem, 8) + Padded8(ext, 3))
  {
    var name := if ext == "" then stem else stem + ['.'] + ext;
    NoDotInside(stem);
    DotBeforeExt(stem, ext);
    assert InShort(stem[0]);
    if ext != "" {
      assert name[..|stem|] == stem && name[|stem| + 1..] == ext;
    }
  }

  /** An entry shown by its 8.3 name, with or without Windows NT's lower case, is
      found under the name it is shown by. */
  lemma ShownIsFound(e: RawEntry, a: Assembly, fat32: bool)
    requires a.Sound() && PlainHalf(e[..8]) && PlainHalf(e[8..11]) && TrimmedLength(e[..8]) > 0
    ensures forall i :: 0 <= i < |ShortName(e)| ==> ShortName(e)[i] < 0x80
    ensures Matches(ListedOf(a, e, fat32), AsText(ShortName(e)))
  {
    hide PlainHalf, ShortName, ShortNameOf, TrimmedLength, Assembly.Name, Assembly.Sound;
    FirstIsNoMark(e);
    ShortNameComesBack(e);
  }

  lemma ShortNameComesBack(e: RawEntry)
    requires PlainHalf(e[..8]) && PlainHalf(e[8..11]) && TrimmedLength(e[..8]) > 0
    ensures forall i :: 0 <= i < |ShortName(e)| ==> ShortName(e)[i] < 0x80
    ensures ShortNameOf(AsText(ShortName(e))) == Some(e[..11])
  {
    hide InShort, Padded8, AllInShort, Half, ShortNameOf, PlainHalf, TrimmedLength;
    var low, lowExt := e[12] as nat / 8 % 2 == 1, e[12] as nat / 16 % 2 == 1;
    FirstIsNoMark(e);
    assert e[..11][..8] == e[..8] && e[..11][8..11] == e[8..11];
    HalfComesBack(e[..8], low);
    HalfComesBack(e[8..11], lowExt);
    HalfLengths(e[..8], low);
    HalfLengths(e[8..11], lowExt);
    var h, k := Half(e[..8], low), Half(e[8..11], lowExt);
    StemAndExt(AsText(h), AsText(k));
    TextOfBoth(h, k);
    assert e[..11] == e[..8] + e[8..11];
  }

  lemma TextOfBoth(h: seq<nat>, k: seq<nat>)
    requires forall i :: 0 <= i < |h| ==> h[i] < 0x80
    requires forall i :: 0 <= i < |k| ==> k[i] < 0x80
    ensures var both := h + ['.' as nat] + k;
            (forall i :: 0 <= i < |both| ==> both[i] < 0x80) && AsText(both) == AsText(h) + ['.'] + AsText(k)
  {
  }

  lemma HalfLengths(part: seq<byte>, lower: bool)
    ensures |Half(part, lower)| == TrimmedLength(part)
    ensures |part| == 3 ==> (part == [0x20, 0x20, 0x20] <==> TrimmedLength(part) == 0)
  {
    RestIsPadding(part);
    if part == [0x20, 0x20, 0x20] {
      AllPadding(part);
    }
  }

  lemma {:induction false} AllPadding(part: seq<byte>)
    requires forall i :: 0 <= i < |part| ==> part[i] == 0x20
    ensures TrimmedLength(part) == 0
  {
    if part != [] {
      AllPadding(part[..|part| - 1]);
    }
  }

  lemma FirstIsNoMark(e: RawEntry)
    requires PlainHalf(e[..8]) && TrimmedLength(e[..8]) > 0
    ensures e[0] != 0x05
  {
    assert e[..8][0] == e[0];
  }

  // --------------------------------------------------------- whole listings

  /** What some of a directory's records come to: what they list, the name under
      way, and whether the listing is over, which it is too when a record breaks
      it off. */
  datatype Listing = Listing(list: seq<Listed>, a: Assembly, over: bool, broken: bool)

  function ListingOf(es: seq<RawEntry>, fat32: bool): (s: Listing)
    ensures s.a.Sound() && |s.list| <= |es| && (s.broken ==> s.over)
  {
    if es == [] then Listing([], NoName(), false, false)
    else Onto(ListingOf(es[..|es| - 1], fat32), es[|es| - 1], fat32)
  }

  function Onto(s: Listing, e: RawEntry, fat32: bool): (t: Listing)
    requires s.a.Sound() && (s.broken ==> s.over)
    ensures t.a.Sound() && (t.broken ==> t.over) && s.list <= t.list && |t.list| <= |s.list| + 1
    ensures s.over ==> t == s
  {
    if s.over then s
    else
      match Look(s.a, e, fat32)
      case Stop => s.(over := true)
      case Breaks => s.(over := true, broken := true)
      case Skip(a) => s.(a := a)
      case Gives(listed) => s.(list := s.list + [listed], a := s.a.Reset())
  }

  lemma OneMoreRecord(es: seq<RawEntry>, more: seq<RawEntry>, fat32: bool)
    requires more != []
    ensures var n := |more| - 1;
            ListingOf(es + more, fat32) == Onto(ListingOf(es + more[..n], fat32), more[n], fat32)
  {
    hide Onto;
    assert (es + more)[..|es + more| - 1] == es + more[..|more| - 1];
  }

  lemma {:induction false} SkippingShowsNothing(es: seq<RawEntry>, more: seq<RawEntry>, fat32: bool)
    requires !ListingOf(es, fat32).over && SkipAll(ListingOf(es, fat32).a, more, fat32).Some?
    ensures ListingOf(es + more, fat32)
            == ListingOf(es, fat32).(a := SkipAll(ListingOf(es, fat32).a, more, fat32).value)
  {
    hide Look, ListingOf;
    if more == [] {
      assert es + more == es;
    } else {
      OneMoreRecord(es, more, fat32);
      SkippingShowsNothing(es, more[..|more| - 1], fat32);
    }
  }

  /** What one call of `NextEntry` adds to the listing. */
  lemma OneListed(es: seq<RawEntry>, more: seq<RawEntry>, fat32: bool)
    requires !ListingOf(es, fat32).over && |more| > 0
    requires SkipAll(ListingOf(es, fat32).a, more[..|more| - 1], fat32).Some?
    ensures var n, s := |more| - 1, ListingOf(es, fat32);
            var b := SkipAll(s.a, more[..n], fat32).value;
            && ListingOf(es + more[..n], fat32) == s.(a := b)
            && (Look(b, more[n], fat32).Gives? ==>
                  ListingOf(es + more, fat32)
                  == s.(list := s.list + [Look(b, more[n], fat32).listed], a := b.Reset()))
            && (Look(b, more[n], fat32).Stop? ==> ListingOf(es + more, fat32) == s.(a := b, over := true))
  {
    hide Look, ListingOf, SkipAll;
    SkippingShowsNothing(es, more[..|more| - 1], fat32);
    OneMoreRecord(es, more, fat32);
  }

  lemma {:induction false} ListingGrows(es: seq<RawEntry>, n: nat, fat32: bool)
    requires n <= |es|
    ensures ListingOf(es[..n], fat32).list <= ListingOf(es, fat32).list
    ensures ListingOf(es[..n], fat32).over ==> ListingOf(es, fat32) == ListingOf(es[..n], fat32)
  {
    hide Onto;
    if n == |es| {
      assert es[..n] == es;
    } else {
      assert es[..|es| - 1][..n] == es[..n];
      ListingGrows(es[..|es| - 1], n, fat32);
    }
  }

  // ------------------------------------------------- what a directory holds

  /** `es` are the first records of the directory, as far as its `idx`th cluster. */
  ghost predicate Records(l: Layout, img: seq<byte>, dir: DirRef, idx: nat, es: seq<RawEntry>)
    requires OnDisk(l, img)
  {
    && (dir.Chain? ==> Clusters(l, img, dir.first, idx).Some?)
    && 32 * |es| <= |DirBytes(l, img, dir, idx)| && DirBytes(l, img, dir, idx)[..32 * |es|] == Flat(es)
  }

  lemma DirBytesGrow(l: Layout, img: seq<byte>, dir: DirRef, a: nat, b: nat)
    requires OnDisk(l, img) && a <= b && (dir.Chain? ==> Clusters(l, img, dir.first, b).Some?)
    ensures dir.Chain? ==> Clusters(l, img, dir.first, a).Some?
    ensures DirBytes(l, img, dir, a) <= DirBytes(l, img, dir, b)
  {
    hide OnDisk, Clusters, Upto;
    if dir.Chain? {
      UptoGrows(l, img, dir.first, a, b);
    }
  }

  lemma {:induction false} FlatInTwo(xs: seq<RawEntry>, ys: seq<RawEntry>)
    ensures Flat(xs + ys) == Flat(xs) + Flat(ys)
  {
    if ys == [] {
      assert xs + ys == xs;
    } else {
      assert (xs + ys)[..|xs + ys| - 1] == xs + ys[..|ys| - 1];
      FlatInTwo(xs, ys[..|ys| - 1]);
    }
  }

  lemma {:induction false} FlatIsOne(xs: seq<RawEntry>, ys: seq<RawEntry>)
    requires Flat(xs) == Flat(ys)
    ensures xs == ys
  {
    if xs != [] {
      var n := |xs| - 1;
      assert |xs| == |ys|;
      assert Flat(xs)[..32 * n] == Flat(xs[..n]) && Flat(ys)[..32 * n] == Flat(ys[..n]);
      assert Flat(xs)[32 * n..] == xs[n] && Flat(ys)[32 * n..] == ys[n];
      FlatIsOne(xs[..n], ys[..n]);
      assert xs == xs[..n] + [xs[n]] && ys == ys[..n] + [ys[n]];
    }
  }

  /** However far two readings went, one is the beginning of the other. */
  lemma RecordsAgree(l: Layout, img: seq<byte>, dir: DirRef, i: nat, xs: seq<RawEntry>, j: nat, ys: seq<RawEntry>)
    requires OnDisk(l, img) && Records(l, img, dir, i, xs) && Records(l, img, dir, j, ys) && |xs| <= |ys|
    ensures xs == ys[..|xs|]
  {
    hide OnDisk, Clusters, DirBytes;
    if i <= j {
      DirBytesGrow(l, img, dir, i, j);
    } else {
      DirBytesGrow(l, img, dir, j, i);
    }
    var n := |xs|;
    FlatInTwo(ys[..n], ys[n..]);
    assert ys[..n] + ys[n..] == ys;
    var a, b := DirBytes(l, img, dir, i), DirBytes(l, img, dir, j);
    assert a[..32 * n] == b[..32 * n];
    assert b[..32 * |ys|][..32 * n] == b[..32 * n];
    assert Flat(ys)[..32 * n] == Flat(ys[..n]);
    FlatIsOne(xs, ys[..n]);
  }

  predicate NoneMatches(list: seq<Listed>, name: string) {
    forall i :: 0 <= i < |list| ==> !Matches(list[i], name)
  }

  /** The last of these records gives the first entry called `name`. */
  ghost predicate FoundIn(l: Layout, img: seq<byte>, dir: DirRef, name: string, idx: nat, es: seq<RawEntry>,
                          entry: Entry)
    requires OnDisk(l, img)
  {
    && Records(l, img, dir, idx, es) && es != []
    && var had, list := ListingOf(es[..|es| - 1], l.kind == 32).list, ListingOf(es, l.kind == 32).list;
       && |list| == |had| + 1 && NoneMatches(list[..|had|], name)
       && Matches(list[|had|], name) && list[|had|].entry == entry
  }

  /** The directory's first entry called `name` is this one. */
  ghost predicate Holds(l: Layout, img: seq<byte>, dir: DirRef, name: string, entry: Entry)
    requires OnDisk(l, img)
  {
    exists idx, es :: FoundIn(l, img, dir, name, idx, es, entry)
  }

  /** So a directory in which an entry is the first of the name it is shown by
      holds it under that name. */
  lemma ShownIsHeld(l: Layout, img: seq<byte>, dir: DirRef, idx: nat, es: seq<RawEntry>)
    requires OnDisk(l, img) && Records(l, img, dir, idx, es) && es != []
    requires var s, e := ListingOf(es[..|es| - 1], l.kind == 32), es[|es| - 1];
             && !s.over && Look(s.a, e, l.kind == 32).Gives?
             && PlainHalf(e[..8]) && PlainHalf(e[8..11]) && TrimmedLength(e[..8]) > 0
             && (forall i :: 0 <= i < |ShortName(e)| ==> ShortName(e)[i] < 0x80)
             && NoneMatches(s.list, AsText(ShortName(e)))
    ensures var e := es[|es| - 1];
            Holds(l, img, dir, AsText(ShortName(e)), EntryOf(e, l.kind == 32))
  {
    hide OnDisk, Records, ListingOf, PlainHalf, ShortName, TrimmedLength, Matches, AsText, EntryOf, ShortOf;
    var s, e := ListingOf(es[..|es| - 1], l.kind == 32), es[|es| - 1];
    ShownIsFound(e, s.a, l.kind == 32);
    LastGives(es, l.kind == 32);
    assert FoundIn(l, img, dir, AsText(ShortName(e)), idx, es, EntryOf(e, l.kind == 32));
  }

  lemma LastGives(es: seq<RawEntry>, fat32: bool)
    requires es != []
    requires var s := ListingOf(es[..|es| - 1], fat32); !s.over && Look(s.a, es[|es| - 1], fat32).Gives?
    ensures var s := ListingOf(es[..|es| - 1], fat32);
            ListingOf(es, fat32).list == s.list + [ListedOf(s.a, es[|es| - 1], fat32)]
  {
    hide ListedOf, Look, Onto, ListingOf;
    LastOnto(es, fat32);
    OntoGives(ListingOf(es[..|es| - 1], fat32), es[|es| - 1], fat32);
  }

  lemma LastOnto(es: seq<RawEntry>, fat32: bool)
    requires es != []
    ensures ListingOf(es, fat32) == Onto(ListingOf(es[..|es| - 1], fat32), es[|es| - 1], fat32)
  {
    hide Onto;
  }

  lemma OntoGives(s: Listing, e: RawEntry, fat32: bool)
    requires s.a.Sound() && !s.over && !s.broken && Look(s.a, e, fat32).Gives?
    ensures Onto(s, e, fat32).list == s.list + [ListedOf(s.a, e, fat32)]
  {
    hide ListedOf, Look, Assembly.Sound;
    LookGives(s.a, e, fat32);
  }

  lemma LookGives(a: Assembly, e: RawEntry, fat32: bool)
    requires a.Sound() && Look(a, e, fat32).Gives?
    ensures Look(a, e, fat32).listed == ListedOf(a, e, fat32)
  {
    hide ListedOf, Assembly.Sound, Assembly.Push;
  }

  /** The records are all the directory has. */
  ghost predicate AllOf(l: Layout, img: seq<byte>, dir: DirRef, idx: nat, es: seq<RawEntry>)
    requires OnDisk(l, img)
  {
    && Records(l, img, dir, idx, es) && 32 * |es| == |DirBytes(l, img, dir, idx)|
    && (dir.Chain? ==>
          var last := Clusters(l, img, dir.first, idx).value[idx];
          l.Valid(last) && LinkOf(l, img, last) == End)
  }

  /** A listing that reached its end, by a mark or by there being no more, and
      has nothing of that name. */
  ghost predicate LackedBy(l: Layout, img: seq<byte>, dir: DirRef, name: string, idx: nat, es: seq<RawEntry>)
    requires OnDisk(l, img)
  {
    && Records(l, img, dir, idx, es) && NoneMatches(ListingOf(es, l.kind == 32).list, name)
    && !ListingOf(es, l.kind == 32).broken
    && (ListingOf(es, l.kind == 32).over || AllOf(l, img, dir, idx, es))
  }

  ghost predicate Lacks(l: Layout, img: seq<byte>, dir: DirRef, name: string)
    requires OnDisk(l, img)
  {
    exists idx, es :: LackedBy(l, img, dir, name, idx, es)
  }

  /** What a disk holds under a name does not depend on how far it was read. */
  lemma OneEntryOfAName(l: Layout, img: seq<byte>, dir: DirRef, name: string, i: nat, xs: seq<RawEntry>, a: Entry,
                        j: nat, ys: seq<RawEntry>, b: Entry)
    requires OnDisk(l, img) && FoundIn(l, img, dir, name, i, xs, a) && FoundIn(l, img, dir, name, j, ys, b)
    ensures a == b
  {
    hide OnDisk, Records, Matches, ListingOf;
    if |xs| <= |ys| {
      FoundFirst(l, img, dir, name, i, xs, a, j, ys, b);
    } else {
      FoundFirst(l, img, dir, name, j, ys, b, i, xs, a);
    }
  }

  lemma FoundFirst(l: Layout, img: seq<byte>, dir: DirRef, name: string, i: nat, xs: seq<RawEntry>, a: Entry,
                   j: nat, ys: seq<RawEntry>, b: Entry)
    requires OnDisk(l, img) && FoundIn(l, img, dir, name, i, xs, a) && FoundIn(l, img, dir, name, j, ys, b)
    requires |xs| <= |ys|
    ensures a == b
  {
    hide OnDisk, Records, Matches, ListingOf;
    var fat32 := l.kind == 32;
    RecordsAgree(l, img, dir, i, xs, j, ys);
    if |xs| < |ys| {
      var before := ys[..|ys| - 1];
      assert before[..|xs|] == xs;
      ListingGrows(before, |xs|, fat32);
      var k := |ListingOf(xs, fat32).list| - 1;
      assert Matches(ListingOf(xs, fat32).list[k], name);
      assert ListingOf(ys, fat32).list[..|ListingOf(before, fat32).list|] == ListingOf(before, fat32).list by {
        assert ys[..|ys|] == ys;
        ListingGrows(ys, |ys| - 1, fat32);
      }
    } else {
      assert xs == ys;
    }
  }

  /** A name a directory holds is met in every listing that comes to its end. */
  lemma HeldIsMet(l: Layout, img: seq<byte>, dir: DirRef, name: string, i: nat, xs: seq<RawEntry>, a: Entry,
                  j: nat, ys: seq<RawEntry>)
    requires OnDisk(l, img) && FoundIn(l, img, dir, name, i, xs, a) && Records(l, img, dir, j, ys)
    requires ListingOf(ys, l.kind == 32).over || AllOf(l, img, dir, j, ys)
    ensures !NoneMatches(ListingOf(ys, l.kind == 32).list, name)
  {
    hide OnDisk, Records, Matches, ListingOf, AllOf;
    var fat32 := l.kind == 32;
    var k := |ListingOf(xs, fat32).list| - 1;
    assert Matches(ListingOf(xs, fat32).list[k], name);
    if |xs| <= |ys| {
      RecordsAgree(l, img, dir, i, xs, j, ys);
      ListingGrows(ys, |xs|, fat32);
    } else {
      RecordsAgree(l, img, dir, j, ys, i, xs);
      ListingGrows(xs, |ys|, fat32);
      if AllOf(l, img, dir, j, ys) {
        NoMoreThanAll(l, img, dir, i, xs, j, ys);
      }
    }
  }

  lemma NoMoreThanAll(l: Layout, img: seq<byte>, dir: DirRef, i: nat, xs: seq<RawEntry>, j: nat, ys: seq<RawEntry>)
    requires OnDisk(l, img) && Records(l, img, dir, i, xs) && AllOf(l, img, dir, j, ys)
    ensures |xs| <= |ys|
  {
    hide OnDisk, LinkOf, Upto, Flat;
    if dir.Chain? {
      NotPastTheEnd(l, img, dir.first, i, j);
    }
    if i <= j {
      DirBytesGrow(l, img, dir, i, j);
    }
  }

  lemma NotPastTheEnd(l: Layout, img: seq<byte>, first: nat, i: nat, j: nat)
    requires OnDisk(l, img) && Clusters(l, img, first, i).Some? && Clusters(l, img, first, j).Some?
    requires var last := Clusters(l, img, first, j).value[j]; l.Valid(last) && LinkOf(l, img, last) == End
    ensures i <= j
  {
    hide OnDisk, LinkOf;
    if i > j {
      ClustersPrefix(l, img, first, j + 1, i);
    }
  }

  /** So no directory both holds a name and lacks it. */
  lemma HeldIsNotLacked(l: Layout, img: seq<byte>, dir: DirRef, name: string, entry: Entry)
    requires OnDisk(l, img) && Holds(l, img, dir, name, entry)
    ensures !Lacks(l, img, dir, name)
  {
    hide OnDisk, Records, ListingOf, AllOf, FoundIn;
    var i, xs :| FoundIn(l, img, dir, name, i, xs, entry);
    forall j, ys | Records(l, img, dir, j, ys) && (ListingOf(ys, l.kind == 32).over || AllOf(l, img, dir, j, ys))
      ensures !NoneMatches(ListingOf(ys, l.kind == 32).list, name)
    {
      HeldIsMet(l, img, dir, name, i, xs, entry, j, ys);
    }
  }

  // ------------------------------------------------- why a search may fail

  /** The directory starts in no cluster of the volume. */
  predicate StartsNowhere(l: Layout, dir: DirRef) {
    dir.Chain? && !l.Valid(dir.first)
  }

  /** The records are all of the clusters up to the `idx`th, and what the FAT has
      after that one is `link`. */
  ghost predicate UpToLink(l: Layout, img: seq<byte>, dir: DirRef, idx: nat, es: seq<RawEntry>, link: Link)
    requires OnDisk(l, img)
  {
    && Records(l, img, dir, idx, es) && 32 * |es| == |DirBytes(l, img, dir, idx)|
    && dir.Chain?
    && var last := Clusters(l, img, dir.first, idx).value[idx];
       l.Valid(last) && LinkOf(l, img, last) == link
  }

  /** What stops a search of these records for a name that none of them lists. */
  ghost predicate StopsAt(l: Layout, img: seq<byte>, dir: DirRef, name: string, e: Error, idx: nat, es: seq<RawEntry>)
    requires OnDisk(l, img)
  {
    && Records(l, img, dir, idx, es)
    && NoneMatches(ListingOf(es, l.kind == 32).list, name)
    && match e
       case ChainLeaves => !ListingOf(es, l.kind == 32).over && UpToLink(l, img, dir, idx, es, Leaves)
       case ChainLoops =>
         && !ListingOf(es, l.kind == 32).over
         && idx >= l.clusters && exists n :: UpToLink(l, img, dir, idx, es, To(n))
       case Underflow =>
         && es != []
         && var s := ListingOf(es[..|es| - 1], l.kind == 32);
            !s.over && Look(s.a, es[|es| - 1], l.kind == 32) == Breaks
       case _ => false
  }

  /** A directory that cannot be searched for a name to its end: there is no
      such cluster where it starts, or it is broken before the name is met. */
  ghost predicate Obstructs(l: Layout, img: seq<byte>, dir: DirRef, name: string, e: Error)
    requires OnDisk(l, img)
  {
    || (e == StartsOutside && StartsNowhere(l, dir))
    || exists idx, es :: StopsAt(l, img, dir, name, e, idx, es)
  }

  /** The directory's chain comes back to a cluster it has been at. */
  ghost predicate Loops(l: Layout, img: seq<byte>, dir: DirRef)
    requires OnDisk(l, img)
  {
    dir.Chain? && Revisits(l, img, dir.first)
  }

  /** What may be answered to a search, an answer the device had no part in. */
  ghost predicate Settled(l: Layout, img: seq<byte>, dir: Entry, name: string, r: Result<Entry, Error>)
    requires OnDisk(l, img)
  {
    match r
    case Ok(entry) => dir.dir && Holds(l, img, RefOf(l, dir), name, entry)
    case Err(NotFound) => dir.dir ==> Lacks(l, img, RefOf(l, dir), name)
    case Err(e) => dir.dir && Obstructs(l, img, RefOf(l, dir), name, e)
  }

  /** "The chain loops" is only said of a directory whose chain does. */
  lemma LoopsIsTrueOfIt(l: Layout, img: seq<byte>, dir: DirRef, name: string)
    requires OnDisk(l, img) && Obstructs(l, img, dir, name, ChainLoops)
    ensures Loops(l, img, dir)
  {
    hide OnDisk, Records, ListingOf, Matches, UpToLink;
    var idx: nat, es :| StopsAt(l, img, dir, name, ChainLoops, idx, es);
    var n: nat :| UpToLink(l, img, dir, idx, es, To(n));
    TooManyClusters(l, img, dir, idx, es, n);
  }

  lemma TooManyClusters(l: Layout, img: seq<byte>, dir: DirRef, idx: nat, es: seq<RawEntry>, n: nat)
    requires OnDisk(l, img) && UpToLink(l, img, dir, idx, es, To(n)) && idx >= l.clusters
    ensures Loops(l, img, dir)
  {
    hide ListingOf, Flat, DirBytes, LinkOf;
    var cs := Clusters(l, img, dir.first, idx + 1).value;
    if NoRepeats(cs) {
      Pigeonhole(cs, 2, l.clusters);
    }
  }

  /** What a directory holds is not behind what stops a search for it, unless its
      chain loops. */
  lemma HeldIsNotObstructed(l: Layout, img: seq<byte>, dir: DirRef, name: string, entry: Entry, e: Error)
    requires OnDisk(l, img) && Holds(l, img, dir, name, entry) && !Loops(l, img, dir)
    ensures !Obstructs(l, img, dir, name, e)
  {
    hide OnDisk, Records, ListingOf, StopsAt, Loops, Matches;
    var i, xs :| FoundIn(l, img, dir, name, i, xs, entry);
    HasAStart(l, img, dir, i, xs);
    if Obstructs(l, img, dir, name, e) {
      var j, ys :| StopsAt(l, img, dir, name, e, j, ys);
      if e == ChainLoops {
        LoopsIsTrueOfIt(l, img, dir, name);
      } else {
        FoundBeforeIt(l, img, dir, name, i, xs, entry, e, j, ys);
      }
    }
  }

  lemma HasAStart(l: Layout, img: seq<byte>, dir: DirRef, i: nat, xs: seq<RawEntry>)
    requires OnDisk(l, img) && Records(l, img, dir, i, xs)
    ensures !StartsNowhere(l, dir)
  {
  }

  lemma FoundBeforeIt(l: Layout, img: seq<byte>, dir: DirRef, name: string, i: nat, xs: seq<RawEntry>, entry: Entry,
                      e: Error, j: nat, ys: seq<RawEntry>)
    requires OnDisk(l, img) && FoundIn(l, img, dir, name, i, xs, entry) && StopsAt(l, img, dir, name, e, j, ys)
    ensures e == ChainLoops
  {
    hide OnDisk, Records, Matches, ListingOf, UpToLink, Look;
    var fat32 := l.kind == 32;
    var k := |ListingOf(xs, fat32).list| - 1;
    assert Matches(ListingOf(xs, fat32).list[k], name);
    if |xs| <= |ys| {
      RecordsAgree(l, img, dir, i, xs, j, ys);
      ListingGrows(ys, |xs|, fat32);
    } else {
      RecordsAgree(l, img, dir, j, ys, i, xs);
      ListingGrows(xs, |ys|, fat32);
      if e == Underflow {
        BreaksEndsIt(ys, fat32);
      } else if e == ChainLeaves {
        NothingBehind(l, img, dir, i, xs, j, ys);
      }
    }
  }

  lemma BreaksEndsIt(es: seq<RawEntry>, fat32: bool)
    requires es != [] && !ListingOf(es[..|es| - 1], fat32).over
    requires Look(ListingOf(es[..|es| - 1], fat32).a, es[|es| - 1], fat32) == Breaks
    ensures ListingOf(es, fat32).over && ListingOf(es, fat32).broken
  {
    hide Look, ListingOf;
    LastOnto(es, fat32);
  }

  lemma NothingBehind(l: Layout, img: seq<byte>, dir: DirRef, i: nat, xs: seq<RawEntry>, j: nat, ys: seq<RawEntry>)
    requires OnDisk(l, img) && Records(l, img, dir, i, xs) && UpToLink(l, img, dir, j, ys, Leaves)
    ensures |xs| <= |ys|
  {
    hide OnDisk, LinkOf, Upto, Flat;
    if i > j {
      ClustersPrefix(l, img, dir.first, j + 1, i);
    } else {
      DirBytesGrow(l, img, dir, i, j);
    }
  }

  /** Nor does anything stop a search for what a directory has not, before it is
      seen not to have it. */
  lemma LackedIsNotObstructed(l: Layout, img: seq<byte>, dir: DirRef, name: string, e: Error)
    requires OnDisk(l, img) && Lacks(l, img, dir, name) && !Loops(l, img, dir)
    ensures !Obstructs(l, img, dir, name, e)
  {
    hide OnDisk, Records, ListingOf, StopsAt, Loops, Matches, AllOf;
    var i: nat, xs :| LackedBy(l, img, dir, name, i, xs);
    HasAStart(l, img, dir, i, xs);
    if Obstructs(l, img, dir, name, e) {
      var j: nat, ys :| StopsAt(l, img, dir, name, e, j, ys);
      if e == ChainLoops {
        LoopsIsTrueOfIt(l, img, dir, name);
      } else {
        LackedBeforeIt(l, img, dir, name, i, xs, e, j, ys);
      }
    }
  }

  lemma LackedBeforeIt(l: Layout, img: seq<byte>, dir: DirRef, name: string, i: nat, xs: seq<RawEntry>,
                       e: Error, j: nat, ys: seq<RawEntry>)
    requires OnDisk(l, img) && LackedBy(l, img, dir, name, i, xs) && StopsAt(l, img, dir, name, e, j, ys)
    ensures e == ChainLoops
  {
    hide OnDisk, Records, Matches, ListingOf, UpToLink, Look, AllOf;
    var fat32 := l.kind == 32;
    if e == Underflow {
      BreaksEndsIt(ys, fat32);
      if |xs| < |ys| {
        RecordsAgree(l, img, dir, i, xs, j, ys);
        assert ys[..|ys| - 1][..|xs|] == ys[..|xs|];
        ListingGrows(ys[..|ys| - 1], |xs|, fat32);
        if AllOf(l, img, dir, i, xs) {
          NoMoreThanAll(l, img, dir, j, ys, i, xs);
        }
      } else {
        RecordsAgree(l, img, dir, j, ys, i, xs);
        ListingGrows(xs, |ys|, fat32);
      }
    } else if e == ChainLeaves {
      NothingBehind(l, img, dir, i, xs, j, ys);
      RecordsAgree(l, img, dir, i, xs, j, ys);
      ListingGrows(ys, |xs|, fat32);
      if AllOf(l, img, dir, i, xs) {
        EndsOnce(l, img, dir, i, xs, j, ys);
      }
    }
  }

  /** A chain that ends does not leave the volume. */
  lemma EndsOnce(l: Layout, img: seq<byte>, dir: DirRef, i: nat, xs: seq<RawEntry>, j: nat, ys: seq<RawEntry>)
    requires OnDisk(l, img) && AllOf(l, img, dir, i, xs)
    ensures !UpToLink(l, img, dir, j, ys, Leaves)
  {
    hide OnDisk, LinkOf, Upto, Flat, DirBytes;
    if UpToLink(l, img, dir, j, ys, Leaves) {
      if i < j {
        ClustersPrefix(l, img, dir.first, i + 1, j);
      } else if j < i {
        ClustersPrefix(l, img, dir.first, j + 1, i);
      }
    }
  }

  /** So a search the device does not fail finds what the directory holds, if its
      chain does not loop. */
  lemma HeldIsFound(l: Layout, img: seq<byte>, dir: Entry, name: string, entry: Entry, r: Result<Entry, Error>)
    requires OnDisk(l, img) && dir.dir && Holds(l, img, RefOf(l, dir), name, entry) && !Loops(l, img, RefOf(l, dir))
    requires Settled(l, img, dir, name, r)
    ensures r == Ok(entry)
  {
    hide OnDisk, FoundIn, Lacks, Obstructs, Loops;
    match r {
      case Ok(other) =>
        SameHeld(l, img, RefOf(l, dir), name, entry, other);
      case Err(e) =>
        HeldIsNotLacked(l, img, RefOf(l, dir), name, entry);
        HeldIsNotObstructed(l, img, RefOf(l, dir), name, entry, e);
    }
  }

  /** And says of what it has not that it is not found. */
  lemma LackedIsNotFound(l: Layout, img: seq<byte>, dir: Entry, name: string, r: Result<Entry, Error>)
    requires OnDisk(l, img) && dir.dir && Lacks(l, img, RefOf(l, dir), name) && !Loops(l, img, RefOf(l, dir))
    requires Settled(l, img, dir, name, r)
    ensures r == Err(NotFound)
  {
    hide OnDisk, Holds, Lacks, Obstructs, Loops;
    match r {
      case Ok(entry) =>
        HeldIsNotLacked(l, img, RefOf(l, dir), name, entry);
      case Err(e) =>
        LackedIsNotObstructed(l, img, RefOf(l, dir), name, e);
    }
  }

  lemma SameHeld(l: Layout, img: seq<byte>, dir: DirRef, name: string, a: Entry, b: Entry)
    requires OnDisk(l, img) && Holds(l, img, dir, name, a) && Holds(l, img, dir, name, b)
    ensures a == b
  {
    hide OnDisk, FoundIn;
    var i, xs :| FoundIn(l, img, dir, name, i, xs, a);
    var j, ys :| FoundIn(l, img, dir, name, j, ys, b);
    OneEntryOfAName(l, img, dir, name, i, xs, a, j, ys, b);
  }

  // ------------------------------------------------------------ the methods

  /** Reading on in the same directory. */
  lemma RecordsOn(l: Layout, img: seq<byte>, c: DirCursor, idx: nat, es: seq<RawEntry>, more: seq<RawEntry>)
    requires OnDisk(l, img) && c.Valid(l, img) && idx <= c.steps
    requires Records(l, img, c.dir, idx, es) && Passed(l, img, c, 32 * |es|, more)
    ensures Records(l, img, c.dir, c.steps, es + more) && c.Behind(l) == 32 * |es + more|
  {
    ChainSoFar(l, img, c);
    hide OnDisk, Clusters, DirBytes, DirCursor.Valid;
    DirBytesGrow(l, img, c.dir, idx, c.steps);
    FlatInTwo(es, more);
    var a, b, n, m := DirBytes(l, img, c.dir, idx), DirBytes(l, img, c.dir, c.steps), 32 * |es|, 32 * |es + more|;
    assert a[..n] == b[..n];
    assert b[..m] == b[..n] + b[n..m];
  }

  lemma ChainSoFar(l: Layout, img: seq<byte>, c: DirCursor)
    requires OnDisk(l, img) && c.Valid(l, img)
    ensures c.dir.Chain? ==> Clusters(l, img, c.dir.first, c.steps).Some?
  {
  }

  lemma NothingReadYet(l: Layout, img: seq<byte>, c: DirCursor)
    requires OnDisk(l, img) && c.Valid(l, img)
    ensures Records(l, img, c.dir, c.steps, [])
  {
    hide OnDisk, Clusters, LinkOf;
    var b := DirBytes(l, img, c.dir, c.steps);
    assert b[..0] == [];
  }

  /** Where the listing stands: what has been read lists nothing of that name. */
  ghost predicate Searched(l: Layout, img: seq<byte>, c: DirCursor, name: string, idx: nat, es: seq<RawEntry>)
    requires OnDisk(l, img)
    reads c, c.lfn, c.lfn.units
  {
    && idx == c.steps && Records(l, img, c.dir, idx, es) && c.Behind(l) == 32 * |es|
    && var s := ListingOf(es, l.kind == 32);
       !s.over && s.a == c.lfn.View() && NoneMatches(s.list, name)
  }

  /** After one more entry: it is the one, or the search goes on. */
  lemma OneMoreEntry(l: Layout, img: seq<byte>, c: DirCursor, name: string, idx: nat, es: seq<RawEntry>,
                     more: seq<RawEntry>, listed: Listed)
    requires OnDisk(l, img) && c.Valid(l, img) && idx <= c.steps
    requires Records(l, img, c.dir, idx, es) && Passed(l, img, c, 32 * |es|, more)
    requires var s := ListingOf(es, l.kind == 32);
             !s.over && NoneMatches(s.list, name) && Answers(l, img, c, s.a, more, Ok(Some(listed)))
    ensures if Matches(listed, name) then FoundIn(l, img, c.dir, name, c.steps, es + more, listed.entry)
            else Searched(l, img, c, name, c.steps, es + more)
  {
    hide OnDisk, Records, DirCursor.Valid, Passed, ListingOf, Look, SkipAll, Matches, DirCursor.Behind, ListingEnds;
    RecordsOn(l, img, c, idx, es, more);
    OneListed(es, more, l.kind == 32);
    var n := |more| - 1;
    assert (es + more)[..|es + more| - 1] == es + more[..n];
    var s := ListingOf(es, l.kind == 32);
    assert (s.list + [listed])[..|s.list|] == s.list;
  }

  /** At the end of the listing, with nothing of that name in it. */
  lemma NothingLeft(l: Layout, img: seq<byte>, c: DirCursor, name: string, idx: nat, es: seq<RawEntry>,
                    more: seq<RawEntry>)
    requires OnDisk(l, img) && c.Valid(l, img) && idx <= c.steps
    requires Records(l, img, c.dir, idx, es) && Passed(l, img, c, 32 * |es|, more)
    requires var s := ListingOf(es, l.kind == 32);
             !s.over && NoneMatches(s.list, name) && Answers(l, img, c, s.a, more, Ok(None))
    ensures Lacks(l, img, c.dir, name)
  {
    hide OnDisk, Records, DirCursor.Valid, Passed, ListingOf, Look, SkipAll, Matches, DirCursor.Behind, ListingEnds;
    var s, fat32 := ListingOf(es, l.kind == 32), l.kind == 32;
    RecordsOn(l, img, c, idx, es, more);
    if SkipAll(s.a, more, fat32).Some? && ListingEnds(l, img, c) {
      SkippingShowsNothing(es, more, fat32);
      AtTheEnd(l, img, c, es + more);
    } else {
      OneListed(es, more, fat32);
    }
    assert LackedBy(l, img, c.dir, name, c.steps, es + more);
  }

  /** Where the listing step failed, the search does. */
  lemma SearchStops(l: Layout, img: seq<byte>, c: DirCursor, name: string, idx: nat, es: seq<RawEntry>,
                    more: seq<RawEntry>, e: Error)
    requires OnDisk(l, img) && c.Valid(l, img) && idx <= c.steps && e != Io
    requires Records(l, img, c.dir, idx, es) && Passed(l, img, c, 32 * |es|, more)
    requires var s := ListingOf(es, l.kind == 32);
             !s.over && NoneMatches(s.list, name) && Stuck(l, img, c, s.a, more, e)
    ensures Obstructs(l, img, c.dir, name, e) && e != NotFound
  {
    hide OnDisk, Records, DirCursor.Valid, Passed, ListingOf, Look, SkipAll, Matches, DirCursor.Behind, ChainStuck,
         UpToLink;
    var s, fat32 := ListingOf(es, l.kind == 32), l.kind == 32;
    RecordsOn(l, img, c, idx, es, more);
    if e == Underflow {
      BreaksOn(es, more, fat32);
    } else {
      SkippingShowsNothing(es, more, fat32);
      StuckAtTheEnd(l, img, c, es + more, e);
    }
    assert StopsAt(l, img, c.dir, name, e, c.steps, es + more);
  }

  lemma BreaksOn(es: seq<RawEntry>, more: seq<RawEntry>, fat32: bool)
    requires !ListingOf(es, fat32).over && |more| > 0
    requires var b := SkipAll(ListingOf(es, fat32).a, more[..|more| - 1], fat32);
             b.Some? && Look(b.value, more[|more| - 1], fat32) == Breaks
    ensures var all := es + more;
            var s := ListingOf(all[..|all| - 1], fat32);
            !s.over && Look(s.a, all[|all| - 1], fat32) == Breaks
              && ListingOf(all, fat32).list == ListingOf(es, fat32).list
  {
    hide Look, ListingOf, SkipAll;
    var n := |more| - 1;
    assert (es + more)[..|es + more| - 1] == es + more[..n];
    SkippingShowsNothing(es, more[..n], fat32);
    OneMoreRecord(es, more, fat32);
  }

  lemma StuckAtTheEnd(l: Layout, img: seq<byte>, c: DirCursor, es: seq<RawEntry>, e: Error)
    requires OnDisk(l, img) && c.Valid(l, img) && ChainStuck(l, img, c, e) && e != Io
    requires Records(l, img, c.dir, c.steps, es) && c.Behind(l) == 32 * |es|
    ensures e == ChainLeaves ==> UpToLink(l, img, c.dir, c.steps, es, Leaves)
    ensures e == ChainLoops ==> c.steps >= l.clusters && exists n :: UpToLink(l, img, c.dir, c.steps, es, To(n))
    ensures e == ChainLeaves || e == ChainLoops
  {
    hide LinkOf, Upto, Clusters, Layout.Size, Flat;
    UsedUp(l, img, c);
    var link := LinkOf(l, img, c.cluster);
    assert UpToLink(l, img, c.dir, c.steps, es, link);
    if link.To? {
      assert UpToLink(l, img, c.dir, c.steps, es, To(link.cluster));
    }
  }

  lemma UsedUp(l: Layout, img: seq<byte>, c: DirCursor)
    requires OnDisk(l, img) && c.Valid(l, img) && c.dir.Chain? && c.at >= c.end
    ensures c.Behind(l) == |DirBytes(l, img, c.dir, c.steps)|
    ensures Clusters(l, img, c.dir.first, c.steps).Some?
            && Clusters(l, img, c.dir.first, c.steps).value[c.steps] == c.cluster
  {
    hide LinkOf, Upto, Layout.Size;
    UptoGrows(l, img, c.dir.first, c.steps, c.steps);
    SizeStep(l, c.steps);
  }

  lemma AtTheEnd(l: Layout, img: seq<byte>, c: DirCursor, es: seq<RawEntry>)
    requires OnDisk(l, img) && c.Valid(l, img) && ListingEnds(l, img, c)
    requires Records(l, img, c.dir, c.steps, es) && c.Behind(l) == 32 * |es|
    ensures AllOf(l, img, c.dir, c.steps, es)
  {
    hide LinkOf, Upto, Clusters, Layout.Size, Flat;
    ReachesItsEnd(l, img, c);
  }

  lemma ReachesItsEnd(l: Layout, img: seq<byte>, c: DirCursor)
    requires OnDisk(l, img) && c.Valid(l, img) && ListingEnds(l, img, c)
    ensures c.Behind(l) == |DirBytes(l, img, c.dir, c.steps)|
  {
    hide LinkOf, Upto, Layout.Size;
    if c.dir.Root? {
      RootAreaInside(l);
    } else {
      UptoGrows(l, img, c.dir.first, c.steps, c.steps);
      SizeStep(l, c.steps);
    }
  }

  /** The first entry of that name in a directory. */
  method FindIn(fat: Fat, disk: Disk, dir: Entry, name: string) returns (r: Result<Entry, Error>)
    requires fat.Valid(disk)
    modifies disk`bounce, disk`strays, disk.dev`faults, fat.fatCache`at, fat.fatCache.buf,
             fat.dirCache`at, fat.dirCache.buf
    ensures fat.Valid(disk) && disk.strays == old(disk.strays) && old(disk.dev.faults) <= disk.dev.faults
    ensures r == Err(Io) || Settled(fat.l, fat.img, dir, name, r)
    ensures disk.dev.faults == old(disk.dev.faults) && fat.l.End() <= |disk.dev.bytes| ==> r != Err(Io)
    // So on a disk that reads, what the directory holds is found, and what it
    // lacks is not.
    ensures (&& disk.dev.faults == old(disk.dev.faults) && fat.l.End() <= |disk.dev.bytes|
             && dir.dir && !Loops(fat.l, fat.img, RefOf(fat.l, dir))) ==>
              && (forall entry :: Holds(fat.l, fat.img, RefOf(fat.l, dir), name, entry) ==> r == Ok(entry))
              && (Lacks(fat.l, fat.img, RefOf(fat.l, dir), name) ==> r == Err(NotFound))
  {
    hide Fat.Valid, OnDisk, Holds, Lacks, Obstructs, Loops;
    r := Search(fat, disk, dir, name);
    fat.ReadsADisk(disk);
    if r != Err(Io) && dir.dir && !Loops(fat.l, fat.img, RefOf(fat.l, dir)) {
      forall entry | Holds(fat.l, fat.img, RefOf(fat.l, dir), name, entry)
        ensures r == Ok(entry)
      {
        HeldIsFound(fat.l, fat.img, dir, name, entry, r);
      }
      if Lacks(fat.l, fat.img, RefOf(fat.l, dir), name) {
        LackedIsNotFound(fat.l, fat.img, dir, name, r);
      }
    }
  }

  /** Entry by entry, until one has the name. */
  method Search(fat: Fat, disk: Disk, dir: Entry, name: string) returns (r: Result<Entry, Error>)
    requires fat.Valid(disk)
    modifies disk`bounce, disk`strays, disk.dev`faults, fat.fatCache`at, fat.fatCache.buf,
             fat.dirCache`at, fat.dirCache.buf
    ensures fat.Valid(disk) && disk.strays == old(disk.strays) && old(disk.dev.faults) <= disk.dev.faults
    ensures r == Err(Io) || Settled(fat.l, fat.img, dir, name, r)
    ensures disk.dev.faults == old(disk.dev.faults) && fat.l.End() <= |disk.dev.bytes| ==> r != Err(Io)
  {
    hide Fat.Valid, OnDisk, Records, DirCursor.Valid, Passed, ListingOf, Matches, DirCursor.Behind, Answers, FoundIn,
         Lacks, StopsAt, Stuck, Look, SkipAll;
    fat.ReadsADisk(disk);
    var begun := OpenDir(fat, disk, dir);
    if begun.Err? {
      return Err(begun.error);
    }
    var c := begun.value;
    ghost var l, img, ref := fat.l, fat.img, RefOf(fat.l, dir);
    ghost var es := [];
    StartOfSearch(l, img, c, name);
    while true
      invariant fat.Valid(disk) && disk.strays == old(disk.strays) && old(disk.dev.faults) <= disk.dev.faults
      invariant c.Valid(l, img) && !c.done && c.dir == ref && Searched(l, img, c, name, c.steps, es)
      invariant fresh(c) && fresh(c.lfn) && fresh(c.lfn.units)
      decreases l.clusters - c.steps, c.left
    {
      StepsAreBounded(l, img, c);
      ghost var idx := c.steps;
      var next, passed := NextEntry(fat, disk, c);
      if next.Err? {
        StepFailed(l, img, c, name, idx, es, passed, next);
        return Err(next.error);
      }
      StepsAreBounded(l, img, c);
      if next.value.None? {
        NothingLeft(l, img, c, name, idx, es, passed);
        return Err(NotFound);
      }
      OneMoreEntry(l, img, c, name, idx, es, passed, next.value.value);
      if Matches(next.value.value, name) {
        return Ok(next.value.value.entry);
      }
      es := es + passed;
    }
  }

  lemma StepFailed(l: Layout, img: seq<byte>, c: DirCursor, name: string, idx: nat, es: seq<RawEntry>,
                   more: seq<RawEntry>, r: Result<Option<Listed>, Error>)
    requires OnDisk(l, img) && c.Valid(l, img) && idx <= c.steps && r.Err?
    requires Records(l, img, c.dir, idx, es) && Passed(l, img, c, 32 * |es|, more)
    requires var s := ListingOf(es, l.kind == 32);
             !s.over && NoneMatches(s.list, name) && Answers(l, img, c, s.a, more, r)
    ensures r.error == Io || (Obstructs(l, img, c.dir, name, r.error) && r.error != NotFound)
  {
    hide OnDisk, Records, DirCursor.Valid, Passed, ListingOf, Look, SkipAll, Matches, DirCursor.Behind, Stuck,
         Obstructs;
    if r.error != Io {
      SearchStops(l, img, c, name, idx, es, more, r.error);
    }
  }

  lemma StepsAreBounded(l: Layout, img: seq<byte>, c: DirCursor)
    requires OnDisk(l, img) && c.Valid(l, img)
    ensures c.steps <= l.clusters
  {
  }

  lemma StartOfSearch(l: Layout, img: seq<byte>, c: DirCursor, name: string)
    requires OnDisk(l, img) && c.Valid(l, img) && c.lfn.View() == NoName() && c.Behind(l) == 0
    ensures Searched(l, img, c, name, c.steps, [])
  {
    hide OnDisk, Records, DirCursor.Valid, DirCursor.Behind;
    NothingReadYet(l, img, c);
  }

  // ------------------------------------------------------------------ paths

  const ROOT: Entry := Entry(0, 0, true)

  predicate IsSeparator(c: char) {
    c == '\U{005C}' || c == '/'
  }

  /** The components of a path: empty ones and `.` left out. */
  function Parts(path: string): seq<string> {
    var i := PartLength(path);
    var rest := if i == |path| then [] else Parts(path[i + 1..]);
    if i == 0 || path[..i] == "." then rest else [path[..i]] + rest
  }

  function PartLength(path: string): (n: nat)
    ensures n <= |path|
  {
    if path == "" || IsSeparator(path[0]) then 0 else 1 + PartLength(path[1..])
  }

  /** `..` may name the root as cluster 0. */
  function Rooted(e: Entry): Entry {
    if e.dir && e.firstCluster == 0 then ROOT else e
  }

  /** From one entry through these components to another. */
  ghost predicate LeadTo(l: Layout, img: seq<byte>, start: Entry, parts: seq<string>, end: Entry)
    requires OnDisk(l, img)
  {
    if parts == [] then end == start
    else
      var n := |parts| - 1;
      exists mid, next ::
        && LeadTo(l, img, start, parts[..n], mid) && mid.dir
        && Holds(l, img, RefOf(l, mid), parts[n], next) && end == Rooted(next)
  }

  /** A component that is not there, after those before it. */
  ghost predicate BreaksOff(l: Layout, img: seq<byte>, start: Entry, parts: seq<string>) {
    OnDisk(l, img) &&
    exists k: nat, mid ::
      k < |parts| && LeadTo(l, img, start, parts[..k], mid) && (mid.dir ==> Lacks(l, img, RefOf(l, mid), parts[k]))
  }

  function StartOf(from: Entry, path: string): Entry {
    if path != "" && IsSeparator(path[0]) then ROOT else from
  }

  /** A component of the way in a directory that cannot be searched for it. */
  ghost predicate Obstructed(l: Layout, img: seq<byte>, start: Entry, parts: seq<string>, e: Error)
    requires OnDisk(l, img)
  {
    exists k: nat, mid ::
      k < |parts| && LeadTo(l, img, start, parts[..k], mid) && mid.dir && Obstructs(l, img, RefOf(l, mid), parts[k], e)
  }

  /** What may be answered to a path, an answer the device had no part in. */
  ghost predicate WaySettled(l: Layout, img: seq<byte>, start: Entry, parts: seq<string>, r: Result<Entry, Error>)
    requires OnDisk(l, img)
  {
    match r
    case Ok(entry) => LeadTo(l, img, start, parts, entry)
    case Err(NotFound) => BreaksOff(l, img, start, parts)
    case Err(e) => Obstructed(l, img, start, parts, e)
  }

  /** One of the directories on the way has a chain that loops. */
  ghost predicate WayLoops(l: Layout, img: seq<byte>, start: Entry, parts: seq<string>)
    requires OnDisk(l, img)
  {
    exists k: nat, mid :: k < |parts| && LeadTo(l, img, start, parts[..k], mid) && Loops(l, img, RefOf(l, mid))
  }

  /** Walk `path` from a directory, or from the root if it starts with a separator. */
  method LookupIn(fat: Fat, disk: Disk, from: Entry, path: string) returns (r: Result<Entry, Error>)
    requires fat.Valid(disk)
    modifies disk`bounce, disk`strays, disk.dev`faults, fat.fatCache`at, fat.fatCache.buf,
             fat.dirCache`at, fat.dirCache.buf
    ensures fat.Valid(disk) && disk.strays == old(disk.strays) && old(disk.dev.faults) <= disk.dev.faults
    ensures r == Err(Io) || WaySettled(fat.l, fat.img, StartOf(from, path), Parts(path), r)
    ensures disk.dev.faults == old(disk.dev.faults) && fat.l.End() <= |disk.dev.bytes| ==> r != Err(Io)
    // So on a disk that reads, where the path leads is where it comes, and a path
    // that breaks off is not found.
    ensures (&& disk.dev.faults == old(disk.dev.faults) && fat.l.End() <= |disk.dev.bytes|
             && !WayLoops(fat.l, fat.img, StartOf(from, path), Parts(path))) ==>
              && (forall end :: LeadTo(fat.l, fat.img, StartOf(from, path), Parts(path), end) ==> r == Ok(end))
              && (BreaksOff(fat.l, fat.img, StartOf(from, path), Parts(path)) ==> r == Err(NotFound))
  {
    hide Fat.Valid, OnDisk, Parts, LeadTo, WaySettled, WayLoops, BreaksOff;
    r := Follow(fat, disk, StartOf(from, path), Parts(path));
    fat.ReadsADisk(disk);
    if r != Err(Io) && !WayLoops(fat.l, fat.img, StartOf(from, path), Parts(path)) {
      forall end | LeadTo(fat.l, fat.img, StartOf(from, path), Parts(path), end)
        ensures r == Ok(end)
      {
        LedIsReached(fat.l, fat.img, StartOf(from, path), Parts(path), end, r);
      }
      if BreaksOff(fat.l, fat.img, StartOf(from, path), Parts(path)) {
        BrokenOffIsNotFound(fat.l, fat.img, StartOf(from, path), Parts(path), r);
      }
    }
  }

  /** Component by component. */
  method Follow(fat: Fat, disk: Disk, start: Entry, parts: seq<string>) returns (r: Result<Entry, Error>)
    requires fat.Valid(disk)
    modifies disk`bounce, disk`strays, disk.dev`faults, fat.fatCache`at, fat.fatCache.buf,
             fat.dirCache`at, fat.dirCache.buf
    ensures fat.Valid(disk) && disk.strays == old(disk.strays) && old(disk.dev.faults) <= disk.dev.faults
    ensures r == Err(Io) || WaySettled(fat.l, fat.img, start, parts, r)
    ensures disk.dev.faults == old(disk.dev.faults) && fat.l.End() <= |disk.dev.bytes| ==> r != Err(Io)
  {
    hide Fat.Valid, OnDisk, LeadTo, Holds, Lacks, Obstructs, Loops;
    fat.ReadsADisk(disk);
    var cur := start;
    GoesNowhere(fat.l, fat.img, start, parts);
    for i := 0 to |parts|
      invariant fat.Valid(disk) && disk.strays == old(disk.strays) && old(disk.dev.faults) <= disk.dev.faults
      invariant LeadTo(fat.l, fat.img, start, parts[..i], cur)
    {
      if !cur.dir {
        return Err(NotFound);
      }
      var found := FindIn(fat, disk, cur, parts[i]);
      if found.Err? {
        return Err(found.error);
      }
      OneStepOn(fat.l, fat.img, start, parts, i, cur, found.value);
      cur := found.value;
      if cur.dir && cur.firstCluster == 0 {
        cur := ROOT;
      }
    }
    assert parts[..|parts|] == parts;
    return Ok(cur);
  }

  lemma GoesNowhere(l: Layout, img: seq<byte>, start: Entry, parts: seq<string>)
    requires OnDisk(l, img)
    ensures LeadTo(l, img, start, parts[..0], start)
  {
  }

  lemma OneStepOn(l: Layout, img: seq<byte>, start: Entry, parts: seq<string>, i: nat, mid: Entry, next: Entry)
    requires OnDisk(l, img) && i < |parts| && LeadTo(l, img, start, parts[..i], mid) && mid.dir
    requires Holds(l, img, RefOf(l, mid), parts[i], next)
    ensures LeadTo(l, img, start, parts[..i + 1], Rooted(next))
  {
    hide OnDisk, Holds;
    assert parts[..i + 1][..i] == parts[..i];
  }

  /** A path leads to one entry. */
  lemma {:induction false} OneEntryOfAPath(l: Layout, img: seq<byte>, start: Entry, parts: seq<string>, a: Entry,
                                           b: Entry)
    requires OnDisk(l, img) && LeadTo(l, img, start, parts, a) && LeadTo(l, img, start, parts, b)
    ensures a == b
  {
    hide OnDisk, FoundIn;
    if parts != [] {
      var n := |parts| - 1;
      var m1, x :| LeadTo(l, img, start, parts[..n], m1) && m1.dir && Holds(l, img, RefOf(l, m1), parts[n], x)
        && a == Rooted(x);
      var m2, y :| LeadTo(l, img, start, parts[..n], m2) && m2.dir && Holds(l, img, RefOf(l, m2), parts[n], y)
        && b == Rooted(y);
      OneEntryOfAPath(l, img, start, parts[..n], m1, m2);
      SameHeld(l, img, RefOf(l, m1), parts[n], x, y);
    }
  }

  /** And one that leads somewhere does not break off: which of the two an answer
      says is settled by the disk. */
  lemma {:induction false} LeadsOrBreaksOff(l: Layout, img: seq<byte>, start: Entry, parts: seq<string>, end: Entry)
    requires OnDisk(l, img) && LeadTo(l, img, start, parts, end)
    ensures !BreaksOff(l, img, start, parts)
    decreases |parts|
  {
    hide OnDisk, Holds, Lacks;
    forall k: nat, mid | k < |parts| && LeadTo(l, img, start, parts[..k], mid)
      ensures mid.dir && !Lacks(l, img, RefOf(l, mid), parts[k])
    {
      var x := NextIsHeld(l, img, start, parts, end, k, mid);
      HeldIsNotLacked(l, img, RefOf(l, mid), parts[k], x);
    }
  }

  /** On a way that leads somewhere, every directory holds the next component. */
  lemma {:induction false} NextIsHeld(l: Layout, img: seq<byte>, start: Entry, parts: seq<string>, end: Entry,
                                      k: nat, mid: Entry)
    returns (x: Entry)
    requires OnDisk(l, img) && LeadTo(l, img, start, parts, end) && k < |parts|
             && LeadTo(l, img, start, parts[..k], mid)
    ensures mid.dir && Holds(l, img, RefOf(l, mid), parts[k], x)
    decreases |parts|
  {
    hide OnDisk, Holds;
    var n := |parts| - 1;
    var m, y :| LeadTo(l, img, start, parts[..n], m) && m.dir && Holds(l, img, RefOf(l, m), parts[n], y)
      && end == Rooted(y);
    if k == n {
      OneEntryOfAPath(l, img, start, parts[..n], m, mid);
      x := y;
    } else {
      assert parts[..n][..k] == parts[..k];
      x := NextIsHeld(l, img, start, parts[..n], m, k, mid);
    }
  }

  /** So where a path leads is what is answered, if the device does not fail and
      no directory on the way loops. */
  lemma LedIsReached(l: Layout, img: seq<byte>, start: Entry, parts: seq<string>, end: Entry, r: Result<Entry, Error>)
    requires OnDisk(l, img) && LeadTo(l, img, start, parts, end) && !WayLoops(l, img, start, parts)
    requires WaySettled(l, img, start, parts, r)
    ensures r == Ok(end)
  {
    hide OnDisk, LeadTo, BreaksOff, Obstructs, Loops, Holds;
    match r {
      case Ok(other) =>
        OneEntryOfAPath(l, img, start, parts, end, other);
      case Err(e) =>
        LeadsOrBreaksOff(l, img, start, parts, end);
        if Obstructed(l, img, start, parts, e) {
          var k: nat, mid :| k < |parts| && LeadTo(l, img, start, parts[..k], mid) && mid.dir
            && Obstructs(l, img, RefOf(l, mid), parts[k], e);
          var x := NextIsHeld(l, img, start, parts, end, k, mid);
          HeldIsNotObstructed(l, img, RefOf(l, mid), parts[k], x, e);
        }
    }
  }

  /** And where it breaks off is answered so. */
  lemma BrokenOffIsNotFound(l: Layout, img: seq<byte>, start: Entry, parts: seq<string>, r: Result<Entry, Error>)
    requires OnDisk(l, img) && BreaksOff(l, img, start, parts) && !WayLoops(l, img, start, parts)
    requires WaySettled(l, img, start, parts, r)
    ensures r == Err(NotFound)
  {
    hide OnDisk, LeadTo, Obstructs, Loops, Holds, Lacks;
    match r {
      case Ok(end) =>
        LeadsOrBreaksOff(l, img, start, parts, end);
      case Err(e) =>
        if Obstructed(l, img, start, parts, e) {
          var i: nat, a :| i < |parts| && LeadTo(l, img, start, parts[..i], a)
            && (a.dir ==> Lacks(l, img, RefOf(l, a), parts[i]));
          var k: nat, b :| k < |parts| && LeadTo(l, img, start, parts[..k], b) && b.dir
            && Obstructs(l, img, RefOf(l, b), parts[k], e);
          OneStops(l, img, start, parts, i, a, k, b, e);
        }
    }
  }

  lemma OneStops(l: Layout, img: seq<byte>, start: Entry, parts: seq<string>, i: nat, a: Entry, k: nat, b: Entry,
                 e: Error)
    requires OnDisk(l, img) && !WayLoops(l, img, start, parts) && i < |parts| && k < |parts|
    requires LeadTo(l, img, start, parts[..i], a) && (a.dir ==> Lacks(l, img, RefOf(l, a), parts[i]))
    requires LeadTo(l, img, start, parts[..k], b) && b.dir
    ensures !Obstructs(l, img, RefOf(l, b), parts[k], e)
  {
    hide OnDisk, LeadTo, Obstructs, Loops, Holds, Lacks;
    if i == k {
      OneEntryOfAPath(l, img, start, parts[..i], a, b);
      LackedIsNotObstructed(l, img, RefOf(l, b), parts[k], e);
    } else if i < k {
      assert parts[..k][..i] == parts[..i];
      var x := NextIsHeld(l, img, start, parts[..k], b, i, a);
      HeldIsNotLacked(l, img, RefOf(l, a), parts[i], x);
    } else {
      assert parts[..i][..k] == parts[..k];
      var x := NextIsHeld(l, img, start, parts[..i], a, k, b);
      HeldIsNotObstructed(l, img, RefOf(l, b), parts[k], x, e);
    }
  }
}
