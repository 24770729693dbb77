/** A FAT long name gathered from the records in front of its entry, of which
    the last part comes first (`Lfn` in `src/esp.rs`). */
module Lfns {
  import opened Bytes

  /** Where an entry keeps its thirteen units. */
  const OFFSETS: seq<nat> := [1, 3, 5, 7, 9, 14, 16, 18, 20, 22, 24, 28, 30]

  const NO_UNIT: nat := 0xFFFF

  type RawEntry = e: seq<byte> | |e| == 32 witness seq(32, _ => 0 as byte)

  function SeqOf(e: RawEntry): nat { e[0] as nat % 32 }
  predicate IsLast(e: RawEntry) { e[0] as nat / 64 % 2 == 1 }
  function SumOf(e: RawEntry): nat { e[13] as nat }

  function UnitOf(e: RawEntry, k: nat): (u: nat)
    requires k < 13
    ensures u <= 0xFFFF
  {
    assert OFFSETS[k] <= 30;
    Le16(e, OFFSETS[k])
  }

  /** The short-name checksum every long-name entry carries. */
  function Checksum(sfn: seq<byte>): (s: nat)
    ensures s < 256
  {
    if sfn == [] then 0
    else
      var s := Checksum(sfn[..|sfn| - 1]);
      (s % 2 * 128 + s / 2 + sfn[|sfn| - 1] as nat) % 256
  }

  /** A name being assembled, as a value. */
  datatype Assembly = Assembly(units: seq<nat>, parts: nat, next: nat, sum: nat, ok: bool)
  {
    predicate Sound() {
      |units| == 260 && (ok ==> 1 <= parts <= 20 && next < parts)
    }

    /** The entry that makes `push` count below zero: part 0, when part 0 would
        be next. The source stops there. */
    predicate Underflows(e: RawEntry) {
      !IsLast(e) && ok && SeqOf(e) == next && SumOf(e) == sum && SeqOf(e) == 0
    }

    function Reset(): Assembly {
      this.(ok := false)
    }

    function Push(e: RawEntry): Assembly
      requires Sound() && !Underflows(e)
    {
      var part := SeqOf(e);
      if IsLast(e) then
        var begun := Assembly(NoUnits(), part, next, SumOf(e), 1 <= part <= 20);
        if begun.ok then begun.(next := part - 1, units := WithPart(begun.units, part, e)) else begun
      else if ok && part == next && SumOf(e) == sum then
        this.(next := part - 1, units := WithPart(units, part, e))
      else Reset()
    }

    /** The name, when no part is missing and the checksum is this entry's. */
    function Name(s: nat): Option<seq<nat>>
      requires Sound()
    {
      if !ok || next != 0 || sum != s then None else Some(units[..NameLength(units[..parts * 13])])
    }
  }

  function NoUnits(): seq<nat> {
    seq(260, _ => NO_UNIT)
  }

  function NoName(): (a: Assembly)
    ensures a.Sound() && !a.ok
  {
    Assembly(NoUnits(), 0, 0, 0, false)
  }

  function UnitsOf(e: RawEntry): (us: seq<nat>)
    ensures |us| == 13
  {
    seq(13, k requires 0 <= k < 13 => UnitOf(e, k))
  }

  /** The units with one part's thirteen put in their place. */
  function WithPart(units: seq<nat>, part: nat, e: RawEntry): (us: seq<nat>)
    requires |units| == 260 && 1 <= part <= 20
    ensures |us| == 260
  {
    units[..(part - 1) * 13] + UnitsOf(e) + units[part * 13..]
  }

  /** Where the terminator or the padding is, else all of it. */
  function NameLength(units: seq<nat>): (n: nat)
    ensures n <= |units|
    ensures n < |units| ==> units[n] == 0 || units[n] == NO_UNIT
    ensures forall i :: 0 <= i < n ==> units[i] != 0 && units[i] != NO_UNIT
  {
    if units == [] || units[0] == 0 || units[0] == NO_UNIT then 0 else 1 + NameLength(units[1..])
  }

  /** The source's record, updated in place. */
  class Lfn {
    const units: array<nat>
    var parts: nat
    var next: nat
    var sum: nat
    var ok: bool

    ghost predicate Valid()
      reads this, units
    {
      units.Length == 260 && View().Sound()
    }

    function View(): Assembly
      reads this, units
    {
      Assembly(units[..], parts, next, sum, ok)
    }

    constructor ()
      ensures Valid() && fresh(units) && View() == NoName()
    {
      units := new nat[260](_ => NO_UNIT);
      parts, next, sum, ok := 0, 0, 0, false;
      new;
      assert units[..] == NoUnits();
    }

    method Become(other: Lfn)
      requires Valid() && other.Valid() && other != this && other.units != units
      modifies this, units
      ensures Valid() && View() == other.View()
    {
      forall i | 0 <= i < 260 {
        units[i] := other.units[i];
      }
      parts, next, sum, ok := other.parts, other.next, other.sum, other.ok;
      assert units[..] == other.units[..];
    }

    method Reset()
      requires Valid()
      modifies this`ok
      ensures Valid() && View() == old(View()).Reset()
    {
      ok := false;
    }

    method Push(e: RawEntry)
      requires Valid() && !View().Underflows(e)
      modifies this, units
      ensures Valid() && View() == old(View()).Push(e)
    {
      var part := SeqOf(e);
      if IsLast(e) {
        forall i | 0 <= i < 260 {
          units[i] := NO_UNIT;
        }
        assert units[..] == NoUnits();
        parts, sum, ok := part, SumOf(e), 1 <= part <= 20;
      } else if !(ok && part == next && SumOf(e) == sum) {
        ok := false;
        return;
      }
      if !ok {
        return;
      }
      next := part - 1;
      PutPart(part, e);
    }

    method PutPart(part: nat, e: RawEntry)
      requires units.Length == 260 && 1 <= part <= 20
      modifies units
      ensures units[..] == WithPart(old(units[..]), part, e)
    {
      var at := (part - 1) * 13;
      ghost var before := units[..];
      hide UnitOf;
      for k := 0 to 13
        invariant forall i :: 0 <= i < 260 ==> units[i] == if at <= i < at + k then UnitsOf(e)[i - at] else before[i]
      {
        units[at + k] := UnitOf(e, k);
      }
      assert units[..at] == before[..at] && units[at..at + 13] == UnitsOf(e) && units[at + 13..] == before[at + 13..];
      assert units[..] == units[..at] + units[at..at + 13] + units[at + 13..];
    }

    /** What `name` gives, which reads and changes nothing. */
    method Name(s: nat) returns (name: Option<seq<nat>>)
      requires Valid()
      ensures name == View().Name(s)
    {
      if !ok || next != 0 || sum != s {
        return None;
      }
      return Some(units[..NameLength(units[..parts * 13])]);
    }
  }

  // ------------------------------------------------------------- properties

  /** A name a long name can hold: 1 to 255 units, none of them the terminator
      or the padding. */
  predicate NameOk(name: seq<nat>) {
    1 <= |name| <= 255 && forall i :: 0 <= i < |name| ==> 0 < name[i] < NO_UNIT
  }

  function PartsFor(name: seq<nat>): nat {
    DivCeil(|name|, 13)
  }

  /** The `i`th unit as it is stored: the name, its terminator, then padding. */
  function Padded(name: seq<nat>, i: nat): nat {
    if i < |name| then name[i] else if i == |name| then 0 else NO_UNIT
  }

  /** An entry that carries part `part` of the name, whatever its other bytes. */
  predicate Carries(e: RawEntry, name: seq<nat>, part: nat, sum: nat)
    requires part >= 1
  {
    && SeqOf(e) == part && (IsLast(e) <==> part == PartsFor(name)) && SumOf(e) == sum
    && forall k :: 0 <= k < 13 ==> UnitOf(e, k) == Padded(name, (part - 1) * 13 + k)
  }

  /** A name's entries in the order they are on the disk, last part first. */
  predicate OnDiskAs(es: seq<RawEntry>, name: seq<nat>, sum: nat) {
    && |es| == PartsFor(name)
    && forall j :: 0 <= j < |es| ==> Carries(es[j], name, |es| - j, sum)
  }

  predicate Numbered(es: seq<RawEntry>) {
    forall j :: 0 <= j < |es| ==> SeqOf(es[j]) >= 1
  }

  function PushAll(a: Assembly, es: seq<RawEntry>): (b: Assembly)
    requires a.Sound() && Numbered(es)
    ensures b.Sound()
  {
    if es == [] then a else PushAll(a, es[..|es| - 1]).Push(es[|es| - 1])
  }

  /** What has been put in place once parts `parts - j + 1` to `parts` are in. */
  ghost predicate Partway(b: Assembly, name: seq<nat>, sum: nat, j: nat) {
    var parts := PartsFor(name);
    && 1 <= j <= parts <= 20 && b.Sound()
    && b.ok && b.parts == parts && b.next == parts - j && b.sum == sum
    && forall i :: (parts - j) * 13 <= i < parts * 13 ==> b.units[i] == Padded(name, i)
  }

  lemma PartInPlace(units: seq<nat>, part: nat, e: RawEntry, name: seq<nat>, sum: nat)
    requires |units| == 260 && 1 <= part <= 20 && Carries(e, name, part, sum)
    ensures var us := WithPart(units, part, e);
            && (forall i :: (part - 1) * 13 <= i < part * 13 ==> us[i] == Padded(name, i))
            && (forall i :: part * 13 <= i < 260 ==> us[i] == units[i])
  {
    var us := WithPart(units, part, e);
    hide Padded, UnitOf;
    forall i | (part - 1) * 13 <= i < part * 13
      ensures us[i] == Padded(name, i)
    {
      var k := i - (part - 1) * 13;
      assert us[i] == UnitsOf(e)[k] == UnitOf(e, k);
      assert UnitOf(e, k) == Padded(name, (part - 1) * 13 + k);
    }
  }

  lemma {:induction false} PartwayAfter(a: Assembly, es: seq<RawEntry>, name: seq<nat>, sum: nat, j: nat)
    requires a.Sound() && NameOk(name) && OnDiskAs(es, name, sum) && 1 <= j <= |es| && Numbered(es[..j])
    ensures Partway(PushAll(a, es[..j]), name, sum, j)
  {
    hide Padded, UnitOf, WithPart, NoUnits;
    var part := |es| - j + 1;
    var e := es[j - 1];
    assert es[..j][..j - 1] == es[..j - 1];
    var b := PushAll(a, es[..j - 1]);
    if j > 1 {
      PartwayAfter(a, es, name, sum, j - 1);
      PartInPlace(b.units, part, e, name, sum);
    } else {
      UnitsAtFirst();
      PartInPlace(NoUnits(), part, e, name, sum);
    }
  }

  lemma UnitsAtFirst()
    ensures |NoUnits()| == 260
  {
  }

  lemma EntriesAreNumbered(es: seq<RawEntry>, name: seq<nat>, sum: nat)
    requires OnDiskAs(es, name, sum)
    ensures Numbered(es)
  {
    forall j | 0 <= j < |es|
      ensures SeqOf(es[j]) >= 1
    {
      assert Carries(es[j], name, |es| - j, sum);
    }
  }

  lemma AsManyAsParts(es: seq<RawEntry>, name: seq<nat>, sum: nat)
    requires OnDiskAs(es, name, sum)
    ensures |es| == PartsFor(name)
  {
  }

  lemma {:induction false} NameEnds(units: seq<nat>, name: seq<nat>, from: nat)
    requires NameOk(name) && from <= |name| && from + |units| >= |name|
    requires forall i :: 0 <= i < |units| ==> units[i] == Padded(name, from + i)
    ensures NameLength(units) == |name| - from
    decreases |units|
  {
    if units != [] {
      assert units[0] == Padded(name, from + 0);
      if from < |name| {
        forall i | 0 <= i < |units[1..]|
          ensures units[1..][i] == Padded(name, from + 1 + i)
        {
          assert units[i + 1] == Padded(name, from + (i + 1));
        }
        NameEnds(units[1..], name, from + 1);
      }
    }
  }

  /** Any long name, whatever was being assembled before it, comes back exactly
      under its own checksum. */
  lemma NameComesBack(a: Assembly, es: seq<RawEntry>, name: seq<nat>, sum: nat)
    requires a.Sound() && NameOk(name) && OnDiskAs(es, name, sum)
    ensures Numbered(es) && PushAll(a, es).Name(sum) == Some(name)
  {
    EntriesAreNumbered(es, name, sum);
    assert es[..|es|] == es;
    PartwayAfter(a, es, name, sum, |es|);
    var b := PushAll(a, es);
    hide PushAll, NameLength, OnDiskAs, Numbered;
    var all := b.units[..b.parts * 13];
    NameEnds(all, name, 0);
    assert all[..|name|] == name by {
      forall i | 0 <= i < |name|
        ensures all[i] == name[i]
      {
        assert b.units[i] == Padded(name, i);
      }
    }
    assert b.units[..|name|] == all[..|name|];
  }

  /** Under any other checksum there is no name. */
  lemma OtherChecksumGivesNone(a: Assembly, es: seq<RawEntry>, name: seq<nat>, sum: nat, other: nat)
    requires a.Sound() && NameOk(name) && OnDiskAs(es, name, sum) && other != sum
    ensures Numbered(es) && PushAll(a, es).Name(other) == None
  {
    EntriesAreNumbered(es, name, sum);
    assert es[..|es|] == es;
    PartwayAfter(a, es, name, sum, |es|);
    hide PushAll;
  }

  /** Once a name is broken, continuation entries do not mend it. */
  lemma {:induction false} StaysBroken(a: Assembly, es: seq<RawEntry>)
    requires a.Sound() && !a.ok && Numbered(es)
    requires forall j :: 0 <= j < |es| ==> !IsLast(es[j])
    ensures !PushAll(a, es).ok
  {
    if es != [] {
      StaysBroken(a, es[..|es| - 1]);
    }
  }

  lemma {:induction false} PushInTwo(a: Assembly, xs: seq<RawEntry>, ys: seq<RawEntry>)
    requires a.Sound() && Numbered(xs) && Numbered(ys)
    ensures Numbered(xs + ys) && PushAll(a, xs + ys) == PushAll(PushAll(a, xs), ys)
  {
    if ys == [] {
      assert xs + ys == xs;
    } else {
      assert (xs + ys)[..|xs + ys| - 1] == xs + ys[..|ys| - 1];
      PushInTwo(a, xs, ys[..|ys| - 1]);
    }
  }

  /** What is left of a name after one entry that does not fit: nothing. */
  lemma BrokenAt(a: Assembly, es: seq<RawEntry>, rest: seq<RawEntry>, name: seq<nat>, sum: nat, d: nat, s: nat)
    requires a.Sound() && (d == 0 ==> !a.ok) && NameOk(name) && OnDiskAs(es, name, sum) && d <= |es|
    requires Numbered(rest) && forall j :: 0 <= j < |rest| ==> !IsLast(rest[j])
    requires d > 0 && rest != [] ==> SeqOf(rest[0]) != |es| - d || SumOf(rest[0]) != sum
    requires d > 0 && rest == [] ==> d < |es|
    ensures Numbered(es[..d] + rest) && PushAll(a, es[..d] + rest).Name(s) == None
  {
    hide OnDiskAs, WithPart, UnitOf, Padded, NoUnits, NameLength;
    EntriesAreNumbered(es, name, sum);
    AsManyAsParts(es, name, sum);
    var b := PushAll(a, es[..d]);
    PushInTwo(a, es[..d], rest);
    if d > 0 {
      PartwayAfter(a, es, name, sum, d);
      if rest != [] {
        PushInTwo(b, rest[..1], rest[1..]);
        assert rest[..1] + rest[1..] == rest && rest[..1] == [rest[0]];
        assert [rest[0]][..0] == [];
        assert PushAll(b, [rest[0]]) == b.Push(rest[0]);
        StaysBroken(b.Push(rest[0]), rest[1..]);
      }
    } else {
      assert es[..0] == [];
      StaysBroken(a, rest);
    }
  }

  /** From a reset state, a name one of whose entries is missing is no name. */
  lemma DroppedEntryGivesNone(a: Assembly, es: seq<RawEntry>, name: seq<nat>, sum: nat, d: nat, s: nat)
    requires a.Sound() && !a.ok && NameOk(name) && OnDiskAs(es, name, sum) && d < |es|
    ensures Numbered(es[..d] + es[d + 1..]) && PushAll(a, es[..d] + es[d + 1..]).Name(s) == None
  {
    EntriesAreNumbered(es, name, sum);
    var rest := es[d + 1..];
    forall j | 0 <= j < |rest|
      ensures !IsLast(rest[j]) && SeqOf(rest[j]) == |es| - (d + 1 + j) && SeqOf(rest[j]) >= 1
    {
      assert Carries(es[d + 1 + j], name, |es| - (d + 1 + j), sum);
    }
    hide PushAll, OnDiskAs, IsLast, SeqOf;
    BrokenAt(a, es, rest, name, sum, d, s);
  }

  /** Nor is one with an entry that carries another checksum. */
  lemma ChangedChecksumGivesNone(a: Assembly, es: seq<RawEntry>, name: seq<nat>, sum: nat, d: nat, x: byte)
    requires a.Sound() && !a.ok && NameOk(name) && OnDiskAs(es, name, sum) && d < |es| && x as nat != sum
    ensures var changed: seq<RawEntry> := es[d := es[d][13 := x]];
            Numbered(changed) && PushAll(a, changed).Name(sum) == None
  {
    EntriesAreNumbered(es, name, sum);
    var odd: RawEntry := es[d][13 := x];
    var changed: seq<RawEntry> := es[d := odd];
    assert SeqOf(odd) == SeqOf(es[d]) && IsLast(odd) == IsLast(es[d]) && SumOf(odd) == x as nat;
    var rest := es[d + 1..];
    forall j | 0 <= j < |rest|
      ensures !IsLast(rest[j]) && SumOf(rest[j]) == sum && SeqOf(rest[j]) >= 1
    {
      assert Carries(es[d + 1 + j], name, |es| - (d + 1 + j), sum);
    }
    assert Carries(es[d], name, |es| - d, sum);
    hide OnDiskAs, IsLast, SeqOf, SumOf, Carries;
    if d > 0 {
      assert changed == es[..d] + ([odd] + rest);
      BrokenAt(a, es, [odd] + rest, name, sum, d, sum);
    } else {
      assert changed == [odd] + rest;
      FirstEntryOdd(a, odd, rest, sum);
    }
  }

  lemma FirstEntryOdd(a: Assembly, odd: RawEntry, rest: seq<RawEntry>, sum: nat)
    requires a.Sound() && SeqOf(odd) >= 1 && IsLast(odd) && SumOf(odd) != sum && Numbered(rest)
    requires forall j :: 0 <= j < |rest| ==> !IsLast(rest[j]) && SumOf(rest[j]) == sum
    ensures Numbered([odd] + rest) && PushAll(a, [odd] + rest).Name(sum) == None
  {
    PushInTwo(a, [odd], rest);
    assert [odd][..0] == [];
    var b := a.Push(odd);
    assert PushAll(a, [odd]) == b;
    if rest != [] {
      PushInTwo(b, rest[..1], rest[1..]);
      assert rest[..1] + rest[1..] == rest && rest[..1] == [rest[0]];
      assert [rest[0]][..0] == [];
      assert PushAll(b, [rest[0]]) == b.Push(rest[0]);
      StaysBroken(b.Push(rest[0]), rest[1..]);
    }
  }
}
