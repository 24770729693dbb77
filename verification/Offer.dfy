/** What an offered manifest changes on a medium: which of its files differ,
    which drivers it retires, and in what order they are swapped (the middle of
    `try_update` in `src/selfupdate.rs`). */
module Offer {
  import opened Bytes
  import opened Text
  import opened UpdateState
  import opened Manifests
  import opened BootMedium
  import opened Volume
  import opened SelfUpdate
  import Sha256

  /** Contents that match the signed size and hash. */
  ghost predicate Matches(e: Entry, contents: seq<byte>) {
    |contents| == e.size && Sha256.Sha(contents) == e.sha256
  }

  /** A manifest's file, on the medium as it was signed. */
  ghost predicate Carried(f: Files, e: Entry) {
    Key(e.path) in f && Matches(e, f[Key(e.path)])
  }

  // ---------------------------------------------------------- what differs

  ghost predicate FetchedRight(f: Files, c: Fetched) {
    Matches(c.entry, c.body) && (c.isNew <==> Key(c.entry.path) !in f)
  }

  /** What was fetched was not there already. */
  ghost predicate NoneCarried(f: Files, changed: seq<Fetched>) {
    forall j :: 0 <= j < |changed| ==> !Carried(f, changed[j].entry)
  }

  /** The server has the file as it was signed. */
  ghost predicate ServedRight(served: map<string, seq<byte>>, e: Entry) {
    e.path in served && Matches(e, served[e.path])
  }

  /** Each file that the medium has not is served. */
  ghost predicate AllServed(f: Files, files: seq<Entry>, served: map<string, seq<byte>>) {
    forall i :: 0 <= i < |files| ==> Carried(f, files[i]) || ServedRight(served, files[i])
  }

  ghost predicate AmongFetched(changed: seq<Fetched>, e: Entry) {
    exists j :: 0 <= j < |changed| && changed[j].entry == e
  }

  ghost predicate AllRight(f: Files, changed: seq<Fetched>) {
    forall j :: 0 <= j < |changed| ==> FetchedRight(f, changed[j])
  }

  predicate DistinctFetched(changed: seq<Fetched>) {
    forall i, j :: 0 <= i < j < |changed| ==> !SameName(changed[i].entry.path, changed[j].entry.path)
  }

  ghost predicate FromManifest(files: seq<Entry>, changed: seq<Fetched>) {
    forall j :: 0 <= j < |changed| ==> changed[j].entry in files
  }

  /** The files the medium has not as signed, with bodies that are; nothing is
      written for it. */
  method FindChanged(vol: Vol, files: seq<Entry>, served: map<string, seq<byte>>, ghost f: Files)
    returns (ok: bool, changed: seq<Fetched>)
    requires vol.Valid() && vol.now.files == f && AllDistinct(files)
    modifies vol`faults
    ensures vol.Valid() && old(vol.faults) <= vol.faults
    ensures AllRight(f, changed) && DistinctFetched(changed) && FromManifest(files, changed) && NoneCarried(f, changed)
    ensures vol.faults == old(vol.faults) ==> (ok <==> AllServed(f, files, served))
    ensures ok ==> forall i :: 0 <= i < |files| ==> Carried(f, files[i]) || AmongFetched(changed, files[i])
  {
    hide Key, Fold, Sha256.Sha, ServedRight, Carried, FetchedRight;
    changed := [];
    for i := 0 to |files|
      invariant old(vol.faults) <= vol.faults
      invariant AllRight(f, changed) && DistinctFetched(changed) && FromManifest(files[..i], changed)
                && NoneCarried(f, changed)
      invariant vol.faults == old(vol.faults) ==> AllServed(f, files[..i], served)
      invariant forall k :: 0 <= k < i ==> Carried(f, files[k]) || AmongFetched(changed, files[k])
    {
      var c;
      ok, c := CheckOne(vol, files[i], served);
      if !ok {
        return;
      }
      if c.Some? {
        Extended(files, i, changed, c.value);
        changed := changed + [c.value];
      }
      assert forall k :: 0 <= k < i ==> files[..i + 1][k] == files[..i][k];
    }
    assert files[..|files|] == files;
    ok := true;
  }

  lemma Extended(files: seq<Entry>, i: nat, changed: seq<Fetched>, c: Fetched)
    requires AllDistinct(files) && i < |files| && c.entry == files[i]
    requires DistinctFetched(changed) && FromManifest(files[..i], changed)
    ensures DistinctFetched(changed + [c]) && FromManifest(files[..i + 1], changed + [c])
    ensures AmongFetched(changed + [c], c.entry)
    ensures forall e :: AmongFetched(changed, e) ==> AmongFetched(changed + [c], e)
  {
    hide Fold;
    var more := changed + [c];
    assert more[|changed|] == c;
    forall j | 0 <= j < |changed|
      ensures !SameName(changed[j].entry.path, c.entry.path) && changed[j].entry in files[..i + 1]
    {
      assert changed[j].entry in files[..i];
      var k :| 0 <= k < i && files[..i][k] == changed[j].entry;
      assert !SameName(files[k].path, files[i].path);
      assert files[..i + 1][k] == changed[j].entry;
    }
    assert files[..i + 1][i] == c.entry;
    forall e | AmongFetched(changed, e)
      ensures AmongFetched(more, e)
    {
      var j :| 0 <= j < |changed| && changed[j].entry == e;
      assert more[j].entry == e;
    }
  }

  /** One file of the manifest: carried already, or fetched and right. */
  method CheckOne(vol: Vol, e: Entry, served: map<string, seq<byte>>) returns (ok: bool, c: Option<Fetched>)
    requires vol.Valid()
    modifies vol`faults
    ensures old(vol.faults) <= vol.faults
    ensures ok && c.None? ==> Carried(vol.now.files, e)
    ensures c.Some? ==> c.value.entry == e && FetchedRight(vol.now.files, c.value) && !Carried(vol.now.files, e)
    ensures vol.faults == old(vol.faults) ==> (ok <==> Carried(vol.now.files, e) || ServedRight(served, e))
  {
    NamesAsKeys(e.path);
    hide Key, Fold, EfiPath, Sha256.Sha;
    ghost var k, f := Key(e.path), vol.now.files;
    c := None;
    var have;
    ok, have := vol.Read(EfiPath(e.path), e.size + 1);
    if !ok {
      return;
    }
    assert k in f && |f[k]| == e.size ==> have.value == f[k];
    assert k in f && |f[k]| != e.size ==> |have.value| != e.size;
    if have.Some? && |have.value| == e.size {
      var digest := Sha256.Digest(have.value);
      if digest == e.sha256 {
        return;
      }
    }
    assert !Carried(f, e);
    if e.path !in served {
      return false, None;
    }
    var body := served[e.path];
    var digest := Sha256.Digest(body);
    if |body| != e.size || digest != e.sha256 {
      return false, None;
    }
    return true, Some(Fetched(e, body, have.None?));
  }

  // ---------------------------------------------------------- what goes

  function DriverPath(name: string): string {
    DriversPath() + name
  }

  predicate LoadableName(name: string) {
    HasSuffix(name, ".efi")
  }

  lemma DriverPathKey(name: string)
    requires DriverName(name)
    ensures Key(DriverPath(name)) == DriverKey(name)
  {
    hide DriversPath, Fold, Backslashed;
    var dir := DriversPath();
    BackslashedName(dir, name);
    assert EfiPath(dir + name) == EfiPath(dir) + name;
    FoldConcat(EfiPath(dir), name);
  }

  lemma BackslashedName(dir: string, name: string)
    requires DriverName(name)
    ensures Backslashed(dir + name) == Backslashed(dir) + name
  {
    var x, y := Backslashed(dir + name), Backslashed(dir) + name;
    forall i | 0 <= i < |x|
      ensures x[i] == y[i]
    {
      if i >= |dir| {
        assert name[i - |dir|] in name;
      }
    }
  }

  /** A loadable driver that an update may remove and the manifest does not name. */
  predicate Retirable(m: Manifest, name: string) {
    LoadableName(name) && PathOk(DriverPath(name)) && !m.Names(DriverPath(name))
  }

  /** The retirable names, in order. */
  function RetirableNames(m: Manifest, names: seq<string>): (kept: seq<string>)
    ensures forall n :: n in kept <==> n in names && Retirable(m, n)
    ensures NoRepeats(names) ==> NoRepeats(kept)
  {
    if names == [] then []
    else
      var rest := RetirableNames(m, names[1..]);
      if Retirable(m, names[0]) then [names[0]] + rest else rest
  }

  function DriverPaths(names: seq<string>): seq<string> {
    seq(|names|, i requires 0 <= i < |names| => DriverPath(names[i]))
  }

  // ---------------------------------------------------------- the order

  predicate IsBootloader(c: Fetched) {
    SameName(c.entry.path, Bootloader())
  }

  function Where(changed: seq<Fetched>, boot: bool): (kept: seq<Fetched>)
    ensures forall c :: c in kept <==> c in changed && IsBootloader(c) == boot
  {
    if changed == [] then []
    else
      var rest := Where(changed[1..], boot);
      if IsBootloader(changed[0]) == boot then [changed[0]] + rest else rest
  }

  /** The stable sort that puts the bootloader last. */
  function BootloaderLast(changed: seq<Fetched>): (sorted: seq<Fetched>)
    ensures forall c :: c in sorted <==> c in changed
  {
    Where(changed, false) + Where(changed, true)
  }

  lemma {:induction false} WhereDistinct(changed: seq<Fetched>, boot: bool)
    requires DistinctFetched(changed)
    ensures DistinctFetched(Where(changed, boot))
  {
    hide Fold;
    if changed != [] {
      WhereDistinct(changed[1..], boot);
      var rest := Where(changed[1..], boot);
      forall j | 0 <= j < |rest|
        ensures !SameName(changed[0].entry.path, rest[j].entry.path)
      {
        assert rest[j] in rest;
        var k :| 0 <= k < |changed[1..]| && changed[1..][k] == rest[j];
        assert changed[k + 1] == rest[j];
      }
    }
  }

  /** Sorting loses nothing, keeps names apart, and leaves the bootloader, if
      it changed at all, last. */
  lemma SortedBootloader(changed: seq<Fetched>)
    requires DistinctFetched(changed)
    ensures DistinctFetched(BootloaderLast(changed))
    ensures var sorted := BootloaderLast(changed);
            forall i :: 0 <= i < |sorted| && IsBootloader(sorted[i]) ==> i == |sorted| - 1
  {
    hide Fold, Bootloader;
    var others, boot := Where(changed, false), Where(changed, true);
    WhereDistinct(changed, false);
    WhereDistinct(changed, true);
    var sorted := others + boot;
    forall i | 0 <= i < |others|
      ensures !IsBootloader(sorted[i])
    {
      assert sorted[i] in others;
    }
    forall i | |others| <= i < |sorted|
      ensures IsBootloader(sorted[i])
    {
      assert sorted[i] in boot;
    }
    forall i | 0 <= i < |boot|
      ensures SameName(boot[i].entry.path, Bootloader())
    {
      assert boot[i] in boot;
    }
    assert |boot| >= 2 ==> !SameName(boot[0].entry.path, boot[1].entry.path);
    forall i, j | 0 <= i < j < |sorted|
      ensures !SameName(sorted[i].entry.path, sorted[j].entry.path)
    {
      if j < |others| {
        assert sorted[i] == others[i] && sorted[j] == others[j];
      }
    }
  }

  // ------------------------------------------------------ the whole update

  lemma ManifestPathsOk(m: Manifest, e: Entry)
    requires Accepted(m) && e in m.files
    ensures PathOk(e.path) && m.Names(e.path)
  {
    hide PathOk, Bootloader;
    var i :| 0 <= i < |m.files| && m.files[i] == e;
    assert FileOk(m.files[i]);
  }

  /** An update planned from an accepted manifest is one `apply` may carry out. */
  lemma PlanIsProper(m: Manifest, f: Files, changed: seq<Fetched>, names: seq<string>, state: State)
    requires Accepted(m) && AllRight(f, changed) && DistinctFetched(changed) && FromManifest(m.files, changed)
    requires NoRepeats(names)
    requires forall n :: n in names ==> DriverName(n) && DriverKey(n) in f && Retirable(m, n)
    requires Readable(state)
    ensures Update(state, m.serial, DriverPaths(names), changed).Proper(f)
  {
    var u := Update(state, m.serial, DriverPaths(names), changed);
    PlannedPathsOk(m, changed, names);
    PlannedPathsDistinct(m, f, changed, names);
    PlannedFlagsRight(m, f, changed, names);
    assert Keepable(u.Trial().(files := "")) by {
      hide FileList;
    }
  }

  lemma PlannedPathsOk(m: Manifest, changed: seq<Fetched>, names: seq<string>)
    requires Accepted(m) && FromManifest(m.files, changed)
    requires forall n :: n in names ==> Retirable(m, n)
    ensures AllPathsOk(Plan(DriverPaths(names), changed))
  {
    var plan := Plan(DriverPaths(names), changed);
    hide PathOk, Accepted;
    forall i | 0 <= i < |plan|
      ensures PathOk(plan[i].path)
    {
      if i < |names| {
        assert names[i] in names;
      } else {
        ManifestPathsOk(m, changed[i - |names|].entry);
      }
    }
  }

  lemma PlannedPathsDistinct(m: Manifest, f: Files, changed: seq<Fetched>, names: seq<string>)
    requires Accepted(m) && DistinctFetched(changed) && FromManifest(m.files, changed)
    requires NoRepeats(names)
    requires forall n :: n in names ==> DriverName(n) && Retirable(m, n)
    ensures DistinctPaths(Plan(DriverPaths(names), changed))
  {
    var plan := Plan(DriverPaths(names), changed);
    hide PathOk, Accepted, Fold, DriverPath;
    forall i, j | 0 <= i < j < |plan|
      ensures !SameName(plan[i].path, plan[j].path)
    {
      if j < |names| {
        assert names[i] in names && names[j] in names;
        DriverNamesDiffer(names[i], names[j]);
      } else if i < |names| {
        assert names[i] in names;
        ManifestPathsOk(m, changed[j - |names|].entry);
        NamesSameName(m, plan[i].path, plan[j].path);
      } else {
        assert !SameName(changed[i - |names|].entry.path, changed[j - |names|].entry.path);
      }
    }
  }

  lemma DriverNamesDiffer(a: string, b: string)
    requires DriverName(a) && DriverName(b) && a != b
    ensures !SameName(DriverPath(a), DriverPath(b))
  {
    hide DriversPath;
    FoldConcat(DriversPath(), a);
    FoldConcat(DriversPath(), b);
    var d := Fold(DriversPath());
    assert Fold(DriverPath(a))[|d|..] == a && Fold(DriverPath(b))[|d|..] == b;
  }

  lemma NamesSameName(m: Manifest, p: string, q: string)
    ensures SameName(p, q) && m.Names(q) ==> m.Names(p)
  {
    hide Fold;
    if SameName(p, q) && m.Names(q) {
      var i :| 0 <= i < |m.files| && SameName(m.files[i].path, q);
      assert SameName(m.files[i].path, p);
    }
  }

  lemma PlannedFlagsRight(m: Manifest, f: Files, changed: seq<Fetched>, names: seq<string>)
    requires AllRight(f, changed)
    requires forall n :: n in names ==> DriverName(n) && DriverKey(n) in f
    ensures FlagsRight(Plan(DriverPaths(names), changed), f)
  {
    var plan := Plan(DriverPaths(names), changed);
    hide Key, DriverKey, DriverPath, Matches;
    forall i | 0 <= i < |plan|
      ensures plan[i].isNew <==> Key(plan[i].path) !in f
    {
      if i < |names| {
        assert names[i] in names;
        DriverPathKey(names[i]);
      } else {
        assert FetchedRight(f, changed[i - |names|]);
      }
    }
  }

  lemma SortKeeps(f: Files, files: seq<Entry>, changed: seq<Fetched>)
    requires AllRight(f, changed) && FromManifest(files, changed) && NoneCarried(f, changed)
    ensures AllRight(f, BootloaderLast(changed)) && FromManifest(files, BootloaderLast(changed))
    ensures NoneCarried(f, BootloaderLast(changed))
    ensures forall e :: AmongFetched(changed, e) ==> AmongFetched(BootloaderLast(changed), e)
  {
    var sorted := BootloaderLast(changed);
    hide BootloaderLast, FetchedRight, Carried;
    forall j | 0 <= j < |sorted|
      ensures FetchedRight(f, sorted[j]) && sorted[j].entry in files && !Carried(f, sorted[j].entry)
    {
      assert sorted[j] in sorted;
      var i :| 0 <= i < |changed| && changed[i] == sorted[j];
    }
    forall e | AmongFetched(changed, e)
      ensures AmongFetched(sorted, e)
    {
      var i :| 0 <= i < |changed| && changed[i].entry == e;
      assert changed[i] in changed;
      var j :| 0 <= j < |sorted| && sorted[j] == changed[i];
      assert sorted[j].entry == e;
    }
  }

  // -------------------------------------------------------- what it comes to

  /** A path none of the planned ones is the same file as. */
  lemma NotTouched(plan: seq<Change>, p: string)
    requires AllPathsOk(plan) && PathOk(p)
    requires forall i :: 0 <= i < |plan| ==> !SameName(plan[i].path, p)
    ensures !Touched(ItemsOf(plan), Key(p))
  {
    hide PathOk, Key, Fold, NewOf, PrevOf;
    forall i | 0 <= i < |plan|
      ensures Key(p) != Key(plan[i].path)
      ensures Key(p) != NewOf(Key(plan[i].path)) && Key(p) != PrevOf(Key(plan[i].path))
    {
      assert PathOk(plan[i].path);
      PathIsAWord(p);
      PathIsAWord(plan[i].path);
      KeyTellsNamesApart(plan[i].path, p);
      KeyIsNoSibling(p, Key(plan[i].path));
    }
  }

  /** The update was made from this manifest, on this medium. */
  ghost predicate PlannedFrom(m: Manifest, u: Update, names: seq<string>, f: Files) {
    && Accepted(m) && u.Proper(f) && u.retired == DriverPaths(names)
    && (forall n :: n in names ==> DriverName(n) && Retirable(m, n))
    && AllRight(f, u.changed) && FromManifest(m.files, u.changed) && NoneCarried(f, u.changed)
  }

  lemma OtherFilesDiffer(m: Manifest, u: Update, names: seq<string>, f: Files, e: Entry, i: nat)
    requires PlannedFrom(m, u, names, f) && e in m.files && !AmongFetched(u.changed, e)
    requires i < |u.Planned()|
    ensures !SameName(u.Planned()[i].path, e.path)
  {
    hide PathOk, Fold, DriverPath, AllRight, Bootloader;
    ManifestPathsOk(m, e);
    if i < |names| {
      assert names[i] in names;
      NamesSameName(m, u.Planned()[i].path, e.path);
    } else {
      var c := u.changed[i - |names|];
      assert c.entry in m.files && c.entry != e;
      var a :| 0 <= a < |m.files| && m.files[a] == c.entry;
      var b :| 0 <= b < |m.files| && m.files[b] == e;
      assert !SameName(m.files[if a < b then a else b].path, m.files[if a < b then b else a].path);
    }
  }

  /** Once an update is in place, every file the manifest names is on the
      medium with its signed size and hash. */
  lemma UpdatedSetIsWhole(m: Manifest, u: Update, names: seq<string>, start: Medium, now: Medium, e: Entry)
    requires PlannedFrom(m, u, names, start.files) && u.Complete(start, now) && e in m.files
    requires Carried(start.files, e) || AmongFetched(u.changed, e)
    ensures Carried(now.files, e)
  {
    hide PlannedFrom, Update.Complete, Carried, AmongFetched;
    if AmongFetched(u.changed, e) {
      FetchedIsInPlace(m, u, names, start, now, e);
    } else {
      CarriedStays(m, u, names, start, now, e);
    }
  }

  lemma FetchedIsInPlace(m: Manifest, u: Update, names: seq<string>, start: Medium, now: Medium, e: Entry)
    requires PlannedFrom(m, u, names, start.files) && u.Complete(start, now) && AmongFetched(u.changed, e)
    ensures Carried(now.files, e)
  {
    hide PathOk, Fold, Key, DriverPath, Bootloader, Retirable, Matches, Accepted, Update.Proper, NewOf, PrevOf;
    var j :| 0 <= j < |u.changed| && u.changed[j].entry == e;
    assert FetchedRight(start.files, u.changed[j]);
    assert Swapped(start.files, now.files, u.Items()[|names| + j], u.NewBodies()[|names| + j]);
  }

  lemma CarriedStays(m: Manifest, u: Update, names: seq<string>, start: Medium, now: Medium, e: Entry)
    requires PlannedFrom(m, u, names, start.files) && u.Complete(start, now) && e in m.files
    requires Carried(start.files, e) && !AmongFetched(u.changed, e)
    ensures Carried(now.files, e)
  {
    hide PathOk, Fold, Key, DriverPath, Bootloader, Retirable, Matches, Accepted, Update.Proper, NewOf, PrevOf, Swapped,
         AmongFetched, AllPathsOk, AllRight, FromManifest;
    forall i | 0 <= i < |u.Planned()|
      ensures !SameName(u.Planned()[i].path, e.path)
    {
      OtherFilesDiffer(m, u, names, start.files, e, i);
    }
    ManifestPathsOk(m, e);
    ProperPaths(u, start.files);
    NotTouched(u.Planned(), e.path);
    assert Same(start.files, now.files, Key(e.path));
  }

  lemma ProperPaths(u: Update, f: Files)
    requires u.Proper(f)
    ensures AllPathsOk(u.Planned())
  {
  }

  lemma OtherDriversDiffer(m: Manifest, u: Update, names: seq<string>, f: Files, n: string, i: nat)
    requires PlannedFrom(m, u, names, f) && DriverName(n) && Retirable(m, n) && n !in names
    requires i < |u.Planned()|
    ensures !SameName(u.Planned()[i].path, DriverPath(n))
  {
    hide PathOk, Fold, DriverPath, AllRight, Bootloader, Accepted, Update.Proper;
    if i < |names| {
      assert names[i] in names;
      DriverNamesDiffer(names[i], n);
    } else {
      ManifestPathsOk(m, u.changed[i - |names|].entry);
      SameNameTurns(u.Planned()[i].path, DriverPath(n));
      NamesSameName(m, DriverPath(n), u.Planned()[i].path);
    }
  }

  /** And every loadable driver it does not name is gone, if the listing was whole. */
  lemma RetiredAreGone(m: Manifest, u: Update, names: seq<string>, start: Medium, now: Medium, n: string)
    requires PlannedFrom(m, u, names, start.files) && u.Complete(start, now)
    requires DriverName(n) && Retirable(m, n)
    requires DriverKey(n) in start.files ==> n in names
    ensures DriverKey(n) !in now.files
  {
    hide PathOk, Fold, Key, DriverPath, DriverKey, SameName, FromManifest, AllRight, Accepted, Update.Proper, NewOf,
         PrevOf;
    DriverPathKey(n);
    if n in names {
      var i :| 0 <= i < |names| && names[i] == n;
      assert Swapped(start.files, now.files, u.Items()[i], u.NewBodies()[i]);
    } else {
      forall i | 0 <= i < |u.Planned()|
        ensures !SameName(u.Planned()[i].path, DriverPath(n))
      {
        OtherDriversDiffer(m, u, names, start.files, n, i);
      }
      assert AllPathsOk(u.Planned()) by { ProperPaths(u, start.files); }
      hide Swapped, Retirable, LoadableName, AllPathsOk;
      NotTouched(u.Planned(), DriverPath(n));
      assert Same(start.files, now.files, DriverKey(n));
    }
  }

  lemma SameNameTurns(a: string, b: string)
    ensures SameName(a, b) == SameName(b, a)
  {
  }

  /** Each of the manifest's files is carried already or about to be. */
  ghost predicate Covered(m: Manifest, u: Update, f: Files) {
    forall i :: 0 <= i < |m.files| ==> Carried(f, m.files[i]) || AmongFetched(u.changed, m.files[i])
  }

  ghost predicate AllListed(m: Manifest, names: seq<string>, f: Files) {
    forall n :: DriverName(n) && Retirable(m, n) && DriverKey(n) in f ==> n in names
  }

  /** The bootloader, if it changes, is what is swapped last. */
  predicate BootloaderIsLast(u: Update) {
    forall i :: 0 <= i < |u.changed| && IsBootloader(u.changed[i]) ==> i == |u.changed| - 1
  }

  /** At every moment of the swap, a new bootloader is in place only if every
      other changed and retired path is already done. */
  lemma BootloaderOnlyAfterAll(u: Update, start: Medium, m: Medium, b: nat, i: nat)
    requires BootloaderIsLast(u) && InOrder(start.files, u.Items(), u.NewBodies(), m.files)
    requires b < |u.changed| && IsBootloader(u.changed[b]) && i < |u.Items()|
    requires var k := |u.retired| + b; Swapped(start.files, m.files, u.Items()[k], u.NewBodies()[k])
    ensures Swapped(start.files, m.files, u.Items()[i], u.NewBodies()[i])
  {
    hide IsBootloader, Swapped, InOrder;
    LastOnlyAfterAll(start.files, u.Items(), u.NewBodies(), m.files, i);
  }

  /** By its names, all of an update is in place. */
  predicate AllDone(u: Update, f: Files) {
    forall i :: 0 <= i < |u.Items()| ==> DoneByName(f, u.Items()[i], u.NewBodies()[i])
  }

  /** Whatever has become of an update with its trial on record, swapped, put back
      or cut off anywhere in either: all of it is swapped exactly when the names
      say so. */
  lemma SwappedExactlyWhen(u: Update, before: Files, f: Files)
    requires InFlight(u.Aim(before), u.Items(), f)
    ensures SwapAt(before, u.Items(), u.NewBodies(), f, |u.Items()|) <==> AllDone(u, f)
  {
    hide NewOf, PrevOf, Key, Untouched, Pending, Swapped, Waiting, Halfway, DoneByName;
    var items, bodies := u.Items(), u.NewBodies();
    forall i | 0 <= i < |items|
      ensures Swapped(before, f, items[i], bodies[i]) <==> DoneByName(f, items[i], bodies[i])
    {
      assert Pending(before, f, items[i], bodies[i]);
      SwappedByName(before, f, items[i], bodies[i]);
    }
  }

  /** The manifest's set is on the medium, and no driver it retired. */
  ghost predicate SetInPlace(m: Manifest, u: Update, f: Files) {
    && (forall i :: 0 <= i < |m.files| ==> Carried(f, m.files[i]))
    && forall i :: 0 <= i < |u.retired| ==> Key(u.retired[i]) !in f
  }

  /** So the manifest's whole set is there exactly when the names say so: the
      signed contents need not be looked at. */
  lemma WholeExactlyWhen(m: Manifest, u: Update, names: seq<string>, before: Files, f: Files)
    requires PlannedFrom(m, u, names, before) && Covered(m, u, before)
    requires InFlight(u.Aim(before), u.Items(), f)
    ensures SetInPlace(m, u, f) <==> AllDone(u, f)
  {
    hide PlannedFrom, Covered, InFlight, Carried, SwapAt, DoneByName, Key;
    SwappedExactlyWhen(u, before, f);
    if AllDone(u, f) {
      var start, now := Medium(before, None), Medium(f, Some(TextOf(u.Trial())));
      CompleteIsWhole(m, u, names, start, now);
      RetiredByName(u, f);
    }
    if SetInPlace(m, u, f) {
      forall i | 0 <= i < |u.Items()|
        ensures DoneByName(f, u.Items()[i], u.NewBodies()[i])
      {
        InPlaceByName(m, u, names, before, f, i);
      }
    }
  }

  lemma RetiredByName(u: Update, f: Files)
    requires AllDone(u, f)
    ensures forall i :: 0 <= i < |u.retired| ==> Key(u.retired[i]) !in f
  {
    hide Key;
    forall i | 0 <= i < |u.retired|
      ensures Key(u.retired[i]) !in f
    {
      assert DoneByName(f, u.Items()[i], u.NewBodies()[i]);
    }
  }

  lemma InPlaceByName(m: Manifest, u: Update, names: seq<string>, before: Files, f: Files, i: nat)
    requires PlannedFrom(m, u, names, before) && InFlight(u.Aim(before), u.Items(), f)
    requires SetInPlace(m, u, f) && i < |u.Items()|
    ensures DoneByName(f, u.Items()[i], u.NewBodies()[i])
  {
    hide Key, Matches, Update.Proper, AllRight, Untouched, NewOf, PrevOf, DriverPath, Retirable, Accepted;
    var it, j := u.Items()[i], i - |u.retired|;
    assert Pending(before, f, it, u.NewBodies()[i]);
    if j < 0 {
      assert it.key == Key(u.retired[i]);
    } else {
      var e := u.changed[j].entry;
      assert it.key == Key(e.path) && e in m.files && !Carried(before, e);
      var k :| 0 <= k < |m.files| && m.files[k] == e;
      assert Carried(f, m.files[k]);
    }
  }

  /** The path swapped last is done: its `.new` is gone, or the driver is. */
  predicate LastIsIn(u: Update, f: Files)
    requires u.Items() != []
  {
    var last := u.Items()[|u.Items()| - 1];
    if u.changed == [] then last.key !in f else NewOf(last.key) !in f
  }

  /** Where a swap was cut off and nothing put back, that path tells of all. */
  lemma LastTellsOfAll(u: Update, before: Files, f: Files)
    requires u.Items() != [] && InOrder(before, u.Items(), u.NewBodies(), f)
    ensures AllDone(u, f) <==> LastIsIn(u, f)
  {
    hide NewOf, PrevOf, Key, Untouched, AllDone;
    var items, bodies, k := u.Items(), u.NewBodies(), |u.Items()| - 1;
    assert bodies[k].None? <==> u.changed == [];
    assert bodies[k].None? ==> !items[k].isNew;
    var n: nat :| SwapAt(before, items, bodies, f, n);
    SwapIsInFlight(before, items, bodies, f, n);
    SwappedExactlyWhen(u, before, f);
    if SwapAt(before, items, bodies, f, k + 1) {
      assert Swapped(before, f, items[k], bodies[k]);
    }
    if LastIsIn(u, f) {
      assert !Waiting(before, f, items[k], bodies[k]) && !Halfway(before, f, items[k], bodies[k]);
    }
  }

  // ------------------------------------------------------ when there is one

  /** There is something to bring to this medium, or to take from it. With more
      drivers than are listed, what is to be taken may not be seen. */
  ghost predicate Differs(m: Manifest, f: Files) {
    || (exists i :: 0 <= i < |m.files| && !Carried(f, m.files[i]))
    || (|Drivers(f)| <= 64 && exists n :: DriverName(n) && Retirable(m, n) && DriverKey(n) in f)
  }

  /** The medium has the manifest's set and no driver that it would retire. */
  ghost predicate CarriesAll(m: Manifest, f: Files) {
    && (forall i :: 0 <= i < |m.files| ==> Carried(f, m.files[i]))
    && forall n :: DriverName(n) && Retirable(m, n) ==> DriverKey(n) !in f
  }

  /** A manifest, the update planned from it and the drivers that retires. */
  datatype Proposal = Proposal(m: Manifest, u: Update, names: seq<string>)
  {
    /** It was made for this medium, and changes something. */
    ghost predicate For(start: Medium) {
      && PlannedFrom(m, u, names, start.files) && Covered(m, u, start.files) && BootloaderIsLast(u)
      && u.serial == m.serial && u.state == StateIn(start) && u.Items() != []
    }
  }

  /** A name, or the `.new` or `.prev` beside it, of a file the manifest names or a
      driver it would retire. */
  ghost predicate Concerns(m: Manifest, k: string) {
    || (exists i :: 0 <= i < |m.files| && IsOf(Key(m.files[i].path), k))
    || (exists n :: DriverName(n) && Retirable(m, n) && IsOf(DriverKey(n), k))
  }

  predicate IsOf(key: string, k: string) {
    k == key || k == NewOf(key) || k == PrevOf(key)
  }

  /** An update touches only what its manifest concerns. */
  lemma OnlyConcernedIsTouched(p: Proposal, start: Medium, k: string)
    requires p.For(start) && Touched(p.u.Items(), k)
    ensures Concerns(p.m, k)
  {
    hide Key, DriverKey, DriverPath, Retirable, Accepted, Update.Proper, AllRight, NoneCarried, NewOf, PrevOf, Covered,
         StateIn, DriverName;
    var items := p.u.Items();
    var i :| 0 <= i < |items| && (k == items[i].key || k == NewOf(items[i].key) || k == PrevOf(items[i].key));
    assert IsOf(items[i].key, k);
    if i < |p.names| {
      assert p.names[i] in p.names;
      DriverPathKey(p.names[i]);
      assert items[i].key == DriverKey(p.names[i]);
    } else {
      var e := p.u.changed[i - |p.names|].entry;
      assert e in p.m.files && items[i].key == Key(e.path);
      var j :| 0 <= j < |p.m.files| && p.m.files[j] == e;
      assert IsOf(Key(p.m.files[j].path), k);
    }
  }

  lemma DiffersIsPlanned(m: Manifest, u: Update, names: seq<string>, f: Files)
    requires Covered(m, u, f) && u.retired == DriverPaths(names) && Differs(m, f)
    requires |Drivers(f)| <= 64 ==> AllListed(m, names, f)
    ensures u.Items() != []
  {
    hide Carried, Retirable, DriverName, DriverKey, Drivers;
    if exists i :: 0 <= i < |m.files| && !Carried(f, m.files[i]) {
      var i :| 0 <= i < |m.files| && !Carried(f, m.files[i]);
      assert AmongFetched(u.changed, m.files[i]);
    } else {
      var n :| DriverName(n) && Retirable(m, n) && DriverKey(n) in f;
      assert n in names;
    }
  }

  lemma CarriedNeedsNone(m: Manifest, u: Update, names: seq<string>, f: Files)
    requires PlannedFrom(m, u, names, f) && CarriesAll(m, f)
    ensures u.changed == [] && u.retired == []
  {
    hide Carried, Retirable, DriverName, DriverKey, AllRight, Accepted, Update.Proper;
    assert |u.changed| > 0 ==> u.changed[0].entry in m.files;
    if names != [] {
      assert names[0] in names;
      RetiredIsThere(m, u, names, f);
    }
  }

  lemma RetiredIsThere(m: Manifest, u: Update, names: seq<string>, f: Files)
    requires PlannedFrom(m, u, names, f) && names != []
    ensures DriverKey(names[0]) in f
  {
    hide Key, DriverKey, DriverPath, AllRight, Accepted, Retirable, AllPathsOk, DistinctPaths, Keepable;
    assert names[0] in names;
    DriverPathKey(names[0]);
    assert u.Planned()[0] == Change(DriverPath(names[0]), false);
  }

  /** Work out the whole update, writing nothing. */
  method Propose(vol: Vol, m: Manifest, state: State, served: map<string, seq<byte>>, ghost f: Files)
    returns (ok: bool, u: Update, ghost names: seq<string>)
    requires vol.Valid() && vol.now.files == f && Accepted(m) && Readable(state)
    modifies vol`faults
    ensures vol.Valid() && old(vol.faults) <= vol.faults
    ensures u.state == state && u.serial == m.serial
    ensures vol.faults == old(vol.faults) ==> (ok <==> AllServed(f, m.files, served))
    ensures ok ==> PlannedFrom(m, u, names, f) && Covered(m, u, f) && BootloaderIsLast(u)
    ensures ok && vol.faults == old(vol.faults) && |Drivers(f)| <= 64 ==> AllListed(m, names, f)
  {
    hide *;
    AcceptedFilesDistinct(m);
    u, names := Update.Update(state, m.serial, [], []), [];
    var changed;
    ok, changed := FindChanged(vol, m.files, served, f);
    if ok {
      var kept := FindRetired(vol, m, f);
      u, names := Update.Update(state, m.serial, DriverPaths(kept), BootloaderLast(changed)), kept;
      ProposalHolds(m, f, changed, kept, state);
    }
  }

  lemma AcceptedFilesDistinct(m: Manifest)
    requires Accepted(m)
    ensures AllDistinct(m.files)
  {
  }

  ghost predicate RetirableDrivers(m: Manifest, names: seq<string>, f: Files) {
    NoRepeats(names) && forall n :: n in names ==> DriverName(n) && DriverKey(n) in f && Retirable(m, n)
  }

  /** The loadable drivers the release no longer carries. */
  method FindRetired(vol: Vol, m: Manifest, ghost f: Files) returns (names: seq<string>)
    requires vol.Valid() && vol.now.files == f
    modifies vol`faults
    ensures vol.Valid() && old(vol.faults) <= vol.faults
    ensures RetirableDrivers(m, names, f)
    ensures vol.faults == old(vol.faults) && |Drivers(f)| <= 64 ==> AllListed(m, names, f)
  {
    hide Retirable, DriverKey, DriverName, AllListed, IsDriver;
    var listed := vol.ListDrivers();
    names := RetirableNames(m, listed);
    if |Drivers(f)| <= 64 && vol.faults == old(vol.faults) {
      WholeListing(m, listed, f);
    }
  }

  lemma ProposalHolds(m: Manifest, f: Files, changed: seq<Fetched>, names: seq<string>, state: State)
    requires Accepted(m) && Readable(state)
    requires AllRight(f, changed) && DistinctFetched(changed) && FromManifest(m.files, changed)
             && NoneCarried(f, changed)
    requires forall i :: 0 <= i < |m.files| ==> Carried(f, m.files[i]) || AmongFetched(changed, m.files[i])
    requires RetirableDrivers(m, names, f)
    ensures var u := Update.Update(state, m.serial, DriverPaths(names), BootloaderLast(changed));
            PlannedFrom(m, u, names, f) && Covered(m, u, f) && BootloaderIsLast(u)
  {
    hide Accepted, Readable, AllRight, DistinctFetched, FromManifest, NoneCarried, Carried, AmongFetched, Retirable,
         DriverKey, DriverName, BootloaderLast, Update.Proper, IsBootloader, DriverPaths;
    SortKeeps(f, m.files, changed);
    SortedBootloader(changed);
    PlanIsProper(m, f, BootloaderLast(changed), names, state);
  }

  lemma WholeListing(m: Manifest, listed: seq<string>, f: Files)
    requires forall k :: k in Drivers(f) ==> Lists(listed, k)
    ensures AllListed(m, RetirableNames(m, listed), f)
  {
    hide Retirable, Fold, DriversDir;
    forall n | DriverName(n) && Retirable(m, n) && DriverKey(n) in f
      ensures n in listed
    {
      assert DriverKey(n)[|DriversDir()|..] == n;
      assert DriverKey(n) in Drivers(f);
      var i :| 0 <= i < |listed| && DriverKey(listed[i]) == DriverKey(n);
      assert DriverKey(listed[i])[|DriversDir()|..] == listed[i];
      assert listed[i] == n;
    }
  }

  /** The manifest's set is on the medium, whole. */
  lemma CompleteIsWhole(m: Manifest, u: Update, names: seq<string>, start: Medium, now: Medium)
    requires PlannedFrom(m, u, names, start.files) && Covered(m, u, start.files) && u.Complete(start, now)
    ensures forall i :: 0 <= i < |m.files| ==> Carried(now.files, m.files[i])
    ensures AllListed(m, names, start.files) ==>
              forall n :: DriverName(n) && Retirable(m, n) ==> DriverKey(n) !in now.files
  {
    hide PlannedFrom, Update.Complete, Carried, AmongFetched, DriverName, Retirable, DriverKey;
    forall i | 0 <= i < |m.files|
      ensures Carried(now.files, m.files[i])
    {
      UpdatedSetIsWhole(m, u, names, start, now, m.files[i]);
    }
    if AllListed(m, names, start.files) {
      forall n | DriverName(n) && Retirable(m, n)
        ensures DriverKey(n) !in now.files
      {
        RetiredAreGone(m, u, names, start, now, n);
      }
    }
  }
}
