/** The crash-safe self-update (`src/selfupdate.rs`): new files go beside the
    old ones and are swapped in once the trial is on record, and a trial that fails
    is undone, with a power cut or a failed operation possible at every step. */
module SelfUpdate {
  import opened Bytes
  import opened Text
  import opened UpdateState
  import opened Manifests
  import opened BootMedium
  import opened Volume

  /** A medium with this state text, and files that an interrupted update of
      `items` could have left. */
  ghost predicate MidUpdate(m: Medium, aim: Renewal, items: seq<Item>, state: Option<string>) {
    m.state == state && InFlight(aim, items, m.files)
  }

  // ---------------------------------------------------------------- revert

  lemma ItemStep(aim: Renewal, items: seq<Item>, a: Files, b: Files, i: nat)
    requires Clear(items) && i < |items| && InFlight(aim, items, a)
    requires OnlyItem(a, b, items[i]) && Pending(aim.was, b, items[i], aim.bodies[i])
    ensures InFlight(aim, items, b)
  {
    hide OnlyItem, Pending, Clear, Untouched;
    OthersKeep(aim, a, b, items, i);
  }

  lemma OwnNamesDiffer(items: seq<Item>, i: nat)
    requires Clear(items) && i < |items|
    ensures items[i].key != PrevOf(items[i].key) && items[i].key != NewOf(items[i].key)
    ensures NewOf(items[i].key) != PrevOf(items[i].key)
  {
  }

  /** Each single step of `revert` leaves something `revert` can start from. */
  lemma RevertSteps(aim: Renewal, items: seq<Item>, f: Files, i: nat)
    requires Clear(items) && i < |items| && InFlight(aim, items, f)
    ensures var it := items[i];
            && InFlight(aim, items, Without(f, NewOf(it.key)))
            && (PrevOf(it.key) in f || it.isNew ==> InFlight(aim, items, Without(f, it.key)))
            && (PrevOf(it.key) in f && it.key !in f ==> InFlight(aim, items, Moved(f, PrevOf(it.key), it.key)))
  {
    var it := items[i];
    OwnNamesDiffer(items, i);
    hide NewOf, PrevOf, Clear, Untouched;
    ItemStep(aim, items, f, Without(f, NewOf(it.key)), i);
    if PrevOf(it.key) in f || it.isNew {
      ItemStep(aim, items, f, Without(f, it.key), i);
    }
    if PrevOf(it.key) in f && it.key !in f {
      ItemStep(aim, items, f, Moved(f, PrevOf(it.key), it.key), i);
    }
  }

  datatype Outcome = Undone | Skipped | Failed

  /** One round of `revert`'s loop. */
  method RevertOne(vol: Vol, c: Change, ghost aim: Renewal, ghost items: seq<Item>, ghost i: nat)
    returns (r: Outcome)
    requires vol.Valid() && Clear(items) && i < |items| && items[i] == ItemOf(c)
    requires InFlight(aim, items, vol.now.files)
    modifies vol
    ensures vol.Valid() && old(vol.seen) <= vol.seen && old(vol.faults) <= vol.faults
    ensures forall m :: m in vol.seen ==> m in old(vol.seen) || MidUpdate(m, aim, items, old(vol.now.state))
    ensures MidUpdate(vol.now, aim, items, old(vol.now.state))
    ensures vol.faults == old(vol.faults) ==>
              vol.now.files == RevertItem(old(vol.now.files), items[i]) && r != Failed
  {
    NamesAsKeys(c.path);
    OwnNamesDiffer(items, i);
    hide NewOf, PrevOf, Key, EfiPath, Fold, Dir, Base, Clear, InFlight;
    var p := EfiPath(c.path);
    var prev := p + ".prev";
    RevertSteps(aim, items, vol.now.files, i);
    var ok := vol.Delete(p + ".new");
    var there := vol.Exists(prev);
    if there {
      RevertSteps(aim, items, vol.now.files, i);
      ok := vol.Delete(p);
      if ok {
        RevertSteps(aim, items, vol.now.files, i);
        ok := vol.Rename(prev, Base(p));
      }
    } else if c.isNew {
      RevertSteps(aim, items, vol.now.files, i);
      ok := vol.Delete(p);
    } else {
      return Skipped;
    }
    r := if ok then Undone else Failed;
  }

  lemma NoneReverted(f: Files, items: seq<Item>)
    ensures RevertItems(f, items[..0]) == f
  {
  }

  lemma OneMoreReverted(f: Files, items: seq<Item>, i: nat)
    requires i < |items|
    ensures RevertItems(f, items[..i + 1]) == RevertItem(RevertItems(f, items[..i]), items[i])
  {
    assert items[..i + 1][..i] == items[..i];
  }

  /** Undo the listed changes, one path at a time. Cut off anywhere, whatever
      fails, it leaves something it can start from again; with nothing failing
      it gives back exactly what was there before. */
  method Revert(vol: Vol, s: State, ghost aim: Renewal) returns (done: nat, errors: seq<string>)
    requires vol.Valid() && Clear(Listed(s)) && InFlight(aim, Listed(s), vol.now.files)
    modifies vol
    ensures vol.Valid() && old(vol.seen) <= vol.seen && old(vol.faults) <= vol.faults
    ensures forall m :: m in vol.seen ==> m in old(vol.seen) || MidUpdate(m, aim, Listed(s), old(vol.now.state))
    ensures MidUpdate(vol.now, aim, Listed(s), old(vol.now.state))
    ensures vol.faults == old(vol.faults) ==> errors == [] && Restored(aim.was, Listed(s), vol.now.files)
    ensures done + |errors| <= |Changed(s)|
  {
    ghost var items := Listed(s);
    ghost var start := vol.now.files;
    hide Clear, InFlight, Restored, RevertItem, RevertItems, Changed;
    RevertRestores(aim, items, start);
    NoneReverted(start, items);
    var changed := Changed(s);
    done, errors := 0, [];
    for i := 0 to |changed|
      invariant vol.Valid() && old(vol.seen) <= vol.seen && old(vol.faults) <= vol.faults
      invariant forall m :: m in vol.seen ==> m in old(vol.seen) || MidUpdate(m, aim, items, old(vol.now.state))
      invariant MidUpdate(vol.now, aim, items, old(vol.now.state))
      invariant vol.faults == old(vol.faults) ==> errors == [] && vol.now.files == RevertItems(start, items[..i])
      invariant done + |errors| <= i
    {
      var r := RevertOne(vol, changed[i], aim, items, i);
      OneMoreReverted(start, items, i);
      match r {
        case Undone => done := done + 1;
        case Failed => errors := errors + [changed[i].path];
        case Skipped =>
      }
    }
    assert items[..|changed|] == items;
  }

  /** A power cut during `revert`, as often as it happens: each medium is one
      that a `revert` of the one before it passed through. */
  ghost predicate CutAndTriedAgain(media: seq<Medium>, aim: Renewal, items: seq<Item>) {
    && |media| > 0
    && InFlight(aim, items, media[0].files)
    && forall i :: 0 < i < |media| ==> MidUpdate(media[i], aim, items, media[i - 1].state)
  }

  /** However often it is cut off, the `revert` that gets to its end leaves what
      one that was never cut off leaves, and until then the state still says
      there is a trial to put back. */
  lemma RevertIsRestartable(media: seq<Medium>, aim: Renewal, items: seq<Item>, i: nat)
    requires Clear(items) && CutAndTriedAgain(media, aim, items) && i < |media|
    ensures RevertItems(media[i].files, items) == RevertItems(media[0].files, items)
    ensures Restored(aim.was, items, RevertItems(media[i].files, items))
    ensures media[i].state == media[0].state
  {
    hide Clear, InFlight, Restored;
    SameState(media, aim, items, i);
    RevertsAgree(aim, items, media[i].files, media[0].files);
    RevertRestores(aim, items, media[i].files);
  }

  lemma {:induction false} SameState(media: seq<Medium>, aim: Renewal, items: seq<Item>, i: nat)
    requires CutAndTriedAgain(media, aim, items) && i < |media|
    ensures media[i].state == media[0].state && InFlight(aim, items, media[i].files)
  {
    if i > 0 {
      SameState(media, aim, items, i - 1);
      assert MidUpdate(media[i], aim, items, media[i - 1].state);
    }
  }

  // ----------------------------------------------------------------- apply

  /** A file the manifest names that differs on the medium, and its new
      contents, already checked against the signed hash. */
  datatype Fetched = Fetched(entry: Entry, body: seq<byte>, isNew: bool)

  /** What an update changes, in the order it swaps: the retired drivers, then
      the changed files. */
  function Plan(retired: seq<string>, changed: seq<Fetched>): (cs: seq<Change>)
    ensures |cs| == |retired| + |changed|
  {
    seq(|retired|, i requires 0 <= i < |retired| => Change(retired[i], false))
    + seq(|changed|, i requires 0 <= i < |changed| => Change(changed[i].entry.path, changed[i].isNew))
  }

  /** The contents each planned path is to get; none for one that is retired. */
  function Bodies(retired: seq<string>, changed: seq<Fetched>): (bs: seq<Option<seq<byte>>>)
    ensures |bs| == |retired| + |changed|
  {
    seq(|retired|, _ => None) + seq(|changed|, i requires 0 <= i < |changed| => Some(changed[i].body))
  }

  /** Before the record: only the update's own names may differ. */
  ghost predicate Quiet(before: Files, items: seq<Item>, f: Files) {
    && Untouched(before, items, f)
    && forall i :: 0 <= i < |items| ==> Same(before, f, items[i].key)
  }

  ghost predicate NoPrevs(items: seq<Item>, f: Files, n: nat)
    requires n <= |items|
  {
    forall i :: 0 <= i < n ==> PrevOf(items[i].key) !in f
  }

  /** The new contents are beside the old. */
  ghost predicate Beside(f: Files, it: Item, body: Option<seq<byte>>) {
    body.Some? ==> NewOf(it.key) in f && f[NewOf(it.key)] == body.value
  }

  ghost predicate Waiting(before: Files, f: Files, it: Item, body: Option<seq<byte>>) {
    && (it.isNew <==> it.key !in before)
    && Same(before, f, it.key)
    && PrevOf(it.key) !in f
    && Beside(f, it, body)
  }

  /** Between the two renames: the old file is away and the new one not yet in. */
  ghost predicate Halfway(before: Files, f: Files, it: Item, body: Option<seq<byte>>) {
    && !it.isNew && it.key in before && body.Some?
    && it.key !in f
    && PrevOf(it.key) in f && f[PrevOf(it.key)] == before[it.key]
    && Beside(f, it, body)
  }

  /** The new contents in place (or the retired driver gone), the old kept. */
  ghost predicate Swapped(before: Files, f: Files, it: Item, body: Option<seq<byte>>) {
    && (it.isNew <==> it.key !in before)
    && (body.Some? ==> it.key in f && f[it.key] == body.value && NewOf(it.key) !in f)
    && (body.None? ==> it.key !in f && !it.isNew)
    && (if it.isNew then PrevOf(it.key) !in f
        else PrevOf(it.key) in f && f[PrevOf(it.key)] == before[it.key])
  }

  /** The swap has got to item `n`: all before it are swapped, all after it wait. */
  ghost predicate SwapAt(before: Files, items: seq<Item>, bodies: seq<Option<seq<byte>>>, f: Files, n: nat)
    requires |bodies| == |items|
  {
    && n <= |items|
    && Untouched(before, items, f)
    && (forall i :: 0 <= i < n ==> Swapped(before, f, items[i], bodies[i]))
    && (forall i :: n < i < |items| ==> Waiting(before, f, items[i], bodies[i]))
    && (n < |items| ==>
          || Waiting(before, f, items[n], bodies[n])
          || Halfway(before, f, items[n], bodies[n])
          || Swapped(before, f, items[n], bodies[n]))
  }

  ghost predicate InOrder(before: Files, items: seq<Item>, bodies: seq<Option<seq<byte>>>, f: Files)
    requires |bodies| == |items|
  {
    exists n :: SwapAt(before, items, bodies, f, n)
  }

  /** The item swapped last, which is the bootloader when it changed, is in
      place only when every other one is. */
  lemma LastOnlyAfterAll(before: Files, items: seq<Item>, bodies: seq<Option<seq<byte>>>, f: Files, i: nat)
    requires |bodies| == |items| && InOrder(before, items, bodies, f)
    requires i < |items| && Swapped(before, f, items[|items| - 1], bodies[|items| - 1])
    ensures Swapped(before, f, items[i], bodies[i])
  {
    hide NewOf, PrevOf;
    var n: nat :| SwapAt(before, items, bodies, f, n);
    assert !Waiting(before, f, items[|items| - 1], bodies[|items| - 1]);
  }

  /** By its names alone: a changed file is there, and its `.prev` too unless it
      was new; a retired driver is not. */
  predicate DoneByName(f: Files, it: Item, body: Option<seq<byte>>) {
    if body.None? then it.key !in f else it.key in f && (it.isNew || PrevOf(it.key) in f)
  }

  /** Whatever has become of an update with its trial on record, an item of it is
      swapped exactly when its names say so. */
  lemma SwappedByName(before: Files, f: Files, it: Item, body: Option<seq<byte>>)
    requires Pending(before, f, it, body) && (body.None? ==> !it.isNew)
    ensures Swapped(before, f, it, body) <==> DoneByName(f, it, body)
  {
    hide NewOf, PrevOf;
  }

  /** Wherever the swap is, `revert` can start from it. */
  lemma SwapIsInFlight(before: Files, items: seq<Item>, bodies: seq<Option<seq<byte>>>, f: Files, n: nat)
    requires |bodies| == |items| && SwapAt(before, items, bodies, f, n)
    ensures InFlight(Renewal(before, bodies), items, f)
  {
    hide NewOf, PrevOf, Untouched;
    forall i | 0 <= i < |items|
      ensures Pending(before, f, items[i], bodies[i])
    {
      if i < n {
        assert Swapped(before, f, items[i], bodies[i]);
      } else if i > n {
        assert Waiting(before, f, items[i], bodies[i]);
      }
    }
  }

  /** One item's step leaves the others where they were. */
  lemma SwapStep(before: Files, items: seq<Item>, bodies: seq<Option<seq<byte>>>, a: Files, b: Files, n: nat)
    requires |bodies| == |items| && Clear(items) && SwapAt(before, items, bodies, a, n) && n < |items|
    requires OnlyItem(a, b, items[n])
    requires Halfway(before, b, items[n], bodies[n]) || Swapped(before, b, items[n], bodies[n])
    ensures SwapAt(before, items, bodies, b, n)
  {
    OthersSame(before, a, b, items, n);
    hide NewOf, PrevOf, OnlyItem, Clear, Untouched;
  }

  lemma QuietStep(before: Files, items: seq<Item>, a: Files, b: Files, i: nat)
    requires Clear(items) && i < |items| && Quiet(before, items, a)
    requires OnlyItem(a, b, items[i]) && Same(a, b, items[i].key)
    ensures Quiet(before, items, b)
    ensures forall j :: 0 <= j < |items| && j != i ==>
              && Same(a, b, NewOf(items[j].key))
              && Same(a, b, PrevOf(items[j].key))
  {
    hide NewOf, PrevOf, Clear, OnlyItem, Untouched;
    OthersSame(before, a, b, items, i);
  }

  /** A medium before the record: nothing listed has changed yet. */
  ghost predicate NothingYet(m: Medium, before: Files, items: seq<Item>, state: Option<string>) {
    m.state == state && Quiet(before, items, m.files)
  }

  /** Drop the `.prev` copies of an earlier update. */
  method DropPrevs(vol: Vol, plan: seq<Change>, ghost before: Files, ghost items: seq<Item>) returns (ok: bool)
    requires items == ItemsOf(plan) && Clear(items)
    requires vol.Valid() && NothingYet(vol.now, before, items, vol.now.state)
    modifies vol
    ensures vol.Valid() && old(vol.seen) <= vol.seen && old(vol.faults) <= vol.faults
    ensures forall m :: m in vol.seen ==> m in old(vol.seen) || NothingYet(m, before, items, old(vol.now.state))
    ensures NothingYet(vol.now, before, items, old(vol.now.state))
    ensures ok ==> NoPrevs(items, vol.now.files, |items|)
    ensures vol.faults == old(vol.faults) ==> ok
  {
    hide NewOf, PrevOf, Key, EfiPath, Fold, Dir, Base, Clear, Quiet;
    for i := 0 to |plan|
      invariant vol.Valid() && old(vol.seen) <= vol.seen && old(vol.faults) <= vol.faults
      invariant forall m :: m in vol.seen ==> m in old(vol.seen) || NothingYet(m, before, items, old(vol.now.state))
      invariant NothingYet(vol.now, before, items, old(vol.now.state))
      invariant NoPrevs(items, vol.now.files, i)
    {
      NamesAsKeys(plan[i].path);
      OwnNamesDiffer(items, i);
      ghost var f := vol.now.files;
      ok := vol.Delete(EfiPath(plan[i].path) + ".prev");
      QuietStep(before, items, f, vol.now.files, i);
      if !ok {
        return false;
      }
    }
    return true;
  }

  ghost predicate NewsBeside(items: seq<Item>, bodies: seq<Option<seq<byte>>>, f: Files, n: nat)
    requires n <= |items| == |bodies|
  {
    forall i :: 0 <= i < n ==> Beside(f, items[i], bodies[i])
  }

  /** Write every new file beside the one it replaces; if one cannot be
      written, drop them all again. */
  method WriteNews(vol: Vol, retired: seq<string>, changed: seq<Fetched>, ghost before: Files, ghost items: seq<Item>)
    returns (ok: bool)
    requires items == ItemsOf(Plan(retired, changed)) && Clear(items)
    requires vol.Valid() && NothingYet(vol.now, before, items, vol.now.state)
    requires NoPrevs(items, vol.now.files, |items|)
    modifies vol
    ensures vol.Valid() && old(vol.seen) <= vol.seen && old(vol.faults) <= vol.faults
    ensures forall m :: m in vol.seen ==> m in old(vol.seen) || NothingYet(m, before, items, old(vol.now.state))
    ensures NothingYet(vol.now, before, items, old(vol.now.state))
    ensures ok ==> NoPrevs(items, vol.now.files, |items|)
    ensures ok ==> NewsBeside(items, Bodies(retired, changed), vol.now.files, |items|)
    ensures vol.faults == old(vol.faults) ==> ok
  {
    ghost var bodies := Bodies(retired, changed);
    hide NewOf, PrevOf, Key, EfiPath, Fold, Dir, Base, Clear, Quiet;
    for i := 0 to |changed|
      invariant vol.Valid() && old(vol.seen) <= vol.seen && old(vol.faults) <= vol.faults
      invariant forall m :: m in vol.seen ==> m in old(vol.seen) || NothingYet(m, before, items, old(vol.now.state))
      invariant NothingYet(vol.now, before, items, old(vol.now.state))
      invariant NoPrevs(items, vol.now.files, |items|)
      invariant NewsBeside(items, bodies, vol.now.files, |retired| + i)
    {
      ghost var n := |retired| + i;
      ok := WriteNew(vol, changed[i], before, items, bodies, n);
      if !ok {
        DropNews(vol, retired, changed, before, items);
        return false;
      }
    }
    return true;
  }

  /** Whatever is filed under one item's `.new` name, the rest stands. */
  lemma NewWritten(before: Files, items: seq<Item>, bodies: seq<Option<seq<byte>>>, a: Medium, b: Medium, n: nat)
    requires |bodies| == |items| && Clear(items) && n < |items|
    requires NothingYet(a, before, items, a.state) && OnlyFile(a, b, NewOf(items[n].key))
    requires NoPrevs(items, a.files, |items|) && NewsBeside(items, bodies, a.files, n)
    ensures NothingYet(b, before, items, a.state)
    ensures NoPrevs(items, b.files, |items|) && NewsBeside(items, bodies, b.files, n)
  {
    OwnNamesDiffer(items, n);
    hide NewOf, PrevOf, Clear, Quiet;
    QuietStep(before, items, a.files, b.files, n);
    assert Same(a.files, b.files, PrevOf(items[n].key));
  }

  method WriteNew(vol: Vol, c: Fetched, ghost before: Files, ghost items: seq<Item>,
                  ghost bodies: seq<Option<seq<byte>>>, ghost n: nat)
    returns (ok: bool)
    requires |bodies| == |items| && Clear(items) && n < |items|
    requires items[n].key == Key(c.entry.path) && bodies[n] == Some(c.body)
    requires vol.Valid() && NothingYet(vol.now, before, items, vol.now.state)
    requires NoPrevs(items, vol.now.files, |items|) && NewsBeside(items, bodies, vol.now.files, n)
    modifies vol
    ensures vol.Valid() && old(vol.seen) <= vol.seen && old(vol.faults) <= vol.faults
    ensures forall m :: m in vol.seen ==> m in old(vol.seen) || NothingYet(m, before, items, old(vol.now.state))
    ensures NothingYet(vol.now, before, items, old(vol.now.state))
    ensures NoPrevs(items, vol.now.files, |items|)
    ensures ok ==> NewsBeside(items, bodies, vol.now.files, n + 1)
    ensures vol.faults == old(vol.faults) ==> ok
  {
    NamesAsKeys(c.entry.path);
    hide NewOf, PrevOf, Key, EfiPath, Fold, Dir, Base, Clear, NothingYet, OnlyFile, NoPrevs;
    ghost var start := vol.now;
    var name := EfiPath(c.entry.path) + ".new";
    ok := vol.Write(name, c.body);
    forall m | OnlyFile(start, m, Fold(name))
      ensures NothingYet(m, before, items, start.state)
    {
      NewWritten(before, items, bodies, start, m, n);
    }
    NewWritten(before, items, bodies, start, vol.now, n);
  }

  method DropNews(vol: Vol, retired: seq<string>, changed: seq<Fetched>, ghost before: Files, ghost items: seq<Item>)
    requires items == ItemsOf(Plan(retired, changed)) && Clear(items)
    requires vol.Valid() && NothingYet(vol.now, before, items, vol.now.state)
    modifies vol
    ensures vol.Valid() && old(vol.seen) <= vol.seen && old(vol.faults) <= vol.faults
    ensures forall m :: m in vol.seen ==> m in old(vol.seen) || NothingYet(m, before, items, old(vol.now.state))
    ensures NothingYet(vol.now, before, items, old(vol.now.state))
  {
    hide NewOf, PrevOf, Key, EfiPath, Fold, Dir, Base, Clear, Quiet;
    for i := 0 to |changed|
      invariant vol.Valid() && old(vol.seen) <= vol.seen && old(vol.faults) <= vol.faults
      invariant forall m :: m in vol.seen ==> m in old(vol.seen) || NothingYet(m, before, items, old(vol.now.state))
      invariant NothingYet(vol.now, before, items, old(vol.now.state))
    {
      ghost var n := |retired| + i;
      NamesAsKeys(changed[i].entry.path);
      OwnNamesDiffer(items, n);
      ghost var f := vol.now.files;
      var ok := vol.Delete(EfiPath(changed[i].entry.path) + ".new");
      QuietStep(before, items, f, vol.now.files, n);
    }
  }

  /** A medium during the swap. */
  ghost predicate MidSwap(m: Medium, before: Files, items: seq<Item>, bodies: seq<Option<seq<byte>>>,
                          state: Option<string>)
    requires |bodies| == |items|
  {
    m.state == state && InOrder(before, items, bodies, m.files)
  }

  /** About to swap item `n`. */
  ghost predicate Ready(before: Files, items: seq<Item>, bodies: seq<Option<seq<byte>>>, f: Files, n: nat)
    requires |bodies| == |items|
  {
    && SwapAt(before, items, bodies, f, n)
    && (n < |items| ==> Waiting(before, f, items[n], bodies[n]))
  }

  lemma NextReady(before: Files, items: seq<Item>, bodies: seq<Option<seq<byte>>>, f: Files, n: nat)
    requires |bodies| == |items| && n < |items|
    requires SwapAt(before, items, bodies, f, n) && Swapped(before, f, items[n], bodies[n])
    ensures Ready(before, items, bodies, f, n + 1)
  {
    hide Swapped, Waiting, Halfway, Untouched;
  }

  lemma RetireStep(before: Files, items: seq<Item>, bodies: seq<Option<seq<byte>>>, a: Files, n: nat)
    requires |bodies| == |items| && Clear(items) && n < |items|
    requires Ready(before, items, bodies, a, n) && bodies[n].None? && !items[n].isNew
    ensures items[n].key in a && PrevOf(items[n].key) !in a
    ensures var b := Moved(a, items[n].key, PrevOf(items[n].key));
            Swapped(before, b, items[n], bodies[n]) && SwapAt(before, items, bodies, b, n)
  {
    OwnNamesDiffer(items, n);
    hide NewOf, PrevOf, Clear, Untouched;
    SwapStep(before, items, bodies, a, Moved(a, items[n].key, PrevOf(items[n].key)), n);
  }

  lemma AwayStep(before: Files, items: seq<Item>, bodies: seq<Option<seq<byte>>>, a: Files, n: nat)
    requires |bodies| == |items| && Clear(items) && n < |items|
    requires Ready(before, items, bodies, a, n) && bodies[n].Some? && !items[n].isNew
    ensures items[n].key in a && PrevOf(items[n].key) !in a
    ensures var b := Moved(a, items[n].key, PrevOf(items[n].key));
            Halfway(before, b, items[n], bodies[n]) && SwapAt(before, items, bodies, b, n)
  {
    OwnNamesDiffer(items, n);
    hide NewOf, PrevOf, Clear, Untouched;
    SwapStep(before, items, bodies, a, Moved(a, items[n].key, PrevOf(items[n].key)), n);
  }

  lemma InStep(before: Files, items: seq<Item>, bodies: seq<Option<seq<byte>>>, a: Files, n: nat)
    requires |bodies| == |items| && Clear(items) && n < |items| && bodies[n].Some?
    requires SwapAt(before, items, bodies, a, n)
    requires Halfway(before, a, items[n], bodies[n]) || (Waiting(before, a, items[n], bodies[n]) && items[n].isNew)
    ensures NewOf(items[n].key) in a && items[n].key !in a
    ensures var b := Moved(a, NewOf(items[n].key), items[n].key);
            Swapped(before, b, items[n], bodies[n]) && SwapAt(before, items, bodies, b, n)
  {
    OwnNamesDiffer(items, n);
    hide NewOf, PrevOf, Clear, Untouched;
    SwapStep(before, items, bodies, a, Moved(a, NewOf(items[n].key), items[n].key), n);
  }

  /** A retired driver becomes its `.prev`. */
  method Retire(vol: Vol, path: string, ghost before: Files, ghost items: seq<Item>,
                ghost bodies: seq<Option<seq<byte>>>, ghost n: nat)
    returns (ok: bool)
    requires |bodies| == |items| && Clear(items) && n < |items|
    requires items[n] == Item(Key(path), false) && bodies[n].None?
    requires vol.Valid() && Ready(before, items, bodies, vol.now.files, n)
    modifies vol
    ensures vol.Valid() && old(vol.seen) <= vol.seen && old(vol.faults) <= vol.faults
    ensures forall m :: m in vol.seen ==> m in old(vol.seen) || MidSwap(m, before, items, bodies, old(vol.now.state))
    ensures MidSwap(vol.now, before, items, bodies, old(vol.now.state))
    ensures ok ==> Ready(before, items, bodies, vol.now.files, n + 1)
    ensures vol.faults == old(vol.faults) ==> ok
  {
    NamesAsKeys(path);
    RetireStep(before, items, bodies, vol.now.files, n);
    hide NewOf, PrevOf, Key, EfiPath, Fold, Dir, Base, Clear, SwapAt, Swapped, Waiting;
    var p := EfiPath(path);
    ok := vol.Rename(p, Base(p) + ".prev");
    if ok {
      NextReady(before, items, bodies, vol.now.files, n);
    }
  }

  /** The old contents move to `.prev`, then the `.new` file moves in. */
  method Replace(vol: Vol, c: Fetched, ghost before: Files, ghost items: seq<Item>,
                 ghost bodies: seq<Option<seq<byte>>>, ghost n: nat)
    returns (ok: bool)
    requires |bodies| == |items| && Clear(items) && n < |items|
    requires items[n] == Item(Key(c.entry.path), c.isNew) && bodies[n].Some?
    requires vol.Valid() && Ready(before, items, bodies, vol.now.files, n)
    modifies vol
    ensures vol.Valid() && old(vol.seen) <= vol.seen && old(vol.faults) <= vol.faults
    ensures forall m :: m in vol.seen ==> m in old(vol.seen) || MidSwap(m, before, items, bodies, old(vol.now.state))
    ensures MidSwap(vol.now, before, items, bodies, old(vol.now.state))
    ensures ok ==> Ready(before, items, bodies, vol.now.files, n + 1)
    ensures vol.faults == old(vol.faults) ==> ok
  {
    NamesAsKeys(c.entry.path);
    hide NewOf, PrevOf, Key, EfiPath, Fold, Dir, Base, Clear, SwapAt;
    var p := EfiPath(c.entry.path);
    if !c.isNew {
      AwayStep(before, items, bodies, vol.now.files, n);
      var there := vol.Exists(p);
      if there {
        ok := vol.Rename(p, Base(p) + ".prev");
        if !ok {
          return;
        }
        assert Halfway(before, vol.now.files, items[n], bodies[n]);
      }
    }
    ok := PutInPlace(vol, c, before, items, bodies, n);
  }

  method PutInPlace(vol: Vol, c: Fetched, ghost before: Files, ghost items: seq<Item>,
                    ghost bodies: seq<Option<seq<byte>>>, ghost n: nat)
    returns (ok: bool)
    requires |bodies| == |items| && Clear(items) && n < |items|
    requires items[n] == Item(Key(c.entry.path), c.isNew) && bodies[n].Some?
    requires vol.Valid() && SwapAt(before, items, bodies, vol.now.files, n)
    requires Halfway(before, vol.now.files, items[n], bodies[n]) || Waiting(before, vol.now.files, items[n], bodies[n])
    modifies vol
    ensures vol.Valid() && vol.seen == old(vol.seen) + {vol.now} && old(vol.faults) <= vol.faults
    ensures MidSwap(vol.now, before, items, bodies, old(vol.now.state))
    ensures ok ==> Ready(before, items, bodies, vol.now.files, n + 1)
    ensures (vol.faults == old(vol.faults)
             && (c.isNew || Halfway(before, old(vol.now.files), items[n], bodies[n]))) ==> ok
  {
    NamesAsKeys(c.entry.path);
    var p := EfiPath(c.entry.path);
    ghost var f := vol.now.files;
    if c.isNew || Halfway(before, f, items[n], bodies[n]) {
      InStep(before, items, bodies, f, n);
    } else {
      assert items[n].key in f;
    }
    hide NewOf, PrevOf, Key, EfiPath, Fold, Dir, Base, Clear, SwapAt;
    ok := vol.Rename(p + ".new", Base(p));
    if ok {
      NextReady(before, items, bodies, vol.now.files, n);
    }
  }

  /** The swap: the retired drivers, then the changed files in their order. */
  method Swap(vol: Vol, retired: seq<string>, changed: seq<Fetched>, ghost before: Files, ghost items: seq<Item>)
    returns (ok: bool)
    requires items == ItemsOf(Plan(retired, changed)) && Clear(items)
    requires vol.Valid() && Ready(before, items, Bodies(retired, changed), vol.now.files, 0)
    modifies vol
    ensures vol.Valid() && old(vol.seen) <= vol.seen && old(vol.faults) <= vol.faults
    ensures forall m :: m in vol.seen ==>
              m in old(vol.seen) || MidSwap(m, before, items, Bodies(retired, changed), old(vol.now.state))
    ensures MidSwap(vol.now, before, items, Bodies(retired, changed), old(vol.now.state))
    ensures ok ==> SwapAt(before, items, Bodies(retired, changed), vol.now.files, |items|)
    ensures vol.faults == old(vol.faults) ==> ok
  {
    ghost var bodies := Bodies(retired, changed);
    hide NewOf, PrevOf, Key, EfiPath, Fold, Dir, Base, Clear, SwapAt, Waiting;
    for i := 0 to |retired|
      invariant vol.Valid() && old(vol.seen) <= vol.seen && old(vol.faults) <= vol.faults
      invariant forall m :: m in vol.seen ==>
                  m in old(vol.seen) || MidSwap(m, before, items, bodies, old(vol.now.state))
      invariant MidSwap(vol.now, before, items, bodies, old(vol.now.state))
      invariant Ready(before, items, bodies, vol.now.files, i)
    {
      ok := Retire(vol, retired[i], before, items, bodies, i);
      if !ok {
        return false;
      }
    }
    for i := 0 to |changed|
      invariant vol.Valid() && old(vol.seen) <= vol.seen && old(vol.faults) <= vol.faults
      invariant forall m :: m in vol.seen ==>
                  m in old(vol.seen) || MidSwap(m, before, items, bodies, old(vol.now.state))
      invariant MidSwap(vol.now, before, items, bodies, old(vol.now.state))
      invariant Ready(before, items, bodies, vol.now.files, |retired| + i)
    {
      ok := Replace(vol, changed[i], before, items, bodies, |retired| + i);
      if !ok {
        return false;
      }
    }
    return true;
  }

  /** The flags say which planned files are new to this medium. */
  ghost predicate FlagsRight(plan: seq<Change>, f: Files) {
    forall i :: 0 <= i < |plan| ==> (plan[i].isNew <==> Key(plan[i].path) !in f)
  }

  lemma ReadyToSwap(before: Files, plan: seq<Change>, bodies: seq<Option<seq<byte>>>, f: Files)
    requires |bodies| == |plan| && FlagsRight(plan, before)
    requires Quiet(before, ItemsOf(plan), f) && NoPrevs(ItemsOf(plan), f, |plan|)
    requires NewsBeside(ItemsOf(plan), bodies, f, |plan|)
    ensures Ready(before, ItemsOf(plan), bodies, f, 0)
  {
    hide NewOf, PrevOf, Key, Untouched;
    var items := ItemsOf(plan);
    forall i | 0 <= i < |items|
      ensures Waiting(before, f, items[i], bodies[i])
    {
      assert plan[i].isNew <==> Key(plan[i].path) !in before;
    }
  }

  lemma SwapMediaAreInFlight(m: Medium, before: Files, items: seq<Item>, bodies: seq<Option<seq<byte>>>,
                             state: Option<string>)
    requires |bodies| == |items| && MidSwap(m, before, items, bodies, state)
    ensures MidUpdate(m, Renewal(before, bodies), items, state)
  {
    hide SwapAt, InFlight;
    var n: nat :| SwapAt(before, items, bodies, m.files, n);
    SwapIsInFlight(before, items, bodies, m.files, n);
  }

  /** The failed swap's way back: the files, then the state as it was. */
  method TakeBack(vol: Vol, trial: State, state: State, ghost aim: Renewal)
    requires vol.Valid() && Clear(Listed(trial)) && InFlight(aim, Listed(trial), vol.now.files)
    modifies vol
    ensures vol.Valid() && old(vol.seen) <= vol.seen && old(vol.faults) <= vol.faults
    ensures forall m :: m in vol.seen ==>
              m in old(vol.seen) || m == vol.now || MidUpdate(m, aim, Listed(trial), old(vol.now.state))
    ensures InFlight(aim, Listed(trial), vol.now.files)
    ensures vol.now.state == old(vol.now.state) || vol.now.state == Some(TextOf(state))
    ensures vol.faults == old(vol.faults) ==> Restored(aim.was, Listed(trial), vol.now.files)
    ensures vol.faults == old(vol.faults) && |TextOf(state)| <= STATE_SPACE ==> vol.now.state == Some(TextOf(state))
  {
    hide Clear, InFlight, Restored, TextOf;
    var done, errors := Revert(vol, trial, aim);
    var ok := vol.WriteState(state);
  }

  /** One update: the state it starts from, the serial it puts on trial, and
      what it changes. */
  datatype Update = Update(state: State, serial: nat, retired: seq<string>, changed: seq<Fetched>)
  {
    function Planned(): seq<Change> { Plan(retired, changed) }

    function Items(): seq<Item> { ItemsOf(Planned()) }

    function NewBodies(): seq<Option<seq<byte>>> { Bodies(retired, changed) }

    /** What it makes of these files. */
    function Aim(f: Files): Renewal { Renewal(f, NewBodies()) }

    /** The state that records its trial. */
    function Trial(): State {
      state.(serial := serial, prev := state.serial, trial := Some((serial, 0)), files := FileList(Planned()))
    }

    /** What `try_update` makes sure of before it calls `apply`. */
    ghost predicate Proper(f: Files) {
      && AllPathsOk(Planned()) && DistinctPaths(Planned())
      && FlagsRight(Planned(), f)
      && Keepable(Trial().(files := ""))
    }

    /** There is room to record its trial. */
    predicate Fits() {
      |TextOf(Trial())| <= STATE_SPACE
    }

    /** What a power cut during `apply` can leave: nothing changed but the
        update's own names, or the trial recorded and the files in flight. */
    ghost predicate Recoverable(start: Medium, m: Medium) {
      || NothingYet(m, start.files, Items(), start.state)
      || (Fits() && MidUpdate(m, Aim(start.files), Items(), Some(TextOf(Trial()))))
    }

    /** No item is swapped before those that come before it. */
    ghost predicate Ordered(start: Medium, m: Medium) {
      || NothingYet(m, start.files, Items(), start.state)
      || InOrder(start.files, Items(), NewBodies(), m.files)
    }

    /** The swap failed and was taken back: the old state, and files that are
        the old ones too if that went without failure. */
    ghost predicate TakenBack(start: Medium, m: Medium) {
      && m.state == Some(TextOf(state))
      && InFlight(Aim(start.files), Items(), m.files)
    }

    /** All of it in place, and recorded. */
    ghost predicate Complete(start: Medium, m: Medium) {
      && m.state == Some(TextOf(Trial()))
      && SwapAt(start.files, Items(), NewBodies(), m.files, |Items()|)
    }
  }

  lemma RestoredIsQuiet(before: Files, items: seq<Item>, f: Files)
    requires Restored(before, items, f)
    ensures Quiet(before, items, f)
  {
    hide Untouched;
    forall i | 0 <= i < |items|
      ensures Same(before, f, items[i].key)
    {
      assert PutBack(before, f, items[i]);
    }
  }

  lemma QuietAtFirst(before: Files, items: seq<Item>)
    ensures Quiet(before, items, before)
  {
  }

  /** All of an update but the swap: old copies dropped, new files written, the
      trial on record. */
  method Prepare(vol: Vol, u: Update) returns (ok: bool)
    requires vol.Valid() && u.Proper(vol.now.files) && Clear(u.Items())
    modifies vol
    ensures vol.Valid() && old(vol.seen) <= vol.seen && old(vol.faults) <= vol.faults
    ensures forall m :: m in vol.seen ==>
              m in old(vol.seen) || (u.Recoverable(old(vol.now), m) && u.Ordered(old(vol.now), m))
    ensures u.Recoverable(old(vol.now), vol.now)
    ensures ok ==>
              && vol.now.state == Some(TextOf(u.Trial()))
              && Ready(old(vol.now.files), u.Items(), u.NewBodies(), vol.now.files, 0)
    ensures vol.faults == old(vol.faults) && u.Fits() ==> ok
    ensures !u.Fits() ==> !ok && NothingYet(vol.now, old(vol.now.files), u.Items(), old(vol.now.state))
    ensures Quiet(old(vol.now.files), u.Items(), vol.now.files)
  {
    ghost var start := vol.now;
    QuietAtFirst(start.files, u.Items());
    hide TextOf, FileList, Clear, Quiet, InFlight, SwapAt, Waiting, NoPrevs, NewsBeside, Keepable, AllPathsOk,
         DistinctPaths, Update.Fits;
    ok := DropPrevs(vol, u.Planned(), start.files, u.Items());
    if ok {
      ok := WriteNews(vol, u.retired, u.changed, start.files, u.Items());
    }
    if ok {
      ReadyToSwap(start.files, u.Planned(), u.NewBodies(), vol.now.files);
      ok := RecordTrial(vol, u, start);
    }
  }

  /** The trial goes on record, if there is room for it. */
  method RecordTrial(vol: Vol, u: Update, ghost start: Medium) returns (ok: bool)
    requires vol.Valid() && NothingYet(vol.now, start.files, u.Items(), start.state)
    requires Ready(start.files, u.Items(), u.NewBodies(), vol.now.files, 0)
    modifies vol
    ensures vol.Valid() && vol.seen == old(vol.seen) + {vol.now} && old(vol.faults) <= vol.faults
    ensures u.Recoverable(start, vol.now) && u.Ordered(start, vol.now) && vol.now.files == old(vol.now.files)
    ensures ok ==> vol.now.state == Some(TextOf(u.Trial())) && u.Fits()
    ensures vol.faults == old(vol.faults) && u.Fits() ==> ok
    ensures !u.Fits() ==> vol.now == old(vol.now)
  {
    SwapIsInFlight(start.files, u.Items(), u.NewBodies(), vol.now.files, 0);
    hide TextOf, FileList, Quiet, InFlight, SwapAt, Waiting;
    ok := vol.WriteState(u.Trial());
    assert SwapAt(start.files, u.Items(), u.NewBodies(), vol.now.files, 0);
  }

  /** The swap of a recorded update, taken back if it fails. `swapping` is all
      that had been seen, and `early` what had failed, when the swap ended. */
  method SwapOrTakeBack(vol: Vol, u: Update, ghost start: Medium)
    returns (ok: bool, ghost swapping: set<Medium>, ghost early: nat)
    requires vol.Valid() && Clear(u.Items()) && Listed(u.Trial()) == u.Items() && u.Fits()
    requires vol.now.state == Some(TextOf(u.Trial()))
    requires Ready(start.files, u.Items(), u.NewBodies(), vol.now.files, 0)
    modifies vol
    ensures vol.Valid() && old(vol.faults) <= early <= vol.faults
    ensures old(vol.seen) <= swapping <= vol.seen && (ok ==> swapping == vol.seen)
    ensures !ok && vol.faults == early ==> Quiet(start.files, u.Items(), vol.now.files)
    ensures ok ==> u.Complete(start, vol.now)
    ensures forall m :: m in swapping ==> m in old(vol.seen) || u.Ordered(start, m)
    ensures vol.faults == old(vol.faults) ==> ok
    ensures forall m :: m in vol.seen ==>
              m in old(vol.seen) || u.Recoverable(start, m) || (m == vol.now && !ok)
    ensures u.Recoverable(start, vol.now) || u.TakenBack(start, vol.now)
  {
    ghost var items, bodies, text := u.Items(), u.NewBodies(), Some(TextOf(u.Trial()));
    hide TextOf, Clear, InFlight, Restored, SwapAt, Waiting, InOrder, Quiet;
    ok := Swap(vol, u.retired, u.changed, start.files, items);
    swapping, early := vol.seen, vol.faults;
    forall m | MidSwap(m, start.files, items, bodies, text)
      ensures MidUpdate(m, u.Aim(start.files), items, text)
    {
      SwapMediaAreInFlight(m, start.files, items, bodies, text);
    }
    if !ok {
      TakeBack(vol, u.Trial(), u.state, u.Aim(start.files));
      if vol.faults == early {
        RestoredIsQuiet(start.files, items, vol.now.files);
      }
    }
  }

  /** The whole of an update. Cut off anywhere, it leaves what can be put back; only a failed operation, or a
      list too long for the state, stops it, and the latter always does.
      `swapping` is all that had been seen, and `early` what had failed, before
      any of the swap was taken back; if nothing failed after that, no listed
      file has changed. */
  method Apply(vol: Vol, u: Update) returns (ok: bool, ghost swapping: set<Medium>, ghost early: nat)
    requires vol.Valid() && u.Proper(vol.now.files)
    modifies vol
    ensures vol.Valid() && old(vol.faults) <= early <= vol.faults
    ensures old(vol.seen) <= swapping <= vol.seen && (ok ==> swapping == vol.seen)
    ensures !ok && vol.faults == early ==> Quiet(old(vol.now.files), u.Items(), vol.now.files)
    ensures ok ==> u.Complete(old(vol.now), vol.now)
    ensures forall m :: m in swapping ==> m in old(vol.seen) || u.Ordered(old(vol.now), m)
    ensures vol.faults == old(vol.faults) && u.Fits() ==> ok
    ensures !u.Fits() ==> !ok && NothingYet(vol.now, old(vol.now.files), u.Items(), old(vol.now.state))
    ensures forall m :: m in vol.seen ==>
              m in old(vol.seen) || u.Recoverable(old(vol.now), m) || (m == vol.now && !ok)
    ensures u.Recoverable(old(vol.now), vol.now) || u.TakenBack(old(vol.now), vol.now)
  {
    ListedPathsAreApart(u.Planned());
    TrialRoundTrip(u.Trial(), u.Planned());
    ChangedIsTheList(u.Trial(), u.Planned());
    ghost var start := vol.now;
    hide TextOf, Clear, Keepable, FlagsRight, InFlight, SwapAt, Waiting, Quiet, InOrder, AllPathsOk, DistinctPaths;
    ok := Prepare(vol, u);
    swapping, early := vol.seen, vol.faults;
    if ok {
      ok, swapping, early := SwapOrTakeBack(vol, u, start);
    }
  }
}
