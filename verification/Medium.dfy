/** The boot medium as the self-update sees it (`src/selfupdate.rs`): files by
    case-folded path and the update's state text. What an interrupted update
    leaves, what putting it back gives, and why the one always leads to the
    other. */
module BootMedium {
  import opened Bytes
  import opened Text
  import opened UpdateState

  type Files = map<string, seq<byte>>

  /** The state text is kept apart from the files it stands among: no path an
      update may name is its path (`StateIsApart`). */
  datatype Medium = Medium(files: Files, state: Option<string>)

  function StateIn(m: Medium): State {
    match m.state
    case None => FRESH
    case Some(text) => StateOf(text)
  }

  // ------------------------------------------------------------------ names

  function Backslashed(p: string): (s: string)
    ensures |s| == |p|
    ensures forall i :: 0 <= i < |p| ==> s[i] == if p[i] == '/' then '\\' else p[i]
  {
    seq(|p|, i requires 0 <= i < |p| => if p[i] == '/' then '\\' else p[i])
  }

  /** A listed path the way the firmware spells it, from the volume's root. */
  function EfiPath(p: string): string {
    "\\" + Backslashed(p)
  }

  /** What the medium files a path under. */
  function Key(p: string): string {
    Fold(EfiPath(p))
  }

  function NewOf(k: string): string { k + ".new" }
  function PrevOf(k: string): string { k + ".prev" }

  /** A listed path, by its key. */
  datatype Item = Item(key: string, isNew: bool)

  function ItemOf(c: Change): Item {
    Item(Key(c.path), c.isNew)
  }

  function ItemsOf(cs: seq<Change>): seq<Item> {
    seq(|cs|, i requires 0 <= i < |cs| => ItemOf(cs[i]))
  }

  /** The items a state's file list names. */
  function Listed(s: State): seq<Item> {
    ItemsOf(Changed(s))
  }

  /** No listed path's own name, `.new` name or `.prev` name is another's. */
  ghost predicate Clear(items: seq<Item>) {
    && (forall i, j :: 0 <= i < |items| && 0 <= j < |items| ==>
          && items[i].key != NewOf(items[j].key)
          && items[i].key != PrevOf(items[j].key)
          && NewOf(items[i].key) != PrevOf(items[j].key))
    && (forall i, j :: 0 <= i < j < |items| ==>
          && items[i].key != items[j].key
          && NewOf(items[i].key) != NewOf(items[j].key)
          && PrevOf(items[i].key) != PrevOf(items[j].key))
  }

  predicate DistinctPaths(cs: seq<Change>) {
    forall i, j :: 0 <= i < j < |cs| ==> !SameName(cs[i].path, cs[j].path)
  }

  lemma KeyTellsNamesApart(p: string, q: string)
    requires '\\' !in p && '\\' !in q
    ensures Key(p) == Key(q) <==> SameName(p, q)
  {
    if Key(p) == Key(q) {
      forall i | 0 <= i < |p|
        ensures Lower(p[i]) == Lower(q[i])
      {
        assert Key(p)[i + 1] == Key(q)[i + 1];
        assert p[i] in p && q[i] in q;
      }
      assert |p| == |q|;
    }
    if SameName(p, q) {
      forall i | 0 <= i < |Key(p)|
        ensures Key(p)[i] == Key(q)[i]
      {
        if i > 0 {
          assert Fold(p)[i - 1] == Fold(q)[i - 1];
        }
      }
    }
  }

  lemma KeyEnds(p: string, k: string, end: string)
    requires PathOk(p) && Key(p) == k + end && '\\' !in end
    ensures EndsWith(Fold(p), end)
  {
    hide PathOk;
    assert (k + end)[|p| + 1 - |end|..] == end;
    SameEnd(p, |end|);
  }

  lemma KeyIsNoSibling(p: string, k: string)
    requires PathOk(p)
    ensures Key(p) != NewOf(k) && Key(p) != PrevOf(k)
  {
    NotASiblingName(p);
    assert '\\' !in ".new" && '\\' !in ".prev";
    hide PathOk, Key, Fold, EndsWith;
    if Key(p) == NewOf(k) {
      KeyEnds(p, k, ".new");
    }
    if Key(p) == PrevOf(k) {
      KeyEnds(p, k, ".prev");
    }
  }

  lemma SameEnd(p: string, n: nat)
    requires n <= |p| + 1 && '\\' !in Key(p)[|p| + 1 - n..]
    ensures n <= |p| && Fold(p)[|p| - n..] == Key(p)[|p| + 1 - n..]
  {
    var k := Key(p);
    KeyUnits(p);
    hide Fold, Key, Lower;
    var a := k[|p| + 1 - n..];
    assert n > 0 ==> a[0] in a;
    var b := Fold(p)[|p| - n..];
    forall i | 0 <= i < n
      ensures b[i] == a[i]
    {
      assert a[i] in a;
      assert a[i] == k[|p| - n + i + 1];
    }
  }

  lemma KeyUnits(p: string)
    ensures |Key(p)| == |p| + 1 && Key(p)[0] == '\\'
    ensures forall i :: 0 <= i < |p| ==> Key(p)[i + 1] == if p[i] == '/' then '\\' else Fold(p)[i]
  {
  }

  lemma AppendInjective(a: string, b: string, end: string)
    requires a + end == b + end
    ensures a == b
  {
    assert a == (a + end)[..|a|];
    assert b == (b + end)[..|b|];
  }

  lemma NewIsNotPrev(a: string, b: string)
    ensures NewOf(a) != PrevOf(b)
  {
    assert NewOf(a)[|NewOf(a)| - 1] == 'w';
    assert PrevOf(b)[|PrevOf(b)| - 1] == 'v';
  }

  /** Distinct accepted paths are clear of one another, siblings and all. */
  lemma ListedPathsAreApart(cs: seq<Change>)
    requires AllPathsOk(cs) && DistinctPaths(cs)
    ensures Clear(ItemsOf(cs))
  {
    hide PathOk, Key;
    var items := ItemsOf(cs);
    forall i, j | 0 <= i < |items| && 0 <= j < |items|
      ensures items[i].key != NewOf(items[j].key) && items[i].key != PrevOf(items[j].key)
      ensures NewOf(items[i].key) != PrevOf(items[j].key)
    {
      assert PathOk(cs[i].path);
      KeyIsNoSibling(cs[i].path, items[j].key);
      NewIsNotPrev(items[i].key, items[j].key);
    }
    forall i, j | 0 <= i < j < |items|
      ensures items[i].key != items[j].key
      ensures NewOf(items[i].key) != NewOf(items[j].key) && PrevOf(items[i].key) != PrevOf(items[j].key)
    {
      assert PathOk(cs[i].path) && PathOk(cs[j].path);
      PathIsAWord(cs[i].path);
      PathIsAWord(cs[j].path);
      KeyTellsNamesApart(cs[i].path, cs[j].path);
      if NewOf(items[i].key) == NewOf(items[j].key) {
        AppendInjective(items[i].key, items[j].key, ".new");
      }
      if PrevOf(items[i].key) == PrevOf(items[j].key) {
        AppendInjective(items[i].key, items[j].key, ".prev");
      }
    }
  }

  /** A path spelt like this one, in any case, is cut where this one is. */
  lemma SameParts(p: string, dir: string, own: string) returns (a: string, b: string)
    requires SameName(p, dir + ['/'] + own) && '/' !in dir && '/' !in own
    ensures p == a + ['/'] + b && '/' !in a && '/' !in b && SameName(a, dir) && SameName(b, own)
  {
    hide Fold, Lower;
    var n := |dir|;
    a, b := p[..n], p[n + 1..];
    FoldConcat(dir + ['/'], own);
    FoldConcat(dir, ['/']);
    assert p == a + [p[n]] + b;
    FoldConcat(a + [p[n]], b);
    FoldConcat(a, [p[n]]);
    var f := Fold(a) + Fold([p[n]]) + Fold(b);
    assert f == Fold(dir) + Fold(['/']) + Fold(own);
    assert Fold(a) == f[..n] && Fold(b) == f[n + 1..] && Fold([p[n]]) == f[n..n + 1];
    SlashesStay([p[n]], ['/']);
    SlashesStay(a, dir);
    SlashesStay(b, own);
    assert ['/'][0] == '/';
  }

  lemma SlashesStay(a: string, b: string)
    requires SameName(a, b)
    ensures |a| == |b| && forall i :: 0 <= i < |a| ==> (a[i] == '/' <==> b[i] == '/')
    ensures '/' in a <==> '/' in b
  {
    assert |Fold(a)| == |Fold(b)|;
    forall i | 0 <= i < |a|
      ensures a[i] == '/' <==> b[i] == '/'
    {
      assert Fold(a)[i] == Lower(a[i]) && Fold(b)[i] == Lower(b[i]);
    }
  }

  /** The medium's own two files are not to be written, however they are spelt. */
  lemma OwnNameIsRefused(p: string, own: string)
    requires own == "state" || own == "local.conf"
    requires SameName(p, "stormboot/" + own)
    ensures !PathOk(p)
  {
    hide Fold, Split, ComponentOk, HasSuffix;
    assert "stormboot/" + own == "stormboot" + ['/'] + own;
    assert '/' !in own && '/' !in "stormboot";
    var a, b := SameParts(p, "stormboot", own);
    SplitAt(a, '/', b);
    SplitAt(b, '/', "");
    assert Split(p, '/') == [a, b];
    NotTheOther(a);
  }

  lemma NotTheOther(a: string)
    ensures SameName(a, "stormboot") ==> !SameName(a, "EFI") && !SameName(a, "startup.nsh")
  {
    assert |"stormboot"| == 9 && |"EFI"| == 3 && |"startup.nsh"| == 11;
    assert |Fold(a)| == |a|;
  }

  /** The state's file is not an accepted path, nor the `.new` or `.prev` of one. */
  lemma StateIsApart(p: string)
    requires PathOk(p)
    ensures var state := Key("stormboot/state");
            Key(p) != state && NewOf(Key(p)) != state && PrevOf(Key(p)) != state
  {
    hide PathOk, Key, Fold;
    var q := "stormboot/state";
    assert q == "stormboot/" + "state" && '\\' !in q;
    KeyEndsInE();
    assert NewOf(Key(p))[|NewOf(Key(p))| - 1] == 'w' && PrevOf(Key(p))[|PrevOf(Key(p))| - 1] == 'v';
    PathIsAWord(p);
    KeyTellsNamesApart(p, q);
    if SameName(p, q) {
      OwnNameIsRefused(p, "state");
    }
  }

  lemma KeyEndsInE()
    ensures var k := Key("stormboot/state"); k != "" && k[|k| - 1] == 'e'
  {
  }

  // -------------------------------------------------------------- reverting

  /** `k` names the same thing, or nothing, on both. */
  ghost predicate Same(a: Files, b: Files, k: string) {
    (k in a <==> k in b) && (k in a ==> a[k] == b[k])
  }

  ghost predicate Touched(items: seq<Item>, k: string) {
    exists i :: 0 <= i < |items|
      && (k == items[i].key || k == NewOf(items[i].key) || k == PrevOf(items[i].key))
  }

  ghost predicate Untouched(before: Files, items: seq<Item>, now: Files) {
    forall k :: !Touched(items, k) ==> Same(before, now, k)
  }

  /** The files an update found, and the contents it brings: one for each listed
      item, or none where it takes a file away. */
  datatype Renewal = Renewal(was: Files, bodies: seq<Option<seq<byte>>>)

  /** What there is under an item's own name came from its `.new`. */
  ghost predicate Arrived(now: Files, it: Item, body: Option<seq<byte>>) {
    it.key in now ==> body.Some? && now[it.key] == body.value && NewOf(it.key) !in now
  }

  /** An item an update may have got anywhere with: what it replaced is in its
      `.prev` and its own name has the new contents or nothing, or it is still in
      place. */
  ghost predicate Pending(before: Files, now: Files, it: Item, body: Option<seq<byte>>) {
    if it.isNew then it.key !in before && PrevOf(it.key) !in now && Arrived(now, it, body)
    else
      && it.key in before
      && if PrevOf(it.key) in now then now[PrevOf(it.key)] == before[it.key] && Arrived(now, it, body)
         else Same(before, now, it.key)
  }

  ghost predicate PutBack(before: Files, now: Files, it: Item) {
    && (it.isNew <==> it.key !in before)
    && Same(before, now, it.key)
    && NewOf(it.key) !in now && PrevOf(it.key) !in now
  }

  /** What an update of `items` interrupted anywhere leaves. */
  ghost predicate InFlight(r: Renewal, items: seq<Item>, now: Files) {
    && |r.bodies| == |items| && Untouched(r.was, items, now)
    && forall i :: 0 <= i < |items| ==> Pending(r.was, now, items[i], r.bodies[i])
  }

  /** Every listed path as it was before, its siblings gone, nothing else changed. */
  ghost predicate Restored(before: Files, items: seq<Item>, now: Files) {
    && Untouched(before, items, now)
    && forall i :: 0 <= i < |items| ==> PutBack(before, now, items[i])
  }

  /** Something of an update that `revert` would have undone. */
  predicate Leftover(f: Files, it: Item) {
    NewOf(it.key) in f || PrevOf(it.key) in f || (it.isNew && it.key in f)
  }

  /** A revert that failed anywhere has put the files back all the same exactly
      when it has left nothing of the update. */
  lemma RestoredExactlyWhen(r: Renewal, items: seq<Item>, f: Files)
    requires InFlight(r, items, f)
    ensures Restored(r.was, items, f) <==> forall i :: 0 <= i < |items| ==> !Leftover(f, items[i])
  {
    hide NewOf, PrevOf, Untouched;
    if forall i :: 0 <= i < |items| ==> !Leftover(f, items[i]) {
      forall i | 0 <= i < |items|
        ensures PutBack(r.was, f, items[i])
      {
        assert Pending(r.was, f, items[i], r.bodies[i]) && !Leftover(f, items[i]);
      }
    }
    if Restored(r.was, items, f) {
      forall i | 0 <= i < |items|
        ensures !Leftover(f, items[i])
      {
        assert PutBack(r.was, f, items[i]);
      }
    }
  }

  function Without(f: Files, k: string): Files {
    f - {k}
  }

  function Moved(f: Files, from: string, to: string): Files
    requires from in f
  {
    Without(f, from)[to := f[from]]
  }

  /** What `revert` does about one path. */
  function RevertItem(f: Files, it: Item): Files {
    var g := Without(f, NewOf(it.key));
    if PrevOf(it.key) in g then
      var h := Without(g, it.key);
      if PrevOf(it.key) in h then Moved(h, PrevOf(it.key), it.key) else h
    else if it.isNew then Without(g, it.key)
    else g
  }

  function RevertItems(f: Files, items: seq<Item>): Files {
    if items == [] then f else RevertItem(RevertItems(f, items[..|items| - 1]), items[|items| - 1])
  }

  /** Only an item's own three names differ. */
  ghost predicate OnlyItem(a: Files, b: Files, it: Item) {
    forall k :: k != it.key && k != NewOf(it.key) && k != PrevOf(it.key) ==> Same(a, b, k)
  }

  lemma RevertItemPutsBack(before: Files, f: Files, items: seq<Item>, i: nat, body: Option<seq<byte>>)
    requires Clear(items) && i < |items| && Pending(before, f, items[i], body)
    ensures PutBack(before, RevertItem(f, items[i]), items[i])
    ensures OnlyItem(f, RevertItem(f, items[i]), items[i])
  {
    hide NewOf, PrevOf;
    assert items[i].key != PrevOf(items[i].key) && items[i].key != NewOf(items[i].key);
    assert NewOf(items[i].key) != PrevOf(items[i].key);
  }

  /** Changing one item's names leaves every other item's names, and
      everything that is not listed, as they were. */
  lemma OthersSame(before: Files, a: Files, b: Files, items: seq<Item>, i: nat)
    requires Clear(items) && i < |items| && OnlyItem(a, b, items[i])
    ensures Untouched(before, items, a) ==> Untouched(before, items, b)
    ensures forall j :: 0 <= j < |items| && j != i ==>
              && Same(a, b, items[j].key)
              && Same(a, b, NewOf(items[j].key))
              && Same(a, b, PrevOf(items[j].key))
  {
    hide NewOf, PrevOf;
    forall j | 0 <= j < |items| && j != i
      ensures Same(a, b, items[j].key) && Same(a, b, NewOf(items[j].key)) && Same(a, b, PrevOf(items[j].key))
    {
      var x, y := if i < j then i else j, if i < j then j else i;
      assert items[x].key != items[y].key;
    }
    if Untouched(before, items, a) {
      forall k | !Touched(items, k)
        ensures Same(before, b, k)
      {
        assert Same(before, a, k);
        assert Touched(items, k) || Same(a, b, k);
      }
    }
  }

  lemma OthersKeep(r: Renewal, a: Files, b: Files, items: seq<Item>, i: nat)
    requires Clear(items) && i < |items| == |r.bodies| && OnlyItem(a, b, items[i])
    ensures Untouched(r.was, items, a) ==> Untouched(r.was, items, b)
    ensures forall j :: 0 <= j < |items| && j != i ==>
              (Pending(r.was, a, items[j], r.bodies[j]) ==> Pending(r.was, b, items[j], r.bodies[j]))
              && (PutBack(r.was, a, items[j]) ==> PutBack(r.was, b, items[j]))
  {
    OthersSame(r.was, a, b, items, i);
    hide NewOf, PrevOf, Clear, OnlyItem, Untouched;
  }

  /** From anything an interrupted update leaves, `revert` gives back exactly
      what was there before. */
  lemma RevertRestores(r: Renewal, items: seq<Item>, f: Files)
    requires Clear(items) && InFlight(r, items, f)
    ensures Restored(r.was, items, RevertItems(f, items))
  {
    PartRestores(r, items, f, |items|);
    assert items[..|items|] == items;
  }

  lemma {:induction false} PartRestores(r: Renewal, items: seq<Item>, f: Files, n: nat)
    requires Clear(items) && InFlight(r, items, f) && n <= |items|
    ensures var g := RevertItems(f, items[..n]);
            && Untouched(r.was, items, g)
            && (forall i :: 0 <= i < n ==> PutBack(r.was, g, items[i]))
            && (forall i :: n <= i < |items| ==> Pending(r.was, g, items[i], r.bodies[i]))
  {
    hide Clear, Pending, PutBack, Untouched, OnlyItem, RevertItem;
    if n > 0 {
      PartRestores(r, items, f, n - 1);
      assert items[..n][..n - 1] == items[..n - 1];
      var g := RevertItems(f, items[..n - 1]);
      RevertItemPutsBack(r.was, g, items, n - 1, r.bodies[n - 1]);
      OthersKeep(r, g, RevertItem(g, items[n - 1]), items, n - 1);
    }
  }

  /** There is only one such medium. */
  lemma OneRestoredMedium(before: Files, items: seq<Item>, a: Files, b: Files)
    requires Restored(before, items, a) && Restored(before, items, b)
    ensures a == b
  {
    forall k
      ensures Same(a, b, k)
    {
      if Touched(items, k) {
        var i :| 0 <= i < |items|
          && (k == items[i].key || k == NewOf(items[i].key) || k == PrevOf(items[i].key));
        assert PutBack(before, a, items[i]) && PutBack(before, b, items[i]);
      } else {
        assert Same(before, a, k) && Same(before, b, k);
      }
    }
    assert forall k :: k in a ==> Same(a, b, k);
    assert forall k :: k in b ==> Same(a, b, k);
    assert a.Keys == b.Keys;
  }

  /** A revert of a revert, or of any other medium the same update could have
      left, ends in the same place. */
  lemma RevertsAgree(r: Renewal, items: seq<Item>, f: Files, g: Files)
    requires Clear(items) && InFlight(r, items, f) && InFlight(r, items, g)
    ensures RevertItems(f, items) == RevertItems(g, items)
  {
    RevertRestores(r, items, f);
    RevertRestores(r, items, g);
    OneRestoredMedium(r.was, items, RevertItems(f, items), RevertItems(g, items));
  }
}
