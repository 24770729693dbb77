/** An update that cannot be recorded: a manifest that is accepted, and whose
    list of paths is longer than the state's space (`apply` and `write_state` in
    `src/selfupdate.rs`). */
module Overlong {
  import opened Bytes
  import opened Text
  import opened UpdateState
  import opened Manifests
  import opened ManifestText
  import opened BootMedium
  import opened Volume
  import opened SelfUpdate
  import opened Offer
  import Sha256

  const FILES := 31

  /** The longest path there may be; no two are the same name. */
  function LongPath(i: nat): (p: string)
    ensures |p| == 128
  {
    "stormboot/" + Name(i)
  }

  function Name(i: nat): (n: string)
    ensures |n| == 118
    ensures forall k :: 0 <= k < |n| ==> n[k] == if k == i then 'b' else 'a'
  {
    seq(118, k => if k == i then 'b' else 'a')
  }

  /** Empty files, the bootloader last. */
  function Files(): (files: seq<Entry>)
    ensures |files| == FILES + 1
  {
    seq(FILES, i requires 0 <= i < FILES => Entry(Sha256.Sha([]), 0, LongPath(i)))
      + [Entry(Sha256.Sha([]), 0, Bootloader())]
  }

  function Release(): Manifest {
    Manifest("1.0.0", "", "", 1, false, Files(), [])
  }

  /** All of it, on an empty medium. */
  function Offered(): Update {
    Update.Update(FRESH, 1, [], seq(FILES + 1, i requires 0 <= i < FILES + 1 => Fetched(Files()[i], [], true)))
  }

  lemma LongPathsDiffer(i: nat, j: nat)
    requires i < j < FILES
    ensures !SameName(LongPath(i), LongPath(j))
  {
    assert Fold(LongPath(i))[10 + i] == 'b' && Fold(LongPath(j))[10 + i] == 'a';
  }

  lemma LongPathOk(i: nat)
    ensures PathOk(LongPath(i)) && !SameName(LongPath(i), Bootloader())
  {
    hide HasSuffix, Fold, Split, ComponentOk;
    var dir, name := "stormboot", Name(i);
    assert '/' !in dir && '/' !in name;
    assert LongPath(i) == dir + ['/'] + name;
    SplitAt(dir, '/', name);
    SplitAt(name, '/', "");
    assert Split(LongPath(i), '/') == [dir, name];
    NoSuffix(i);
    assert |"state"| == 5 && |"local.conf"| == 10 && |Bootloader()| == 20;
    assert SameName(dir, "stormboot");
    assert ComponentOk(dir) by {
      DirOk();
    }
  }

  lemma DirOk()
    ensures ComponentOk("stormboot")
  {
  }

  lemma NoSuffix(i: nat)
    ensures !HasSuffix(Name(i), ".new") && !HasSuffix(Name(i), ".prev") && ComponentOk(Name(i))
  {
    assert Fold(".new")[3] == 'w' && Fold(".prev")[4] == 'v';
    assert Fold(Name(i)[114..])[3] != 'w' && Fold(Name(i)[113..])[4] != 'v';
  }

  lemma BootloaderSplit()
    ensures Split(Bootloader(), '/') == ["EFI", "BOOT", "BOOTX64.EFI"]
  {
    hide Split;
    assert Bootloader() == "EFI" + ['/'] + ("BOOT" + ['/'] + "BOOTX64.EFI");
    SplitAt("EFI", '/', "BOOT" + ['/'] + "BOOTX64.EFI");
    SplitAt("BOOT", '/', "BOOTX64.EFI");
    SplitAt("BOOTX64.EFI", '/', "");
  }

  lemma BootloaderPathOk()
    ensures PathOk(Bootloader())
  {
    hide Split, Fold, ComponentOk, HasSuffix;
    BootloaderSplit();
    BootloaderParts();
    assert |Bootloader()| == 20;
  }

  lemma BootloaderParts()
    ensures ComponentOk("EFI") && ComponentOk("BOOT") && ComponentOk("BOOTX64.EFI")
    ensures SameName("EFI", "EFI") && SameName("BOOT", "BOOT")
    ensures !HasSuffix("BOOTX64.EFI", ".new") && !HasSuffix("BOOTX64.EFI", ".prev")
  {
    var last := "BOOTX64.EFI";
    assert Fold(".new")[3] == 'w' && Fold(".prev")[4] == 'v';
    assert Fold(last[|last| - 4..])[3] == 'i' && Fold(last[|last| - 5..])[4] == 'i';
  }

  lemma {:induction false} NothingInAll(files: seq<Entry>)
    requires forall i :: 0 <= i < |files| ==> files[i].size == 0
    ensures Total(files) == 0
  {
    if files != [] {
      NothingInAll(files[..|files| - 1]);
    }
  }

  lemma ReleaseIsAccepted()
    ensures Accepted(Release()) && Writable(Release())
  {
    hide PathOk, Sha256.Sha, Bootloader, LongPath, Fold, Total, IsSpace;
    var files := Files();
    NothingInAll(files);
    BootloaderPathOk();
    forall i | 0 <= i < |files|
      ensures FileOk(files[i])
    {
      LongPathOk(i);
    }
    forall i, j | 0 <= i < j < |files|
      ensures !SameName(files[i].path, files[j].path)
    {
      if j < FILES {
        LongPathsDiffer(i, j);
      } else {
        LongPathOk(i);
      }
    }
    assert SameName(files[FILES].path, Bootloader());
    VersionIsOneLine();
  }

  lemma VersionIsOneLine()
    ensures OneLine("1.0.0") && OneLine("") && "1.0.0" != ""
  {
  }

  lemma {:induction false} JoinedIsLong(words: seq<string>, k: nat, n: nat)
    requires k <= |words| && forall i :: 0 <= i < k ==> |words[i]| >= n
    ensures |JoinWords(words)| >= k * (n + 1) - 1
  {
    if k > 0 && |words| > 1 {
      JoinedIsLong(words[1..], k - 1, n);
      assert k * (n + 1) == (k - 1) * (n + 1) + (n + 1);
    }
  }

  lemma ListIsLong()
    ensures |FileList(Offered().Planned())| >= 4029
  {
    hide LongPath, Bootloader, Sha256.Sha;
    var words := Marks(Offered().Planned());
    forall i | 0 <= i < FILES
      ensures |words[i]| == 129
    {
      assert Offered().changed[i].entry == Files()[i] && Files()[i].path == LongPath(i);
      assert words[i] == Mark(Change(LongPath(i), true));
    }
    JoinedIsLong(words, FILES, 129);
  }

  lemma LongListsDoNotFit(u: Update)
    requires |FileList(u.Planned())| >= 4029
    ensures !u.Fits()
  {
    HeadingIsShort();
    hide Heading, SerialsText, TrialText, FileList;
    assert |FilesText(u.Trial())| >= 4029 + 9 by {
      assert |"files"| == 5 && |" = "| == 3;
    }
  }

  /** The files are what they were signed as, and new to the medium. */
  lemma PlannedRight()
    ensures AllRight(map[], Offered().changed) && DistinctFetched(Offered().changed)
    ensures NoneCarried(map[], Offered().changed)
    ensures FromManifest(Release().files, Offered().changed) && BootloaderIsLast(Offered())
    ensures Covered(Release(), Offered(), map[])
  {
    ReleaseIsAccepted();
    hide PathOk, Sha256.Sha, LongPath, Fold, Total, Bootloader, Manifest.Names, FileOk;
    var files, changed := Files(), Offered().changed;
    forall j | 0 <= j < |changed|
      ensures changed[j].entry == files[j] && changed[j].entry in files && FetchedRight(map[], changed[j])
    {
    }
    forall i | 0 <= i < |files|
      ensures AmongFetched(changed, files[i])
    {
      assert changed[i].entry == files[i];
    }
    forall i | 0 <= i < |changed| && IsBootloader(changed[i])
      ensures i == |changed| - 1
    {
      LongPathOk(i);
    }
  }

  /** A manifest that `parse` accepts and the serial of which is taken, and the
      update planned from it on an empty medium; its trial cannot be recorded. */
  lemma CannotBeRecorded()
    ensures var m, u, f := Release(), Offered(), map[];
            && ManifestOf(TextFor(m)) == Ok(m)
            && Judge(m.serial, FRESH, 0, m.ForMachine(None)) == Take
            && PlannedFrom(m, u, [], f) && Covered(m, u, f) && BootloaderIsLast(u)
            && !u.Fits()
  {
    hide AllRight, NoneCarried, DistinctFetched, FromManifest, BootloaderIsLast, Covered, Accepted, Writable, Offered,
         Files, ManifestOf, TextFor, Update.Fits, FileList, Update.Proper;
    ReleaseIsAccepted();
    AcceptedComesBack(Release());
    PlannedRight();
    PlannedState();
    FreshIsReadable();
    PlanIsProper(Release(), map[], Offered().changed, [], FRESH);
    ListIsLong();
    LongListsDoNotFit(Offered());
  }

  lemma FreshIsReadable()
    ensures Readable(FRESH)
  {
  }

  lemma PlannedState()
    ensures Offered() == Update.Update(FRESH, 1, [], Offered().changed) && DriverPaths([]) == []
    ensures Release().serial == 1 && Release().canaries == []
  {
  }
}
