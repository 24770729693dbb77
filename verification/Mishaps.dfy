/** Four lives of a medium that end badly, though the code did in them what it
    always does (`apply`, `mark_good` and `at_start` in `src/selfupdate.rs`): two
    in which a set passes that is not in place, and two in which the bootloader is
    lost and the record says the old set is back. */
module Mishaps {
  import opened Bytes
  import opened Text
  import opened UpdateState
  import opened Manifests
  import opened ManifestText
  import opened BootMedium
  import opened Volume
  import opened SelfUpdate
  import opened Offer
  import opened Lifecycle
  import opened Session
  import opened Lifetime
  import Overlong
  import Sha256

  /** A release of one file. */
  function Only(): Entry {
    Entry(Sha256.Sha([2, 3]), 2, Bootloader())
  }

  function BootKey(): string { Key(Bootloader()) }

  function OldSet(): Files { map[BootKey() := [1]] }

  /** Its update of a medium that has another bootloader. */
  function Offered(): Update {
    Update.Update(FRESH, 1, [], [Fetched(Only(), [2, 3], false)])
  }

  function Release(): Manifest {
    Manifest("1.0.0", "", "", 1, false, [Only()], [])
  }

  function Planned(): Proposal {
    Proposal(Release(), Offered(), [])
  }

  /** It is offered and served every day. */
  function DayOf(attaches: bool, steady: bool): Day {
    Day(Asked(TextFor(Release()), None, "1.0.0"), map[Bootloader() := [2, 3]], true, attaches, steady, None)
  }

  /** What it makes of the old set. */
  function Aim(): Renewal { Renewal(OldSet(), [Some([2, 3])]) }

  function Boot(): Item { Item(BootKey(), false) }

  /** The record of its trial, after `n` starts. */
  function Trial(n: nat): State {
    TrialOf(FRESH, 1, Bootloader(), n)
  }

  function With(files: Files, s: State): Medium {
    Medium(files, Some(TextOf(s)))
  }

  function AtFirst(): Medium { Medium(OldSet(), None) }

  /** The power went just after the record, or before the swap did anything. */
  function Written(): Files { OldSet()[NewOf(BootKey()) := [2, 3]] }

  /** All of it is in place. */
  function InPlace(): Files { map[BootKey() := [2, 3], PrevOf(BootKey()) := [1]] }

  /** The new bootloader is deleted, and the old one could not be renamed. */
  function Lost(): Files { map[PrevOf(BootKey()) := [1]] }

  lemma OfferedIsProper()
    ensures Offered().Planned() == [Change(Bootloader(), false)] && Offered().Items() == [Boot()]
    ensures Offered().Aim(OldSet()) == Aim() && Offered().NewBodies() == [Some([2, 3])]
    ensures Offered().Proper(OldSet()) && Clear([Boot()]) && Offered().Trial() == Trial(0)
  {
    hide PathOk, Key, Bootloader, Sha256.Sha;
    Overlong.BootloaderPathOk();
    Overlong.FreshIsReadable();
    var u := Offered();
    assert u.Planned() == [Change(Bootloader(), false)];
    assert u.Items() == [Boot()];
    ListedPathsAreApart(u.Planned());
    assert FileList(u.Planned()) == Bootloader() by {
      assert Marks(u.Planned()) == [Bootloader()];
    }
  }

  lemma TrialIsKept(n: nat)
    requires n <= TRIAL_STARTS
    ensures Keepable(Trial(n)) && Changed(Trial(n)) == [Change(Bootloader(), false)]
    ensures StandingIn(With(OldSet(), Trial(n))) == Trial(n) == StateIn(With(OldSet(), Trial(n)))
    ensures Listed(Trial(n)) == [Boot()]
  {
    hide PathOk, Key, Bootloader, TextOf, StateOf, Sha256.Sha;
    OfferedIsProper();
    Overlong.BootloaderPathOk();
    var cs := [Change(Bootloader(), false)];
    assert AllPathsOk(cs);
    assert FileList(cs) == Bootloader() by {
      assert Marks(cs) == [Bootloader()];
    }
    TrialRoundTrip(Trial(n), cs);
    assert Trial(n).(files := FileList(cs)) == Trial(n);
    assert ItemsOf(cs) == [Boot()];
  }

  lemma TrialFits()
    ensures |TextOf(Trial(0))| <= STATE_SPACE
  {
    BootloaderIsAWord();
    ShortWithList(Trial(0));
    hide TextOf, Bootloader;
  }

  lemma ReleaseIsAccepted()
    ensures Accepted(Release())
  {
    hide PathOk, Sha256.Sha, Bootloader, Fold;
    Overlong.BootloaderPathOk();
    var files := Release().files;
    assert FileOk(files[0]) && SameName(files[0].path, Bootloader());
    Overlong.VersionIsOneLine();
    assert files[..0] == [];
  }

  lemma PlannedForIt()
    ensures Planned().For(AtFirst())
  {
    hide PathOk, Sha256.Sha, Bootloader, Key, Accepted, Update.Proper;
    ReleaseIsAccepted();
    OfferedIsProper();
    var e, changed := Only(), Offered().changed;
    assert changed == [Fetched(e, [2, 3], false)];
    assert BootKey() in OldSet() && |OldSet()[BootKey()]| == 1;
    assert FetchedRight(OldSet(), changed[0]) && !Carried(OldSet(), e);
    assert Release().files[0] == e && changed[0].entry == e;
    assert DriverPaths([]) == [];
  }

  lemma Standings(files: Files, n: nat)
    requires n <= TRIAL_STARTS
    ensures StandingIn(With(files, Trial(n))) == Trial(n) == StateIn(With(files, Trial(n)))
  {
    hide StateOf, TextOf, Trial;
    TrialIsKept(n);
  }

  lemma IdleStands(files: Files, s: State)
    requires Keepable(s) && s.trial.None?
    ensures StandingIn(With(files, s)) == s
  {
    hide StateOf, TextOf;
    RoundTrip(s);
  }

  lemma ItsNamesDiffer()
    ensures BootKey() != NewOf(BootKey()) && BootKey() != PrevOf(BootKey()) && NewOf(BootKey()) != PrevOf(BootKey())
  {
    hide NewOf, PrevOf, Key, Bootloader, Clear;
    OfferedIsProper();
    OwnNamesDiffer([Boot()], 0);
    assert [Boot()][0] == Boot();
  }

  lemma WrittenIsInFlight()
    ensures InFlight(Aim(), [Boot()], Written()) && Written()[BootKey()] == [1]
  {
    hide NewOf, PrevOf, Key, Bootloader, InFlight;
    ItsNamesDiffer();
    OneInFlight(OldSet(), Boot(), Some([2, 3]), Written());
  }

  lemma InPlaceIsInFlight()
    ensures InFlight(Aim(), [Boot()], InPlace())
  {
    hide NewOf, PrevOf, Key, Bootloader, InFlight;
    ItsNamesDiffer();
    OneInFlight(OldSet(), Boot(), Some([2, 3]), InPlace());
  }

  lemma LostIsInFlight()
    ensures InFlight(Aim(), [Boot()], Lost()) && BootKey() !in Lost() && BootKey() in OldSet()
  {
    hide NewOf, PrevOf, Key, Bootloader, InFlight;
    ItsNamesDiffer();
    OneInFlight(OldSet(), Boot(), Some([2, 3]), Lost());
  }

  lemma OldIsInFlight()
    ensures InFlight(Aim(), [Boot()], OldSet()) && OldSet()[BootKey()] == [1]
  {
    hide NewOf, PrevOf, Key, Bootloader, InFlight;
    ItsNamesDiffer();
    OneInFlight(OldSet(), Boot(), Some([2, 3]), OldSet());
  }

  lemma OneInFlight(before: Files, it: Item, body: Option<seq<byte>>, f: Files)
    requires OnlyItem(before, f, it) && Pending(before, f, it, body)
    ensures InFlight(Renewal(before, [body]), [it], f)
  {
    hide NewOf, PrevOf, Pending;
    forall k | !Touched([it], k)
      ensures Same(before, f, k)
    {
      assert [it][0] == it;
    }
  }

  function Started(day: Day, cut: bool, failed: bool): How { How(Starting, cut, failed, None, day) }

  /** The offering step that took it, on a day that does not attach. */
  function Took(cut: bool, failed: bool): How {
    How(Offering, cut, failed, Some(Planned()), DayOf(false, true))
  }

  /** One in which nothing is taken, as a trial runs, and the attach after it. */
  function Waited(): How { How(Offering, false, false, None, DayOf(true, true)) }

  function Attached(): How { How(Attaching, false, false, None, DayOf(true, true)) }

  /** The first start, which finds nothing on trial. */
  lemma OnceBegun() returns (past: Past)
    ensures past.CameTo(AtFirst(), 0) && past.Aim() == Renewal(map[], [])
    ensures past.ms == [AtFirst(), AtFirst()] && past.es == [Nothing] && past.ls == [Life(FRESH, 0), Life(FRESH, 0)]
    ensures past.hows == [Started(DayOf(false, true), false, false)]
  {
    hide Held, Makes, Past.Lived, BootOnTrial, BootCounted, StandingIn, Acts, DayOf, AtFirst, Step;
    StartsFresh();
    Untried(AtFirst(), 0);
    var first := Past([LifeOf(AtFirst(), 0)], [AtFirst()], [], []);
    var how := Started(DayOf(false, true), false, false);
    NothingMakesItself(Life(FRESH, 0));
    NoTrialIsHeld(first.Aim(), AtFirst());
    OnlyOffersAct(0, AtFirst(), Nothing, how, AtFirst());
    BeginsIdle(how);
    past := OneMore(first, Nothing, how, AtFirst(), 0);
  }

  lemma BeginsIdle(how: How)
    requires how == Started(DayOf(false, true), false, false)
    ensures Step(Renewal(map[], []), AtFirst(), Nothing, how, AtFirst())
  {
    hide StandingIn, TextFor, Bootloader;
    StartsFresh();
  }

  /** A trial recorded over the old set, with these files. */
  lemma OnceTaken(files: Files, cut: bool, failed: bool) returns (past: Past)
    requires InFlight(Aim(), [Boot()], files)
    requires !failed ==> InOrder(OldSet(), [Boot()], [Some([2, 3])], files)
    requires !failed && !cut ==> SwapAt(OldSet(), [Boot()], [Some([2, 3])], files, 1)
    ensures past.CameTo(With(files, Trial(0)), 0) && past.Aim() == Aim()
    ensures past.ms == [AtFirst(), AtFirst(), With(files, Trial(0))]
    ensures past.es == [Nothing, Taken(1, Bootloader(), false)]
    ensures past.ls == [Life(FRESH, 0), Life(FRESH, 0), LifeOf(With(files, Trial(0)), 0)]
    ensures past.hows == [Started(DayOf(false, true), false, false), Took(cut, failed)]
  {
    hide StandingIn, Held, Makes, Step, Bootloader, Past.Lived, InFlight, Key, OldSet, Trial, LastTaken, With, Planned,
         SwapAt, InOrder, DayOf, AtFirst, Acts, BootOnTrial, BootCounted, Past.Aim;
    var first := OnceBegun();
    StartsFresh();
    TakesIt(files, cut, failed);
    TookActs(cut, failed, With(files, Trial(0)));
    past := OneMore(first, Taken(1, Bootloader(), false), Took(cut, failed), With(files, Trial(0)), 0);
  }

  lemma IsOffered()
    ensures var q := DayOf(false, true).asked;
            && ManifestOf(q.text) == Ok(Release()) && Release().ForMachine(q.mac)
              && VersionOf(Release(), q) == VersionOk
    ensures PlannedFor(Planned(), DayOf(false, true).asked)
  {
    hide ManifestOf, TextFor, Accepted, Bootloader, Only, Offered, JudgeVersion;
    ReleaseIsAccepted();
    Overlong.VersionIsOneLine();
    AcceptedComesBack(Release());
    SameVersionIsOk();
  }

  lemma SameVersionIsOk()
    ensures JudgeVersion("1.0.0", "1.0.0", false) == VersionOk
  {
    hide Split, IndexOf, ParseNat;
    var v := "1.0.0";
    assert '-' !in v && '+' !in v;
    IndexOfNone(v, '-');
    assert v[..|v|] == v;
    IndexOfNone(v, '+');
    assert v == "1" + ['.'] + ("0" + ['.'] + "0");
    SplitAt("1", '.', "0" + ['.'] + "0");
    SplitAt("0", '.', "0");
    assert Split(v, '.') == ["1", "0", "0"];
    DigitsRead();
  }

  lemma DigitsRead()
    ensures ParseNat("1", U64_LIMIT).Some? && ParseNat("0", U64_LIMIT).Some?
  {
  }

  /** Nothing more was to be done about it. */
  lemma TookActs(cut: bool, failed: bool, m: Medium)
    ensures Acts(0, AtFirst(), Taken(1, Bootloader(), false), Took(cut, failed), m)
  {
    hide ManifestOf, TextFor, Bootloader, Wanted, AllServed, Offered, OldSet, Carried, StateIn, StandingIn, Judge, Only,
         JudgeVersion, Update.Fits;
    IsOffered();
    NotThere();
    assert Release().files[0] == Only();
    assert !CarriesAll(Release(), OldSet());
  }

  lemma StartsFresh()
    ensures StandingIn(AtFirst()) == FRESH
  {
  }

  lemma AimOfPlan(cut: bool, failed: bool)
    ensures AimOf(Took(cut, failed), AtFirst().files) == Aim()
  {
    OfferedIsProper();
    hide Key, Bootloader, OldSet;
  }

  lemma TakesIt(files: Files, cut: bool, failed: bool)
    requires InFlight(Aim(), [Boot()], files)
    requires !failed ==> InOrder(OldSet(), [Boot()], [Some([2, 3])], files)
    requires !failed && !cut ==> SwapAt(OldSet(), [Boot()], [Some([2, 3])], files, 1)
    ensures var e, m := Taken(1, Bootloader(), false), With(files, Trial(0));
            && Makes(LifeOf(AtFirst(), 0), e, LifeOf(m, 0))
            && Step(Renewal(map[], []), AtFirst(), e, Took(cut, failed), m)
            && Held(Aim(), m) && AimOf(Took(cut, failed), AtFirst().files) == Aim()
  {
    hide Bootloader, InFlight, Key, TextOf, StandingIn, Held, Trial, Makes, OfferingStep, OldSet, Planned, SwapAt,
         InOrder, DayOf;
    Standings(files, 0);
    StartsFresh();
    TakingIt();
    IsHeld(files, 0);
    AimOfPlan(cut, failed);
    LeavesIt(files, cut, failed);
  }

  lemma LeavesIt(files: Files, cut: bool, failed: bool)
    requires InFlight(Aim(), [Boot()], files)
    requires !failed ==> InOrder(OldSet(), [Boot()], [Some([2, 3])], files)
    requires !failed && !cut ==> SwapAt(OldSet(), [Boot()], [Some([2, 3])], files, 1)
    ensures OfferingStep(AtFirst(), Taken(1, Bootloader(), false), Took(cut, failed), With(files, Trial(0)))
  {
    hide Bootloader, InFlight, Key, TextOf, StandingIn, Trial, SwapAt, InOrder, Proposal.For, Leaves, Orderly,
         Update.Complete, With, ManifestOf, TextFor, VersionOf, PlannedFor, Offered;
    IsOffered();
    Standings(files, 0);
    StartsFresh();
    PlannedForIt();
    TrialHas(FRESH, 1, Bootloader(), 0);
    LeavesTrial(files);
    if !failed {
      IsOrderly(files);
      if !cut {
        IsComplete(files);
      }
    }
  }

  lemma LeavesTrial(files: Files)
    requires InFlight(Aim(), [Boot()], files)
    ensures Leaves(Planned(), AtFirst(), With(files, Trial(0))) && Trial(0).trial == Some((1, 0))
  {
    hide Bootloader, InFlight, Key, TextOf, StateIn, OldSet, Quiet, Offered, Clear, Update.Proper;
    Standings(files, 0);
    OfferedIsProper();
    TrialFits();
    TrialIsKept(0);
  }

  lemma IsOrderly(files: Files)
    requires InOrder(OldSet(), [Boot()], [Some([2, 3])], files)
    ensures Orderly(Planned(), AtFirst(), With(files, Trial(0)))
  {
    hide Bootloader, Key, TextOf, StandingIn, OldSet, Quiet, Offered, InOrder, Clear, Update.Proper;
    Standings(files, 0);
    OfferedIsProper();
  }

  lemma IsComplete(files: Files)
    requires SwapAt(OldSet(), [Boot()], [Some([2, 3])], files, 1)
    ensures Offered().Complete(AtFirst(), With(files, Trial(0)))
  {
    hide Bootloader, Key, TextOf, OldSet, Offered, SwapAt, Clear, Update.Proper;
    OfferedIsProper();
  }

  lemma TakingIt()
    ensures Makes(Life(FRESH, 0), Taken(1, Bootloader(), false), Life(Trial(0), 0))
  {
    hide Bootloader, TextOf;
    TrialFits();
    assert Trial(0) == TakenState(FRESH, 1, Bootloader());
  }

  lemma IsHeld(files: Files, n: nat)
    requires InFlight(Aim(), [Boot()], files) && n <= TRIAL_STARTS
    ensures Held(Aim(), With(files, Trial(n)))
  {
    hide InFlight, Clear, Trial, TextOf, StateOf, Bootloader, Key;
    OfferedIsProper();
    TrialIsKept(n);
    Standings(files, n);
  }

  /** One start more, and nothing else. */
  lemma OnceCounted(past: Past, files: Files, n: nat, how: How) returns (next: Past)
    requires past.CameTo(With(files, Trial(n)), 0) && past.Aim() == Aim() && n < TRIAL_STARTS
    requires InFlight(Aim(), [Boot()], files)
    requires how == Started(how.day, how.cut, how.failed) && (how.day.steady ==> !how.cut)
    ensures next.CameTo(With(files, Trial(n + 1)), 0) && next.Aim() == Aim()
    ensures next.es == past.es + [Counted] && next.hows == past.hows + [how]
    ensures next.ms == past.ms + [With(files, Trial(n + 1))]
    ensures next.ls == past.ls + [LifeOf(With(files, Trial(n + 1)), 0)]
    ensures BootOnTrial(next.ls, next.hows, |next.hows|)
  {
    hide StandingIn, Held, Makes, Step, Past.Lived, InFlight, Key, Trial, LastTaken, BootOnTrial, Acts, BootCounted,
         Past.Aim, With;
    var a, m := With(files, Trial(n)), With(files, Trial(n + 1));
    CountsIt(files, n, how);
    IsHeld(files, n + 1);
    OnlyOffersAct(0, a, Counted, how, m);
    next := OneMore(past, Counted, how, m, 0);
    BootBegins(past, next, how);
  }

  lemma CountsIt(files: Files, n: nat, how: How)
    requires n < TRIAL_STARTS && how == Started(how.day, how.cut, how.failed) && (how.day.steady ==> !how.cut)
    ensures var a, b := With(files, Trial(n)), With(files, Trial(n + 1));
            && Makes(LifeOf(a, 0), Counted, LifeOf(b, 0))
            && Step(Aim(), a, Counted, how, b)
            && StartOf(StandingIn(a)).OnTrial?
  {
    hide TextOf, StateOf, Bootloader, Key;
    Standings(files, n);
    Standings(files, n + 1);
  }

  /** A check that comes to nothing, as the trial runs. */
  lemma OnceWaited(past: Past, files: Files) returns (next: Past)
    requires past.CameTo(With(files, Trial(1)), 0) && past.Aim() == Aim() && InFlight(Aim(), [Boot()], files)
    requires past.hows != [] && past.hows[|past.hows| - 1] == Started(DayOf(true, true), false, false)
    requires BootOnTrial(past.ls, past.hows, |past.hows|)
    ensures next.CameTo(With(files, Trial(1)), 0) && next.Aim() == Aim()
    ensures next.es == past.es + [Nothing] && next.hows == past.hows + [Waited()]
    ensures next.ms == past.ms + [With(files, Trial(1))]
    ensures next.ls == past.ls + [LifeOf(With(files, Trial(1)), 0)]
    ensures BootOnTrial(next.ls, next.hows, |next.hows|)
  {
    hide StandingIn, Held, Makes, Step, Past.Lived, InFlight, Key, Trial, LastTaken, BootOnTrial, Acts, BootCounted,
         Past.Aim, With, DayOf;
    var m := With(files, Trial(1));
    Standings(files, 1);
    TrialHas(FRESH, 1, Bootloader(), 1);
    IsHeld(files, 1);
    IsTrial(1);
    NothingMakesItself(LifeOf(m, 0));
    NothingIsAStep(past, m, Waited());
    OnlyOffersAct(0, m, Nothing, Waited(), m);
    next := OneMore(past, Nothing, Waited(), m, 0);
    BootGoesOn(past, next, Waited());
  }

  lemma IsTrial(n: nat)
    ensures Trial(n) == TrialOf(FRESH, 1, Bootloader(), n)
  {
  }

  function Passed1(): State { State(1, 1, 0, None, 0, "") }

  function Failed1(): State { State(0, 0, 1, None, 0, "") }

  lemma PassesIt(files: Files)
    ensures var a, b, e := With(files, Trial(1)), With(files, Passed1()), Passed(true, true, false);
            && Makes(LifeOf(a, 0), e, LifeOf(b, 1))
            && Step(Aim(), a, e, Attached(), b) && Held(Aim(), b)
            && StandingIn(b) == Passed1()
  {
    hide Bootloader, TextOf, StateOf, Key, TextFor, Release;
    Standings(files, 1);
    IdleStands(files, Passed1());
  }

  lemma GivesItUp()
    requires InFlight(Aim(), [Boot()], Lost())
    ensures var a, b := With(InPlace(), Trial(2)), With(Lost(), Failed1());
            && Makes(LifeOf(a, 0), GivenUp, LifeOf(b, 0))
            && Step(Aim(), a, GivenUp, Started(DayOf(false, true), false, true), b) && Held(Aim(), b)
            && StandingIn(b) == Failed1()
  {
    hide Bootloader, TextOf, StandingIn, Held, InFlight, Key, Trial, Makes, InPlace, Lost, Restored, Step, NextStart,
         StartOf, Listed;
    Standings(InPlace(), 2);
    TrialIsKept(2);
    IdleStands(Lost(), Failed1());
    GivingItUp();
    NoTrialIsHeld(Aim(), With(Lost(), Failed1()));
    StartIsAStep(Aim(), With(InPlace(), Trial(2)), GivenUp,
                 Started(DayOf(false, true), false, true), With(Lost(), Failed1()));
  }

  lemma GivingItUp()
    ensures Makes(Life(Trial(2), 0), GivenUp, Life(Failed1(), 0))
    ensures StartOf(Trial(2)).GiveUp? && NextStart(Trial(2)) == Failed1() != Trial(2)
  {
    hide Bootloader, TextOf;
  }

  /** A set taken, started once and passed, over these files. */
  lemma OncePassed(files: Files, cut: bool, failed: bool) returns (past: Past)
    requires InFlight(Aim(), [Boot()], files)
    requires !failed ==> InOrder(OldSet(), [Boot()], [Some([2, 3])], files)
    requires !failed && !cut ==> SwapAt(OldSet(), [Boot()], [Some([2, 3])], files, 1)
    ensures past.Valid() && AllFollowedUp(past, |past.hows|) && (!failed ==> !SomeFailed(past.hows))
    ensures past.es == [Nothing, Taken(1, Bootloader(), false), Counted, Nothing, Passed(true, true, false)]
    ensures past.hows == [Started(DayOf(false, true), false, false), Took(cut, failed),
                          Started(DayOf(true, true), false, false), Waited(), Attached()]
    ensures past.ms[1..] == [AtFirst(), With(files, Trial(0)), With(files, Trial(1)), With(files, Trial(1)),
                             With(files, Passed1())]
    ensures past.ls[5] == Life(Passed1(), 1)
  {
    hide StandingIn, Held, Makes, Step, Past.Lived, InFlight, Key, Trial, LastTaken, OldSet, Planned, TextOf,
         Bootloader, SwapAt, InOrder, BootOnTrial, Acts, BootCounted, Past.Aim, With, DayOf, AtFirst, AllFollowedUp,
         SomeFailed;
    var one := OnceTaken(files, cut, failed);
    var two := OnceCounted(one, files, 0, Started(DayOf(true, true), false, false));
    var three := OnceWaited(two, files);
    PassesIt(files);
    OnlyOffersAct(0, With(files, Trial(1)), Passed(true, true, false), Attached(), With(files, Passed1()));
    past := OneMore(three, Passed(true, true, false), Attached(), With(files, Passed1()), 1);
    PassedDays(past, cut, failed);
  }

  lemma PassedDays(past: Past, cut: bool, failed: bool)
    requires past.hows == [Started(DayOf(false, true), false, false), Took(cut, failed),
                           Started(DayOf(true, true), false, false), Waited(), Attached()]
    requires |past.es| == 5 && past.es[1].Taken? && |past.ls| == 6
    ensures AllFollowedUp(past, 5) && (!failed ==> !SomeFailed(past.hows))
  {
    hide Planned, TextFor, Bootloader, StartOf, FollowedUp;
    forall k | 0 <= k < 5
      ensures FollowedUp(past, k)
    {
      PassedDay(past, cut, failed, k);
    }
  }

  lemma PassedDay(past: Past, cut: bool, failed: bool, k: nat)
    requires past.hows == [Started(DayOf(false, true), false, false), Took(cut, failed),
                           Started(DayOf(true, true), false, false), Waited(), Attached()]
    requires |past.es| == 5 && past.es[1].Taken? && |past.ls| == 6 && k < 5
    ensures FollowedUp(past, k)
  {
    hide Planned, TextFor, Bootloader, StartOf, Release;
  }

  /** A set passes that is not there: an offer is taken and the power goes before
      the swap has done anything; the next start counts, attaches, and nothing
      fails. The serial has passed, and the one file of its release is not on the
      medium. */
  lemma SetPassesThatIsNotThere() returns (past: Past)
    ensures past.Valid() && AllFollowedUp(past, |past.hows|) && !SomeFailed(past.hows)
    ensures past.es == [Nothing, Taken(1, Bootloader(), false), Counted, Nothing, Passed(true, true, false)]
    ensures past.ls[5] == Life(State(1, 1, 0, None, 0, ""), 1) && past.hows[1].plan == Some(Planned())
    ensures past.ms[5].files == past.ms[2].files && !Carried(past.ms[5].files, Only())
    ensures !AllDone(Offered(), past.ms[5].files) && !LastIsIn(Offered(), past.ms[5].files)
    // `apply` may leave what the second start finds, and the swap's order holds there.
    ensures Offered().Proper(past.ms[1].files)
    ensures Offered().Recoverable(past.ms[1], past.ms[2]) && Offered().Ordered(past.ms[1], past.ms[2])
  {
    hide Past.Lived, InFlight, Key, Trial, OldSet, Written, Carried, Update.Proper, Offered, Update.Recoverable,
         Update.Ordered, TextOf, Clear, Sha256.Sha, Bootloader, Planned, InOrder, SwapAt, AllDone, LastIsIn, Only,
         SomeFailed, DayOf, AllFollowedUp;
    WrittenIsInFlight();
    FirstInOrder();
    past := OncePassed(Written(), true, false);
    assert past.ms[1] == past.ms[1..][0] && past.ms[2] == past.ms[1..][1] && past.ms[5] == past.ms[1..][4];
    OfferedIsProper();
    NotThere();
    LeftByApply();
    WrittenIsNotDone();
  }

  /** And again: the swap fails at its first rename, all of it is taken back, and
      the old record cannot be written. The next start counts the trial of a set of
      which nothing is left, and it passes. The path swapped last looks done; its
      names tell. */
  lemma SetPassesThatWasTakenBack() returns (past: Past)
    ensures past.Valid() && AllFollowedUp(past, |past.hows|)
    ensures past.es == [Nothing, Taken(1, Bootloader(), false), Counted, Nothing, Passed(true, true, false)]
    ensures forall i :: 0 <= i < 5 ==> (past.hows[i].failed <==> i == 1)
    ensures past.ls[5] == Life(State(1, 1, 0, None, 0, ""), 1) && past.hows[1].plan == Some(Planned())
    ensures past.ms[5].files == past.ms[1].files && !Carried(past.ms[5].files, Only())
    ensures LastIsIn(Offered(), past.ms[5].files) && !AllDone(Offered(), past.ms[5].files)
  {
    hide Past.Lived, InFlight, Key, Trial, OldSet, Carried, Offered, TextOf, Clear, Sha256.Sha, Bootloader, Planned,
         AllDone, LastIsIn, Only, InOrder, SwapAt, SomeFailed, DayOf, AllFollowedUp;
    OldIsInFlight();
    past := OncePassed(OldSet(), false, true);
    assert past.ms[1] == past.ms[1..][0] && past.ms[5] == past.ms[1..][4];
    NotThere();
    OldIsNotDone();
  }

  lemma NotThere()
    ensures !Carried(Written(), Only()) && !Carried(OldSet(), Only())
  {
    hide Key, Bootloader, Sha256.Sha, NewOf;
    ItsNamesDiffer();
  }

  lemma WrittenIsNotDone()
    ensures !AllDone(Offered(), Written()) && !LastIsIn(Offered(), Written())
  {
    hide Key, Bootloader, NewOf, PrevOf, Offered, Update.Proper, Clear;
    OnlyBoot();
    ItsNamesDiffer();
    assert !DoneByName(Written(), Boot(), Some([2, 3]));
  }

  lemma OldIsNotDone()
    ensures !AllDone(Offered(), OldSet()) && LastIsIn(Offered(), OldSet())
  {
    hide Key, Bootloader, NewOf, PrevOf, Offered, Update.Proper, Clear;
    OnlyBoot();
    ItsNamesDiffer();
    assert !DoneByName(OldSet(), Boot(), Some([2, 3]));
  }

  lemma OnlyBoot()
    ensures |Offered().Items()| == 1 && Offered().Items()[0] == Boot() && Offered().NewBodies()[0] == Some([2, 3])
    ensures |Offered().changed| == 1
  {
    hide Key, Bootloader, Sha256.Sha;
    OfferedIsProper();
  }

  lemma LeftByApply()
    ensures Offered().Recoverable(AtFirst(), With(Written(), Trial(0)))
            && Offered().Ordered(AtFirst(), With(Written(), Trial(0)))
  {
    hide TextOf, InFlight, InOrder, Key, Bootloader, OldSet, Written, Update.Proper, Clear;
    OfferedIsProper();
    TrialFits();
    WrittenIsInFlight();
    FirstInOrder();
  }

  lemma FirstInOrder()
    ensures InOrder(OldSet(), [Boot()], [Some([2, 3])], Written())
  {
    hide Key, Bootloader, InFlight, Untouched, Waiting, OldSet, Written;
    WrittenIsInFlight();
    FlightTouchesOnly(Aim(), [Boot()], Written());
    var items, bodies := [Boot()], [Some([2, 3])];
    assert items[0] == Boot() && bodies[0] == Some([2, 3]);
    BootWaits();
    assert SwapAt(OldSet(), items, bodies, Written(), 0);
  }

  lemma BootWaits()
    ensures Waiting(OldSet(), Written(), Boot(), Some([2, 3]))
  {
    hide NewOf, PrevOf, Key, Bootloader;
    ItsNamesDiffer();
  }

  lemma SwappedInOrder()
    ensures SwapAt(OldSet(), [Boot()], [Some([2, 3])], InPlace(), 1)
    ensures InOrder(OldSet(), [Boot()], [Some([2, 3])], InPlace())
  {
    hide Key, Bootloader, InFlight, Untouched, Swapped, OldSet, InPlace;
    InPlaceIsInFlight();
    FlightTouchesOnly(Aim(), [Boot()], InPlace());
    var items, bodies := [Boot()], [Some([2, 3])];
    assert items[0] == Boot() && bodies[0] == Some([2, 3]);
    BootIsSwapped();
    assert SwapAt(OldSet(), items, bodies, InPlace(), 1);
  }

  lemma BootIsSwapped()
    ensures Swapped(OldSet(), InPlace(), Boot(), Some([2, 3]))
  {
    hide NewOf, PrevOf, Key, Bootloader;
    ItsNamesDiffer();
  }

  lemma FlightTouchesOnly(aim: Renewal, items: seq<Item>, f: Files)
    requires InFlight(aim, items, f)
    ensures Untouched(aim.was, items, f)
  {
  }

  /** The record says the old set is back and it is not: a set that has had its two
      starts, both cut off, is given up by a start in which one rename fails, after
      the new bootloader is deleted. */
  lemma GivenUpAndLost() returns (past: Past)
    ensures past.Valid() && AllFollowedUp(past, |past.hows|)
    ensures past.es == [Nothing, Taken(1, Bootloader(), false), Counted, Counted, GivenUp]
    ensures forall i :: 0 <= i < 5 ==> (past.hows[i].failed <==> i == 4)
    ensures past.ls[5].s == State(0, 0, 1, None, 0, "")
    ensures Key(Bootloader()) in past.ms[0].files && Key(Bootloader()) !in past.ms[5].files
  {
    hide StandingIn, Held, Makes, Step, Past.Lived, InFlight, Key, Trial, LastTaken, OldSet, InPlace, Lost, Planned,
         SwapAt, InOrder, BootOnTrial, TextOf, Bootloader, Acts, BootCounted, Past.Aim, DayOf, AllFollowedUp, With,
         AtFirst, StartOf;
    LostIsInFlight();
    var three := TwiceStarted();
    GivesItUp();
    var how := Started(DayOf(false, true), false, true);
    OnlyOffersAct(0, With(InPlace(), Trial(2)), GivenUp, how, With(Lost(), Failed1()));
    past := OneMore(three, GivenUp, how, With(Lost(), Failed1()), 0);
    Standings(InPlace(), 2);
    GivingItUp();
    GivenUpDays(past);
    FilesWith(Lost(), Failed1());
  }

  lemma FilesWith(files: Files, s: State)
    ensures With(files, s).files == files && AtFirst().files == OldSet()
  {
  }

  /** Taken whole, and started twice for nothing. */
  lemma TwiceStarted() returns (past: Past)
    ensures past.CameTo(With(InPlace(), Trial(2)), 0) && past.Aim() == Aim() && past.ms[0] == AtFirst()
    ensures past.es == [Nothing, Taken(1, Bootloader(), false), Counted, Counted]
    ensures past.hows == [Started(DayOf(false, true), false, false), Took(false, false),
                          Started(DayOf(false, false), true, false), Started(DayOf(false, false), true, false)]
  {
    hide StandingIn, Held, Makes, Step, Past.Lived, InFlight, Key, Trial, LastTaken, OldSet, InPlace, Lost, Planned,
         SwapAt, InOrder, BootOnTrial, TextOf, Bootloader, Acts, BootCounted, Past.Aim, DayOf, AtFirst, With;
    InPlaceIsInFlight();
    SwappedInOrder();
    var short := Started(DayOf(false, false), true, false);
    NotSteady();
    var one := OnceTaken(InPlace(), false, false);
    var two := OnceCounted(one, InPlace(), 0, short);
    past := OnceCounted(two, InPlace(), 1, short);
  }

  lemma NotSteady()
    ensures !DayOf(false, false).steady
  {
  }

  lemma GivenUpDays(past: Past)
    requires past.hows == [Started(DayOf(false, true), false, false), Took(false, false),
                           Started(DayOf(false, false), true, false), Started(DayOf(false, false), true, false),
                           Started(DayOf(false, true), false, true)]
    requires |past.es| == 5 && past.es[1].Taken? && |past.ls| == 6 && StartOf(past.ls[4].s).GiveUp?
    ensures AllFollowedUp(past, 5) && forall i :: 0 <= i < 5 ==> (past.hows[i].failed <==> i == 4)
  {
    hide Planned, TextFor, Bootloader, StartOf, Release;
  }

  /** So it does after a failed swap: a rename fails in taking it back too, and the
      record is the old one whatever that left. */
  lemma TakenBackAndLost() returns (past: Past)
    ensures past.Valid() && AllFollowedUp(past, |past.hows|)
    ensures past.es == [Nothing, Nothing] && past.hows[1].failed && past.hows[1].plan == Some(Planned())
    ensures past.ls[2] == past.ls[0] == Life(FRESH, 0)
    ensures Key(Bootloader()) in past.ms[0].files && Key(Bootloader()) !in past.ms[2].files
    ensures Offered().TakenBack(past.ms[1], past.ms[2])
  {
    hide StandingIn, Held, Makes, Step, Past.Lived, InFlight, Key, LastTaken, OldSet, Lost, Planned, TextOf, Bootloader,
         Update.TakenBack, Acts, BootOnTrial, BootCounted, Past.Aim, DayOf, AllFollowedUp;
    LostIsInFlight();
    StartsFresh();
    var first := OnceBegun();
    LosesIt();
    FailedNeedNot(0, AtFirst(), Nothing, Took(false, true), With(Lost(), FRESH));
    past := OneMore(first, Nothing, Took(false, true), With(Lost(), FRESH), 0);
    LostDays(past);
  }

  lemma FailedNeedNot(nv: nat, a: Medium, e: Event, how: How, b: Medium)
    requires how.failed
    ensures Acts(nv, a, e, how, b)
  {
  }

  lemma LostDays(past: Past)
    requires past.hows == [Started(DayOf(false, true), false, false), Took(false, true)]
    requires |past.es| == 2 && |past.ls| == 3
    ensures AllFollowedUp(past, 2)
  {
    hide Planned, TextFor, Bootloader, StartOf;
  }

  lemma LosesIt()
    ensures var m := With(Lost(), FRESH);
            && Makes(LifeOf(AtFirst(), 0), Nothing, LifeOf(m, 0))
            && Step(Renewal(map[], []), AtFirst(), Nothing, Took(false, true), m)
            && Held(Renewal(map[], []), m) && Offered().TakenBack(AtFirst(), m) && StandingIn(m) == FRESH
  {
    hide Bootloader, InFlight, Key, TextOf, StandingIn, OldSet, Lost, Offered, Held, Makes, OfferingStep, DayOf;
    StartsFresh();
    OfferedIsProper();
    LostIsInFlight();
    IdleStands(Lost(), FRESH);
    NothingMakesItself(Life(FRESH, 0));
    NoTrialIsHeld(Renewal(map[], []), With(Lost(), FRESH));
    StateOfOffered();
    LosingStep();
  }

  lemma LosingStep()
    ensures OfferingStep(AtFirst(), Nothing, Took(false, true), With(Lost(), FRESH))
  {
    hide Bootloader, TextOf, StandingIn, Lost, Proposal.For, Leaves, With, ManifestOf, TextFor, VersionOf, PlannedFor,
         Offered;
    IsOffered();
    PlannedForIt();
    IdleStands(Lost(), FRESH);
    LeavesLost();
  }

  lemma LeavesLost()
    ensures Leaves(Planned(), AtFirst(), With(Lost(), FRESH))
  {
    hide Bootloader, InFlight, Key, TextOf, StandingIn, OldSet, Lost, Quiet, Offered, Clear, Update.Proper;
    StartsFresh();
    OfferedIsProper();
    LostIsInFlight();
    IdleStands(Lost(), FRESH);
  }

  lemma StateOfOffered()
    ensures Offered().state == FRESH
  {
  }
}
