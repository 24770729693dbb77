/** What a medium and its machine remember across starts, and how every start,
    update, pass, failure and refusal changes it. The operations of
    `SelfUpdate` each make one of these steps; here is what holds over any run
    of them. */
module Lifecycle {
  import opened Bytes
  import opened Text
  import opened UpdateState
  import opened Manifests
  import opened Volume

  /** What survives a power cut: the state on the medium, and the highest
      serial the machine's non-volatile memory says has passed on it. */
  datatype Life = Life(s: State, nv: nat)

  /** `unread`: the machine's minimum could not be read just then. */
  datatype Event =
    | Nothing
    | Counted                                            // a start of a set on trial
    | GivenUp                                            // it had its starts: the old set is back
    | Passed(onMedium: bool, inNv: bool, unread: bool)   // it attached; where that was recorded
    | Declined(serial: nat, unread: bool)                // an older version offered
    | Adopted(serial: nat, unread: bool)                 // the files are there already
    | Taken(serial: nat, files: string, unread: bool)    // a trial begins
    | TakenBack(was: State)                              // its swap failed
    | Elsewhere(nv: nat)                                 // what another medium made of the minimum

  function TakenState(s: State, serial: nat, files: string): State {
    s.(serial := serial, prev := s.serial, trial := Some((serial, 0)), files := files)
  }

  function CountedState(s: State, serial: nat, start: nat): State {
    s.(trial := Some((serial, start)))
  }

  function GivenUpState(s: State, serial: nat, backTo: nat): State {
    s.(serial := backTo, failed := Max(s.failed, serial), trial := None, prev := 0, files := "")
  }

  /** The state a start leaves. */
  function NextStart(s: State): State {
    match StartOf(s)
    case Normal => s
    case OnTrial(serial, start) => CountedState(s, serial, start)
    case GiveUp(serial, backTo) => GivenUpState(s, serial, backTo)
  }

  function PassedState(s: State, serial: nat): State {
    s.(serial := serial, min := Max(s.min, serial), trial := None, prev := 0, files := "")
  }

  predicate Unread(e: Event) {
    match e
    case Passed(_, _, unread) => unread
    case Declined(_, unread) => unread
    case Adopted(_, unread) => unread
    case Taken(_, _, unread) => unread
    case _ => false
  }

  /** What a read of the machine's minimum comes to: one that fails gives 0. */
  function Known(l: Life, unread: bool): nat {
    if unread then 0 else l.nv
  }

  predicate Can(l: Life, e: Event) {
    match e
    case Nothing => true
    case Counted => StartOf(l.s).OnTrial?
    case GivenUp => StartOf(l.s).GiveUp?
    case Passed(_, inNv, unread) => l.s.trial.Some? && (inNv ==> Known(l, unread) < l.s.trial.value.0)
    case Declined(serial, unread) => Judge(serial, l.s, Known(l, unread), true) == Take
    case Adopted(serial, unread) => Judge(serial, l.s, Known(l, unread), true) == Take
    case Taken(serial, files, unread) =>
      && Judge(serial, l.s, Known(l, unread), true) == Take
      && |TextOf(TakenState(l.s, serial, files))| <= STATE_SPACE
    case TakenBack(was) => was.trial.None? && l.s.trial.Some? && l.s == TakenState(was, l.s.serial, l.s.files)
    case Elsewhere(_) => true
  }

  function After(l: Life, e: Event): Life
    requires Can(l, e)
  {
    match e
    case Nothing => l
    case Counted => l.(s := NextStart(l.s))
    case GivenUp => l.(s := NextStart(l.s))
    case Passed(onMedium, inNv, _) =>
      var serial := l.s.trial.value.0;
      Life(if onMedium then PassedState(l.s, serial) else l.s, if inNv then serial else l.nv)
    case Declined(serial, _) => l.(s := l.s.(min := Max(l.s.min, serial)))
    case Adopted(serial, _) => l.(s := l.s.(serial := serial))
    case Taken(serial, files, _) => l.(s := TakenState(l.s, serial, files))
    case TakenBack(was) => l.(s := was)
    case Elsewhere(nv) => l.(nv := nv)
  }

  /** One event makes `b` of `a`. */
  ghost predicate Makes(a: Life, e: Event, b: Life) {
    Can(a, e) && After(a, e) == b
  }

  ghost predicate Run(ls: seq<Life>, es: seq<Event>) {
    && |ls| == |es| + 1
    && forall i :: 0 <= i < |es| ==> Makes(ls[i], es[i], ls[i + 1])
  }

  /** What holds while a trial runs. */
  predicate TrialSound(s: State) {
    s.trial.Some? ==>
      var (serial, starts) := s.trial.value;
      && s.serial == serial
      && s.prev < serial && s.min < serial && s.failed < serial
      && starts <= TRIAL_STARTS
  }

  lemma EventKeeps(l: Life, e: Event)
    requires Can(l, e) && TrialSound(l.s)
    ensures var n := After(l, e);
            TrialSound(n.s) && l.s.min <= n.s.min && l.s.failed <= n.s.failed
  {
  }

  /** Nothing the medium remembers is ever lowered, and a trial stays sound. */
  lemma {:induction false} RunKeeps(ls: seq<Life>, es: seq<Event>, i: nat, j: nat)
    requires Run(ls, es) && i <= j < |ls| && TrialSound(ls[i].s)
    ensures TrialSound(ls[j].s)
    ensures ls[i].s.min <= ls[j].s.min
    ensures ls[i].s.failed <= ls[j].s.failed
    decreases j
  {
    hide Can, After, TrialSound;
    if i < j {
      RunKeeps(ls, es, i, j - 1);
      assert Makes(ls[j - 1], es[j - 1], ls[j]);
      EventKeeps(ls[j - 1], es[j - 1]);
    }
  }

  // ------------------------------------------------- the machine's minimum

  /** A pass recorded over a higher minimum, which could not be read; or another
      medium's doing. */
  predicate Lowers(l: Life, e: Event) {
    || (e.Passed? && e.inNv && e.unread && l.s.trial.Some? && l.s.trial.value.0 < l.nv)
    || (e.Elsewhere? && e.nv < l.nv)
  }

  /** A serial below the minimum taken, as it could not be read. */
  predicate TakenBelow(l: Life, e: Event) {
    e.Taken? && e.unread && e.serial < l.nv
  }

  /** A higher serial passed on another medium while one is on trial here. */
  predicate Overtakes(l: Life, e: Event) {
    e.Elsewhere? && l.s.trial.Some? && l.s.trial.value.0 < e.nv
  }

  /** No one event but that lowers the minimum, nor takes a serial below it. */
  lemma MinimumFallsExactlyWhen(l: Life, e: Event)
    requires Can(l, e)
    ensures After(l, e).nv < l.nv <==> Lowers(l, e)
    ensures e.Taken? && e.serial < l.nv <==> TakenBelow(l, e)
    ensures (e.Adopted? || e.Declined?) && e.serial < l.nv ==> e.unread
  {
  }

  /** A failed read lets through the serials below the minimum, and changes
      nothing about the others. */
  lemma JudgedUnread(serial: nat, s: State, nvMin: nat, canary: bool)
    ensures Judge(serial, s, nvMin, canary) == Take <==> Judge(serial, s, 0, canary) == Take && nvMin <= serial
  {
  }

  ghost predicate NeverLower(ls: seq<Life>) {
    forall i, j :: 0 <= i <= j < |ls| ==> ls[i].nv <= ls[j].nv
  }

  /** Over a run the minimum never goes down exactly when no event of it lowers
      it. */
  lemma MinimumKeptExactlyWhen(ls: seq<Life>, es: seq<Event>)
    requires Run(ls, es)
    ensures NeverLower(ls) <==> forall i :: 0 <= i < |es| ==> !Lowers(ls[i], es[i])
  {
    hide Can, After, Lowers;
    if NeverLower(ls) {
      forall i | 0 <= i < |es|
        ensures !Lowers(ls[i], es[i])
      {
        assert Makes(ls[i], es[i], ls[i + 1]);
        MinimumFallsExactlyWhen(ls[i], es[i]);
      }
    }
    if forall i :: 0 <= i < |es| ==> !Lowers(ls[i], es[i]) {
      forall i, j | 0 <= i <= j < |ls|
        ensures ls[i].nv <= ls[j].nv
      {
        MinimumGrows(ls, es, i, j);
      }
    }
  }

  lemma {:induction false} MinimumGrows(ls: seq<Life>, es: seq<Event>, i: nat, j: nat)
    requires Run(ls, es) && i <= j < |ls|
    requires forall k :: i <= k < j ==> !Lowers(ls[k], es[k])
    ensures ls[i].nv <= ls[j].nv
    decreases j
  {
    hide Can, After, Lowers;
    if i < j {
      MinimumGrows(ls, es, i, j - 1);
      assert Makes(ls[j - 1], es[j - 1], ls[j]);
      MinimumFallsExactlyWhen(ls[j - 1], es[j - 1]);
    }
  }

  /** A trial's serial is not below the machine's minimum. */
  predicate Above(l: Life) {
    l.s.trial.Some? ==> l.nv <= l.s.trial.value.0
  }

  lemma EventKeepsAbove(a: Life, e: Event, b: Life)
    requires Makes(a, e, b) && !TakenBelow(a, e) && !Overtakes(a, e)
    ensures Above(a) ==> Above(b)
    ensures b.s.trial.Some? && !Above(b) ==> a.s.trial.Some? && a.s.trial.value.0 == b.s.trial.value.0
  {
  }

  lemma BelowFromThen(a: Life, e: Event, b: Life)
    requires Makes(a, e, b)
    ensures TakenBelow(a, e) ==> b.s.trial.Some? && b.s.trial.value.0 == e.serial
    ensures Overtakes(a, e) ==> b.s.trial == a.s.trial
  {
  }

  /** So one failed read of a machine that starts from one medium cannot lower its
      minimum: a serial on trial is below it only if it was taken so, unread, or
      another medium passed a higher one since. */
  lemma {:induction false} BelowOnlyIf(ls: seq<Life>, es: seq<Event>, j: nat) returns (i: nat)
    requires Run(ls, es) && j < |ls| && Above(ls[0]) && !Above(ls[j])
    ensures i < j
    ensures || (TakenBelow(ls[i], es[i]) && es[i].serial == ls[j].s.trial.value.0)
            || (Overtakes(ls[i], es[i]) && ls[i].s.trial.value.0 == ls[j].s.trial.value.0)
  {
    hide Can, After, TakenBelow;
    assert Makes(ls[j - 1], es[j - 1], ls[j]);
    BelowFromThen(ls[j - 1], es[j - 1], ls[j]);
    if TakenBelow(ls[j - 1], es[j - 1]) || Overtakes(ls[j - 1], es[j - 1]) {
      i := j - 1;
    } else {
      EventKeepsAbove(ls[j - 1], es[j - 1], ls[j]);
      i := BelowOnlyIf(ls, es, j - 1);
    }
  }

  /** Takes a serial below the minimum, or is another medium's doing that matters. */
  predicate Disturbs(l: Life, e: Event) {
    TakenBelow(l, e) || Overtakes(l, e) || (e.Elsewhere? && e.nv < l.nv)
  }

  /** So a run in which nothing of the kind happens never lowers it, whatever
      reads fail at its passes. */
  lemma MinimumKeptUnlessDisturbed(ls: seq<Life>, es: seq<Event>, j: nat)
    requires Run(ls, es) && j < |ls| && Above(ls[0])
    requires forall i :: 0 <= i < j ==> !Disturbs(ls[i], es[i])
    ensures Above(ls[j])
    ensures forall i :: 0 <= i <= j ==> ls[i].nv <= ls[j].nv
  {
    hide Can, After, TakenBelow, Overtakes;
    forall k | 0 <= k <= j
      ensures Above(ls[k])
    {
      if !Above(ls[k]) {
        var i := BelowOnlyIf(ls, es, k);
      }
    }
    forall i | 0 <= i <= j
      ensures ls[i].nv <= ls[j].nv
    {
      forall k | i <= k < j
        ensures !Lowers(ls[k], es[k])
      {
        assert Above(ls[k]) && !Disturbs(ls[k], es[k]);
      }
      MinimumGrows(ls, es, i, j);
    }
  }

  /** It can be lowered: a machine that has passed serial 7 takes serial 5 on
      another medium, a bootloader that replaces one, and passes it, with both
      reads failing. */
  lemma MinimumCanFall() returns (ls: seq<Life>, es: seq<Event>)
    ensures Run(ls, es) && ls[0] == Life(FRESH, 7) && ls[|es|] == Life(FRESH.(serial := 5, min := 5), 5)
    ensures es[0] == Taken(5, FileList([Change(Bootloader(), false)]), true)
    ensures !NeverLower(ls)
  {
    hide TextOf, Bootloader, FileList, Makes;
    var files := Bootloader();
    var taken := TakenState(FRESH, 5, files);
    es := [Taken(5, files, true), Passed(true, true, true)];
    ls := [Life(FRESH, 7), Life(taken, 7), Life(PassedState(taken, 5), 5)];
    OneFileListed();
    TakenOver(7, true);
    PassedUnread();
    assert ls[0].nv > ls[2].nv;
  }

  /** And with one failed read, where another medium passes serial 7 while serial
      5 is on trial here. */
  lemma OneFailedReadCanDo() returns (ls: seq<Life>, es: seq<Event>)
    ensures Run(ls, es) && ls[0] == Life(FRESH, 3) && ls[|es|] == Life(FRESH.(serial := 5, min := 5), 5)
    ensures es == [Taken(5, Bootloader(), false), Elsewhere(7), Passed(true, true, true)] && ls[2].nv == 7
    ensures !NeverLower(ls)
  {
    hide TextOf, Bootloader, FileList, Makes;
    var files := Bootloader();
    var taken := TakenState(FRESH, 5, files);
    es := [Taken(5, files, false), Elsewhere(7), Passed(true, true, true)];
    ls := [Life(FRESH, 3), Life(taken, 3), Life(taken, 7), Life(PassedState(taken, 5), 5)];
    TakenOver(3, false);
    assert Makes(ls[1], es[1], ls[2]) by {
      PassedElsewhere(taken);
    }
    PassedUnread();
    assert ls[2].nv > ls[3].nv;
  }

  lemma PassedElsewhere(s: State)
    ensures Makes(Life(s, 3), Elsewhere(7), Life(s, 7))
  {
  }

  lemma TakenOver(nv: nat, unread: bool)
    requires unread || nv <= 5
    ensures Makes(Life(FRESH, nv), Taken(5, Bootloader(), unread), Life(TakenState(FRESH, 5, Bootloader()), nv))
  {
    BootloaderIsAWord();
    ShortWithList(TakenState(FRESH, 5, Bootloader()));
    hide TextOf, Bootloader;
  }

  lemma BootloaderIsAWord()
    ensures Trimmed(Bootloader()) && '\n' !in Bootloader() && |Bootloader()| == 20
  {
  }

  lemma PassedUnread()
    ensures var taken := TakenState(FRESH, 5, Bootloader());
            Makes(Life(taken, 7), Passed(true, true, true), Life(PassedState(taken, 5), 5))
  {
    hide TextOf, Bootloader;
  }

  lemma OneFileListed()
    ensures FileList([Change(Bootloader(), false)]) == Bootloader()
  {
    assert Marks([Change(Bootloader(), false)]) == [Bootloader()];
  }

  /** The serial an event settles for good on this medium: it passed here,
      failed here, or was declined here as older. */
  function Settles(l: Life, e: Event): Option<nat>
    requires Can(l, e)
  {
    match e
    case Passed(true, _, _) => Some(l.s.trial.value.0)
    case GivenUp => Some(StartOf(l.s).serial)
    case Declined(serial, _) => Some(serial)
    case _ => None
  }

  /** A serial that is settled is never taken again, nor is any below it. */
  lemma SettledIsNeverTaken(ls: seq<Life>, es: seq<Event>, i: nat, j: nat)
    requires Run(ls, es) && i < j < |es| && TrialSound(ls[0].s)
    requires Can(ls[i], es[i]) && Settles(ls[i], es[i]).Some?
    requires es[j].Taken?
    ensures Settles(ls[i], es[i]).value < es[j].serial
  {
    RunKeeps(ls, es, 0, i);
    assert Makes(ls[i], es[i], ls[i + 1]);
    assert Settles(ls[i], es[i]).value <= Max(ls[i + 1].s.min, ls[i + 1].s.failed);
    RunKeeps(ls, es, 0, i + 1);
    RunKeeps(ls, es, i + 1, j);
    assert Makes(ls[j], es[j], ls[j + 1]);
  }

  predicate IsStart(e: Event) {
    e.Counted? || e.GivenUp?
  }

  function Starts(es: seq<Event>): nat {
    if es == [] then 0 else Starts(es[..|es| - 1]) + if IsStart(es[|es| - 1]) then 1 else 0
  }

  /** The record of a trial of `serial` that has had `n` starts, begun over `was`. */
  function TrialOf(was: State, serial: nat, files: string, n: nat): State {
    CountedState(TakenState(was, serial, files), serial, n)
  }

  lemma TakenBegins(a: Life, e: Event, b: Life)
    requires Makes(a, e, b) && e.Taken?
    ensures b.s == TrialOf(a.s, e.serial, e.files, 0) && a.s.trial.None?
    ensures a.s.serial < e.serial && a.s.min < e.serial && a.s.failed < e.serial
    ensures |TextOf(b.s)| <= STATE_SPACE
  {
    hide TextOf;
  }

  /** A start of a running trial counts it, or puts it back when it has had its two. */
  lemma TrialGoesOn(was: State, serial: nat, files: string, n: nat, a: Life, e: Event, b: Life)
    requires Makes(a, e, b) && a.s == TrialOf(was, serial, files, n) && !e.Taken?
    ensures e.Counted? ==> n < TRIAL_STARTS && b.s == TrialOf(was, serial, files, n + 1)
    ensures e.GivenUp? ==> n >= TRIAL_STARTS && b.s == GivenUpState(a.s, serial, was.serial)
    ensures e.Nothing? ==> b == a
    ensures b.s == a.s || b.s.trial.None? || e.Counted?
    ensures e.Passed? || e.TakenBack? || e.Nothing? || e.Elsewhere? || IsStart(e)
    ensures e.Elsewhere? ==> b.s == a.s
  {
  }

  /** From the moment a serial is taken, as long as it neither passes nor is
      taken back: its starts are counted twice, and the third start puts back
      exactly what it replaced and marks it failed. */
  lemma {:induction false} ThirdStartPutsBack(ls: seq<Life>, es: seq<Event>)
    requires Run(ls, es) && |es| > 0 && es[0].Taken?
    requires forall i :: 0 < i < |es| ==> IsStart(es[i]) || es[i].Nothing? || es[i].Elsewhere?
    ensures var was, serial, n := ls[0].s, es[0].serial, Starts(es);
            var now := ls[|es|].s;
            && (n <= 2 ==> now == TrialOf(was, serial, es[0].files, n))
            && (n > 2 ==> n == 3 && now == was.(failed := serial, trial := None, prev := 0, files := ""))
  {
    hide Can, After, TextOf, NextStart, Judge;
    var k := |es| - 1;
    assert Makes(ls[0], es[0], ls[1]) && Makes(ls[k], es[k], ls[|es|]);
    TakenBegins(ls[0], es[0], ls[1]);
    if k > 0 {
      assert Run(ls[..|es|], es[..k]) by {
        forall i | 0 <= i < k
          ensures Makes(ls[..|es|][i], es[..k][i], ls[..|es|][i + 1])
        {
          assert Makes(ls[i], es[i], ls[i + 1]);
        }
      }
      ThirdStartPutsBack(ls[..|es|], es[..k]);
      if Starts(es[..k]) <= 2 {
        TrialGoesOn(ls[0].s, es[0].serial, es[0].files, Starts(es[..k]), ls[k], es[k], ls[|es|]);
      } else {
        NoTrialNoStart(ls[k], es[k], ls[|es|]);
      }
    } else {
      assert es[..0] == [];
    }
  }

  lemma NoTrialNoStart(a: Life, e: Event, b: Life)
    requires Makes(a, e, b) && a.s.trial.None? && (IsStart(e) || e.Nothing? || e.Elsewhere?)
    ensures !IsStart(e) && b.s == a.s
  {
  }

  /** Until another is taken, the record of a trial stays what it was when it
      began, but for the starts it has had; or the trial is over. */
  lemma {:induction false} TrialKeepsItsRecord(ls: seq<Life>, es: seq<Event>, t: nat, k: nat)
    requires Run(ls, es) && t < k <= |es| && es[t].Taken?
    requires forall i :: t < i < k ==> !es[i].Taken?
    ensures ls[k].s.trial.Some? ==>
              ls[k].s == TrialOf(ls[t].s, es[t].serial, es[t].files, ls[k].s.trial.value.1)
    decreases k
  {
    hide Can, After;
    assert Makes(ls[k - 1], es[k - 1], ls[k]);
    if k == t + 1 {
      TakenBegins(ls[t], es[t], ls[k]);
    } else {
      TrialKeepsItsRecord(ls, es, t, k - 1);
      if ls[k - 1].s.trial.Some? {
        TrialGoesOn(ls[t].s, es[t].serial, es[t].files, ls[k - 1].s.trial.value.1, ls[k - 1], es[k - 1], ls[k]);
      } else {
        OnlyTakenBegins(ls[k - 1], es[k - 1], ls[k]);
      }
    }
  }

  lemma OnlyTakenBegins(a: Life, e: Event, b: Life)
    requires Makes(a, e, b) && a.s.trial.None? && !e.Taken?
    ensures b.s.trial.None?
  {
  }

  /** A run and one event more. */
  lemma RunOn(ls: seq<Life>, es: seq<Event>, e: Event, b: Life)
    requires Run(ls, es) && Makes(ls[|es|], e, b)
    ensures Run(ls + [b], es + [e])
  {
    hide Can, After;
    var more, all := ls + [b], es + [e];
    forall i | 0 <= i < |all|
      ensures Makes(more[i], all[i], more[i + 1])
    {
      if i < |es| {
        assert Makes(ls[i], es[i], ls[i + 1]);
      }
    }
  }
}
