/** A boot medium's whole life: any number of starts, each cut off anywhere or
    not, with any offers, passes and failures on the way (the order of
    `at_start`, `check` and `mark_good` in `src/selfupdate.rs`). */
module Lifetime {
  import opened Bytes
  import opened Text
  import opened UpdateState
  import opened Manifests
  import opened BootMedium
  import opened Volume
  import opened SelfUpdate
  import opened Offer
  import opened Lifecycle
  import opened Session

  /** What a medium's record and the machine's minimum come to. */
  function LifeOf(m: Medium, nv: nat): Life {
    Life(StandingIn(m), nv)
  }

  /** What one offer may make of a record is what one event makes of it, judged
      with the machine's minimum or, where it could not be read, without. */
  lemma OfferIsAnEvent(a: State, nv: nat, unread: bool, q: Asked, b: State) returns (e: Event)
    requires OfferStep(a, if unread then 0 else nv, q, b)
    ensures Makes(Life(a, nv), e, Life(b, nv)) && (Unread(e) ==> unread)
    ensures e == Nothing || IsAbout(e, q)
    ensures !e.Passed?
    ensures b == a ==> e == Nothing
    ensures a.trial.None? ==> (e.Taken? <==> b.trial.Some?)
  {
    hide ManifestOf, TextOf, VersionOf, Manifest.ForMachine;
    if b == a {
      e := Nothing;
    } else {
      var serial := ManifestOf(q.text).value.serial;
      if VersionOf(ManifestOf(q.text).value, q) == VersionOlder {
        e := Declined(serial, unread);
      } else if b == a.(serial := serial) {
        e := Adopted(serial, unread);
      } else {
        var files :| b == TakenState(a, serial, files);
        e := Taken(serial, files, unread);
      }
    }
  }

  /** One of the three things that become of an offer: of a manifest, meant for
      this machine, its serial; only an older one is declined, and no other. */
  predicate IsAbout(e: Event, q: Asked) {
    && ManifestOf(q.text).Ok?
    && var m := ManifestOf(q.text).value;
       && m.ForMachine(q.mac)
       && match e
          case Declined(n, _) => n == m.serial && VersionOf(m, q) == VersionOlder
          case Adopted(n, _) => n == m.serial && VersionOf(m, q) == VersionOk
          case Taken(n, _, _) => n == m.serial && VersionOf(m, q) == VersionOk
          case _ => false
  }

  lemma StartIsAnEvent(a: State, nv: nat, b: State) returns (e: Event)
    requires b == a || b == NextStart(a)
    ensures Makes(Life(a, nv), e, Life(b, nv)) && (e.Nothing? || IsStart(e))
    ensures e.Nothing? <==> b == a
    ensures b == NextStart(a) && a.trial.Some? ==> IsStart(e)
    ensures e.GivenUp? ==> StartOf(a).GiveUp?
  {
    if b == a {
      e := Nothing;
    } else {
      e := match StartOf(a) case Normal => Nothing case OnTrial(_, _) => Counted case GiveUp(_, _) => GivenUp;
    }
  }

  /** An attach: what it made of the record and of the minimum, which may be
      written or not, whatever became of the record; and the serial is written
      there only if it is above what was read of the minimum. */
  lemma PassIsAnEvent(a: State, nv: nat, unread: bool, serial: nat, onTrial: bool, b: State, nvAfter: nat)
    returns (e: Event)
    requires onTrial ==> a.trial.Some? && a.trial.value.0 == serial
    requires b == a || (onTrial && b == PassedState(a, serial))
    requires nvAfter == nv || (onTrial && nvAfter == serial && (if unread then 0 else nv) < serial)
    ensures Makes(Life(a, nv), e, Life(b, nvAfter)) && (e.Nothing? || (e.Passed? && onTrial)) && (Unread(e) ==> unread)
    ensures b != a ==> e.Passed? && e.onMedium
  {
    e := if b == a && nvAfter == nv then Nothing
         else Passed(b != a || b == PassedState(a, serial), nvAfter != nv, unread);
  }

  // ---------------------------------------------------------- a life so far

  /** A boot starts, takes an offer or not, and attaches or not; then the machine
      may start from another medium. */
  datatype Phase = Starting | Offering | Attaching | Away

  /** One boot's circumstances: what is offered and served and whether there is
      room for it, whether it attaches, whether the power stays on at least until
      the trial has been seen to, and what other media make of the machine's
      minimum after it. */
  datatype Day = Day(asked: Asked, served: map<string, seq<byte>>, room: bool, attaches: bool, steady: bool,
                     elsewhere: Option<nat>)

  /** How a step came to its end: cut off, with an operation failed, or neither;
      the update it had planned by then, if any; and on what day it was. */
  datatype How = How(phase: Phase, cut: bool, failed: bool, plan: Option<Proposal>, day: Day)

  /** The step that last took an offer, of the first `n`; 0 if none did. */
  function LastTaken(es: seq<Event>, n: nat): (t: nat)
    requires n <= |es|
    ensures t <= n
  {
    if n == 0 then 0 else if es[n - 1].Taken? then n - 1 else LastTaken(es, n - 1)
  }

  /** What a step makes of the medium, besides its record. */
  ghost predicate Step(aim: Renewal, a: Medium, e: Event, how: How, b: Medium) {
    && (Unread(e) ==> how.failed)
    && match how.phase
       case Starting => StartStep(aim, a, e, how, b)
       case Offering =>
         if StandingIn(a).trial.Some? then e.Nothing? && b == a && how.plan.None? else OfferingStep(a, e, how, b)
       case Attaching => how.day.attaches && how.plan.None? && (e.Nothing? || e.Passed?) && b.files == a.files
       case Away => e.Elsewhere? && how.day.elsewhere == Some(e.nv) && how.plan.None? && b == a
  }

  /** A start that gives nothing up changes no file. One that does, and does not
      fail, has put the files back by the time it says so. */
  ghost predicate StartStep(aim: Renewal, a: Medium, e: Event, how: How, b: Medium) {
    var s := StandingIn(a);
    && how.plan.None? && (e.Nothing? || IsStart(e)) && (how.day.steady ==> !how.cut)
    && (!how.cut && !how.failed && s.trial.Some? && (StartOf(s).GiveUp? || |TextOf(NextStart(s))| <= STATE_SPACE) ==>
          IsStart(e))
    && if StartOf(s).GiveUp? then
         && InFlight(aim, Listed(s), b.files)
         && (!how.failed && e.GivenUp? ==> Restored(aim.was, Listed(s), b.files))
       else b.files == a.files
  }

  /** An offer changes no file unless an update was planned from it, and then no
      listed one unless its trial is on record or taking it back failed. Neither
      cut off nor failed, a trial on record has all of its files in place. */
  ghost predicate OfferingStep(a: Medium, e: Event, how: How, b: Medium) {
    && (e.Nothing? || IsAbout(e, how.day.asked))
    && match how.plan
       case None =>
         && b.files == a.files && !e.Taken?
         && (e.Adopted? ==> AllCarried(ManifestOf(how.day.asked.text).value, a.files))
       case Some(p) =>
         && PlannedFor(p, how.day.asked) && p.For(a) && Leaves(p, a, b)
         && (e.Taken? <==> StandingIn(b).trial.Some?) && (e.Taken? || e.Nothing?)
         && (!how.day.room ==> b == a)
         && (!how.failed ==> Orderly(p, a, b))
         && (e.Taken? && !how.failed && !how.cut ==> p.u.Complete(a, b))
  }

  /** It was planned from the manifest on offer, for this machine. */
  ghost predicate PlannedFor(p: Proposal, q: Asked) {
    ManifestOf(q.text) == Ok(p.m) && p.m.ForMachine(q.mac) && VersionOf(p.m, q) == VersionOk
  }

  /** With nothing failing, an offer that is wanted, served and has room is planned
      and, if it is not cut off and its record has room, taken; and one that is only
      to be noted is noted. */
  ghost predicate Acts(nv: nat, a: Medium, e: Event, how: How, b: Medium) {
    var q := how.day.asked;
    how.phase.Offering? && !how.failed && StandingIn(a).trial.None? && ManifestOf(q.text).Ok? ==>
      var m := ManifestOf(q.text).value;
      && (how.day.room && Wanted(a, m, nv, q) && AllServed(a.files, m.files, how.day.served) ==>
            how.plan.Some? && (!how.cut && how.plan.value.u.Fits() ==> e.Taken?))
      && (!how.cut ==> NotedIn(Noted(a, m, nv, q), b))
  }

  /** What the update a step planned makes of these files. */
  function AimOf(how: How, f: Files): Renewal {
    if how.plan.Some? then how.plan.value.u.Aim(f) else Renewal(f, [])
  }

  /** The boot in which step `n` is began with a set on trial. */
  ghost predicate BootOnTrial(ls: seq<Life>, hows: seq<How>, n: nat)
    requires n <= |hows| <= |ls|
  {
    n > 0
    && match hows[n - 1].phase
       case Starting => StartOf(ls[n - 1].s).OnTrial?
       case Away => false
       case _ => BootOnTrial(ls, hows, n - 1)
  }

  /** The step follows one of the same day, unless it is a start; an offer follows
      a start and an attach an offer. */
  predicate InTurn(hows: seq<How>, i: nat)
    requires i < |hows|
  {
    hows[i].phase.Starting?
    || (&& i > 0 && hows[i].day == hows[i - 1].day
        && (hows[i].phase.Offering? ==> hows[i - 1].phase.Starting?)
        && (hows[i].phase.Attaching? ==> hows[i - 1].phase.Offering?))
  }

  /** This start was neither cut off nor failed, and has counted a trial. */
  ghost predicate CountedAt(ls: seq<Life>, hows: seq<How>, i: nat)
    requires i < |hows| <= |ls|
  {
    && hows[i].phase.Starting? && !hows[i].cut && !hows[i].failed
    && StartOf(ls[i].s).OnTrial? && |TextOf(NextStart(ls[i].s))| <= STATE_SPACE
  }

  /** The boot in which step `n` is began with such a start. */
  ghost predicate BootCounted(ls: seq<Life>, hows: seq<How>, n: nat)
    requires n <= |hows| <= |ls|
  {
    || (n >= 1 && CountedAt(ls, hows, n - 1))
    || (n >= 2 && hows[n - 1].phase.Offering? && CountedAt(ls, hows, n - 2))
  }

  /** What attaches in such a boot, neither cut off nor failing, passes. */
  ghost predicate Passes(ls: seq<Life>, hows: seq<How>, e: Event, i: nat)
    requires i < |hows| <= |ls|
  {
    hows[i].phase.Attaching? && !hows[i].cut && !hows[i].failed && BootCounted(ls, hows, i) ==> e.Passed? && e.onMedium
  }

  /** What has happened, step by step: the events, how each came about, and what
      each left on the medium and in the machine. */
  datatype Past = Past(ls: seq<Life>, ms: seq<Medium>, es: seq<Event>, hows: seq<How>)
  {
    ghost predicate Valid() {
      |ls| == |ms| == |es| + 1 && |hows| == |es| && Lived()
    }

    /** It began without a trial; each step was an event; at every moment what the
        last offer taken replaced could be put back; what was to be done about an
        offer was; and a set passes only in a boot that found it on trial, and if
        it attaches there and nothing fails, does. */
    ghost predicate Lived()
      requires |ls| == |ms| == |es| + 1 && |hows| == |es|
    {
      && Run(ls, es) && ls[0].s.trial.None?
      && (forall i :: 0 <= i <= |es| ==> ls[i].s == StandingIn(ms[i]) && Held(AimAt(i), ms[i]))
      && (forall i :: 0 <= i < |es| ==> Step(AimAt(i), ms[i], es[i], hows[i], ms[i + 1]))
      && (forall i :: 0 <= i < |es| ==> Acts(ls[i].nv, ms[i], es[i], hows[i], ms[i + 1]) && InTurn(hows, i))
      && (forall i :: 0 <= i < |es| ==> Passes(ls, hows, es[i], i))
      && forall i :: 0 <= i < |es| && es[i].Passed? ==> BootOnTrial(ls, hows, i)
    }

    /** What the last offer taken before step `i` made of the files there were. */
    function AimAt(i: nat): Renewal
      requires i <= |es| == |hows| < |ms|
    {
      var t := LastTaken(es, i);
      if t < i && es[t].Taken? then AimOf(hows[t], ms[t].files) else Renewal(map[], [])
    }

    function Aim(): Renewal
      requires |es| == |hows| < |ms|
    {
      AimAt(|es|)
    }

    /** The past has come to this. */
    ghost predicate CameTo(m: Medium, nv: nat) {
      && Valid()
      && ls[|es|] == LifeOf(m, nv) && ms[|es|] == m && Held(Aim(), m)
    }
  }

  /** `b` is `a`, and what happened since. */
  ghost predicate Continues(a: Past, b: Past) {
    a.ls <= b.ls && a.ms <= b.ms && a.es <= b.es && a.hows <= b.hows
  }

  lemma {:induction false} LastTakenOf(es: seq<Event>, more: seq<Event>, n: nat)
    requires es <= more && n <= |es|
    ensures LastTaken(more, n) == LastTaken(es, n)
  {
    if n > 0 {
      LastTakenOf(es, more, n - 1);
    }
  }

  lemma {:induction false} BootOf(ls: seq<Life>, hows: seq<How>, more: seq<Life>, all: seq<How>, n: nat)
    requires ls <= more && hows <= all && n <= |hows| <= |ls| && |all| <= |more|
    ensures BootOnTrial(more, all, n) == BootOnTrial(ls, hows, n)
  {
    if n > 0 {
      BootOf(ls, hows, more, all, n - 1);
    }
  }

  lemma CountedOf(ls: seq<Life>, hows: seq<How>, more: seq<Life>, all: seq<How>, n: nat)
    requires ls <= more && hows <= all && n <= |hows| <= |ls| && |all| <= |more|
    ensures BootCounted(more, all, n) == BootCounted(ls, hows, n)
  {
    hide TextOf, NextStart, StartOf;
  }

  lemma PassesOf(ls: seq<Life>, hows: seq<How>, more: seq<Life>, all: seq<How>, e: Event, i: nat)
    requires ls <= more && hows <= all && i <= |hows| < |ls| && i < |all| <= |more|
    ensures i < |hows| ==> Passes(more, all, e, i) == Passes(ls, hows, e, i)
    ensures all[i].phase.Attaching? && !all[i].cut && !all[i].failed && BootCounted(ls, hows, i) ==>
              (Passes(more, all, e, i) <==> e.Passed? && e.onMedium)
    ensures !(all[i].phase.Attaching? && !all[i].cut && !all[i].failed && BootCounted(ls, hows, i)) ==>
              Passes(more, all, e, i)
  {
    hide BootCounted;
    CountedOf(ls, hows, more, all, i);
  }

  lemma TurnOf(hows: seq<How>, all: seq<How>, i: nat)
    requires hows <= all && i < |all|
    ensures i < |hows| ==> InTurn(all, i) == InTurn(hows, i)
  {
  }

  /** A past's moment `i`, and its step from there. */
  lemma PastAt(past: Past, i: nat)
    requires past.Valid() && i <= |past.es|
    ensures Run(past.ls, past.es) && past.ls[0].s.trial.None?
    ensures past.ls[i].s == StandingIn(past.ms[i]) && Held(past.AimAt(i), past.ms[i])
    ensures i < |past.es| ==>
              && Makes(past.ls[i], past.es[i], past.ls[i + 1])
              && Step(past.AimAt(i), past.ms[i], past.es[i], past.hows[i], past.ms[i + 1])
              && (past.es[i].Passed? ==> BootOnTrial(past.ls, past.hows, i))
              && Acts(past.ls[i].nv, past.ms[i], past.es[i], past.hows[i], past.ms[i + 1]) && InTurn(past.hows, i)
              && Passes(past.ls, past.hows, past.es[i], i)
  {
    hide Held, StandingIn, Step, Makes, BootOnTrial, Acts, InTurn, Passes;
  }

  /** The past goes on to `m` by the event `e`, which came about thus. */
  ghost predicate CanGoOn(past: Past, e: Event, how: How, m: Medium, nv: nat)
    requires past.Valid()
  {
    && Makes(past.ls[|past.es|], e, LifeOf(m, nv))
    && Step(past.Aim(), past.ms[|past.es|], e, how, m)
    && Held(AimAfter(past, e, how), m)
    && Acts(past.ls[|past.es|].nv, past.ms[|past.es|], e, how, m) && InTurn(past.hows + [how], |past.hows|)
    && (how.phase.Attaching? && !how.cut && !how.failed && BootCounted(past.ls, past.hows, |past.hows|) ==>
          e.Passed? && e.onMedium)
    && (e.Passed? ==> BootOnTrial(past.ls, past.hows, |past.hows|))
  }

  function AimAfter(past: Past, e: Event, how: How): Renewal
    requires |past.es| == |past.hows| < |past.ms|
  {
    if e.Taken? then AimOf(how, past.ms[|past.es|].files) else past.Aim()
  }

  lemma OneMore(past: Past, e: Event, how: How, m: Medium, nv: nat) returns (next: Past)
    requires past.Valid() && CanGoOn(past, e, how, m, nv)
    ensures next.CameTo(m, nv) && Continues(past, next)
    ensures next.es == past.es + [e] && next.hows == past.hows + [how] && next.ms == past.ms + [m]
    ensures next.ls == past.ls + [LifeOf(m, nv)] && next.Aim() == AimAfter(past, e, how)
  {
    hide Held, Makes, Run, StandingIn, Step, Past.Lived, LastTaken, AimOf, BootOnTrial, Acts, InTurn, BootCounted,
         Passes;
    next := Past(past.ls + [LifeOf(m, nv)], past.ms + [m], past.es + [e], past.hows + [how]);
    MoreLived(past, e, how, m, nv, next);
    AimsAfter(past, e, how, next);
    NowAims(next);
  }

  lemma AimsAfter(past: Past, e: Event, how: How, next: Past)
    requires |past.ms| == |past.es| + 1 == |past.hows| + 1
    requires next.es == past.es + [e] && next.hows == past.hows + [how] && past.ms <= next.ms
             && |next.ms| == |past.ms| + 1
    ensures next.Aim() == AimAfter(past, e, how)
    ensures forall i :: 0 <= i <= |past.es| ==> next.AimAt(i) == past.AimAt(i)
  {
    hide AimOf;
    forall i | 0 <= i <= |past.es|
      ensures next.AimAt(i) == past.AimAt(i)
    {
      LastTakenOf(past.es, next.es, i);
      OnlyTakenCounts(past.es, i);
    }
    assert next.es[|past.es|] == e && next.hows[|past.es|] == how;
    OnlyTakenCounts(past.es, |past.es|);
  }

  lemma {:induction false} OnlyTakenCounts(es: seq<Event>, n: nat)
    requires n <= |es|
    ensures var t := LastTaken(es, n); t == 0 || (t < n && es[t].Taken?)
  {
    if n > 0 {
      OnlyTakenCounts(es, n - 1);
    }
  }

  lemma MoreLived(past: Past, e: Event, how: How, m: Medium, nv: nat, next: Past)
    requires past.Valid() && CanGoOn(past, e, how, m, nv)
    requires next == Past(past.ls + [LifeOf(m, nv)], past.ms + [m], past.es + [e], past.hows + [how])
    ensures next.Valid()
  {
    hide Held, Makes, Run, StandingIn, Step, LastTaken, Past.AimAt, Past.Aim, AimOf, BootOnTrial, Acts, InTurn,
         BootCounted, Passes;
    AimsAfter(past, e, how, next);
    RunOn(past.ls, past.es, e, LifeOf(m, nv));
    forall i | 0 <= i <= |next.es|
      ensures next.ls[i].s == StandingIn(next.ms[i]) && Held(next.AimAt(i), next.ms[i])
    {
      if i <= |past.es| {
        PastAt(past, i);
      } else {
        NowAims(next);
      }
    }
    NowAims(past);
    forall i | 0 <= i < |next.es|
      ensures Step(next.AimAt(i), next.ms[i], next.es[i], next.hows[i], next.ms[i + 1])
      ensures next.es[i].Passed? ==> BootOnTrial(next.ls, next.hows, i)
      ensures Acts(next.ls[i].nv, next.ms[i], next.es[i], next.hows[i], next.ms[i + 1]) && InTurn(next.hows, i)
      ensures Passes(next.ls, next.hows, next.es[i], i)
    {
      BootOf(past.ls, past.hows, next.ls, next.hows, i);
      TurnOf(past.hows, next.hows, i);
      PassesOf(past.ls, past.hows, next.ls, next.hows, next.es[i], i);
      if i < |past.es| {
        PastAt(past, i);
      }
    }
  }

  lemma NowAims(past: Past)
    requires |past.es| == |past.hows| < |past.ms|
    ensures past.Aim() == past.AimAt(|past.es|)
  {
  }

  // ----------------------------------------------------- what a past comes to

  /** A running trial was begun by the last offer taken. */
  lemma {:induction false} TrialWasTaken(ls: seq<Life>, es: seq<Event>, k: nat)
    requires Run(ls, es) && k <= |es| && ls[0].s.trial.None? && ls[k].s.trial.Some?
    ensures var t := LastTaken(es, k); t < k && es[t].Taken? && forall i :: t < i < k ==> !es[i].Taken?
  {
    hide Can, After;
    assert Makes(ls[k - 1], es[k - 1], ls[k]);
    if !es[k - 1].Taken? {
      if ls[k - 1].s.trial.None? {
        OnlyTakenBegins(ls[k - 1], es[k - 1], ls[k]);
      }
      TrialWasTaken(ls, es, k - 1);
    }
  }

  /** No listed path has anything of its update left. */
  predicate NothingLeft(f: Files, items: seq<Item>) {
    forall i :: 0 <= i < |items| ==> !Leftover(f, items[i])
  }

  /** Of any life, whatever failed and was cut off before: a start that gives a
      set up, with nothing failing in that start, leaves every file the last
      offer taken changed as it was before that offer, its leftovers gone and
      nothing else changed, and the record as it was, but that it marks the
      serial failed. If something did fail, it has done so exactly when nothing of
      the update is left; the record says the same either way. */
  lemma GivenUpIsRestored(past: Past, j: nat) returns (t: nat)
    requires past.Valid() && j < |past.es| && past.es[j].GivenUp?
    ensures t == LastTaken(past.es, j) < j && past.es[t].Taken?
    ensures var items := Listed(past.ls[t + 1].s);
            && (Restored(past.ms[t].files, items, past.ms[j + 1].files) <==> NothingLeft(past.ms[j + 1].files, items))
            && (!past.hows[j].failed ==> Restored(past.ms[t].files, items, past.ms[j + 1].files))
    ensures past.ls[j + 1].s == GivenUpState(past.ls[j].s, past.es[t].serial, past.ls[t].s.serial)
    ensures past.ls[j].s.serial == past.es[t].serial
  {
    hide Held, StandingIn, Restored, Makes, Past.Lived, Run, LastTaken, InFlight, Leftover, OfferingStep, BootOnTrial;
    var ls, es := past.ls, past.es;
    PastAt(past, j);
    OnlyTrialsAreGivenUp(ls[j], es[j], ls[j + 1]);
    TrialWasTaken(ls, es, j);
    t := LastTaken(es, j);
    PastAt(past, t);
    AimIsOf(past, t, j);
    TakenBegins(ls[t], es[t], ls[t + 1]);
    TrialKeepsItsRecord(ls, es, t, j);
    TrialGoesOn(ls[t].s, es[t].serial, es[t].files, ls[j].s.trial.value.1, ls[j], es[j], ls[j + 1]);
    SameList(ls[t + 1].s, ls[j].s);
    RestoredExactlyWhen(past.AimAt(j), Listed(ls[t + 1].s), past.ms[j + 1].files);
  }

  lemma OnlyTrialsAreGivenUp(a: Life, e: Event, b: Life)
    requires Makes(a, e, b) && e.GivenUp?
    ensures a.s.trial.Some? && StartOf(a.s).GiveUp?
  {
  }

  lemma AimIsOf(past: Past, t: nat, k: nat)
    requires |past.es| == |past.hows| < |past.ms| && t < k <= |past.es| && past.es[t].Taken?
             && t == LastTaken(past.es, k)
    ensures past.AimAt(k) == AimOf(past.hows[t], past.ms[t].files) && past.AimAt(k).was == past.ms[t].files
  {
  }

  lemma SameList(a: State, b: State)
    requires a.files == b.files
    ensures Listed(a) == Listed(b)
  {
  }

  /** The starts among the steps from `i` up to `k` that were not cut off. */
  function WholeStarts(hows: seq<How>, i: nat, k: nat): nat
    requires k <= |hows|
    decreases k
  {
    if k <= i then 0
    else WholeStarts(hows, i, k - 1) + if hows[k - 1].phase.Starting? && !hows[k - 1].cut then 1 else 0
  }

  /** The days that began from step `i` up to step `k`. */
  function DaysFrom(hows: seq<How>, i: nat, k: nat): seq<Day>
    requires k <= |hows|
    decreases k
  {
    if k <= i then [] else DaysFrom(hows, i, k - 1) + if hows[k - 1].phase.Starting? then [hows[k - 1].day] else []
  }

  function DaysOf(hows: seq<How>): seq<Day> {
    DaysFrom(hows, 0, |hows|)
  }

  lemma {:induction false} DaysFromOf(hows: seq<How>, all: seq<How>, i: nat, k: nat)
    requires hows <= all && k <= |hows|
    ensures DaysFrom(all, i, k) == DaysFrom(hows, i, k)
    decreases k
  {
    if k > i {
      DaysFromOf(hows, all, i, k - 1);
    }
  }

  lemma DaysOfMore(hows: seq<How>, how: How)
    ensures DaysOf(hows + [how]) == DaysOf(hows) + if how.phase.Starting? then [how.day] else []
  {
    DaysFromOf(hows, hows + [how], 0, |hows|);
  }

  lemma {:induction false} DaysInTwo(hows: seq<How>, i: nat, k: nat)
    requires i <= k <= |hows|
    ensures DaysFrom(hows, 0, k) == DaysFrom(hows, 0, i) + DaysFrom(hows, i, k)
    decreases k
  {
    if k > i {
      DaysInTwo(hows, i, k - 1);
    }
  }

  /** Every step is of one of the days. */
  lemma {:induction false} DayIsAmong(past: Past, i: nat)
    requires past.Valid() && i < |past.hows|
    ensures past.hows[i].day in DaysOf(past.hows)
    decreases i
  {
    hide Past.Lived, Step, Held, Acts, Passes, BootOnTrial, Makes, Run;
    PastAt(past, i);
    if past.hows[i].phase.Starting? {
      DaysInTwo(past.hows, i + 1, |past.hows|);
    } else {
      DayIsAmong(past, i - 1);
    }
  }

  function SteadyDays(days: seq<Day>): nat {
    if days == [] then 0 else SteadyDays(days[..|days| - 1]) + if days[|days| - 1].steady then 1 else 0
  }

  /** On a steady day the start is not cut off. */
  lemma {:induction false} SteadyStartsAreWhole(past: Past, i: nat, k: nat)
    requires past.Valid() && i <= k <= |past.hows|
    ensures SteadyDays(DaysFrom(past.hows, i, k)) <= WholeStarts(past.hows, i, k)
    decreases k
  {
    hide Past.Lived, Held, Acts, Passes, BootOnTrial, Makes, Run, OfferingStep, Restored, InFlight, StandingIn;
    if k > i {
      SteadyStartsAreWhole(past, i, k - 1);
      PastAt(past, k - 1);
      var before, how := DaysFrom(past.hows, i, k - 1), past.hows[k - 1];
      if how.phase.Starting? {
        assert (before + [how.day])[..|before|] == before;
      } else {
        assert before + [] == before;
      }
    }
  }

  /** No start failed between the two steps, and none of it passed. */
  ghost predicate NeverPassed(past: Past, t: nat, k: nat)
    requires k <= |past.es| && |past.hows| == |past.es|
  {
    forall i :: t < i < k ==> !past.es[i].Passed? && (past.hows[i].phase.Starting? ==> !past.hows[i].failed)
  }

  /** A trial that does not pass: every start that is not cut off is counted,
      until it is given up at step `j`. */
  lemma {:induction false} StartsAreCounted(past: Past, t: nat, k: nat) returns (j: nat)
    requires past.Valid() && t < k <= |past.es| && past.es[t].Taken? && NeverPassed(past, t, k)
    ensures t < j <= k && forall i :: t < i < j ==> !past.es[i].Taken?
    ensures j < k ==> past.es[j].GivenUp?
    ensures j == k ==>
              && past.ls[k].s.trial.Some?
              && past.ls[k].s == TrialOf(past.ls[t].s, past.es[t].serial, past.es[t].files, past.ls[k].s.trial.value.1)
              && WholeStarts(past.hows, t + 1, k) <= past.ls[k].s.trial.value.1 <= TRIAL_STARTS
    decreases k
  {
    hide Held, StandingIn, Restored, Makes, Step, Past.Lived, Run, TrialOf, LastTaken;
    var ls, es := past.ls, past.es;
    PastAt(past, k - 1);
    if k == t + 1 {
      TrialHas(ls[t].s, es[t].serial, es[t].files, 0);
      TakenBegins(ls[t], es[t], ls[k]);
      j := k;
    } else {
      j := StartsAreCounted(past, t, k - 1);
      if j == k - 1 && !es[k - 1].GivenUp? {
        PastAt(past, t);
        OneStepOn(ls[t], es[t], ls[t + 1], ls[j].s.trial.value.1, ls[j], es[j], ls[k], past.ms[j], past.hows[j],
                  past.AimAt(j), past.ms[k]);
        j := k;
      }
    }
  }

  lemma TrialHas(was: State, serial: nat, files: string, n: nat)
    ensures TrialOf(was, serial, files, n).trial == Some((serial, n))
  {
  }

  /** The list kept with a trial takes the room it took when it began. */
  lemma CountTakesNoRoom(was: State, serial: nat, files: string, m: nat, n: nat)
    requires m < 10 && n < 10
    ensures |TextOf(TrialOf(was, serial, files, m))| == |TextOf(TrialOf(was, serial, files, n))|
  {
    assert |Decimal(m)| == 1 && |Decimal(n)| == 1;
    hide Decimal, Heading, SerialsText;
    var a, b := TrialOf(was, serial, files, m), TrialOf(was, serial, files, n);
    assert SerialsText(a) == SerialsText(b) by {
      SameSerials(a, b);
    }
    assert FilesText(a) == FilesText(b);
    assert |TrialText(a)| == |TrialText(b)|;
  }

  lemma SameSerials(a: State, b: State)
    requires a.serial == b.serial && a.min == b.min && a.failed == b.failed
    ensures SerialsText(a) == SerialsText(b)
  {
  }

  lemma OneStepOn(la: Life, taken: Event, lb: Life, n: nat, a: Life, e: Event, b: Life,
                  m: Medium, how: How, aim: Renewal, next: Medium)
    requires Makes(la, taken, lb) && taken.Taken? && Makes(a, e, b) && Step(aim, m, e, how, next)
    requires a.s == StandingIn(m) == TrialOf(la.s, taken.serial, taken.files, n) && n <= TRIAL_STARTS
    requires !e.Passed? && !e.GivenUp? && (how.phase.Starting? ==> !how.failed)
    ensures !e.Taken? && b.s.trial.Some? && n <= b.s.trial.value.1 <= TRIAL_STARTS
    ensures b.s == TrialOf(la.s, taken.serial, taken.files, b.s.trial.value.1)
    ensures how.phase.Starting? && !how.cut ==> b.s.trial.value.1 > n
  {
    hide StandingIn, TextOf, After, Restored;
    CountTakesNoRoom(la.s, taken.serial, taken.files, 0, n + 1);
    TakenBegins(la, taken, lb);
    NextOfTrial(la.s, taken.serial, taken.files, n);
    TrialGoesOn(la.s, taken.serial, taken.files, n, a, e, b);
  }

  lemma NextOfTrial(was: State, serial: nat, files: string, n: nat)
    ensures var s := TrialOf(was, serial, files, n);
            if n < TRIAL_STARTS then NextStart(s) == TrialOf(was, serial, files, n + 1) else StartOf(s).GiveUp?
  {
  }

  /** From an offer taken, as long as the set never passes and its starts do not
      fail: by the third start that is not cut off, however many others were, the
      set has been given up, and at that moment every file the offer changed is
      as it was before, and the record too, but that it marks the serial failed. */
  lemma ThirdStartRestores(past: Past, t: nat, k: nat) returns (j: nat)
    requires past.Valid() && t < k <= |past.es| && past.es[t].Taken? && NeverPassed(past, t, k)
    requires WholeStarts(past.hows, t + 1, k) > TRIAL_STARTS
    ensures t < j < k && past.es[j].GivenUp?
    ensures Restored(past.ms[t].files, Listed(past.ls[t + 1].s), past.ms[j + 1].files)
    ensures past.ls[j + 1].s == past.ls[t].s.(failed := past.es[t].serial, trial := None, prev := 0, files := "")
  {
    hide Held, StandingIn, Restored, Step, Makes, Past.Lived, Run, LastTaken, NothingLeft, Acts, Passes, BootOnTrial,
         InTurn, Past.AimAt, Listed, WholeStarts, TextOf;
    j := StartsAreCounted(past, t, k);
    LastTakenIs(past.es, t, j);
    GivenUpIsAStart(past, j);
    var last := GivenUpIsRestored(past, j);
    PastAt(past, t);
    TakenBegins(past.ls[t], past.es[t], past.ls[t + 1]);
    PastAt(past, j);
    OnlyTrialsAreGivenUp(past.ls[j], past.es[j], past.ls[j + 1]);
    TrialKeepsItsRecord(past.ls, past.es, t, j);
  }

  lemma GivenUpIsAStart(past: Past, j: nat)
    requires past.Valid() && j < |past.es| && past.es[j].GivenUp?
    ensures past.hows[j].phase.Starting?
  {
    hide Held, StandingIn, Restored, Past.Lived;
    PastAt(past, j);
  }

  lemma {:induction false} LastTakenIs(es: seq<Event>, t: nat, k: nat)
    requires t < k <= |es| && es[t].Taken? && forall i :: t < i < k ==> !es[i].Taken?
    ensures LastTaken(es, k) == t
    decreases k
  {
    if k > t + 1 {
      LastTakenIs(es, t, k - 1);
    }
  }

  // --------------------------------------------------- what a pass vouches for

  /** The step that took what is on trial at moment `k`, and what it had planned:
      the files are at some point of that update. */
  lemma PlanOnTrial(past: Past, k: nat) returns (t: nat)
    requires past.Valid() && k <= |past.es| && past.ls[k].s.trial.Some?
    ensures t == LastTaken(past.es, k) < k && past.es[t].Taken? && forall i :: t < i < k ==> !past.es[i].Taken?
    ensures past.hows[t].plan.Some? && past.hows[t].phase.Offering?
    ensures var p := past.hows[t].plan.value;
            && p.For(past.ms[t]) && OfferingStep(past.ms[t], past.es[t], past.hows[t], past.ms[t + 1])
            && past.ls[k].s.trial.value.0 == p.m.serial
            && Listed(past.ls[k].s) == p.u.Items() == Listed(past.ls[t + 1].s)
            && InFlight(p.u.Aim(past.ms[t].files), p.u.Items(), past.ms[k].files)
  {
    hide Makes, Past.Lived, Run, LastTaken, InFlight, OfferingStep, BootOnTrial, Proposal.For, StateIn, Restored,
         Listed;
    var ls, es := past.ls, past.es;
    PastAt(past, k);
    TrialWasTaken(ls, es, k);
    t := LastTaken(es, k);
    PastAt(past, t);
    PastAt(past, t + 1);
    AimIsOf(past, t, k);
    TakenBegins(ls[t], es[t], ls[t + 1]);
    TakenIsPlanned(past.AimAt(t), past.ms[t], es[t], past.hows[t], past.ms[t + 1]);
    TrialKeepsItsRecord(ls, es, t, k);
    SameList(ls[t + 1].s, ls[k].s);
    ListStands(past.ms[k]);
  }

  lemma ListStands(m: Medium)
    ensures Listed(StandingIn(m)) == Listed(StateIn(m))
  {
    hide StateIn;
    SameList(StandingIn(m), StateIn(m));
  }

  lemma TakenIsPlanned(aim: Renewal, a: Medium, e: Event, how: How, b: Medium)
    requires Step(aim, a, e, how, b) && e.Taken? && StandingIn(a).trial.None?
    requires StandingIn(b).trial == Some((e.serial, 0))
    ensures how.plan.Some? && how.phase.Offering? && OfferingStep(a, e, how, b)
    ensures var p := how.plan.value;
            && p.For(a) && e.serial == p.m.serial && Listed(StandingIn(b)) == p.u.Items()
  {
    hide InFlight, Proposal.For, StateIn, Orderly, Update.Complete, Quiet, Listed;
    SerialOf(how.plan.value, a);
  }

  /** As long as a set is on trial in a boot that found it so, or has had less
      than two starts, the files are what the offer left. */
  lemma {:induction false} FilesStay(past: Past, t: nat, k: nat)
    requires past.Valid() && t < k <= |past.es| && past.es[t].Taken? && forall i :: t < i < k ==> !past.es[i].Taken?
    requires past.ls[k].s.trial.Some?
    requires past.ls[k].s.trial.value.1 < TRIAL_STARTS || BootOnTrial(past.ls, past.hows, k)
    ensures past.ms[k].files == past.ms[t + 1].files
    decreases k
  {
    hide Makes, Past.Lived, Run, LastTaken, InFlight, OfferingStep, StateIn, Restored, Listed, TrialOf, TextOf;
    var ls, es, i := past.ls, past.es, k - 1;
    if k > t + 1 {
      PastAt(past, i);
      PastAt(past, k);
      if ls[i].s.trial.None? {
        OnlyTakenBegins(ls[i], es[i], ls[k]);
        assert false;
      }
      TrialKeepsItsRecord(ls, es, t, i);
      TrialHas(ls[t].s, es[t].serial, es[t].files, ls[i].s.trial.value.1);
      OneStepBack(ls[t].s, es[t].serial, es[t].files, past.AimAt(i), past.ms[i], ls[i], es[i], past.hows[i],
                  past.ms[k], ls[k]);
      FilesStay(past, t, i);
    }
  }

  lemma OneStepBack(was: State, serial: nat, files: string, aim: Renewal, m: Medium, a: Life, e: Event, how: How,
                    next: Medium, b: Life)
    requires Makes(a, e, b) && Step(aim, m, e, how, next) && !e.Taken?
    requires a.s == StandingIn(m) && b.s == StandingIn(next) && a.s.trial.Some? && b.s.trial.Some?
    requires a.s == TrialOf(was, serial, files, a.s.trial.value.1)
    ensures how.phase.Starting? ==>
              (StartOf(a.s).OnTrial? <==> a.s.trial.value.1 < TRIAL_STARTS)
              && (a.s.trial.value.1 >= TRIAL_STARTS ==> b.s.trial.value.1 >= TRIAL_STARTS)
    ensures !how.phase.Starting? ==> b.s.trial == a.s.trial
    ensures !(how.phase.Starting? && StartOf(a.s).GiveUp?) ==> next.files == m.files
  {
    hide StandingIn, InFlight, Restored, TextOf, Listed, OfferingStep;
    TrialGoesOn(was, serial, files, a.s.trial.value.1, a, e, b);
  }

  /** Of any life: what passes, on a day that attaches, is the serial of a manifest
      that was offered this machine on the day it was taken, over the files that
      the step left which took it. The manifest's whole set is there exactly when
      their names say so; if that step did not fail, when its last path is done;
      and if it was not cut off either, always. */
  lemma PassIsWholeExactlyWhen(past: Past, j: nat) returns (t: nat)
    requires past.Valid() && j < |past.es| && past.es[j].Passed?
    ensures t < j && Vouched(past, t, j)
  {
    hide Makes, Past.Lived, Run, LastTaken, InFlight, StateIn, Restored, Listed, TextOf, SetInPlace, AllDone, LastIsIn,
         BootOnTrial, Leaves, SwapAt, InOrder, Quiet, PlannedFrom, Covered, PlannedFor, DaysOf, Acts, Passes;
    DayIsAmong(past, j);
    PastAt(past, j);
    PassedWasOnTrial(past.ls[j], past.es[j], past.ls[j + 1]);
    t := PlanOnTrial(past, j);
    DayIsAmong(past, t);
    FilesStay(past, t, j);
    AttachingKeeps(past.AimAt(j), past.ms[j], past.es[j], past.hows[j], past.ms[j + 1]);
    var p, f := past.hows[t].plan.value, past.ms[j + 1].files;
    WholeExactlyWhen(p.m, p.u, p.names, past.ms[t].files, f);
    PastAt(past, t + 1);
    TakenLeavesATrial(past, t);
    if !past.hows[t].failed {
      LastTellsOfAll(p.u, past.ms[t].files, f);
      if !past.hows[t].cut {
        SwappedExactlyWhen(p.u, past.ms[t].files, f);
      }
    }
  }

  /** The pass at step `j` is of what step `t` took. */
  ghost predicate Vouched(past: Past, t: nat, j: nat)
    requires t < j < |past.es| == |past.hows| && |past.ls| == |past.ms| == |past.es| + 1
  {
    var took, passed, f := past.hows[t], past.hows[j], past.ms[j + 1].files;
    && past.es[t].Taken? && took.plan.Some?
    && took.day in DaysOf(past.hows) && PlannedFor(took.plan.value, took.day.asked) && took.plan.value.For(past.ms[t])
    && passed.day in DaysOf(past.hows) && passed.day.attaches
    && past.ls[j].s.trial.Some? && past.ls[j].s.trial.value.0 == took.plan.value.m.serial
    && f == past.ms[t + 1].files && WholeWhen(took.plan.value, took, f)
  }

  /** When these files are the whole set the plan was for, given how the step that
      took it came about: exactly when the names say so; if it did not fail, when
      the last path is done; and if it was not cut off either, always. */
  ghost predicate WholeWhen(p: Proposal, how: How, f: Files) {
    && p.u.Items() != []
    && (SetInPlace(p.m, p.u, f) <==> AllDone(p.u, f))
    && (!how.failed ==> (SetInPlace(p.m, p.u, f) <==> LastIsIn(p.u, f)))
    && (!how.failed && !how.cut ==> SetInPlace(p.m, p.u, f))
  }

  lemma TakenLeavesATrial(past: Past, t: nat)
    requires past.Valid() && t < |past.es| && past.es[t].Taken?
    ensures StandingIn(past.ms[t + 1]).trial.Some?
  {
    hide Past.Lived, Run, Step, Held, StandingIn, TextOf;
    PastAt(past, t);
    PastAt(past, t + 1);
    TakenBegins(past.ls[t], past.es[t], past.ls[t + 1]);
  }

  lemma PassedWasOnTrial(a: Life, e: Event, b: Life)
    requires Makes(a, e, b) && e.Passed?
    ensures a.s.trial.Some?
  {
  }

  lemma AttachingKeeps(aim: Renewal, a: Medium, e: Event, how: How, b: Medium)
    requires Step(aim, a, e, how, b) && e.Passed?
    ensures b.files == a.files && how.phase.Attaching? && how.day.attaches
  {
    hide StateIn, InFlight, Restored, Leaves, Orderly, Update.Complete, PlannedFor, ManifestOf, VersionOf;
  }

  /** No update planned before moment `j` lists this name. */
  ghost predicate NeverListed(past: Past, k: string, j: nat)
    requires j <= |past.hows|
  {
    forall i :: 0 <= i < j && past.hows[i].plan.Some? ==> !Touched(past.hows[i].plan.value.u.Items(), k)
  }

  /** Of any life, whatever failed and was cut off: what no update lists, by its
      own name or a sibling's, is what it was at first. */
  lemma {:induction false} UnlistedNeverChanges(past: Past, k: string, j: nat)
    requires past.Valid() && j <= |past.es| && NeverListed(past, k, j)
    ensures Same(past.ms[0].files, past.ms[j].files, k)
    decreases j
  {
    hide Makes, Past.Lived, Run, LastTaken, InFlight, StandingIn, Restored, Listed, TextOf, Touched, BootOnTrial,
         StartOf;
    if j > 0 {
      var i := j - 1;
      UnlistedNeverChanges(past, k, i);
      PastAt(past, i);
      if StartOf(past.ls[i].s).GiveUp? {
        GivingUpHasATrial(past.ls[i].s);
        var t := PlanOnTrial(past, i);
        var p := past.hows[t].plan.value;
        assert !Touched(p.u.Items(), k);
        AimIsOf(past, t, i);
        FlightKeeps(p.u.Aim(past.ms[t].files), p.u.Items(), past.ms[i].files, k);
        if InFlight(p.u.Aim(past.ms[t].files), p.u.Items(), past.ms[j].files) {
          FlightKeeps(p.u.Aim(past.ms[t].files), p.u.Items(), past.ms[j].files, k);
        }
      }
      if past.hows[i].plan.Some? {
        OfferKeeps(past.ms[i], past.es[i], past.hows[i], past.ms[j], k);
      }
    }
  }

  lemma GivingUpHasATrial(s: State)
    requires StartOf(s).GiveUp?
    ensures s.trial.Some?
  {
  }

  lemma FlightKeeps(aim: Renewal, items: seq<Item>, f: Files, k: string)
    requires InFlight(aim, items, f) && !Touched(items, k)
    ensures Same(aim.was, f, k)
  {
    hide Touched;
  }

  lemma OfferKeeps(a: Medium, e: Event, how: How, b: Medium, k: string)
    ensures how.plan.Some? && OfferingStep(a, e, how, b) && !Touched(how.plan.value.u.Items(), k) ==>
              Same(a.files, b.files, k)
  {
    hide Touched, StateIn, Proposal.For, Orderly, Update.Complete;
  }

  /** What no offered manifest concerns is untouched by every update planned. */
  lemma UnconcernedIsUnlisted(past: Past, k: string, j: nat)
    requires past.Valid() && j <= |past.es|
    requires forall d :: d in DaysOf(past.hows) ==> !ConcernedBy(d.asked.text, k)
    ensures NeverListed(past, k, j)
  {
    hide Makes, Past.Lived, Run, LastTaken, InFlight, StateIn, Restored, Listed, TextOf, Touched, BootOnTrial, StartOf,
         Acts, Passes, Proposal.For, Leaves, Orderly, Update.Complete, ManifestOf, VersionOf, DaysOf, Concerns;
    forall i | 0 <= i < j && past.hows[i].plan.Some?
      ensures !Touched(past.hows[i].plan.value.u.Items(), k)
    {
      PastAt(past, i);
      DayIsAmong(past, i);
      assert !ConcernedBy(past.hows[i].day.asked.text, k);
      var p := past.hows[i].plan.value;
      if Touched(p.u.Items(), k) {
        OnlyConcernedIsTouched(p, past.ms[i], k);
      }
    }
  }

  /** This is a manifest, and it concerns the name. */
  ghost predicate ConcernedBy(text: string, k: string) {
    ManifestOf(text).Ok? && Concerns(ManifestOf(text).value, k)
  }

  /** Of any life, whatever failed and was cut off: what none of the manifests
      offered in it concerns is what it was at first. */
  lemma UnconcernedNeverChanges(past: Past, k: string, j: nat)
    requires past.Valid() && j <= |past.es|
    requires forall d :: d in DaysOf(past.hows) ==> !ConcernedBy(d.asked.text, k)
    ensures Same(past.ms[0].files, past.ms[j].files, k)
  {
    hide Past.Valid, DaysOf, ConcernedBy, NeverListed;
    UnconcernedIsUnlisted(past, k, j);
    UnlistedNeverChanges(past, k, j);
  }

  /** So where nothing is offered, nothing changes: no file, and not the record. */
  lemma NothingOfferedNothingChanges(past: Past, j: nat)
    requires past.Valid() && j <= |past.es|
    requires forall d :: d in DaysOf(past.hows) ==> ManifestOf(d.asked.text).Err?
    ensures past.ms[j].files == past.ms[0].files && past.ls[j].s == past.ls[0].s
  {
    hide DaysOf, ManifestOf, Concerns, Same;
    forall k
      ensures Same(past.ms[0].files, past.ms[j].files, k)
    {
      UnconcernedNeverChanges(past, k, j);
    }
    SameFiles(past.ms[0].files, past.ms[j].files);
    RecordStays(past, j);
  }

  lemma SameFiles(a: Files, b: Files)
    requires forall k :: Same(a, b, k)
    ensures a == b
  {
    assert forall k :: k in a ==> Same(a, b, k);
    assert forall k :: k in b ==> Same(a, b, k);
  }

  lemma {:induction false} RecordStays(past: Past, j: nat)
    requires past.Valid() && j <= |past.es|
    requires forall d :: d in DaysOf(past.hows) ==> ManifestOf(d.asked.text).Err?
    ensures past.ls[j].s == past.ls[0].s && past.ls[0].s.trial.None?
    decreases j
  {
    hide Past.Lived, Run, LastTaken, InFlight, StateIn, Restored, Listed, TextOf, BootOnTrial, Acts, Passes,
         Proposal.For, Leaves, Orderly, Update.Complete, ManifestOf, VersionOf, DaysOf, Held;
    PastAt(past, 0);
    if j > 0 {
      RecordStays(past, j - 1);
      PastAt(past, j - 1);
      DayIsAmong(past, j - 1);
    }
  }

  /** In a life that goes on long enough after an offer is taken, with none of the
      days that follow attaching and no start failing: after three of them on which
      the power stays, the set has been given up, its files and its record put back
      as they were. */
  lemma DaysWithoutAttachRestore(past: Past, t: nat) returns (j: nat)
    requires past.Valid() && t < |past.es| && past.es[t].Taken?
    requires forall i :: t < i < |past.es| && past.hows[i].phase.Starting? ==> !past.hows[i].failed
    requires var d := |DaysFrom(past.hows, 0, t + 1)|;
             && d <= |DaysOf(past.hows)|
             && (forall day :: day in DaysOf(past.hows)[d..] ==> !day.attaches)
             && SteadyDays(DaysOf(past.hows)[d..]) > TRIAL_STARTS
    ensures t < j < |past.es| && past.es[j].GivenUp?
    ensures Restored(past.ms[t].files, Listed(past.ls[t + 1].s), past.ms[j + 1].files)
    ensures past.ls[j + 1].s == past.ls[t].s.(failed := past.es[t].serial, trial := None, prev := 0, files := "")
  {
    hide Past.Lived, Restored, Listed, WholeStarts, SteadyDays;
    DaysInTwo(past.hows, t + 1, |past.hows|);
    var first, rest := DaysFrom(past.hows, 0, t + 1), DaysFrom(past.hows, t + 1, |past.hows|);
    assert (first + rest)[|first|..] == rest;
    SteadyStartsAreWhole(past, t + 1, |past.hows|);
    forall i | t < i < |past.es|
      ensures !past.es[i].Passed?
    {
      NoPassWithoutAttach(past, t, i);
    }
    j := ThirdStartRestores(past, t, |past.es|);
  }

  /** A pass after an offer is taken is on a later day, which attaches. */
  lemma NoPassWithoutAttach(past: Past, t: nat, i: nat)
    requires past.Valid() && t < i < |past.es| && past.es[t].Taken?
    requires forall day :: day in DaysFrom(past.hows, t + 1, |past.hows|) ==> !day.attaches
    ensures !past.es[i].Passed?
  {
    hide Past.Lived, Run, LastTaken, InFlight, StandingIn, Restored, Listed, TextOf, Acts, Passes, Leaves, Orderly,
         Update.Complete, Held, Makes, OfferingStep, BootOnTrial;
    PastAt(past, i);
    if past.es[i].Passed? {
      AttachingKeeps(past.AimAt(i), past.ms[i], past.es[i], past.hows[i], past.ms[i + 1]);
      PastAt(past, i - 1);
      PastAt(past, i - 2);
      if i - 2 > t {
        DayOfStart(past.hows, t + 1, i - 2, |past.hows|);
      } else {
        PastAt(past, t);
        TakenIsOffered(past.AimAt(t), past.ms[t], past.es[t], past.hows[t], past.ms[t + 1]);
        TakenInABootWithout(past, t);
      }
    }
  }

  lemma TakenIsOffered(aim: Renewal, a: Medium, e: Event, how: How, b: Medium)
    requires Step(aim, a, e, how, b) && e.Taken?
    ensures how.phase.Offering?
  {
    hide StandingIn, InFlight, Restored, Leaves, Orderly, Update.Complete, ManifestOf, VersionOf;
  }

  /** The boot that takes an offer found nothing on trial. */
  lemma TakenInABootWithout(past: Past, t: nat)
    requires past.Valid() && 0 < t < |past.es| && past.es[t].Taken? && past.hows[t].phase.Offering?
    requires past.hows[t - 1].phase.Starting?
    ensures !BootOnTrial(past.ls, past.hows, t + 1)
  {
    hide Past.Lived, Run, LastTaken, InFlight, StandingIn, Restored, Listed, TextOf, Acts, Passes, OfferingStep, Held;
    PastAt(past, t);
    PastAt(past, t - 1);
    TakenBegins(past.ls[t], past.es[t], past.ls[t + 1]);
    if StartOf(past.ls[t - 1].s).OnTrial? {
      StartKeepsTrial(past.ls[t - 1], past.es[t - 1], past.ls[t]);
    }
  }

  lemma StartKeepsTrial(a: Life, e: Event, b: Life)
    requires Makes(a, e, b) && (e.Nothing? || IsStart(e)) && StartOf(a.s).OnTrial?
    ensures b.s.trial.Some?
  {
  }

  lemma {:induction false} DayOfStart(hows: seq<How>, i: nat, s: nat, k: nat)
    requires i <= s < k <= |hows| && hows[s].phase.Starting?
    ensures hows[s].day in DaysFrom(hows, i, k)
    decreases k
  {
    if s < k - 1 {
      DayOfStart(hows, i, s, k - 1);
    }
  }

  /** And a set on trial that attaches passes: on a day that attaches and with the
      power on, where nothing fails, a start that finds a set on trial ends with
      its serial recorded as passed. */
  lemma AttachPasses(past: Past, i: nat)
    requires past.Valid() && AllFollowedUp(past, |past.hows|) && i < |past.es| && past.hows[i].phase.Starting?
    requires StartOf(past.ls[i].s).OnTrial? && |TextOf(NextStart(past.ls[i].s))| <= STATE_SPACE
    requires past.hows[i].day.attaches
    requires forall k :: i <= k < |past.es| && k <= i + 2 ==> !past.hows[k].cut && !past.hows[k].failed
    ensures i + 2 < |past.es| && past.es[i + 2].Passed? && past.es[i + 2].onMedium
    ensures past.ls[i + 3].s == PassedState(NextStart(past.ls[i].s), past.ls[i].s.trial.value.0)
  {
    hide Past.Lived, Run, LastTaken, InFlight, StandingIn, Restored, Listed, TextOf, Acts, OfferingStep, Held,
         BootOnTrial, Above;
    assert FollowedUp(past, i);
    PastAt(past, i);
    PastAt(past, i + 1);
    StartCounts(past.ls[i], past.es[i], past.ls[i + 1]);
    assert FollowedUp(past, i + 1);
    PastAt(past, i + 2);
  }

  lemma StartCounts(a: Life, e: Event, b: Life)
    requires Makes(a, e, b) && IsStart(e) && StartOf(a.s).OnTrial?
    ensures b.s == NextStart(a.s) && b.s.trial.Some? && b.s.trial.value.0 == a.s.trial.value.0
  {
  }

  /** So of any life of any medium: no serial it remembers is ever lowered, one
      that passed, failed or was declined on it is never taken again, and the
      machine's minimum is not lowered either, unless a serial below it was taken
      while it could not be read, or another medium overtook or lowered it. */
  lemma NothingIsForgotten(past: Past, i: nat, j: nat)
    requires past.Valid() && i < j < |past.es|
    ensures past.ls[i].s.min <= past.ls[j].s.min && past.ls[i].s.failed <= past.ls[j].s.failed
            && TrialSound(past.ls[j].s)
    ensures Can(past.ls[i], past.es[i])
    ensures Settles(past.ls[i], past.es[i]).Some? && past.es[j].Taken? ==>
              Settles(past.ls[i], past.es[i]).value < past.es[j].serial
    ensures (forall k :: 0 <= k < j ==> !Disturbs(past.ls[k], past.es[k])) ==> past.ls[i].nv <= past.ls[j].nv
    ensures (forall k :: 0 <= k < j ==> !past.hows[k].failed && !past.hows[k].phase.Away?) ==>
              past.ls[i].nv <= past.ls[j].nv
  {
    hide TrialSound, Disturbs, Past.Lived, Run, Step, After;
    PastAt(past, i);
    FirstIsSound(past);
    RunKeeps(past.ls, past.es, 0, i);
    RunKeeps(past.ls, past.es, i, j);
    if Settles(past.ls[i], past.es[i]).Some? && past.es[j].Taken? {
      SettledIsNeverTaken(past.ls, past.es, i, j);
    }
    if forall k :: 0 <= k < j ==> !past.hows[k].failed && !past.hows[k].phase.Away? {
      DisturbedByFailureOrAway(past, j);
    }
    if forall k :: 0 <= k < j ==> !Disturbs(past.ls[k], past.es[k]) {
      MinimumKeptUnlessDisturbed(past.ls, past.es, j);
    }
  }

  lemma DisturbedByFailureOrAway(past: Past, j: nat)
    requires past.Valid() && j <= |past.es|
    requires forall k :: 0 <= k < j ==> !past.hows[k].failed && !past.hows[k].phase.Away?
    ensures forall k :: 0 <= k < j ==> !Disturbs(past.ls[k], past.es[k])
  {
    hide Held, StandingIn, Past.Lived, LastTaken, Acts, Passes, BootOnTrial, InFlight, Restored, TextOf, ManifestOf;
    forall k | 0 <= k < j
      ensures !Disturbs(past.ls[k], past.es[k])
    {
      PastAt(past, k);
    }
  }

  lemma FirstIsSound(past: Past)
    requires past.Valid()
    ensures TrialSound(past.ls[0].s) && Above(past.ls[0])
  {
    PastAt(past, 0);
  }

  // ------------------------------------------------------------- living it

  /** The power goes, unless it is to stay, or does not; either way the next step
      finds one of the media this one passed through. */
  method Rest(vol: Vol, stays: bool) returns (cut: bool)
    requires vol.Valid()
    modifies vol
    ensures vol.Valid() && vol.seen == {vol.now}
    ensures vol.now in old(vol.seen) && vol.faults == old(vol.faults) && (!cut ==> vol.now == old(vol.now))
    ensures stays ==> !cut
  {
    cut := *;
    cut := cut && !stays;
    if cut {
      var left :| left in vol.seen;
      vol.now := left;
    }
    vol.seen := {vol.now};
  }

  ghost predicate SomeFailed(hows: seq<How>) {
    exists i :: 0 <= i < |hows| && hows[i].failed
  }

  /** The past goes on from `past` to `next` by these days, and steps that failed
      only if an operation did. */
  ghost predicate GoesOn(past: Past, next: Past, days: seq<Day>, failed: bool) {
    && Continues(past, next)
    && DaysOf(next.hows) == DaysOf(past.hows) + days
    && (SomeFailed(next.hows) ==> SomeFailed(past.hows) || failed)
  }

  lemma GoesOnByOne(past: Past, next: Past, how: How)
    requires Continues(past, next) && next.hows == past.hows + [how]
    ensures GoesOn(past, next, if how.phase.Starting? then [how.day] else [], how.failed)
  {
    DaysOfMore(past.hows, how);
    if SomeFailed(next.hows) && !how.failed {
      var i :| 0 <= i < |next.hows| && next.hows[i].failed;
      assert past.hows[i].failed;
    }
  }

  lemma GoesOnTwice(a: Past, b: Past, c: Past, i: seq<Day>, j: seq<Day>, early: bool, late: bool)
    requires GoesOn(a, b, i, early) && GoesOn(b, c, j, late)
    ensures GoesOn(a, c, i + j, early || late)
  {
    hide SomeFailed, DaysOf;
    assert DaysOf(a.hows) + i + j == DaysOf(a.hows) + (i + j);
  }

  /** Nothing of the day was left out: the offer follows a start that was not cut
      off and gave nothing up; the attach, if there is one, an offer that was
      neither cut off nor taken; and what other media do to the minimum comes last. */
  predicate FollowedUp(past: Past, k: nat)
    requires k < |past.hows| == |past.es| < |past.ls|
  {
    var how, next := past.hows[k], k + 1;
    && (how.phase.Starting? && !how.cut && !StartOf(past.ls[k].s).GiveUp? ==>
          next < |past.hows| && past.hows[next].phase.Offering?)
    && (how.phase.Offering? && !how.cut && !past.es[k].Taken? && how.day.attaches ==>
          next < |past.hows| && past.hows[next].phase.Attaching?)
    && (how.day.elsewhere.Some? && (next < |past.hows| ==> past.hows[next].phase.Starting?) ==> how.phase.Away?)
  }

  predicate AllFollowedUp(past: Past, n: nat)
    requires n <= |past.hows| == |past.es| < |past.ls|
  {
    forall k :: 0 <= k < n ==> FollowedUp(past, k)
  }

  /** What has been followed up stays so, and the step before the last is settled
      by the last. */
  lemma FollowedOn(past: Past, next: Past)
    requires |past.hows| == |past.es| < |past.ls| && Continues(past, next)
    requires |next.hows| == |next.es| < |next.ls| && |past.hows| <= |next.hows|
    requires AllFollowedUp(past, |past.hows|)
    requires |next.hows| > |past.hows| ==> next.hows[|past.hows|].phase.Starting?
    ensures AllFollowedUp(next, |past.hows|)
  {
    hide StartOf;
    forall k | 0 <= k < |past.hows|
      ensures FollowedUp(next, k)
    {
      assert FollowedUp(past, k);
    }
  }

  /** The steps a boot makes of a day, in turn, with none left out. */
  ghost predicate Ran(past: Past, next: Past, day: Day) {
    var n := |past.hows|;
    && n == |past.es| < |past.ls| && n < |next.hows| == |next.es| < |next.ls| && Continues(past, next)
    && (forall k :: n <= k < |next.hows| ==> next.hows[k].day == day)
    && next.hows[n].phase.Starting?
    && (!next.hows[n].cut && !StartOf(next.ls[n].s).GiveUp? ==> n + 1 < |next.hows|)
    && (n + 1 < |next.hows| ==>
          && next.hows[n + 1].phase.Offering?
          && (!next.hows[n + 1].cut && !next.es[n + 1].Taken? && day.attaches ==> n + 2 < |next.hows|))
    && (n + 2 < |next.hows| ==> next.hows[n + 2].phase.Attaching?)
    && |next.hows| <= n + 3
  }

  lemma RanBegun(past: Past, next: Past, how: How)
    requires |past.hows| == |past.es| < |past.ls| && Continues(past, next)
    requires next.hows == past.hows + [how] && how.phase.Starting? && |next.hows| == |next.es| < |next.ls|
    requires how.cut || StartOf(next.ls[|past.hows|].s).GiveUp?
    ensures Ran(past, next, how.day)
  {
    hide StartOf;
  }

  lemma RanChecked(past: Past, begun: Past, next: Past, day: Day)
    requires |past.hows| == |past.es| < |past.ls| && Continues(past, begun) && Continues(begun, next)
    requires |begun.hows| == |past.hows| + 1 == |begun.es| && |next.hows| == |past.hows| + 2 == |next.es| < |next.ls|
    requires var a, b := begun.hows[|past.hows|], next.hows[|past.hows| + 1];
             && a.phase.Starting? && b.phase.Offering? && a.day == b.day == day
             && (b.cut || next.es[|past.hows| + 1].Taken? || !day.attaches)
    ensures Ran(past, next, day)
  {
    hide StartOf;
  }

  lemma RanAttached(past: Past, begun: Past, checked: Past, next: Past, day: Day)
    requires |past.hows| == |past.es| < |past.ls|
    requires Continues(past, begun) && Continues(begun, checked) && Continues(checked, next)
    requires |begun.hows| == |past.hows| + 1 == |begun.es| && |checked.hows| == |past.hows| + 2 == |checked.es|
    requires |next.hows| == |past.hows| + 3 == |next.es| < |next.ls|
    requires var n := |past.hows|;
             && begun.hows[n].phase.Starting? && begun.hows[n].day == day
             && checked.hows[n + 1].phase.Offering? && checked.hows[n + 1].day == day
             && next.hows[n + 2].phase.Attaching? && next.hows[n + 2].day == day
    ensures Ran(past, next, day)
  {
    hide StartOf;
  }

  /** The steps of one day, followed up: those of its boot, and what other media do
      after it. */
  lemma DayFollowedUp(past: Past, ran: Past, next: Past, day: Day)
    requires Ran(past, ran, day) && AllFollowedUp(past, |past.hows|)
    requires |next.hows| == |next.es| < |next.ls|
    requires if day.elsewhere.None? then next == ran
             else Continues(ran, next) && |next.hows| == |ran.hows| + 1
                  && next.hows[|ran.hows|].phase.Away? && next.hows[|ran.hows|].day == day
    ensures AllFollowedUp(next, |next.hows|)
  {
    hide StartOf;
    FollowedOn(past, next);
    forall k | |past.hows| <= k < |next.hows|
      ensures FollowedUp(next, k)
    {
      assert next.hows[k].day == day && (k > |past.hows| ==> !next.hows[k].phase.Starting?);
      assert k + 1 < |next.hows| ==> !next.hows[k + 1].phase.Starting?;
    }
  }

  /** One boot: the set on trial is put back or counted, then perhaps an offer, then
      perhaps an attach, and the power may go at any step. */
  method Boot(vol: Vol, nvMin: nat, day: Day, ghost past: Past) returns (nvAfter: nat, ghost next: Past)
    requires vol.Valid() && vol.seen == {vol.now} && past.CameTo(vol.now, nvMin)
    modifies vol
    ensures vol.Valid() && vol.seen == {vol.now} && next.CameTo(vol.now, nvAfter)
    ensures old(vol.faults) <= vol.faults && GoesOn(past, next, [day], old(vol.faults) < vol.faults)
    ensures Ran(past, next, day)
  {
    hide Past.Lived, GoesOn, BootOnTrial, BootCounted, StartOf, Held, Past.Aim, Continues, StandingIn, Ran;
    assert [day] + [] == [day];
    var machine := new Machine(vol, nvMin);
    var chain, cut;
    chain, cut, next := Begin(machine, day, past);
    nvAfter := nvMin;
    ghost var begun, early, faults := next, old(vol.faults) < vol.faults, vol.faults;
    GoneOn(past, begun, [day], early);
    if chain || cut {
      RanBegun(past, begun, begun.hows[|past.hows|]);
      return;
    }
    var over;
    over, next := Check(machine, day, begun);
    ghost var checked := next;
    GoneOn(begun, checked, [], faults < vol.faults);
    GoesOnTwice(past, begun, checked, [day], [], early, faults < vol.faults);
    if over || !day.attaches {
      RanChecked(past, begun, checked, day);
      return;
    }
    early, faults := old(vol.faults) < vol.faults, vol.faults;
    nvAfter, next := Attach(machine, day, checked);
    GoneOn(checked, next, [], faults < vol.faults);
    GoesOnTwice(past, checked, next, [day], [], early, faults < vol.faults);
    RanAttached(past, begun, checked, next, day);
  }

  /** One day: a boot, and then what other media make of the machine's minimum. */
  method OneStart(vol: Vol, nvMin: nat, day: Day, ghost past: Past) returns (nvAfter: nat, ghost next: Past)
    requires vol.Valid() && vol.seen == {vol.now} && past.CameTo(vol.now, nvMin)
    requires AllFollowedUp(past, |past.hows|)
    modifies vol
    ensures vol.Valid() && vol.seen == {vol.now} && next.CameTo(vol.now, nvAfter)
    ensures old(vol.faults) <= vol.faults && GoesOn(past, next, [day], old(vol.faults) < vol.faults)
    ensures AllFollowedUp(next, |next.hows|)
  {
    hide Past.Lived, GoesOn, StartOf, Held, Past.Aim, StandingIn, AllFollowedUp;
    assert [day] + [] == [day];
    nvAfter, next := Boot(vol, nvMin, day, past);
    ghost var ran := next;
    if day.elsewhere.Some? {
      next := Leave(ran, day, vol.now, nvAfter);
      nvAfter := day.elsewhere.value;
      GoneOn(ran, next, [], false);
      GoesOnTwice(past, ran, next, [day], [], old(vol.faults) < vol.faults, false);
    }
    DayFollowedUp(past, ran, next, day);
  }

  lemma GoneOn(past: Past, next: Past, days: seq<Day>, failed: bool)
    requires GoesOn(past, next, days, failed)
    ensures Continues(past, next)
  {
  }

  /** Another medium's turn: nothing happens to this one. */
  lemma Leave(past: Past, day: Day, m: Medium, nv: nat) returns (next: Past)
    requires past.CameTo(m, nv) && day.elsewhere.Some? && past.hows != [] && past.hows[|past.hows| - 1].day == day
    ensures next.CameTo(m, day.elsewhere.value) && GoesOn(past, next, [], false)
    ensures next.hows == past.hows + [How(Away, false, false, None, day)]
    ensures next.es == past.es + [Elsewhere(day.elsewhere.value)] && past.ls <= next.ls
  {
    hide Past.Lived, StandingIn, Held, BootOnTrial, BootCounted, Past.Aim, GoesOn;
    var how, e := How(Away, false, false, None, day), Elsewhere(day.elsewhere.value);
    next := OneMore(past, e, how, m, day.elsewhere.value);
    GoesOnByOne(past, next, how);
  }

  method Begin(machine: Machine, day: Day, ghost past: Past) returns (chain: bool, cut: bool, ghost next: Past)
    requires machine.vol.Valid() && machine.vol.seen == {machine.vol.now} && machine.trial == 0
    requires past.CameTo(machine.vol.now, machine.nvMin)
    modifies machine`trial, machine.vol
    ensures machine.vol.Valid() && machine.vol.seen == {machine.vol.now}
    ensures next.CameTo(machine.vol.now, machine.nvMin) && past.ls <= next.ls
    ensures next.hows == past.hows + [How(Starting, cut, old(machine.vol.faults) < machine.vol.faults, None, day)]
    ensures |next.es| == |past.es| + 1 && past.es <= next.es
    ensures old(machine.vol.faults) <= machine.vol.faults
    ensures GoesOn(past, next, [day], old(machine.vol.faults) < machine.vol.faults)
    ensures chain ==> StartOf(past.ls[|past.es|].s).GiveUp?
    ensures machine.trial != 0 ==> BootOnTrial(next.ls, next.hows, |next.hows|)
    ensures BootCounted(next.ls, next.hows, |next.hows|) ==> machine.OnTrialHere()
  {
    hide Held, StandingIn, Makes, NextStart, Continues, GoesOn, Restored, TextOf, Past.Lived, LastTaken, Step, Listed,
         InFlight, BootOnTrial, BootCounted, StartOf, Acts;
    ghost var start, aim := machine.vol.now, past.Aim();
    TrialIsNotZero(past, start, machine.nvMin);
    chain := machine.AtStart(aim);
    cut := Rest(machine.vol, day.steady);
    ghost var how := How(Starting, cut, old(machine.vol.faults) < machine.vol.faults, None, day);
    ghost var e := StartIsAnEvent(StandingIn(start), machine.nvMin, StandingIn(machine.vol.now));
    StartIsAStep(aim, start, e, how, machine.vol.now);
    OnlyOffersAct(machine.nvMin, start, e, how, machine.vol.now);
    next := OneMore(past, e, how, machine.vol.now, machine.nvMin);
    GoesOnByOne(past, next, how);
    if machine.trial != 0 {
      BootBegins(past, next, how);
    }
    if BootCounted(next.ls, next.hows, |next.hows|) {
      CountedJustNow(past, next, how);
      NextIsOnTrial(StandingIn(start));
    }
  }

  /** A serial on trial was above others when it was taken. */
  lemma TrialIsNotZero(past: Past, m: Medium, nv: nat)
    requires past.CameTo(m, nv)
    ensures StandingIn(m).trial.Some? ==> StandingIn(m).trial.value.0 > 0
  {
    hide Held, StandingIn, Past.Lived, Past.Aim;
    FirstIsSound(past);
    PastAt(past, |past.es|);
    RunKeeps(past.ls, past.es, 0, |past.es|);
  }

  lemma NextIsOnTrial(s: State)
    requires StartOf(s).OnTrial?
    ensures s.trial.Some? && NextStart(s).trial.Some? && NextStart(s).trial.value.0 == s.trial.value.0
  {
  }

  lemma CountedJustNow(past: Past, next: Past, how: How)
    requires next.hows == past.hows + [how] && past.ls <= next.ls && |past.ls| == |past.hows| + 1
    requires |next.ls| >= |next.hows| && BootCounted(next.ls, next.hows, |next.hows|) && how.phase.Starting?
    ensures !how.cut && !how.failed && StartOf(past.ls[|past.hows|].s).OnTrial?
    ensures |TextOf(NextStart(past.ls[|past.hows|].s))| <= STATE_SPACE
  {
    hide StartOf, TextOf, NextStart;
  }

  lemma CountedBefore(past: Past, next: Past, how: How)
    requires next.hows == past.hows + [how] && past.ls <= next.ls && |past.ls| >= |past.hows|
    requires |next.ls| >= |next.hows| && how.phase.Offering?
    ensures BootCounted(next.ls, next.hows, |next.hows|) ==> BootCounted(past.ls, past.hows, |past.hows|)
  {
    hide StartOf, TextOf, NextStart;
  }

  lemma OnlyOffersAct(nv: nat, a: Medium, e: Event, how: How, b: Medium)
    requires !how.phase.Offering? || StandingIn(a).trial.Some?
    ensures Acts(nv, a, e, how, b)
  {
  }

  lemma BootBegins(past: Past, next: Past, how: How)
    requires how.phase.Starting? && next.hows == past.hows + [how] && past.ls <= next.ls
    requires |past.ls| == |past.hows| + 1 && |next.ls| >= |next.hows| && StartOf(past.ls[|past.hows|].s).OnTrial?
    ensures BootOnTrial(next.ls, next.hows, |next.hows|)
  {
  }

  lemma BootGoesOn(past: Past, next: Past, how: How)
    requires how.phase.Offering? && next.hows == past.hows + [how] && past.ls <= next.ls
    requires |past.ls| >= |past.hows| && |next.ls| >= |next.hows| && BootOnTrial(past.ls, past.hows, |past.hows|)
    ensures BootOnTrial(next.ls, next.hows, |next.hows|)
  {
    BootOf(past.ls, past.hows, next.ls, next.hows, |past.hows|);
  }

  lemma StartIsAStep(aim: Renewal, a: Medium, e: Event, how: How, b: Medium)
    requires how.phase.Starting? && how.plan.None? && (how.day.steady ==> !how.cut)
    requires (e.Nothing? || IsStart(e)) && (e.Nothing? <==> StandingIn(b) == StandingIn(a))
    requires if StartOf(StandingIn(a)).GiveUp? then InFlight(aim, Listed(StandingIn(a)), b.files)
             else b.files == a.files
    requires StandingIn(b) == NextStart(StandingIn(a)) && StandingIn(a).trial.Some? ==> IsStart(e)
    requires !how.failed && StartOf(StandingIn(a)).GiveUp? ==>
               && (how.cut || StandingIn(b) == NextStart(StandingIn(a)))
               && (StandingIn(b) == StandingIn(a) || Restored(aim.was, Listed(StandingIn(a)), b.files))
    requires (&& !how.cut && !how.failed && StartOf(StandingIn(a)).OnTrial?
              && |TextOf(NextStart(StandingIn(a)))| <= STATE_SPACE) ==>
               StandingIn(b) == NextStart(StandingIn(a))
    ensures Step(aim, a, e, how, b)
  {
    hide StandingIn, NextStart, Restored, TextOf, Listed, InFlight;
  }

  method Check(machine: Machine, day: Day, ghost past: Past) returns (over: bool, ghost next: Past)
    requires machine.vol.Valid() && machine.vol.seen == {machine.vol.now}
    requires past.CameTo(machine.vol.now, machine.nvMin)
    requires past.hows != [] && past.hows[|past.hows| - 1].phase.Starting? && past.hows[|past.hows| - 1].day == day
    requires machine.trial != 0 ==> BootOnTrial(past.ls, past.hows, |past.hows|)
    requires BootCounted(past.ls, past.hows, |past.hows|) ==> machine.OnTrialHere()
    modifies machine.vol
    ensures machine.vol.Valid() && machine.vol.seen == {machine.vol.now}
    ensures next.CameTo(machine.vol.now, machine.nvMin) && past.ls <= next.ls
    ensures |next.hows| == |past.hows| + 1 && past.hows <= next.hows && past.es <= next.es
    ensures var how := next.hows[|past.hows|];
            && how.phase.Offering? && how.day == day
            && (over ==> how.cut || next.es[|past.es|].Taken?)
    ensures old(machine.vol.faults) <= machine.vol.faults
    ensures GoesOn(past, next, [], old(machine.vol.faults) < machine.vol.faults)
    ensures machine.trial != 0 ==> BootOnTrial(next.ls, next.hows, |next.hows|)
    ensures BootCounted(next.ls, next.hows, |next.hows|) ==> machine.OnTrialHere()
  {
    hide Held, Makes, RestartsInto, NoUnnamedDriver, StandingIn, Continues, GoesOn, TextOf, ManifestOf, Past.Lived,
         LastTaken, Drivers, BootOnTrial, AllKept, AllOrderly, AllOffered, Wanted, AllServed, Noted, NotedIn, Offers,
         Update.Complete, Update.Fits, Step, AimAfter, BootCounted, Acts, Past.Aim, Orderly, CanGoOn, Answered, InTurn;
    ghost var start := machine.vol.now;
    var restart;
    ghost var known, plan, early;
    restart, known, plan, early := machine.TryUpdate(day.asked, day.served, day.room);
    ghost var seen, ended := machine.vol.seen, machine.vol.now;
    if restart {
      RestartHasATrial(start, ended, ManifestOf(day.asked.text).value);
    }
    var cut := Rest(machine.vol, false);
    over := cut || restart;
    ghost var how := How(Offering, cut, old(machine.vol.faults) < machine.vol.faults, plan, day);
    AnsweredSo(start, machine.nvMin, !known, how, machine.vol.now, ended, seen, restart);
    ghost var e := OfferHappens(past, start, machine.nvMin, !known, how, machine.vol.now, ended, restart);
    next := OneMore(past, e, how, machine.vol.now, machine.nvMin);
    GoesOnByOne(past, next, how);
    if machine.trial != 0 {
      BootGoesOn(past, next, how);
    }
    CountedBefore(past, next, how);
  }

  /** What `try_update` promises of the medium it was left with, and of `m`, one
      that the power going may have left instead. */
  ghost predicate Answered(start: Medium, nv: nat, unread: bool, how: How, m: Medium, ended: Medium, restart: bool) {
    var q := how.day.asked;
    && (unread ==> how.failed) && (!how.cut ==> m == ended)
    && if StandingIn(start).trial.Some? then m == start && how.plan.None? && !restart
       else
         && Offers(start, if unread then 0 else nv, q, how.plan, m)
         && (how.plan.Some? && !how.day.room ==> m == start)
         && (!how.failed && how.plan.Some? ==> Orderly(how.plan.value, start, m))
         && (!how.failed && StandingIn(ended).trial.Some? ==> restart)
         && (restart ==>
               how.plan.Some? && how.plan.value.u.Complete(start, ended) && StandingIn(ended).trial.Some?)
         && (!how.failed && ManifestOf(q.text).Ok? ==>
               var n := ManifestOf(q.text).value;
               && (how.day.room && Wanted(start, n, nv, q) && AllServed(start.files, n.files, how.day.served) ==>
                     how.plan.Some? && (how.plan.value.u.Fits() ==> restart))
               && NotedIn(Noted(start, n, nv, q), ended))
  }

  lemma AnsweredSo(start: Medium, nv: nat, unread: bool, how: How, m: Medium, ended: Medium, seen: set<Medium>,
                   restart: bool)
    requires m in seen && (unread ==> how.failed) && (!how.cut ==> m == ended)
    requires StandingIn(start).trial.Some? ==> !restart && how.plan.None? && seen == {start}
    requires StandingIn(start).trial.None? ==>
               AllOffered(start, if unread then 0 else nv, how.day.asked, how.plan, seen)
    requires !how.failed ==> AllOrderly(start, how.plan, seen)
    requires how.plan.Some? && !how.day.room ==> seen == {start}
    requires !how.failed && StandingIn(ended).trial.Some? && StandingIn(start).trial.None? ==> restart
    requires restart ==> how.plan.Some? && how.plan.value.u.Complete(start, ended) && StandingIn(ended).trial.Some?
    requires var q := how.day.asked;
             !how.failed && ManifestOf(q.text).Ok? ==>
               var n := ManifestOf(q.text).value;
               && (how.day.room && Wanted(start, n, nv, q) && AllServed(start.files, n.files, how.day.served) ==>
                     how.plan.Some? && (how.plan.value.u.Fits() ==> restart))
               && NotedIn(Noted(start, n, nv, q), ended)
    ensures Answered(start, nv, unread, how, m, ended, restart)
  {
    hide Offers, Orderly, StandingIn, ManifestOf, Wanted, AllServed, Noted, NotedIn, Update.Complete, Update.Fits,
         AllOffered, AllOrderly;
    if StandingIn(start).trial.None? {
      OneOfAll(start, if unread then 0 else nv, how.day.asked, how.plan, seen, m);
    }
  }

  /** So the past can go on by what was done about the offer. */
  lemma OfferHappens(past: Past, start: Medium, nv: nat, unread: bool, how: How, m: Medium, ended: Medium,
                     restart: bool)
    returns (e: Event)
    requires past.CameTo(start, nv) && how.phase.Offering?
    requires past.hows != [] && past.hows[|past.hows| - 1].phase.Starting? && past.hows[|past.hows| - 1].day == how.day
    requires Answered(start, nv, unread, how, m, ended, restart)
    ensures CanGoOn(past, e, how, m, nv) && !e.Passed? && (restart ==> how.cut || e.Taken?)
  {
    hide Held, Makes, StandingIn, TextOf, ManifestOf, Past.Lived, LastTaken, BootOnTrial, Wanted, AllServed, Noted,
         NotedIn, Offers, Update.Complete, Update.Fits, Step, AimAfter, BootCounted, Acts, Past.Aim, Orderly;
    e := Nothing;
    if StandingIn(start).trial.None? {
      e := OfferIsAStep(past.Aim(), start, nv, unread, how, m);
      OfferIsHeld(past, start, nv, e, how, m);
      OfferActs(nv, start, e, how, m, ended, restart);
      RestartIsTaken(start, e, how, m, restart, ended);
    } else {
      NothingMakesItself(LifeOf(start, nv));
      NothingIsAStep(past, start, how);
      OnlyOffersAct(nv, start, e, how, m);
    }
  }

  lemma OneOfAll(start: Medium, nvMin: nat, q: Asked, plan: Option<Proposal>, seen: set<Medium>, m: Medium)
    requires m in seen && AllOffered(start, nvMin, q, plan, seen)
    ensures Offers(start, nvMin, q, plan, m)
    ensures AllOrderly(start, plan, seen) && plan.Some? ==> Orderly(plan.value, start, m)
  {
    hide Offers, Orderly;
  }

  lemma OfferIsAStep(aim: Renewal, start: Medium, nv: nat, unread: bool, how: How, m: Medium) returns (e: Event)
    requires StandingIn(start).trial.None? && how.phase.Offering?
    requires Offers(start, if unread then 0 else nv, how.day.asked, how.plan, m) && (unread ==> how.failed)
    requires how.plan.Some? && !how.day.room ==> m == start
    requires !how.failed && how.plan.Some? ==> Orderly(how.plan.value, start, m)
    requires !how.failed && !how.cut && StandingIn(m).trial.Some? ==>
               how.plan.Some? && how.plan.value.u.Complete(start, m)
    ensures Makes(LifeOf(start, nv), e, LifeOf(m, nv)) && Step(aim, start, e, how, m)
    ensures !e.Passed? && (e.Taken? <==> StandingIn(m).trial.Some?)
  {
    hide StandingIn, Orderly, Update.Complete, Makes, ManifestOf, OfferStep, Proposal.For, Quiet, InFlight, Unread,
         Called, IsAbout, VersionOf, AllCarried, PlannedFor;
    e := OfferIsAnEvent(StandingIn(start), nv, unread, how.day.asked, StandingIn(m));
    if how.plan.Some? {
      CalledIsForIt(how.plan.value, StandingIn(start), if unread then 0 else nv, how.day.asked);
    }
    if e.Adopted? {
      AdoptedIsNotOlder(e, how.day.asked);
      NotTheSame(StandingIn(start), nv, e, StandingIn(m));
    }
  }

  lemma CalledIsForIt(p: Proposal, a: State, nvMin: nat, q: Asked)
    requires Called(a, nvMin, q) && ManifestOf(q.text) == Ok(p.m) && VersionOf(p.m, q) == VersionOk
    ensures PlannedFor(p, q)
  {
    hide VersionOf;
    UpdateExactlyWhen(p.m.serial, a, nvMin, p.m.ForMachine(q.mac));
  }

  lemma AdoptedIsNotOlder(e: Event, q: Asked)
    requires IsAbout(e, q) && e.Adopted?
    ensures VersionOf(ManifestOf(q.text).value, q) == VersionOk
  {
    hide ManifestOf, VersionOf;
  }

  lemma NotTheSame(a: State, nv: nat, e: Event, b: State)
    requires Makes(Life(a, nv), e, Life(b, nv)) && e.Adopted?
    ensures b != a
  {
  }

  lemma OfferActs(nv: nat, start: Medium, e: Event, how: How, m: Medium, ended: Medium, restart: bool)
    requires how.phase.Offering? && (e.Taken? <==> StandingIn(m).trial.Some?)
    requires !how.cut ==> m == ended
    requires restart ==> how.plan.Some? && how.plan.value.u.Complete(start, ended) && StandingIn(ended).trial.Some?
    requires var q := how.day.asked;
             !how.failed && ManifestOf(q.text).Ok? ==>
               var n := ManifestOf(q.text).value;
               && (how.day.room && Wanted(start, n, nv, q) && AllServed(start.files, n.files, how.day.served) ==>
                     how.plan.Some? && (how.plan.value.u.Fits() ==> restart))
               && NotedIn(Noted(start, n, nv, q), ended)
    ensures Acts(nv, start, e, how, m)
  {
    hide StandingIn, ManifestOf, Wanted, AllServed, Noted, NotedIn, Update.Complete, Update.Fits;
  }

  lemma RestartHasATrial(start: Medium, ended: Medium, m: Manifest)
    requires RestartsInto(start, ended, m)
    ensures StandingIn(ended).trial.Some?
  {
    hide StandingIn, Carried;
  }

  lemma RestartIsTaken(start: Medium, e: Event, how: How, m: Medium, restart: bool, ended: Medium)
    requires (e.Taken? <==> StandingIn(m).trial.Some?) && (!how.cut ==> m == ended)
    requires restart ==> StandingIn(ended).trial.Some?
    ensures restart ==> how.cut || e.Taken?
  {
    hide StandingIn;
  }

  lemma OfferIsHeld(past: Past, start: Medium, nv: nat, e: Event, how: How, m: Medium)
    requires past.Valid() && past.ms[|past.es|] == start && StandingIn(start).trial.None?
    requires Makes(LifeOf(start, nv), e, LifeOf(m, nv)) && how.phase.Offering? && Step(past.Aim(), start, e, how, m)
    ensures Held(AimAfter(past, e, how), m)
  {
    hide Makes, Held, Past.Lived, LastTaken, StandingIn, Leaves, Proposal.For, Orderly, Update.Complete, Past.Aim;
    if e.Taken? {
      LeftIsHeld(how.plan.value, start, m);
    } else {
      OnlyTakenBegins(LifeOf(start, nv), e, LifeOf(m, nv));
      NoTrialIsHeld(past.Aim(), m);
    }
  }

  lemma NoTrialIsHeld(aim: Renewal, m: Medium)
    requires StandingIn(m).trial.None?
    ensures Held(aim, m)
  {
    hide StateIn;
  }

  lemma NothingIsAStep(past: Past, start: Medium, how: How)
    requires past.Valid() && past.ms[|past.es|] == start && StandingIn(start).trial.Some?
    requires how.phase.Offering? && how.plan.None?
    ensures Step(past.Aim(), start, Nothing, how, start) && AimAfter(past, Nothing, how) == past.Aim()
  {
    hide Past.Lived, StandingIn, Past.Aim;
  }

  lemma NothingMakesItself(l: Life)
    ensures Makes(l, Nothing, l)
  {
  }

  method Attach(machine: Machine, day: Day, ghost past: Past) returns (nvAfter: nat, ghost next: Past)
    requires machine.vol.Valid() && machine.vol.seen == {machine.vol.now} && day.attaches
    requires past.CameTo(machine.vol.now, machine.nvMin)
    requires past.hows != [] && past.hows[|past.hows| - 1].phase.Offering? && past.hows[|past.hows| - 1].day == day
    requires machine.trial != 0 ==> BootOnTrial(past.ls, past.hows, |past.hows|)
    requires BootCounted(past.ls, past.hows, |past.hows|) ==> machine.OnTrialHere()
    modifies machine`trial, machine`nvMin, machine.vol
    ensures machine.vol.Valid() && machine.vol.seen == {machine.vol.now}
    ensures next.CameTo(machine.vol.now, nvAfter) && past.ls <= next.ls
    ensures |next.hows| == |past.hows| + 1 && past.hows <= next.hows && past.es <= next.es
    ensures next.hows[|past.hows|].phase.Attaching? && next.hows[|past.hows|].day == day
    ensures old(machine.vol.faults) <= machine.vol.faults
    ensures GoesOn(past, next, [], old(machine.vol.faults) < machine.vol.faults)
  {
    hide Held, Makes, StateIn, PassedState, Continues, GoesOn, Restored, Past.Lived, LastTaken, TextOf, BootOnTrial,
         BootCounted, Acts;
    ghost var aim := past.Aim();
    ghost var start, serial, onTrial := machine.vol.now, machine.trial, machine.OnTrialHere();
    var nvMin := machine.nvMin;
    ghost var known, wrote := machine.MarkGood(aim);
    nvAfter := machine.nvMin;
    var cut := Rest(machine.vol, false);
    if cut {
      var early: bool := *;
      nvAfter := if early then nvMin else nvAfter;
    }
    ghost var how := How(Attaching, cut, old(machine.vol.faults) < machine.vol.faults, None, day);
    ghost var e := PassIsAnEvent(StandingIn(start), nvMin, !known, serial, onTrial, StandingIn(machine.vol.now),
                                 nvAfter);
    OnlyOffersAct(nvMin, start, e, how, machine.vol.now);
    if onTrial {
      PassedIsAnother(StandingIn(start), serial);
    }
    next := OneMore(past, e, how, machine.vol.now, nvAfter);
    GoesOnByOne(past, next, how);
  }

  lemma PassedIsAnother(s: State, serial: nat)
    requires s.trial.Some?
    ensures PassedState(s, serial) != s
  {
  }

  /** Any number of days, on any medium with no trial recorded: whatever fails and
      wherever the power goes, what the code does is a past of these events and
      steps, day by day, with nothing of a day left out, and at every moment of it
      what the last offer taken replaced can be put back. */
  method WholeLife(m: Medium, nv: nat, days: seq<Day>) returns (vol: Vol, nvMin: nat, ghost past: Past)
    requires StandingIn(m).trial.None?
    ensures fresh(vol) && vol.Valid()
    ensures past.CameTo(vol.now, nvMin) && past.ls[0] == LifeOf(m, nv) && past.ms[0] == m
    ensures DaysOf(past.hows) == days && AllFollowedUp(past, |past.hows|)
    ensures vol.faults == 0 ==> !SomeFailed(past.hows)
  {
    hide GoesOn, StandingIn, Held, Past.Lived, Past.Aim;
    vol := new Vol(m);
    nvMin := nv;
    ghost var first := Past([LifeOf(m, nv)], [m], [], []);
    past := first;
    Untried(m, nv);
    assert days[..0] == [];
    for i := 0 to |days|
      invariant fresh(vol) && vol.Valid() && vol.seen == {vol.now}
      invariant past.CameTo(vol.now, nvMin) && GoesOn(first, past, days[..i], 0 < vol.faults)
      invariant AllFollowedUp(past, |past.hows|)
    {
      ghost var was, early, faults := past, 0 < vol.faults, vol.faults;
      nvMin, past := OneStart(vol, nvMin, days[i], was);
      assert days[..i + 1] == days[..i] + [days[i]];
      GoesOnTwice(first, was, past, days[..i], [days[i]], early, faults < vol.faults);
    }
    assert days[..|days|] == days;
    Told(first, past, days, 0 < vol.faults);
  }

  lemma Untried(m: Medium, nv: nat)
    requires StandingIn(m).trial.None?
    ensures var first := Past([LifeOf(m, nv)], [m], [], []);
            first.CameTo(m, nv) && GoesOn(first, first, [], false)
  {
    hide StateIn;
  }

  lemma Told(first: Past, past: Past, days: seq<Day>, failed: bool)
    requires GoesOn(first, past, days, failed) && |first.ls| == |first.ms| == 1 && first.hows == []
    ensures |past.ls| > 0 && |past.ms| > 0 && past.ls[0] == first.ls[0] && past.ms[0] == first.ms[0]
    ensures DaysOf(past.hows) == days && (SomeFailed(past.hows) ==> failed)
  {
  }
}
