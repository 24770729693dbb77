/** One machine and its boot medium, start by start (`at_start`, `mark_good`
    and `try_update` in `src/selfupdate.rs`). Each leaves a medium the next
    start can deal with, wherever it is cut off. */
module Session {
  import opened Bytes
  import opened Text
  import opened UpdateState
  import opened Manifests
  import opened BootMedium
  import opened Volume
  import opened SelfUpdate
  import opened Lifecycle
  import opened Offer
  import Versions
  import Sha256

  function StandingIn(m: Medium): State {
    Standing(StateIn(m))
  }

  /** What a start makes of the record it finds. */
  lemma StartsFrom(aim: Renewal, start: Medium)
    requires Held(aim, start)
    ensures var s, state := StandingIn(start), StateIn(start);
            && StartOf(s) == StartOf(state) && Listed(s) == Listed(state)
            && match StartOf(state)
               case Normal => true
               case OnTrial(serial, n) => NextStart(s) == CountedState(state, serial, n) && s.trial.value.0 == serial
               case GiveUp(serial, backTo) =>
                 && NextStart(s) == GivenUpState(state, serial, backTo)
                 && InFlight(aim, Listed(s), start.files)
                 && forall m :: MidUpdate(m, aim, Listed(s), start.state) ==>
                      Held(aim, m) && StandingIn(m) == s && InFlight(aim, Listed(s), m.files)
    ensures forall m, serial, backTo :: StateIn(m) == GivenUpState(StateIn(start), serial, backTo) ==>
              Held(aim, m) && StandingIn(m) == StateIn(m)
    ensures forall m, serial, n :: StateIn(m) == CountedState(StateIn(start), serial, n) ==> StandingIn(m) == StateIn(m)
  {
    hide Clear, InFlight, StateOf, Kept;
  }

  /** If a trial is recorded, what it replaced can be put back. */
  ghost predicate Held(aim: Renewal, m: Medium) {
    StateIn(m).trial.Some? ==>
      Clear(Listed(StateIn(m))) && InFlight(aim, Listed(StateIn(m)), m.files)
  }

  lemma StateInIsReadable(m: Medium)
    ensures Readable(StateIn(m))
  {
    if m.state.Some? {
      AnyTextIsReadable(m.state.value);
    }
  }

  lemma WrittenStateIn(m: Medium, s: State)
    requires Readable(s) && m.state == Some(TextOf(s))
    ensures StateIn(m) == StandingIn(m) == Standing(s)
  {
    WrittenStands(s);
  }

  /** What a check meets: the text of the manifest on offer, the machine's
      address, and the version that runs. */
  datatype Asked = Asked(text: string, mac: Option<string>, running: string)

  class Machine {
    const vol: Vol
    /** What `at_start` found on trial; 0 when nothing was. */
    var trial: nat
    /** The machine's own minimum, in its non-volatile memory. */
    var nvMin: nat

    constructor (vol: Vol, nvMin: nat)
      ensures this.vol == vol && this.nvMin == nvMin && trial == 0
    {
      this.vol, this.nvMin, trial := vol, nvMin, 0;
    }

    /** What a boot begins with. `chain` says the previous set was put back
        and its bootloader is to be started. */
    method AtStart(ghost aim: Renewal) returns (chain: bool)
      requires vol.Valid() && vol.seen == {vol.now} && Held(aim, vol.now)
      modifies this`trial, vol
      ensures vol.Valid() && old(vol.faults) <= vol.faults
      // A power cut anywhere leaves a medium the next start can deal with,
      // whose record stands where it did or has counted or given up.
      ensures forall m :: m in vol.seen ==>
                && Held(aim, m)
                && (StandingIn(m) == StandingIn(old(vol.now)) || StandingIn(m) == NextStart(StandingIn(old(vol.now))))
      // Only a set that had its starts is put back, and with nothing failing
      // it is put back whole before the record says so.
      ensures chain ==> StartOf(StandingIn(old(vol.now))).GiveUp?
      ensures trial != old(trial) ==> StartOf(StandingIn(old(vol.now))).OnTrial?
      // A start that gives nothing up changes no file.
      ensures !chain ==> vol.now.files == old(vol.now.files)
      ensures !StartOf(StandingIn(old(vol.now))).GiveUp? ==> forall m :: m in vol.seen ==> m.files == old(vol.now.files)
      ensures StartOf(StandingIn(old(vol.now))).GiveUp? ==>
                forall m :: m in vol.seen ==> InFlight(aim, Listed(StandingIn(old(vol.now))), m.files)
      ensures vol.faults == old(vol.faults) && StartOf(StandingIn(old(vol.now))).GiveUp? ==>
                && chain
                && StandingIn(vol.now) == NextStart(StandingIn(old(vol.now)))
                && Restored(aim.was, Listed(StandingIn(old(vol.now))), vol.now.files)
                && forall m :: m in vol.seen ==>
                     StandingIn(m) == StandingIn(old(vol.now))
                       || Restored(aim.was, Listed(StandingIn(old(vol.now))), m.files)
      ensures (&& vol.faults == old(vol.faults) && StartOf(StandingIn(old(vol.now))).OnTrial?
               && |TextOf(NextStart(StandingIn(old(vol.now))))| <= STATE_SPACE) ==>
                && trial == StandingIn(old(vol.now)).trial.value.0
                && StandingIn(vol.now) == NextStart(StandingIn(old(vol.now)))
    {
      hide Held, MidUpdate, InFlight, Restored, TextOf, StateOf, Readable, Listed, StandingIn, NextStart, CountedState,
           GivenUpState;
      ghost var start := vol.now;
      StateInIsReadable(start);
      StartsFrom(aim, start);
      var ok, text := vol.ReadState();
      if !ok || text.None? {
        return false;
      }
      var state := UpdateState.Parse(text.value);
      match StartOf(state) {
        case Normal =>
          return false;
        case OnTrial(serial, n) =>
          CountStart(state, serial, n, aim);
          return false;
        case GiveUp(serial, backTo) =>
          PutSetBack(state, serial, backTo, aim);
          return true;
      }
    }

    /** A start of a set on trial. */
    method CountStart(state: State, serial: nat, n: nat, ghost aim: Renewal)
      requires vol.Valid() && vol.seen == {vol.now} && Held(aim, vol.now)
      requires state == StateIn(vol.now) && Readable(state) && StartOf(state) == OnTrial(serial, n)
      modifies this`trial, vol
      ensures vol.Valid() && old(vol.faults) <= vol.faults && trial == serial
      ensures vol.now.files == old(vol.now.files)
      ensures forall m :: m in vol.seen ==> m == old(vol.now) || m == vol.now
      ensures Held(aim, vol.now)
      ensures StandingIn(vol.now) == StandingIn(old(vol.now)) || StandingIn(vol.now) == CountedState(state, serial, n)
      ensures vol.faults == old(vol.faults) && |TextOf(CountedState(state, serial, n))| <= STATE_SPACE ==>
                StateIn(vol.now) == CountedState(state, serial, n)
    {
      var next := CountedState(state, serial, n);
      assert Readable(next) && Changed(next) == Changed(state);
      hide Clear, InFlight, TextOf, StateOf, Readable, Changed;
      var ok := vol.WriteState(next);
      if vol.now.state == Some(TextOf(next)) {
        WrittenStateIn(vol.now, next);
      }
      trial := serial;
    }

    /** The set had its starts: the previous one comes back, then the record. */
    method PutSetBack(state: State, serial: nat, backTo: nat, ghost aim: Renewal)
      requires vol.Valid() && vol.seen == {vol.now} && Held(aim, vol.now)
      requires state == StateIn(vol.now) && Readable(state) && StartOf(state) == GiveUp(serial, backTo)
      modifies vol
      ensures vol.Valid() && old(vol.faults) <= vol.faults
      ensures forall m :: m in vol.seen ==>
                m == old(vol.now) || m == vol.now || MidUpdate(m, aim, Listed(state), old(vol.now.state))
      ensures || MidUpdate(vol.now, aim, Listed(state), old(vol.now.state))
              || StateIn(vol.now) == GivenUpState(state, serial, backTo)
      ensures InFlight(aim, Listed(state), vol.now.files)
      ensures vol.faults == old(vol.faults) ==>
                && Restored(aim.was, Listed(state), vol.now.files)
                && StateIn(vol.now) == GivenUpState(state, serial, backTo)
    {
      var after := GivenUpState(state, serial, backTo);
      assert Readable(after);
      ShortWithoutList(after);
      hide Clear, InFlight, Restored, TextOf, StateOf, Readable, Changed;
      var done, errors := Revert(vol, state, aim);
      var ok := vol.WriteState(after);
      if vol.now.state == Some(TextOf(after)) {
        WrittenStateIn(vol.now, after);
      }
    }

    /** The image is attached: a set on trial stays. A pass may miss its record
        when an operation fails. `known` says the machine's minimum could be
        read, `wrote` that the serial took its place: a minimum that cannot be
        read counts as 0, which is the one way it is lowered. */
    method MarkGood(ghost aim: Renewal) returns (ghost known: bool, ghost wrote: bool)
      requires vol.Valid() && vol.seen == {vol.now} && Held(aim, vol.now)
      modifies this`trial, this`nvMin, vol
      ensures vol.Valid() && old(vol.faults) <= vol.faults && trial == 0
      ensures forall m :: m in vol.seen ==>
                && Held(aim, m) && m.files == old(vol.now.files)
                && (|| StandingIn(m) == StandingIn(old(vol.now))
                    || (old(OnTrialHere()) && StandingIn(m) == PassedState(StandingIn(old(vol.now)), old(trial))))
      ensures nvMin == if wrote then old(trial) else old(nvMin)
      ensures wrote ==> old(OnTrialHere()) && (if known then old(nvMin) else 0) < old(trial)
      ensures nvMin < old(nvMin) <==> wrote && !known && old(trial) < old(nvMin)
      ensures !known ==> old(vol.faults) < vol.faults
      ensures vol.faults == old(vol.faults) && old(OnTrialHere()) ==>
                && StandingIn(vol.now) == PassedState(StandingIn(old(vol.now)), old(trial))
                && nvMin == Max(old(nvMin), old(trial))
    {
      StateInIsReadable(vol.now);
      hide Clear, InFlight, TextOf, StateOf, Changed;
      var serial := trial;
      trial, known, wrote := 0, true, false;
      if serial == 0 {
        return;
      }
      var ok, text := vol.ReadState();
      var state := UpdateState.Parse(if ok && text.Some? then text.value else "");
      assert StateOf("") == FRESH by { EmptyTextIsFresh(); }
      if state.trial.None? || state.trial.value.0 != serial {
        return;
      }
      var next := PassedState(state, serial);
      assert Readable(next);
      ShortWithoutList(next);
      hide Readable;
      ok := vol.WriteState(next);
      if vol.now.state == Some(TextOf(next)) {
        WrittenStateIn(vol.now, next);
      }
      known, wrote := SetNvMin(serial);
    }

    /** Is the set this boot has on trial the one the medium has? */
    predicate OnTrialHere()
      reads this`trial, vol
    {
      var t := StandingIn(vol.now).trial;
      trial != 0 && t.Some? && t.value.0 == trial
    }

    /** The machine's minimum, or 0 when it cannot be read. */
    method ReadNvMin() returns (ghost known: bool, value: nat)
      requires vol.Valid()
      modifies vol`faults
      ensures vol.Valid() && value == if known then nvMin else 0
      ensures vol.faults == if known then old(vol.faults) else old(vol.faults) + 1
    {
      var ok, effect := vol.Attempt();
      known, value := ok, if ok then nvMin else 0;
    }

    /** The serial becomes the machine's minimum, if it is above what is read of
        it. It is lowered exactly when that read failed, the write took effect
        and it was higher. */
    method SetNvMin(serial: nat) returns (ghost known: bool, ghost wrote: bool)
      requires vol.Valid()
      modifies this`nvMin, vol`faults
      ensures vol.Valid() && old(vol.faults) <= vol.faults && (!known ==> old(vol.faults) < vol.faults)
      ensures nvMin == if wrote then serial else old(nvMin)
      ensures wrote ==> (if known then old(nvMin) else 0) < serial
      ensures nvMin < old(nvMin) <==> !known && wrote && serial < old(nvMin)
      ensures vol.faults == old(vol.faults) ==> nvMin == Max(old(nvMin), serial)
    {
      var least;
      known, least := ReadNvMin();
      wrote := false;
      if serial > least {
        var ok, effect := vol.Attempt();
        if effect {
          nvMin, wrote := serial, true;
        }
      }
    }

    /** Take an offered manifest, whose signature has been verified, if it is
        newer and all of it can be had. `restart` says the new set is in place
        and on trial. `room` is whether the medium has space for it. `known`
        says the machine's minimum could be read; the offer is judged against 0
        when it could not. `plan` is the update that was planned, if one was, and
        `early` what had failed before any of it was taken back. */
    method TryUpdate(q: Asked, served: map<string, seq<byte>>, room: bool)
      returns (restart: bool, ghost known: bool, ghost plan: Option<Proposal>, ghost early: nat)
      requires vol.Valid() && vol.seen == {vol.now}
      modifies vol
      ensures vol.Valid() && old(vol.faults) <= early <= vol.faults && (!known ==> old(vol.faults) < vol.faults)
      // Nothing changes while a trial runs.
      ensures StandingIn(old(vol.now)).trial.Some? ==>
                !restart && plan.None? && vol.now == old(vol.now) && vol.seen == old(vol.seen)
      // A power cut anywhere leaves a medium the next start can deal with, and
      // one on which no listed file has changed unless the trial is on record
      // or taking it back failed.
      ensures StandingIn(old(vol.now)).trial.None? ==>
                AllOffered(old(vol.now), if known then nvMin else 0, q, plan, vol.seen)
      // It does nothing without room, nor unless all it needs is served.
      ensures plan.Some? && !room ==> vol.now == old(vol.now) && vol.seen == old(vol.seen)
      ensures plan.Some? && vol.faults == old(vol.faults) ==>
                AllServed(old(vol.now.files), ManifestOf(q.text).value.files, served)
      ensures vol.faults == early ==> AllKept(old(vol.now), plan, vol.seen)
      ensures vol.faults == old(vol.faults) ==> AllOrderly(old(vol.now), plan, vol.seen)
      // It restarts only into the whole signed set,
      ensures restart ==> ManifestOf(q.text).Ok? && RestartsInto(old(vol.now), vol.now, ManifestOf(q.text).value)
      ensures restart ==> plan.Some? && plan.value.u.Complete(old(vol.now), vol.now)
      // a set meant for this machine, later than all it has run, that says it is
      // no older than what runs, or that it may be.
      ensures restart ==> Due(StandingIn(old(vol.now)), ManifestOf(q.text).value, q)
      ensures restart && known ==> nvMin <= ManifestOf(q.text).value.serial
      ensures restart && vol.faults == old(vol.faults) && |Drivers(old(vol.now.files))| <= 64 ==>
                NoUnnamedDriver(vol.now.files, ManifestOf(q.text).value)
      // And with nothing failing it does, whenever it should; what is only to be
      // noted is noted.
      ensures vol.faults == old(vol.faults) && room && ManifestOf(q.text).Ok?
              && Wanted(old(vol.now), ManifestOf(q.text).value, nvMin, q)
              && AllServed(old(vol.now.files), ManifestOf(q.text).value.files, served) ==>
                plan.Some? && (plan.value.u.Fits() ==> restart)
      ensures vol.faults == old(vol.faults) && StandingIn(vol.now).trial.Some?
              && StandingIn(old(vol.now)).trial.None? ==>
                restart
      ensures vol.faults == old(vol.faults) && ManifestOf(q.text).Ok? ==>
                NotedIn(Noted(old(vol.now), ManifestOf(q.text).value, nvMin, q), vol.now)
    {
      StateInIsReadable(vol.now);
      EmptyTextIsFresh();
      hide StateOf, Readable, Held, ManifestOf, AllOffered, RestartsInto, NoUnnamedDriver, Drivers, AllKept, AllOrderly,
           Wanted, AllServed, Noted, NotedIn, Due, Update.Complete, Update.Fits;
      restart, known, plan, early := false, true, None, vol.faults;
      NothingPlanned(vol.now);
      var ok, stateText := vol.ReadState();
      early := vol.faults;
      var state := UpdateState.Parse(if stateText.Some? then stateText.value else "");
      assert ok ==> state == StateIn(vol.now);
      if ok && state.trial.None? {
        var parsed := Manifests.Parse(q.text);
        NothingOffered(vol.now, nvMin, q);
        if parsed.Ok? {
          restart, known, plan, early :=
            Consider(parsed.value, q, state, served, room, vol.now);
        }
      } else if StateIn(vol.now).trial.None? {
        NothingOffered(vol.now, nvMin, q);
      } else if ManifestOf(q.text).Ok? {
        NothingDuringATrial(vol.now, ManifestOf(q.text).value, nvMin, q);
      }
    }

    /** A parsed manifest, against a medium with no trial running. */
    method Consider(m: Manifest, q: Asked, state: State, served: map<string, seq<byte>>, room: bool,
                    ghost start: Medium)
      returns (restart: bool, ghost known: bool, ghost plan: Option<Proposal>, ghost early: nat)
      requires vol.Valid() && vol.now == start && vol.seen == {start} && Readable(state)
      requires state == StateIn(start) && state.trial.None? && ManifestOf(q.text) == Ok(m)
      modifies vol
      ensures vol.Valid() && old(vol.faults) <= early <= vol.faults && (!known ==> old(vol.faults) < vol.faults)
      ensures AllOffered(start, if known then nvMin else 0, q, plan, vol.seen)
      ensures plan.Some? && !room ==> vol.now == start && vol.seen == {start}
      ensures plan.Some? && vol.faults == old(vol.faults) ==> AllServed(start.files, m.files, served)
      ensures vol.faults == early ==> AllKept(start, plan, vol.seen)
      ensures vol.faults == old(vol.faults) ==> AllOrderly(start, plan, vol.seen)
      ensures restart ==> RestartsInto(start, vol.now, m)
      ensures restart ==> plan.Some? && plan.value.u.Complete(start, vol.now)
      ensures restart ==> Due(StandingIn(start), m, q)
      ensures restart && known ==> nvMin <= m.serial
      ensures restart && vol.faults == old(vol.faults) && |Drivers(start.files)| <= 64 ==>
                NoUnnamedDriver(vol.now.files, m)
      ensures vol.faults == old(vol.faults) && room && Wanted(start, m, nvMin, q)
              && AllServed(start.files, m.files, served) ==>
                plan.Some? && (plan.value.u.Fits() ==> restart)
      ensures vol.faults == old(vol.faults) && StandingIn(vol.now).trial.Some? ==> restart
      ensures vol.faults == old(vol.faults) ==> NotedIn(Noted(start, m, nvMin, q), vol.now)
    {
      hide *;
      StandsAs(start, state);
      ParsedIsAccepted(q.text);
      ReadableSerial(m, state);
      WhatIsWanted(start, m, nvMin, q);
      NothingPlanned(start);
      restart, plan, early := false, None, vol.faults;
      var least;
      known, least := ReadNvMin();
      early := vol.faults;
      NothingOffered(start, least, q);
      if Judge(m.serial, state, least, m.ForMachine(q.mac)) == Take {
        JudgedAsItStands(m.serial, state, least, m.ForMachine(q.mac));
        CalledFor(start, least, q, m);
        var version := JudgeVersion(m.version, q.running, m.downgrade);
        if version == VersionOlder {
          WriteIdle(state.(min := Max(state.min, m.serial)), start);
          early := vol.faults;
          DeclineOffered(start, least, q, m, vol.seen);
          IdleKept(start, vol.seen);
        } else if version == VersionOk {
          CalledIsDue(start, least, q, m);
          restart, plan, early := Carry(m, state, served, room, start);
          CarryOffered(start, least, q, m, plan, vol.seen);
        }
      }
    }

    /** A record with no trial in it, written over another such. */
    method WriteIdle(next: State, ghost start: Medium)
      requires vol.Valid() && vol.now == start && vol.seen == {start} && Readable(next)
      requires next.trial.None? && StateIn(start).trial.None?
      modifies vol
      ensures vol.Valid() && old(vol.faults) <= vol.faults && vol.now.files == start.files
      ensures AllIdle(start, Standing(next), vol.seen)
      ensures vol.faults == old(vol.faults) ==> NotedIn(Some(next), vol.now)
      ensures StandingIn(vol.now).trial.None?
    {
      hide TextOf, StateOf, Readable;
      var ok := vol.WriteState(next);
      if vol.now.state == Some(TextOf(next)) {
        WrittenStateIn(vol.now, next);
      }
    }

    /** What differs is fetched, what is not named is retired, and the rest is
        `apply`'s. */
    method Carry(m: Manifest, state: State, served: map<string, seq<byte>>, room: bool, ghost start: Medium)
      returns (restart: bool, ghost plan: Option<Proposal>, ghost early: nat)
      requires vol.Valid() && vol.now == start && vol.seen == {start} && Accepted(m) && Readable(state)
      requires state == StateIn(start) && state.trial.None?
      modifies vol
      ensures vol.Valid() && old(vol.faults) <= early <= vol.faults
      ensures AllLeft(start, m, plan, vol.seen)
      ensures plan.Some? && !room ==> vol.now == start && vol.seen == {start}
      ensures plan.Some? && vol.faults == old(vol.faults) ==> AllServed(start.files, m.files, served)
      ensures vol.faults == early ==> AllKept(start, plan, vol.seen)
      ensures vol.faults == old(vol.faults) ==> AllOrderly(start, plan, vol.seen)
      ensures restart ==> RestartsInto(start, vol.now, m)
      ensures restart ==> plan.Some? && plan.value.u.Complete(start, vol.now)
      ensures restart && vol.faults == old(vol.faults) && |Drivers(start.files)| <= 64 ==>
                NoUnnamedDriver(vol.now.files, m)
      ensures vol.faults == old(vol.faults) && room && Differs(m, start.files)
              && AllServed(start.files, m.files, served) ==>
                plan.Some? && (plan.value.u.Fits() ==> restart)
      ensures vol.faults == old(vol.faults) && StandingIn(vol.now).trial.Some? ==> restart
      ensures vol.faults == old(vol.faults) && CarriesAll(m, start.files) ==>
                NotedIn(Some(state.(serial := m.serial)), vol.now)
    {
      hide *;
      StandsAs(start, state);
      AllLeftAtFirst(start, m);
      NothingPlanned(start);
      restart, plan, early := false, None, vol.faults;
      var ok, u, names := Propose(vol, m, state, served, start.files);
      early := vol.faults;
      ProposedFor(m, u, names, served, start, ok, old(vol.faults) == early);
      if ok && u.changed == [] && u.retired == [] {
        ReadableSerial(m, state);
        WriteIdle(state.(serial := m.serial), start);
        early := vol.faults;
        AdoptLeft(start, m, vol.seen);
        IdleKept(start, vol.seen);
      } else if ok {
        plan := Some(Proposal(m, u, names));
        JustPlanned(plan.value, start);
        if room {
          restart, early := CarryOut(plan.value, u, start);
        }
      }
    }

    /** The update itself. */
    method CarryOut(ghost p: Proposal, u: Update, ghost start: Medium) returns (restart: bool, ghost early: nat)
      requires vol.Valid() && vol.now == start && vol.seen == {start} && p.For(start) && p.u == u
      requires u.state.trial.None? && Readable(u.state)
      modifies vol
      ensures vol.Valid() && old(vol.faults) <= early <= vol.faults
      ensures AllLeft(start, p.m, Some(p), vol.seen)
      ensures vol.faults == early ==> AllKept(start, Some(p), vol.seen)
      ensures vol.faults == old(vol.faults) ==> AllOrderly(start, Some(p), vol.seen)
      ensures restart ==> RestartsInto(start, vol.now, p.m) && u.Complete(start, vol.now)
      ensures restart && AllListed(p.m, p.names, start.files) ==> NoUnnamedDriver(vol.now.files, p.m)
      ensures vol.faults == old(vol.faults) ==> (restart <==> u.Fits())
      ensures vol.faults == old(vol.faults) && StandingIn(vol.now).trial.Some? ==> restart
    {
      hide *;
      PlannedIsProper(p, start);
      ghost var swapping;
      restart, swapping, early := Apply(vol, u);
      ApplyLeavesAll(p, start, vol.seen, vol.now);
      if vol.faults == early {
        ApplyKeepsAll(p, start, vol.seen, vol.now, restart);
      }
      if vol.faults == old(vol.faults) {
        ApplyIsOrderly(p, start, vol.seen, vol.now, restart);
      }
      if restart {
        CompleteRestarts(p, start, vol.now);
      }
    }
  }

  lemma PlannedIsProper(p: Proposal, start: Medium)
    requires p.For(start)
    ensures p.u.Proper(start.files) && StateIn(start) == p.u.state
  {
    hide AllRight, NoneCarried, Update.Proper, Accepted, StateIn;
  }

  lemma StandsAs(start: Medium, state: State)
    requires state == StateIn(start)
    ensures StandingIn(start) == Standing(state) && StandingIn(start).trial == state.trial
  {
  }

  // ------------------------------------------------- what an offer may leave

  /** What carrying out a plan may leave: the trial on record, with the files in
      flight; or the record as it was, with no listed file changed or, where a
      swap was being taken back, the files in flight. */
  ghost predicate Leaves(p: Proposal, start: Medium, m: Medium) {
    if StandingIn(m).trial.Some? then
      && StateIn(m) == p.u.Trial() && p.u.Fits() && Listed(p.u.Trial()) == p.u.Items()
      && InFlight(p.u.Aim(start.files), p.u.Items(), m.files)
    else
      && StandingIn(m) == StandingIn(start)
      && (|| Quiet(start.files, p.u.Items(), m.files)
          || InFlight(p.u.Aim(start.files), p.u.Items(), m.files))
  }

  /** No listed file has changed, or the trial is on record. */
  ghost predicate Kept(p: Proposal, start: Medium, m: Medium) {
    StandingIn(m).trial.None? ==> Quiet(start.files, p.u.Items(), m.files)
  }

  /** And where the trial is on record, the swap has got to some item. */
  ghost predicate Orderly(p: Proposal, start: Medium, m: Medium) {
    && Kept(p, start, m)
    && (StandingIn(m).trial.Some? ==> InOrder(start.files, p.u.Items(), p.u.NewBodies(), m.files))
  }

  ghost predicate AllKept(start: Medium, plan: Option<Proposal>, seen: set<Medium>) {
    plan.Some? ==> forall m :: m in seen ==> Kept(plan.value, start, m)
  }

  ghost predicate AllOrderly(start: Medium, plan: Option<Proposal>, seen: set<Medium>) {
    plan.Some? ==> forall m :: m in seen ==> Orderly(plan.value, start, m)
  }

  /** What becomes of a medium whose manifest is taken up, whether or not there
      is anything to plan. */
  ghost predicate LeftBy(start: Medium, manifest: Manifest, plan: Option<Proposal>, m: Medium) {
    && CarryStep(StandingIn(start), manifest.serial, StandingIn(m))
    && match plan
       case None =>
         && m.files == start.files && StandingIn(m).trial.None?
         && (StandingIn(m) == StandingIn(start) || AllCarried(manifest, start.files))
       case Some(p) => p.For(start) && p.m == manifest && Leaves(p, start, m)
  }

  ghost predicate AllCarried(m: Manifest, f: Files) {
    forall i :: 0 <= i < |m.files| ==> Carried(f, m.files[i])
  }

  ghost predicate AllLeft(start: Medium, manifest: Manifest, plan: Option<Proposal>, seen: set<Medium>) {
    forall m :: m in seen ==> LeftBy(start, manifest, plan, m)
  }

  /** What is left can be put back. */
  lemma LeftIsHeld(p: Proposal, start: Medium, m: Medium)
    requires p.For(start) && Leaves(p, start, m)
    ensures Held(p.u.Aim(start.files), m)
  {
    hide InFlight, StateIn, Update.Proper, AllRight, Accepted, NoneCarried, Quiet, Clear, TextOf;
    PlannedIsProper(p, start);
    ProperIsClear(p.u, start.files);
  }

  lemma ProperIsClear(u: Update, f: Files)
    requires u.Proper(f)
    ensures Clear(u.Items())
  {
    ListedPathsAreApart(u.Planned());
  }

  /** The record of the trial, and none else, is read as that. */
  lemma TrialOrNot(p: Proposal, start: Medium)
    requires p.For(start) && p.u.state.trial.None? && Readable(p.u.state)
    ensures Listed(p.u.Trial()) == p.u.Items()
    ensures forall m: Medium :: m.state == Some(TextOf(p.u.Trial())) ==>
              && StateIn(m) == StandingIn(m) == p.u.Trial()
              && StandingIn(m) == TakenState(StandingIn(start), p.u.serial, p.u.Trial().files)
    ensures forall m: Medium :: m.state == Some(TextOf(p.u.state)) || m.state == start.state ==>
              StandingIn(m) == StandingIn(start)
    ensures StandingIn(start).trial.None?
  {
    hide AllRight, NoneCarried, Accepted, TextOf, StateOf, Readable;
    PlannedIsProper(p, start);
    TrialRoundTrip(p.u.Trial(), p.u.Planned());
    ChangedIsTheList(p.u.Trial(), p.u.Planned());
    forall m: Medium | m.state == Some(TextOf(p.u.state))
      ensures StandingIn(m) == StandingIn(start)
    {
      WrittenStateIn(m, p.u.state);
    }
  }

  lemma ApplyLeavesAll(p: Proposal, start: Medium, seen: set<Medium>, now: Medium)
    requires p.For(start) && p.u.state.trial.None? && Readable(p.u.state)
    requires forall m :: m in seen ==> m == start || p.u.Recoverable(start, m) || m == now
    requires p.u.Recoverable(start, now) || p.u.TakenBack(start, now)
    ensures AllLeft(start, p.m, Some(p), seen)
  {
    hide StateIn, StandingIn, Proposal.For, Readable, TextOf, InFlight, Quiet, Listed;
    SerialOf(p, start);
    JustPlanned(p, start);
    forall m | m in seen
      ensures LeftBy(start, p.m, Some(p), m)
    {
      if m != start {
        ApplyLeavesHeld(p, start, m);
      }
    }
  }

  lemma SerialOf(p: Proposal, start: Medium)
    requires p.For(start)
    ensures p.u.serial == p.m.serial && p.u.state == StateIn(start)
  {
  }

  /** What `apply` leaves, cut off or not, is what the next start can deal with. */
  lemma ApplyLeavesHeld(p: Proposal, start: Medium, m: Medium)
    requires p.For(start) && p.u.state.trial.None? && Readable(p.u.state)
    requires p.u.Recoverable(start, m) || p.u.TakenBack(start, m)
    ensures LeftBy(start, p.m, Some(p), m) && Held(p.u.Aim(start.files), m)
  {
    hide StateIn, StandingIn, Proposal.For, Readable, TextOf, InFlight, Quiet, Listed, Held;
    TrialOrNot(p, start);
    SerialOf(p, start);
    assert Leaves(p, start, m);
    LeftIsHeld(p, start, m);
  }

  lemma ApplyKeepsAll(p: Proposal, start: Medium, seen: set<Medium>, now: Medium, ok: bool)
    requires p.For(start) && p.u.state.trial.None? && Readable(p.u.state)
    requires forall m :: m in seen ==> m == start || p.u.Recoverable(start, m) || (m == now && !ok)
    requires !ok ==> Quiet(start.files, p.u.Items(), now.files)
    ensures AllKept(start, Some(p), seen)
  {
    hide StateIn, StandingIn, Proposal.For, Readable, TextOf, InFlight, Quiet, Listed;
    TrialOrNot(p, start);
    QuietAtFirst(start.files, p.u.Items());
  }

  lemma ApplyIsOrderly(p: Proposal, start: Medium, seen: set<Medium>, now: Medium, ok: bool)
    requires p.For(start) && p.u.state.trial.None? && Readable(p.u.state)
    requires AllKept(start, Some(p), seen)
    requires forall m :: m in seen ==> m == start || p.u.Recoverable(start, m) || (m == now && !ok)
    requires p.u.Fits() ==> ok && forall m :: m in seen ==> m == start || p.u.Ordered(start, m)
    requires !p.u.Fits() ==> !ok && NothingYet(now, start.files, p.u.Items(), start.state)
    ensures AllOrderly(start, Some(p), seen)
    ensures StandingIn(now).trial.Some? ==> ok
  {
    hide StateIn, StandingIn, Proposal.For, Readable, TextOf, InFlight, Quiet, Listed, InOrder, Update.Fits;
    TrialOrNot(p, start);
  }

  /** Nothing has been done about it yet. */
  lemma JustPlanned(p: Proposal, start: Medium)
    requires p.For(start) && StateIn(start).trial.None?
    ensures AllLeft(start, p.m, Some(p), {start}) && AllOrderly(start, Some(p), {start})
            && AllKept(start, Some(p), {start})
  {
    hide AllRight, NoneCarried, Accepted, Update.Proper, InFlight, StateOf;
    QuietAtFirst(start.files, p.u.Items());
  }

  lemma NothingPlanned(start: Medium)
    ensures AllKept(start, None, {start}) && AllOrderly(start, None, {start})
  {
  }

  lemma IdleKept(start: Medium, seen: set<Medium>)
    ensures AllKept(start, None, seen) && AllOrderly(start, None, seen)
  {
  }

  lemma CompleteRestarts(p: Proposal, start: Medium, now: Medium)
    requires p.For(start) && p.u.Complete(start, now) && Readable(p.u.state)
    ensures RestartsInto(start, now, p.m)
    ensures AllListed(p.m, p.names, start.files) ==> NoUnnamedDriver(now.files, p.m)
  {
    hide Proposal.For, Update.Complete, Readable, StandingIn, Carried, AllListed, NoUnnamedDriver;
    SetIsWhole(p, start, now);
    TrialIsOn(p, start, now);
  }

  lemma SetIsWhole(p: Proposal, start: Medium, now: Medium)
    requires p.For(start) && p.u.Complete(start, now)
    ensures forall i :: 0 <= i < |p.m.files| ==> Carried(now.files, p.m.files[i])
    ensures AllListed(p.m, p.names, start.files) ==> NoUnnamedDriver(now.files, p.m)
  {
    hide PlannedFrom, Covered, Update.Complete, Carried, AllListed, BootloaderIsLast, StateIn, DriverName, Retirable,
         DriverKey;
    CompleteIsWhole(p.m, p.u, p.names, start, now);
  }

  lemma TrialIsOn(p: Proposal, start: Medium, now: Medium)
    requires p.For(start) && p.u.Complete(start, now) && Readable(p.u.state)
    ensures StandingIn(now).trial == Some((p.m.serial, 0)) && StandingIn(now).prev == StandingIn(start).serial
  {
    hide PlannedFrom, Covered, SwapAt, BootloaderIsLast, StateOf, TextOf, FileList, Readable, Update.Proper;
    PlannedIsProper(p, start);
    TrialIsRead(p.u, start.files, now);
  }

  lemma TrialIsRead(u: Update, f: Files, m: Medium)
    requires u.Proper(f) && m.state == Some(TextOf(u.Trial()))
    ensures StateIn(m) == u.Trial()
  {
    hide StateOf, TextOf, FlagsRight, DistinctPaths, Keepable, FileList;
    TrialRoundTrip(u.Trial(), u.Planned());
  }

  ghost predicate CarryStep(a: State, serial: nat, b: State) {
    || b == a
    || b == a.(serial := serial)
    || (|TextOf(b)| <= STATE_SPACE && exists files :: b == TakenState(a, serial, files))
  }

  lemma ReadableSerial(m: Manifest, s: State)
    requires Accepted(m) && Readable(s)
    ensures Readable(s.(serial := m.serial)) && Readable(s.(min := Max(s.min, m.serial)))
  {
  }

  /** What is on offer is a manifest, meant for this machine, and is to be taken. */
  ghost predicate Called(a: State, nvMin: nat, q: Asked) {
    && ManifestOf(q.text).Ok?
    && var m := ManifestOf(q.text).value;
       Judge(m.serial, a, nvMin, m.ForMachine(q.mac)) == Take
  }

  /** Its version, beside the one that runs. */
  function VersionOf(m: Manifest, q: Asked): Version {
    JudgeVersion(m.version, q.running, m.downgrade)
  }

  /** What an offer may make of a medium's record: declined as older, taken up, or
      left alone. */
  ghost predicate OfferStep(a: State, nvMin: nat, q: Asked, b: State) {
    || b == a
    || (&& Called(a, nvMin, q)
        && var m := ManifestOf(q.text).value;
           match VersionOf(m, q)
           case VersionOlder => b == a.(min := Max(a.min, m.serial))
           case VersionOk => CarryStep(a, m.serial, b)
           case Unreadable => false)
  }

  /** What an offer may make of a medium: its record, and its files. An update is
      planned only from a manifest that is to be taken up, and a set is said to be
      there only if it is. */
  ghost predicate Offers(start: Medium, nvMin: nat, q: Asked, plan: Option<Proposal>, m: Medium) {
    && OfferStep(StandingIn(start), nvMin, q, StandingIn(m))
    && match plan
       case None =>
         && m.files == start.files && StandingIn(m).trial.None?
         && (|| StandingIn(m) == StandingIn(start)
             || VersionOf(ManifestOf(q.text).value, q) == VersionOlder
             || AllCarried(ManifestOf(q.text).value, start.files))
       case Some(p) =>
         && p.For(start) && Leaves(p, start, m)
         && Called(StandingIn(start), nvMin, q) && ManifestOf(q.text) == Ok(p.m) && VersionOf(p.m, q) == VersionOk
  }

  /** What a restart is made for: a later set, meant for this machine, whose
      release is not below the running one unless it says so. */
  ghost predicate Due(a: State, m: Manifest, q: Asked) {
    && a.serial < m.serial && a.min < m.serial && a.failed < m.serial
    && Versions.Admits(m.canaries, q.mac)
    && Versions.NoStepBack(m.version, q.running, m.downgrade)
  }

  lemma CalledIsDue(start: Medium, nvMin: nat, q: Asked, m: Manifest)
    requires ManifestOf(q.text) == Ok(m) && Called(StandingIn(start), nvMin, q) && VersionOf(m, q) == VersionOk
    ensures Due(StandingIn(start), m, q)
  {
    hide ManifestOf, Versions.NoStepBack, Versions.Admits, JudgeVersion, StandingIn, Manifest.ForMachine;
    UpdateExactlyWhen(m.serial, StandingIn(start), nvMin, m.ForMachine(q.mac));
    Versions.MeantExactlyFor(m, q.mac);
    Versions.TakenExactlyWhen(m.version, q.running, m.downgrade);
  }

  ghost predicate AllOffered(start: Medium, nvMin: nat, q: Asked, plan: Option<Proposal>, seen: set<Medium>) {
    forall m :: m in seen ==> Offers(start, nvMin, q, plan, m)
  }

  /** No record seen has a trial in it, and no file has changed. */
  ghost predicate AllIdle(start: Medium, b: State, seen: set<Medium>) {
    forall m :: m in seen ==>
      m.files == start.files && StandingIn(m).trial.None? && (StandingIn(m) == StandingIn(start) || StandingIn(m) == b)
  }

  lemma NothingOffered(start: Medium, nvMin: nat, q: Asked)
    requires StateIn(start).trial.None?
    ensures AllOffered(start, nvMin, q, None, {start})
  {
  }

  lemma AllLeftAtFirst(start: Medium, m: Manifest)
    requires StateIn(start).trial.None?
    ensures AllLeft(start, m, None, {start})
  {
  }

  lemma AdoptLeft(start: Medium, m: Manifest, seen: set<Medium>)
    requires StateIn(start).trial.None? && AllCarried(m, start.files)
    requires AllIdle(start, Standing(StateIn(start).(serial := m.serial)), seen)
    ensures AllLeft(start, m, None, seen)
  {
    hide StateOf;
  }

  lemma JudgedAsItStands(serial: nat, s: State, nvMin: nat, canary: bool)
    requires Judge(serial, s, nvMin, canary) == Take
    ensures Judge(serial, Standing(s), nvMin, canary) == Take && nvMin <= serial
  {
  }

  lemma CalledFor(start: Medium, nvMin: nat, q: Asked, m: Manifest)
    requires ManifestOf(q.text) == Ok(m) && Judge(m.serial, StandingIn(start), nvMin, m.ForMachine(q.mac)) == Take
    ensures Called(StandingIn(start), nvMin, q) && VersionOf(m, q) == JudgeVersion(m.version, q.running, m.downgrade)
  {
  }

  lemma DeclineOffered(start: Medium, nvMin: nat, q: Asked, m: Manifest, seen: set<Medium>)
    requires ManifestOf(q.text) == Ok(m) && StateIn(start).trial.None?
    requires Called(StandingIn(start), nvMin, q) && VersionOf(m, q) == VersionOlder
    requires AllIdle(start, Standing(StateIn(start).(min := Max(StateIn(start).min, m.serial))), seen)
    ensures AllOffered(start, nvMin, q, None, seen)
  {
    hide StateOf, ManifestOf, VersionOf, Called;
  }

  lemma CarryOffered(start: Medium, nvMin: nat, q: Asked, m: Manifest, plan: Option<Proposal>, seen: set<Medium>)
    requires ManifestOf(q.text) == Ok(m)
    requires Called(StandingIn(start), nvMin, q) && VersionOf(m, q) == VersionOk
    requires AllLeft(start, m, plan, seen)
    ensures AllOffered(start, nvMin, q, plan, seen)
  {
    hide StateIn, ManifestOf, Proposal.For, Leaves, VersionOf, AllCarried;
    CalledManifest(StandingIn(start), nvMin, q, m);
    hide Called;
  }

  lemma CalledManifest(a: State, nvMin: nat, q: Asked, m: Manifest)
    requires ManifestOf(q.text) == Ok(m) && Called(a, nvMin, q)
    ensures ManifestOf(q.text).value == m
  {
  }

  // ------------------------------------------------------ when it has to act

  /** The offer is to be taken, and there is something to do for it. */
  ghost predicate Wanted(start: Medium, m: Manifest, nvMin: nat, q: Asked) {
    && Judge(m.serial, StateIn(start), nvMin, m.ForMachine(q.mac)) == Take
    && VersionOf(m, q) == VersionOk
    && Differs(m, start.files)
  }

  /** The record of an offer that is only noted: one older than what runs, or one
      that is on the medium already. */
  ghost function Noted(start: Medium, m: Manifest, nvMin: nat, q: Asked): Option<State> {
    var s := StateIn(start);
    if Judge(m.serial, s, nvMin, m.ForMachine(q.mac)) != Take then None
    else
      match VersionOf(m, q)
      case VersionOlder => Some(s.(min := Max(s.min, m.serial)))
      case VersionOk => if CarriesAll(m, start.files) then Some(s.(serial := m.serial)) else None
      case Unreadable => None
  }

  ghost predicate NotedIn(next: Option<State>, m: Medium) {
    next.Some? && |TextOf(next.value)| <= STATE_SPACE ==> StandingIn(m) == Standing(next.value)
  }

  lemma WhatIsWanted(start: Medium, m: Manifest, nvMin: nat, q: Asked)
    ensures Wanted(start, m, nvMin, q) <==>
              && Judge(m.serial, StateIn(start), nvMin, m.ForMachine(q.mac)) == Take
              && VersionOf(m, q) == VersionOk
              && Differs(m, start.files)
    ensures Judge(m.serial, StateIn(start), nvMin, m.ForMachine(q.mac)) != Take
            || VersionOf(m, q) == Unreadable
            || (VersionOf(m, q) == VersionOk && !CarriesAll(m, start.files)) ==>
              forall now :: NotedIn(Noted(start, m, nvMin, q), now)
    ensures Judge(m.serial, StateIn(start), nvMin, m.ForMachine(q.mac)) == Take ==>
              && (VersionOf(m, q) == VersionOlder ==>
                    Noted(start, m, nvMin, q)
                    == Some(StateIn(start).(min := Max(StateIn(start).min, m.serial))))
              && (VersionOf(m, q) == VersionOk && CarriesAll(m, start.files) ==>
                    Noted(start, m, nvMin, q) == Some(StateIn(start).(serial := m.serial)))
  {
    hide Judge, VersionOf, Differs, CarriesAll, StateIn, StandingIn, TextOf;
  }

  lemma NothingDuringATrial(start: Medium, m: Manifest, nvMin: nat, q: Asked)
    requires StateIn(start).trial.Some?
    ensures !Wanted(start, m, nvMin, q)
    ensures forall now :: NotedIn(Noted(start, m, nvMin, q), now)
  {
    hide VersionOf, Differs, CarriesAll, StateIn, StandingIn, TextOf;
  }

  /** What `Propose` has made, put to use. */
  lemma ProposedFor(m: Manifest, u: Update, names: seq<string>, served: map<string, seq<byte>>, start: Medium, ok: bool,
                    sure: bool)
    requires u.state == StateIn(start) && u.serial == m.serial
    requires ok ==> PlannedFrom(m, u, names, start.files) && Covered(m, u, start.files) && BootloaderIsLast(u)
    requires sure ==> (ok <==> AllServed(start.files, m.files, served))
    requires sure && ok && |Drivers(start.files)| <= 64 ==> AllListed(m, names, start.files)
    ensures ok && !(u.changed == [] && u.retired == []) ==> Proposal(m, u, names).For(start)
    ensures sure && ok && Differs(m, start.files) ==> !(u.changed == [] && u.retired == [])
    ensures sure && CarriesAll(m, start.files) ==> ok && u.changed == [] && u.retired == []
    ensures ok && u.changed == [] ==> AllCarried(m, start.files)
  {
    hide PlannedFrom, Covered, BootloaderIsLast, AllListed, Drivers, Carried, ServedRight, Differs, StateIn;
    if ok && u.changed == [] {
      NoneMissing(m, u, start.files);
    }
    if sure && CarriesAll(m, start.files) {
      assert AllServed(start.files, m.files, served);
      CarriedNeedsNone(m, u, names, start.files);
    }
    if sure && ok && Differs(m, start.files) {
      RetiredAs(m, u, names, start.files);
      DiffersIsPlanned(m, u, names, start.files);
    }
  }

  lemma NoneMissing(m: Manifest, u: Update, f: Files)
    requires Covered(m, u, f) && u.changed == []
    ensures AllCarried(m, f)
  {
    hide Carried;
  }

  lemma RetiredAs(m: Manifest, u: Update, names: seq<string>, f: Files)
    requires PlannedFrom(m, u, names, f)
    ensures u.retired == DriverPaths(names)
  {
    hide Accepted, Update.Proper, AllRight, NoneCarried;
  }

  /** The manifest's set is on the medium, whole, and its trial is recorded. */
  ghost predicate RestartsInto(start: Medium, now: Medium, m: Manifest) {
    && StandingIn(now).trial == Some((m.serial, 0))
    && StandingIn(now).prev == StandingIn(start).serial
    && forall i :: 0 <= i < |m.files| ==> Carried(now.files, m.files[i])
  }

  /** No driver is left that the firmware would load and the manifest does not name. */
  ghost predicate NoUnnamedDriver(f: Files, m: Manifest) {
    forall n :: DriverName(n) && Retirable(m, n) ==> DriverKey(n) !in f
  }

  lemma EmptyTextIsFresh()
    ensures StateOf("") == FRESH
  {
  }
}
