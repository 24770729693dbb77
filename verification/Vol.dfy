/** The open boot volume (`Vol` in `src/selfupdate.rs`). Each operation either
    does what it is asked or fails, before or after it has had its effect; a
    power cut can come after any of them. */
module Volume {
  import opened Bytes
  import opened Text
  import opened UpdateState
  import opened BootMedium

  /** Where a path's last component starts. */
  function BaseAt(path: string): (i: nat)
    ensures i <= |path| && '\\' !in path[i..] && (i == 0 || path[i - 1] == '\\')
  {
    if path == "" || path[|path| - 1] == '\\' then |path|
    else
      var i := BaseAt(path[..|path| - 1]);
      assert path[i..] == path[..|path| - 1][i..] + [path[|path| - 1]];
      i
  }

  function Dir(path: string): string {
    path[..BaseAt(path)]
  }

  function Base(path: string): string {
    path[BaseAt(path)..]
  }

  /** `b` is `a` but for what is filed under `k`. */
  ghost predicate OnlyFile(a: Medium, b: Medium, k: string) {
    b.state == a.state && forall other :: other != k ==> Same(a.files, b.files, other)
  }

  const STATE_SPACE := 4096

  class Vol {
    var now: Medium
    /** Every medium a power cut could have left. */
    var seen: set<Medium>
    /** How many operations have failed. */
    ghost var faults: nat

    ghost predicate Valid()
      reads this
    {
      now in seen
    }

    constructor (m: Medium)
      ensures Valid() && now == m && seen == {m} && faults == 0
    {
      now, seen, faults := m, {m}, 0;
    }

    /** Does the firmware do this? `effect` may hold even when it says not. */
    method Attempt() returns (ok: bool, effect: bool)
      modifies this`faults
      ensures ok ==> effect
      ensures faults == if ok then old(faults) else old(faults) + 1
    {
      ok := *;
      effect := *;
      effect := effect || ok;
      if !ok {
        faults := faults + 1;
      }
    }

    /** Afterwards there is no such file; there need not have been. */
    method Delete(path: string) returns (ok: bool)
      requires Valid()
      modifies this
      ensures Valid() && seen == old(seen) + {now}
      ensures now == old(now) || now == old(now).(files := Without(old(now).files, Fold(path)))
      ensures ok ==> now.files == Without(old(now).files, Fold(path))
      ensures old(faults) <= faults && (faults == old(faults) ==> ok)
    {
      var effect;
      ok, effect := Attempt();
      if effect {
        now := now.(files := Without(now.files, Fold(path)));
      }
      seen := seen + {now};
    }

    /** Give a file another name in the same directory. The firmware refuses when
        the file is missing, and when the new name is taken. */
    method Rename(path: string, to: string) returns (ok: bool)
      requires Valid()
      modifies this
      ensures Valid() && seen == old(seen) + {now}
      ensures var from, dest := Fold(path), Fold(Dir(path) + to);
              var can := from in old(now).files && dest !in old(now).files;
              && (now == old(now) || (can && now == old(now).(files := Moved(old(now).files, from, dest))))
              && (ok ==> can && now.files == Moved(old(now).files, from, dest))
              && (faults == old(faults) && can ==> ok)
      ensures old(faults) <= faults
    {
      var from, dest := Fold(path), Fold(Dir(path) + to);
      if from !in now.files || dest in now.files {
        seen := seen + {now};
        return false;
      }
      var effect;
      ok, effect := Attempt();
      if effect {
        now := now.(files := Moved(now.files, from, dest));
      }
      seen := seen + {now};
    }

    /** Replace a file's contents. Cut short, or failed, it leaves the file
        with any contents at all, or none. */
    method Write(path: string, data: seq<byte>) returns (ok: bool)
      requires Valid()
      modifies this
      ensures Valid() && old(seen) <= seen
      ensures forall m :: m in seen ==> m in old(seen) || OnlyFile(old(now), m, Fold(path))
      ensures OnlyFile(old(now), now, Fold(path))
      ensures ok ==> now.files == old(now).files[Fold(path) := data]
      ensures old(faults) <= faults && (faults == old(faults) ==> ok)
    {
      ghost var start := now.files;
      var torn: seq<byte> := *;
      var effect;
      ok, effect := Attempt();
      if effect {
        now := now.(files := now.files[Fold(path) := torn]);
      }
      seen := seen + {now};
      if ok {
        now := now.(files := now.files[Fold(path) := data]);
        assert now.files == start[Fold(path) := data];
      }
      seen := seen + {now};
    }

    /** Record a state, all of it or none. One that does not fit is refused. */
    method WriteState(s: State) returns (ok: bool)
      requires Valid()
      modifies this
      ensures Valid() && seen == old(seen) + {now}
      ensures now == old(now) || now == old(now).(state := Some(TextOf(s)))
      ensures ok ==> now == old(now).(state := Some(TextOf(s)))
      ensures old(faults) <= faults
      ensures faults == old(faults) && |TextOf(s)| <= STATE_SPACE ==> ok
      ensures |TextOf(s)| > STATE_SPACE ==> !ok && now == old(now)
    {
      var buf := new char[STATE_SPACE];
      var n := Render(s, buf);
      if n.None? {
        seen := seen + {now};
        return false;
      }
      var effect;
      ok, effect := Attempt();
      if effect {
        now := now.(state := Some(buf[..n.value]));
      }
      seen := seen + {now};
    }

    method ReadState() returns (ok: bool, text: Option<string>)
      requires Valid()
      modifies this`faults
      ensures ok ==> text == now.state
      ensures old(faults) <= faults && (faults == old(faults) ==> ok)
    {
      var effect;
      ok, effect := Attempt();
      text := if ok then now.state else None;
    }

    /** A file that cannot be opened does not exist, as far as this can tell. */
    method Exists(path: string) returns (there: bool)
      requires Valid()
      modifies this`faults
      ensures there ==> Fold(path) in now.files
      ensures old(faults) <= faults
      ensures faults == old(faults) ==> (there <==> Fold(path) in now.files)
    {
      var ok, effect := Attempt();
      there := ok && Fold(path) in now.files;
    }

    /** The front of a file, `limit` bytes of it at most. */
    method Read(path: string, limit: nat) returns (ok: bool, have: Option<seq<byte>>)
      requires Valid()
      modifies this`faults
      ensures ok ==> (have.Some? <==> Fold(path) in now.files)
      ensures ok && have.Some? ==>
                var contents := now.files[Fold(path)];
                have.value == contents[..Min(limit, |contents|)]
      ensures old(faults) <= faults && (faults == old(faults) ==> ok)
    {
      var effect;
      ok, effect := Attempt();
      if ok && Fold(path) in now.files {
        var contents := now.files[Fold(path)];
        have := Some(contents[..Min(limit, |contents|)]);
      } else {
        have := None;
      }
    }

    /** The regular files in the drivers directory, 64 at most; a listing that
        fails part of the way stops there. */
    method ListDrivers() returns (names: seq<string>)
      requires Valid()
      modifies this`faults
      ensures forall i :: 0 <= i < |names| ==> DriverName(names[i]) && DriverKey(names[i]) in now.files
      ensures forall i, j :: 0 <= i < j < |names| ==> names[i] != names[j]
      ensures old(faults) <= faults
      ensures faults == old(faults) && |Drivers(now.files)| <= 64 ==>
                forall k :: k in Drivers(now.files) ==> Lists(names, k)
    {
      names := [];
      var rest := Drivers(now.files);
      while rest != {} && |names| < 64
        invariant rest <= Drivers(now.files)
        invariant forall i :: 0 <= i < |names| ==> DriverName(names[i]) && DriverKey(names[i]) in now.files
        invariant forall i :: 0 <= i < |names| ==> DriverKey(names[i]) !in rest
        invariant forall i, j :: 0 <= i < j < |names| ==> names[i] != names[j]
        invariant |names| + |rest| == |Drivers(now.files)|
        invariant forall k :: k in Drivers(now.files) && k !in rest ==> Lists(names, k)
        invariant faults == old(faults)
        decreases rest
      {
        var ok, effect := Attempt();
        if !ok {
          return;
        }
        var k :| k in rest;
        var name := k[|DriversDir()|..];
        assert DriverKey(name) == k;
        assert forall other :: Lists(names, other) ==> Lists(names + [name], other) by {
          ListsMore(names, name);
        }
        assert (names + [name])[|names|] == name;
        names, rest := names + [name], rest - {k};
      }
      assert |rest| == 0 ==> rest == {};
    }
  }

  predicate Lists(names: seq<string>, k: string) {
    exists i :: 0 <= i < |names| && DriverKey(names[i]) == k
  }

  lemma ListsMore(names: seq<string>, name: string)
    ensures forall k :: Lists(names, k) ==> Lists(names + [name], k)
  {
    forall k | Lists(names, k)
      ensures Lists(names + [name], k)
    {
      var i :| 0 <= i < |names| && DriverKey(names[i]) == k;
      assert (names + [name])[i] == names[i];
    }
  }

  function DriversPath(): string { "stormboot/drivers/" }

  /** `\stormboot\drivers\`, as the medium files it. */
  function DriversDir(): string { Key(DriversPath()) }

  function DriverKey(name: string): string {
    DriversDir() + name
  }

  /** A name as the medium files it, folded, with no directory in it. */
  predicate DriverName(name: string) {
    Fold(name) == name && '\\' !in name && '/' !in name
  }

  predicate IsDriver(k: string) {
    |k| >= |DriversDir()| && k[..|DriversDir()|] == DriversDir() && DriverName(k[|DriversDir()|..])
  }

  function Drivers(f: Files): set<string> {
    set k | k in f && IsDriver(k)
  }

  // ------------------------------------------------------- names, as keys

  lemma {:induction false} BaseAtAppended(path: string, end: string)
    requires '\\' !in end
    ensures BaseAt(path + end) == BaseAt(path)
  {
    if end == "" {
      assert path + end == path;
    } else {
      assert end[|end| - 1] in end;
      assert (path + end)[..|path + end| - 1] == path + end[..|end| - 1];
      BaseAtAppended(path, end[..|end| - 1]);
    }
  }

  /** What the volume makes of the names `apply` and `revert` ask for. */
  lemma NamesAsKeys(p: string)
    ensures var e := EfiPath(p);
            && Fold(e) == Key(p)
            && Fold(e + ".new") == NewOf(Key(p))
            && Fold(e + ".prev") == PrevOf(Key(p))
            && Fold(Dir(e) + (Base(e) + ".prev")) == PrevOf(Key(p))
            && Fold(Dir(e + ".new") + Base(e)) == Key(p)
            && Fold(Dir(e + ".prev") + Base(e)) == Key(p)
  {
    var e := EfiPath(p);
    BaseAtAppended(e, ".new");
    BaseAtAppended(e, ".prev");
    assert Dir(e) + Base(e) == e;
    assert Dir(e) + (Base(e) + ".prev") == e + ".prev";
    assert Dir(e + ".new") == Dir(e) == Dir(e + ".prev");
    SiblingEnds();
    FoldConcat(e, ".new");
    FoldConcat(e, ".prev");
    hide Fold, EfiPath;
  }
}
