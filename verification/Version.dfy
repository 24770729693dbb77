/** Release numbers (`semver` and `version_ok` in `src/manifest.rs`), by what a
    version says as a number and not by how it is taken apart. */
module Versions {
  import opened Bytes
  import opened Text
  import opened Manifests

  datatype Release = Release(major: nat, minor: nat, patch: nat)
  {
    /** The release as one number, a 64-bit digit for each part. */
    function Value(): nat {
      (major * U64_LIMIT + minor) * U64_LIMIT + patch
    }
  }

  predicate IsNumber(s: string, n: nat) {
    s != "" && AllDigits(s) && ValueOf(s) == n < U64_LIMIT
  }

  /** What may follow the numbers: nothing, a pre-release or a build. */
  predicate IsTail(t: string) {
    t == "" || t[0] == '-' || t[0] == '+'
  }

  predicate SaysWith(v: string, r: Release, a: string, b: string, c: string, t: string) {
    && IsNumber(a, r.major) && IsNumber(b, r.minor) && IsNumber(c, r.patch) && IsTail(t)
    && v == a + "." + b + "." + c + t
  }

  ghost predicate Says(v: string, r: Release) {
    exists a, b, c, t :: SaysWith(v, r, a, b, c, t)
  }

  /** Both are release numbers, and taking the first over the second is no step
      back, or is one that is asked for. */
  ghost predicate NoStepBack(offered: string, running: string, downgrade: bool) {
    exists o, r :: Says(offered, o) && Says(running, r) && (downgrade || r.Value() <= o.Value())
  }

  /** Every three numbers printed with dots between them say that release,
      whatever is built or pre-released of it. */
  lemma PrintedSays(r: Release, t: string)
    requires r.major < U64_LIMIT && r.minor < U64_LIMIT && r.patch < U64_LIMIT && IsTail(t)
    ensures Says(Decimal(r.major) + "." + Decimal(r.minor) + "." + Decimal(r.patch) + t, r)
  {
    hide Decimal;
    DecimalValue(r.major);
    DecimalValue(r.minor);
    DecimalValue(r.patch);
    assert SaysWith(Decimal(r.major) + "." + Decimal(r.minor) + "." + Decimal(r.patch) + t, r,
                    Decimal(r.major), Decimal(r.minor), Decimal(r.patch), t);
  }

  lemma NumberHasNoMark(s: string, n: nat)
    requires IsNumber(s, n)
    ensures '.' !in s && '-' !in s && '+' !in s && ParseNat(s, U64_LIMIT) == Some(n)
  {
  }

  /** The front of a text, up to the first of a mark. */
  function Front(v: string, mark: char): string {
    v[..IndexOf(v, mark)]
  }

  lemma FrontIsAll(v: string, mark: char)
    requires mark !in v
    ensures Front(v, mark) == v
  {
    IndexOfNone(v, mark);
    assert v[..|v|] == v;
  }

  lemma FrontStops(v: string, mark: char, rest: string)
    requires mark !in v
    ensures Front(v + [mark] + rest, mark) == v
  {
    IndexOfFirst(v, mark, rest);
  }

  function Core(v: string): string {
    Front(Front(v, '-'), '+')
  }

  /** The tail falls away. */
  lemma CoreOf(n: string, t: string)
    requires '-' !in n && '+' !in n && IsTail(t)
    ensures Core(n + t) == n
  {
    hide Front;
    FrontIsAll(n, '-');
    FrontIsAll(n, '+');
    if t == "" {
      assert n + t == n;
    } else if t[0] == '-' {
      FrontStops(n, '-', t[1..]);
      assert n + t == n + ['-'] + t[1..];
    } else {
      PlusTail(n, t);
    }
  }

  lemma PlusTail(n: string, t: string)
    requires '-' !in n && '+' !in n && t != "" && t[0] == '+'
    ensures Core(n + t) == n
  {
    var front := Front(n + t, '-');
    assert |n| < IndexOf(n + t, '-') by {
      assert forall i :: 0 <= i <= |n| ==> (n + t)[i] != '-';
    }
    assert front == n + ['+'] + front[|n| + 1..];
    FrontStops(n, '+', front[|n| + 1..]);
  }

  lemma ThreeParts(a: string, b: string, c: string)
    requires '.' !in a && '.' !in b && '.' !in c
    ensures Split(a + "." + b + "." + c, '.') == [a, b, c]
  {
    hide Split;
    assert a + "." + b + "." + c == a + ['.'] + (b + ['.'] + c);
    SplitAt(a, '.', b + ['.'] + c);
    SplitAt(b, '.', c);
    SplitAt(c, '.', "");
  }

  lemma SaidIsRead(v: string, r: Release)
    requires Says(v, r)
    ensures Semver(v) == Some((r.major, r.minor, r.patch))
  {
    hide IsNumber, IsTail, Split, ParseNat, Front;
    var a, b, c, t :| SaysWith(v, r, a, b, c, t);
    NumberHasNoMark(a, r.major);
    NumberHasNoMark(b, r.minor);
    NumberHasNoMark(c, r.patch);
    var n := a + "." + b + "." + c;
    CoreOf(n, t);
    ThreeParts(a, b, c);
    SemverOf(v);
  }

  lemma SemverOf(v: string)
    ensures Semver(v) == Numbers(Split(Core(v), '.'))
  {
    hide Split, IndexOf;
  }

  /** The pieces of a text are the text. */
  lemma PiecesOf(s: string, a: string, b: string, c: string)
    requires Split(s, '.') == [a, b, c]
    ensures s == a + "." + b + "." + c
  {
    hide Split;
    var bc := FirstPiece(s, '.');
    assert Split(bc, '.') == [b, c];
    var last := FirstPiece(bc, '.');
    assert Split(last, '.') == [c];
    var none := FirstPiece(last, '.');
  }

  lemma ReadIsSaid(v: string)
    requires Semver(v).Some?
    ensures var (a, b, c) := Semver(v).value; Says(v, Release(a, b, c))
  {
    hide IsNumber, IsTail, Split, ParseNat, Core;
    SemverOf(v);
    var parts, core := Split(Core(v), '.'), Core(v);
    PiecesOf(core, parts[0], parts[1], parts[2]);
    CoreThenTail(v);
    var (a, b, c) := Semver(v).value;
    ParsedIsNumber(parts[0], a);
    ParsedIsNumber(parts[1], b);
    ParsedIsNumber(parts[2], c);
    assert SaysWith(v, Release(a, b, c), parts[0], parts[1], parts[2], v[|core|..]);
  }

  lemma ParsedIsNumber(s: string, n: nat)
    requires ParseNat(s, U64_LIMIT) == Some(n) && '+' !in s
    ensures IsNumber(s, n)
  {
  }

  lemma CoreThenTail(v: string)
    ensures '+' !in Core(v) && Core(v) <= v && IsTail(v[|Core(v)|..])
  {
  }

  /** The releases compare as their values. */
  lemma BeforeIsLess(o: Release, r: Release)
    requires o.minor < U64_LIMIT && o.patch < U64_LIMIT && r.minor < U64_LIMIT && r.patch < U64_LIMIT
    ensures Before((o.major, o.minor, o.patch), (r.major, r.minor, r.patch)) <==> o.Value() < r.Value()
  {
    var x, y := o.major * U64_LIMIT + o.minor, r.major * U64_LIMIT + r.minor;
    assert x < y <==> o.major < r.major || (o.major == r.major && o.minor < r.minor);
    assert x == y <==> o.major == r.major && o.minor == r.minor;
  }

  lemma SaidIsSmall(v: string, r: Release)
    requires Says(v, r)
    ensures r.major < U64_LIMIT && r.minor < U64_LIMIT && r.patch < U64_LIMIT
  {
  }

  /** Of two release numbers the offered one is older exactly when its value is
      less, and then it is declined unless a downgrade is asked for. */
  lemma VersionsInOrder(offered: string, running: string, downgrade: bool, o: Release, r: Release)
    requires Says(offered, o) && Says(running, r)
    ensures JudgeVersion(offered, running, downgrade)
         == if o.Value() < r.Value() && !downgrade then VersionOlder else VersionOk
  {
    hide Says, Semver;
    SaidIsRead(offered, o);
    SaidIsRead(running, r);
    SaidIsSmall(offered, o);
    SaidIsSmall(running, r);
    BeforeIsLess(o, r);
    hide Before, Release.Value;
  }

  /** A version is taken exactly when both are release numbers and it is no step
      back, or one asked for. */
  lemma TakenExactlyWhen(offered: string, running: string, downgrade: bool)
    ensures JudgeVersion(offered, running, downgrade) == VersionOk <==> NoStepBack(offered, running, downgrade)
  {
    hide Says, Semver, Release.Value;
    if NoStepBack(offered, running, downgrade) {
      var o, r :| Says(offered, o) && Says(running, r) && (downgrade || r.Value() <= o.Value());
      VersionsInOrder(offered, running, downgrade, o, r);
    }
    if JudgeVersion(offered, running, downgrade) == VersionOk {
      ReadIsSaid(offered);
      ReadIsSaid(running);
      var (a, b, c) := Semver(offered).value;
      var (x, y, z) := Semver(running).value;
      VersionsInOrder(offered, running, downgrade, Release(a, b, c), Release(x, y, z));
    }
  }

  lemma ReadExactlyWhen(v: string)
    ensures Semver(v).Some? <==> exists r :: Says(v, r)
  {
    hide Says, Semver;
    if Semver(v).Some? {
      ReadIsSaid(v);
      var (a, b, c) := Semver(v).value;
      assert Says(v, Release(a, b, c));
    }
    forall r | Says(v, r)
      ensures Semver(v).Some?
    {
      SaidIsRead(v, r);
    }
  }

  /** And nothing can be said exactly of what is no release number. */
  lemma UnreadableExactlyWhen(offered: string, running: string, downgrade: bool)
    ensures JudgeVersion(offered, running, downgrade) == Unreadable
       <==> !(exists o :: Says(offered, o)) || !(exists r :: Says(running, r))
  {
    hide Says, Semver;
    ReadExactlyWhen(offered);
    ReadExactlyWhen(running);
  }

  // ----------------------------------------------------------- the canaries

  /** The machine is one a canary list names, or there is none. */
  ghost predicate Admits(canaries: seq<string>, mac: Option<string>) {
    canaries == [] || (mac.Some? && exists c :: c in canaries && SameButForCase(c, mac.value))
  }

  /** A manifest is for exactly the machines its canary list admits. */
  lemma MeantExactlyFor(m: Manifest, mac: Option<string>)
    ensures m.ForMachine(mac) <==> Admits(m.canaries, mac)
  {
    hide SameName, SameButForCase;
    if mac.Some? {
      forall i | 0 <= i < |m.canaries|
        ensures SameName(m.canaries[i], mac.value) <==> SameButForCase(m.canaries[i], mac.value)
      {
        SameNameIsSameButForCase(m.canaries[i], mac.value);
      }
    }
  }
}
