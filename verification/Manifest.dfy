/** The signed manifest and the decisions taken on it (`src/manifest.rs`). */
module Manifests {
  import opened Bytes
  import opened Text
  import opened UpdateState
  import opened Hex

  const MAX_FILES := 32
  const MAX_CANARIES := 32
  const MAX_FILE := 8 * 1024 * 1024
  const MAX_TOTAL := 24 * 1024 * 1024
  const TRIAL_STARTS := 2

  function Format(): string { "stormbootx-manifest 1" }
  function Bootloader(): string { "EFI/BOOT/BOOTX64.EFI" }

  datatype Entry = Entry(sha256: seq<byte>, size: nat, path: string)

  datatype Manifest = Manifest(
    version: string,
    commit: string,
    golden: string,
    serial: nat,
    downgrade: bool,
    files: seq<Entry>,
    canaries: seq<string>)
  {
    /** Is a file of this name among the entries, as FAT compares names? */
    predicate Names(path: string) {
      exists i :: 0 <= i < |files| && SameName(files[i].path, path)
    }

    predicate ForMachine(mac: Option<string>) {
      canaries == [] || (mac.Some? && exists i :: 0 <= i < |canaries| && SameName(canaries[i], mac.value))
    }
  }

  datatype Bad = WrongFormat | NoSerial | NoVersion | BadLine | BadPath | Duplicate | TooMany | TooBig | NoBootloader

  const EMPTY := Manifest("", "", "", 0, false, [], [])

  // -------------------------------------------------------------------- hex

  function HexBytes(s: string): (b: seq<byte>)
    requires |s| % 2 == 0 && forall i :: 0 <= i < |s| ==> IsHex(s[i])
    ensures |b| == |s| / 2
  {
    if s == "" then [] else [(HexValue(s[0]) * 16 + HexValue(s[1])) as byte] + HexBytes(s[2..])
  }

  /** 64 hex digits, as 32 bytes. */
  function Hex32(s: string): (b: Option<seq<byte>>)
    ensures b.Some? ==> |b.value| == 32
  {
    if |s| == 64 && forall i :: 0 <= i < |s| ==> IsHex(s[i]) then Some(HexBytes(s)) else None
  }

  // ---------------------------------------------------------------- parsing

  /** The manifest read so far, and the bytes its files add up to. */
  datatype Progress = Progress(m: Manifest, total: nat)

  function KeyOf(line: string): string {
    line[..WordLength(line)]
  }

  function RestOf(line: string): string {
    Trim(line[WordLength(line)..])
  }

  function ReadFile(p: Progress, rest: string): Result<Progress, Bad> {
    var f := Words(rest);
    if |f| != 3 then Err(BadLine)
    else
      var sha256, size := Hex32(f[0]), ParseNat(f[1], U64_LIMIT);
      if sha256.None? || size.None? then Err(BadLine)
      else if !PathOk(f[2]) then Err(BadPath)
      else if p.m.Names(f[2]) then Err(Duplicate)
      else if |p.m.files| == MAX_FILES then Err(TooMany)
      else if size.value > MAX_FILE then Err(TooBig)
      else if p.total + size.value > MAX_TOTAL then Err(TooBig)
      else
        Ok(Progress(p.m.(files := p.m.files + [Entry(sha256.value, size.value, f[2])]), p.total + size.value))
  }

  function ReadItem(p: Progress, line: string): Result<Progress, Bad> {
    var key, rest := KeyOf(line), RestOf(line);
    if key == "version" then Ok(p.(m := p.m.(version := rest)))
    else if key == "commit" then Ok(p.(m := p.m.(commit := rest)))
    else if key == "golden" then Ok(p.(m := p.m.(golden := rest)))
    else if key == "downgrade" then Ok(p.(m := p.m.(downgrade := rest == "true")))
    else if key == "serial" then
      var n := ParseNat(rest, U64_LIMIT);
      if n.Some? then Ok(p.(m := p.m.(serial := n.value))) else Err(NoSerial)
    else if key == "canary" then
      if |p.m.canaries| == MAX_CANARIES then Err(TooMany)
      else Ok(p.(m := p.m.(canaries := p.m.canaries + [rest])))
    else if key == "file" then ReadFile(p, rest)
    else Ok(p)
  }

  function ReadItems(p: Progress, lines: seq<string>): Result<Progress, Bad>
    decreases |lines|
  {
    if lines == [] then Ok(p)
    else
      match ReadItem(p, lines[0])
      case Err(e) => Err(e)
      case Ok(next) => ReadItems(next, lines[1..])
  }

  /** The lines that say something, trimmed. */
  function Meaningful(lines: seq<string>): seq<string> {
    if lines == [] then []
    else
      var line := Trim(lines[0]);
      if line == "" || line[0] == '#' then Meaningful(lines[1..]) else [line] + Meaningful(lines[1..])
  }

  function Finished(m: Manifest): Result<Manifest, Bad> {
    if m.serial == 0 then Err(NoSerial)
    else if m.version == "" then Err(NoVersion)
    else if !m.Names(Bootloader()) then Err(NoBootloader)
    else Ok(m)
  }

  function ManifestOf(text: string): Result<Manifest, Bad> {
    var lines := Meaningful(Lines(text));
    if lines == [] || lines[0] != Format() then Err(WrongFormat)
    else
      match ReadItems(Progress(EMPTY, 0), lines[1..])
      case Err(e) => Err(e)
      case Ok(p) => Finished(p.m)
  }

  /** `parse`, line by line as the source runs it; the text has been verified. */
  method Parse(text: string) returns (r: Result<Manifest, Bad>)
    ensures r == ManifestOf(text)
  {
    hide ReadItem, Meaningful;
    var lines := Meaningful(Lines(text));
    if lines == [] || lines[0] != Format() {
      return Err(WrongFormat);
    }
    var p := Progress(EMPTY, 0);
    var i := 1;
    while i < |lines|
      invariant 1 <= i <= |lines|
      invariant ReadItems(p, lines[i..]) == ReadItems(Progress(EMPTY, 0), lines[1..])
    {
      var next := ReadItem(p, lines[i]);
      if next.Err? {
        return Err(next.error);
      }
      assert lines[i..][1..] == lines[i + 1..];
      p, i := next.value, i + 1;
    }
    return Finished(p.m);
  }

  // --------------------------------------------- what an accepted one keeps

  function Total(files: seq<Entry>): nat {
    if files == [] then 0 else Total(files[..|files| - 1]) + files[|files| - 1].size
  }

  predicate FileOk(e: Entry) {
    PathOk(e.path) && e.size <= MAX_FILE && |e.sha256| == 32
  }

  predicate AllDistinct(files: seq<Entry>) {
    forall i, j :: 0 <= i < j < |files| ==> !SameName(files[i].path, files[j].path)
  }

  /** What holds of every manifest while it is read. */
  predicate Sound(p: Progress) {
    && |p.m.files| <= MAX_FILES && |p.m.canaries| <= MAX_CANARIES
    && p.m.serial < U64_LIMIT
    && p.total == Total(p.m.files) <= MAX_TOTAL
    && (forall i :: 0 <= i < |p.m.files| ==> FileOk(p.m.files[i]))
    && AllDistinct(p.m.files)
  }

  /** Every file may be written and is small enough, no two are the same file
      to FAT, the bootloader is there, and the serial counts. */
  predicate Accepted(m: Manifest) {
    && Sound(Progress(m, Total(m.files)))
    && m.serial > 0 && m.version != ""
    && m.Names(Bootloader())
  }

  lemma FileStaysSound(p: Progress, rest: string)
    requires Sound(p)
    ensures ReadFile(p, rest).Ok? ==> Sound(ReadFile(p, rest).value)
  {
    hide PathOk, Hex32, ParseNat, Fold;
    var r := ReadFile(p, rest);
    if r.Ok? {
      var files := r.value.m.files;
      assert files[..|files| - 1] == p.m.files;
    }
  }

  lemma ItemStaysSound(p: Progress, line: string)
    requires Sound(p)
    ensures ReadItem(p, line).Ok? ==> Sound(ReadItem(p, line).value)
  {
    hide ReadFile, PathOk, KeyOf, RestOf, FileOk, AllDistinct, Total, ParseNat;
    FileStaysSound(p, RestOf(line));
  }

  lemma {:induction false} ItemsStaySound(p: Progress, lines: seq<string>)
    requires Sound(p)
    ensures ReadItems(p, lines).Ok? ==> Sound(ReadItems(p, lines).value)
    decreases |lines|
  {
    hide ReadItem, Sound;
    if lines != [] {
      ItemStaysSound(p, lines[0]);
      var r := ReadItem(p, lines[0]);
      if r.Ok? {
        ItemsStaySound(r.value, lines[1..]);
      }
    }
  }

  /** Every manifest `parse` accepts is one an update may act on. */
  lemma ParsedIsAccepted(text: string)
    ensures ManifestOf(text).Ok? ==> Accepted(ManifestOf(text).value)
  {
    var lines := Meaningful(Lines(text));
    if lines != [] {
      ItemsStaySound(Progress(EMPTY, 0), lines[1..]);
    }
    hide ReadItems, Meaningful, Lines, Format, Bootloader;
  }

  // -------------------------------------------------------------- decisions

  datatype Start = Normal | OnTrial(serial: nat, start: nat) | GiveUp(serial: nat, backTo: nat)

  /** How a start finds the record: no trial, one to count, or one that had its starts. */
  function StartOf(s: State): Start {
    match s.trial
    case None => Normal
    case Some((serial, starts)) =>
      if starts >= TRIAL_STARTS then GiveUp(serial, s.prev) else OnTrial(serial, starts + 1)
  }

  datatype Verdict = Current | Older(have: nat) | FailedHere | NotACanary | InTrial | Take

  function Max(a: nat, b: nat): nat {
    if a >= b then a else b
  }

  /** Whether an offered serial is taken, and why not. */
  function Judge(serial: nat, s: State, nvMin: nat, canary: bool): Verdict {
    if s.trial.Some? then InTrial
    else if serial == s.serial then Current
    else
      var medium := Max(s.serial, s.min);
      if serial <= medium then Older(medium)
      else if serial < nvMin then Older(nvMin)
      else if serial <= s.failed then FailedHere
      else if !canary then NotACanary
      else Take
  }

  datatype Version = VersionOk | VersionOlder | Unreadable

  function Numbers(parts: seq<string>): Option<(nat, nat, nat)> {
    if |parts| != 3 then None
    else
      var a, b, c := ParseNat(parts[0], U64_LIMIT), ParseNat(parts[1], U64_LIMIT), ParseNat(parts[2], U64_LIMIT);
      if a.Some? && b.Some? && c.Some? then Some((a.value, b.value, c.value)) else None
  }

  /** `MAJOR.MINOR.PATCH`, whatever follows a `-` or a `+` ignored. */
  function Semver(v: string): Option<(nat, nat, nat)> {
    var core := v[..IndexOf(v, '-')];
    Numbers(Split(core[..IndexOf(core, '+')], '.'))
  }

  predicate Before(a: (nat, nat, nat), b: (nat, nat, nat)) {
    a.0 < b.0 || (a.0 == b.0 && (a.1 < b.1 || (a.1 == b.1 && a.2 < b.2)))
  }

  function JudgeVersion(offered: string, running: string, downgrade: bool): Version {
    var o, r := Semver(offered), Semver(running);
    if o.None? || r.None? then Unreadable
    else if Before(o.value, r.value) && !downgrade then VersionOlder
    else VersionOk
  }

  /** A serial is taken exactly when no trial runs, it is above everything this
      medium has run or seen fail, not below what the machine has passed, and
      meant for this machine. */
  lemma UpdateExactlyWhen(serial: nat, s: State, nvMin: nat, canary: bool)
    ensures Judge(serial, s, nvMin, canary) == Take
       <==> s.trial.None? && canary && nvMin <= serial
            && s.serial < serial && s.min < serial && s.failed < serial
  {
  }
}
