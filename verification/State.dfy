/** The medium's update state, `\stormboot\state` (`src/manifest.rs`): its text,
    the paths it lists, and what an update may write. */
module UpdateState {
  import opened Bytes
  import opened Text

  // ------------------------------------------------------------------ paths

  predicate PathChar(c: char) {
    'A' <= c <= 'Z' || 'a' <= c <= 'z' || '0' <= c <= '9' || c == '.' || c == '_' || c == '-'
  }

  predicate ComponentOk(c: string) {
    c != "" && c[0] != '.' && c[0] != '-' && forall i :: 0 <= i < |c| ==> PathChar(c[i])
  }

  /** A longer name that ends in `end`, whatever its case. */
  predicate HasSuffix(name: string, end: string) {
    |end| < |name| && SameName(name[|name| - |end|..], end)
  }

  /** The places an update may write: `startup.nsh`, `EFI/BOOT/<file>`,
      `stormboot/<file>` (but not the medium's own two) and
      `stormboot/<dir>/<file>`. */
  predicate PlaceOk(parts: seq<string>) {
    if |parts| == 1 then SameName(parts[0], "startup.nsh")
    else if |parts| == 3 && SameName(parts[0], "EFI") then SameName(parts[1], "BOOT")
    else if (|parts| == 2 || |parts| == 3) && SameName(parts[0], "stormboot") then
      !(|parts| == 2 && (SameName(parts[1], "state") || SameName(parts[1], "local.conf")))
    else false
  }

  predicate PathOk(p: string) {
    var parts := Split(p, '/');
    && 0 < |p| <= 128
    && |parts| <= 4
    && (forall i :: 0 <= i < |parts| ==> ComponentOk(parts[i]))
    && !HasSuffix(parts[|parts| - 1], ".new")
    && !HasSuffix(parts[|parts| - 1], ".prev")
    && PlaceOk(parts)
  }

  /** `path_ok`, as the source runs it: component by component into four slots. */
  method CheckPath(p: string) returns (ok: bool)
    ensures ok <==> PathOk(p)
  {
    if p == "" || |p| > 128 {
      return false;
    }
    var pieces := Split(p, '/');
    var parts := new string[4](_ => "");
    var n := 0;
    while n < |pieces|
      invariant n <= |pieces| && n <= 4
      invariant parts[..n] == pieces[..n]
      invariant forall i :: 0 <= i < n ==> ComponentOk(pieces[i])
    {
      var c := pieces[n];
      if n == parts.Length || c == "" || c[0] == '.' || c[0] == '-' {
        return false;
      }
      if !forall i :: 0 <= i < |c| ==> PathChar(c[i]) {
        return false;
      }
      parts[n] := c;
      n := n + 1;
    }
    assert parts[..n] == pieces;
    var last := parts[n - 1];
    if HasSuffix(last, ".new") || HasSuffix(last, ".prev") {
      return false;
    }
    return PlaceOk(parts[..n]);
  }

  // ------------------------------------------------------------------ state

  datatype State = State(
    serial: nat,                 // of the files in place
    min: nat,                    // the highest that passed its trial here
    failed: nat,                 // the highest that failed its trial here
    trial: Option<(nat, nat)>,   // which serial, and how many starts so far
    prev: nat,                   // the serial the trial replaced
    files: string)               // what that update touched, marked where new

  const FRESH := State(0, 0, 0, None, 0, "")

  function ParseTrial(v: string): Option<(nat, nat)> {
    var t := Words(v);
    if |t| < 2 then None
    else
      var serial, starts := ParseNat(t[0], U64_LIMIT), ParseNat(t[1], U32_LIMIT);
      if serial.Some? && starts.Some? then Some((serial.value, starts.value)) else None
  }

  function ReadField(s: State, k: string, v: string): State {
    if k == "serial" then s.(serial := ParseOrZero(v, U64_LIMIT))
    else if k == "min" then s.(min := ParseOrZero(v, U64_LIMIT))
    else if k == "failed" then s.(failed := ParseOrZero(v, U64_LIMIT))
    else if k == "prev" then s.(prev := ParseOrZero(v, U64_LIMIT))
    else if k == "files" then s.(files := v)
    else if k == "trial" then s.(trial := ParseTrial(v))
    else s
  }

  function ReadLine(s: State, line: string): State {
    match SplitOnce(line, '=')
    case None => s
    case Some((k, v)) => ReadField(s, Trim(k), Trim(v))
  }

  function ReadLines(s: State, lines: seq<string>): State
    decreases |lines|
  {
    if lines == [] then s else ReadLines(ReadLine(s, lines[0]), lines[1..])
  }

  /** What a state file's text says. Anything unreadable reads as 0. */
  function StateOf(text: string): State {
    ReadLines(FRESH, Lines(text))
  }

  /** `State::parse`, as the source runs it. */
  method Parse(text: string) returns (s: State)
    ensures s == StateOf(text)
  {
    s := FRESH;
    var lines := Lines(text);
    var i := 0;
    while i < |lines|
      invariant i <= |lines|
      invariant ReadLines(s, lines[i..]) == StateOf(text)
    {
      var line := SplitOnce(lines[i], '=');
      if line.Some? {
        var k, v := Trim(line.value.0), Trim(line.value.1);
        match k {
          case "serial" => s := s.(serial := ParseOrZero(v, U64_LIMIT));
          case "min" => s := s.(min := ParseOrZero(v, U64_LIMIT));
          case "failed" => s := s.(failed := ParseOrZero(v, U64_LIMIT));
          case "prev" => s := s.(prev := ParseOrZero(v, U64_LIMIT));
          case "files" => s := s.(files := v);
          case "trial" => s := s.(trial := ParseTrial(v));
          case _ =>
        }
      }
      i := i + 1;
    }
  }

  function HeadingLine(): string {
    "# stormbootx " + "self-update " + "state (#83). " + "Written by " + "stormbootx; " + "do not edit."
  }

  function Heading(): string {
    HeadingLine() + "\n"
  }

  function Line(k: string, v: string): string {
    k + " = " + v + "\n"
  }

  function SerialsText(s: State): string {
    Line("serial", Decimal(s.serial)) + Line("min", Decimal(s.min)) + Line("failed", Decimal(s.failed))
  }

  function TrialValue(t: (nat, nat)): string {
    Decimal(t.0) + " " + Decimal(t.1)
  }

  function TrialText(s: State): string {
    if s.trial.None? then ""
    else Line("trial", TrialValue(s.trial.value)) + Line("prev", Decimal(s.prev))
  }

  function FilesText(s: State): string {
    if s.files == "" then "" else Line("files", s.files)
  }

  /** The text a state is kept as. */
  function TextOf(s: State): string {
    Heading() + SerialsText(s) + TrialText(s) + FilesText(s)
  }

  /** `out`, filled from the front; a piece that does not fit writes nothing. */
  class Buf {
    const out: array<char>
    var len: nat
    ghost var text: string

    ghost predicate Valid()
      reads this, out
    {
      len == |text| <= out.Length && out[..len] == text
    }

    constructor (out: array<char>)
      ensures Valid() && this.out == out && text == ""
    {
      this.out, len, text := out, 0, "";
    }

    method WriteStr(s: string) returns (ok: bool)
      requires Valid()
      modifies this, out
      ensures Valid()
      ensures ok <==> |old(text)| + |s| <= out.Length
      ensures text == if ok then old(text) + s else old(text)
    {
      var end := len + |s|;
      if end > out.Length {
        return false;
      }
      forall i | 0 <= i < |s| {
        out[len + i] := s[i];
      }
      len, text := end, text + s;
      return true;
    }
  }

  lemma WhatIsLeftOut(s: State)
    ensures s.trial.None? ==> TrialText(s) == ""
    ensures s.files == "" ==> FilesText(s) == ""
  {
  }

  /** `State::render`: the whole text at the front of `out` and its length, or
      nothing when it does not fit. Never a cut file taken for a whole one. */
  method Render(s: State, out: array<char>) returns (n: Option<nat>)
    modifies out
    ensures n.Some? <==> |TextOf(s)| <= out.Length
    ensures n.Some? ==> n.value == |TextOf(s)| && out[..n.value] == TextOf(s)
  {
    WhatIsLeftOut(s);
    ghost var a, b, c, d := Heading(), SerialsText(s), TrialText(s), FilesText(s);
    assert TextOf(s) == a + b + c + d;
    hide TextOf, Heading, SerialsText, TrialText, FilesText;
    var w := new Buf(out);
    var ok := w.WriteStr(Heading());
    assert (ok <==> |a| <= out.Length) && (ok ==> w.text == a);
    if ok {
      ok := w.WriteStr(SerialsText(s));
    }
    assert (ok <==> |a + b| <= out.Length) && (ok ==> w.text == a + b);
    if ok && s.trial.Some? {
      ok := w.WriteStr(TrialText(s));
    }
    assert (ok <==> |a + b + c| <= out.Length) && (ok ==> w.text == a + b + c);
    if ok && s.files != "" {
      ok := w.WriteStr(FilesText(s));
    }
    n := if ok then Some(w.len) else None;
  }

  // --------------------------------------------------------- the round trip

  /** The states the code keeps: `prev` only beside a trial, and one line's
      worth of trimmed file list. */
  predicate Keepable(s: State) {
    && s.serial < U64_LIMIT && s.min < U64_LIMIT && s.failed < U64_LIMIT && s.prev < U64_LIMIT
    && (s.trial.Some? ==> s.trial.value.0 < U64_LIMIT && s.trial.value.1 < U32_LIMIT)
    && (s.trial.None? ==> s.prev == 0)
    && Trimmed(s.files) && '\n' !in s.files
  }

  predicate KeyName(k: string) {
    k != "" && Trimmed(k) && '=' !in k && '\n' !in k
  }

  /** One `key = value` line, read back. */
  lemma ReadWritten(s: State, k: string, v: string, rest: string)
    requires KeyName(k) && Trimmed(v) && '\n' !in v
    ensures ReadLines(s, Lines(Line(k, v) + rest)) == ReadLines(ReadField(s, k, v), Lines(rest))
  {
    var line := k + " = " + v;
    assert line == (k + " ") + ['='] + (" " + v);
    SplitOnceAt(k + " ", '=', " " + v);
    TrimOfTrimmed(k);
    TrimOfTrimmed(v);
    assert ReadLine(s, line) == ReadField(s, k, v);
    assert line[|line| - 1] != '\r';
    LinesOfLine(line, rest);
    assert ([line] + Lines(rest))[1..] == Lines(rest);
  }

  lemma SerialFields(s: State, v: string)
    ensures ReadField(s, "serial", v) == s.(serial := ParseOrZero(v, U64_LIMIT)) && KeyName("serial")
    ensures ReadField(s, "min", v) == s.(min := ParseOrZero(v, U64_LIMIT)) && KeyName("min")
    ensures ReadField(s, "failed", v) == s.(failed := ParseOrZero(v, U64_LIMIT)) && KeyName("failed")
  {
  }

  lemma TrialFields(s: State, v: string)
    ensures ReadField(s, "trial", v) == s.(trial := ParseTrial(v)) && KeyName("trial")
    ensures ReadField(s, "prev", v) == s.(prev := ParseOrZero(v, U64_LIMIT)) && KeyName("prev")
    ensures ReadField(s, "files", v) == s.(files := v) && KeyName("files")
  {
  }

  lemma ReadNumber(s: State, k: string, n: nat, rest: string)
    requires KeyName(k) && n < U64_LIMIT
    ensures ReadLines(s, Lines(Line(k, Decimal(n)) + rest)) == ReadLines(ReadField(s, k, Decimal(n)), Lines(rest))
    ensures ParseOrZero(Decimal(n), U64_LIMIT) == n
  {
    DigitsAreNoSpace(Decimal(n));
    ReadWritten(s, k, Decimal(n), rest);
    ParseDecimal(n, U64_LIMIT);
  }

  lemma HeadingIsPlain(c: char)
    requires c == '\n' || c == '='
    ensures c !in HeadingLine()
  {
    assert c !in "# stormbootx ";
    assert c !in "self-update ";
    assert c !in "state (#83). ";
    assert c !in "Written by ";
    assert c !in "stormbootx; ";
    assert c !in "do not edit.";
  }

  lemma ReadHeading(rest: string)
    ensures ReadLines(FRESH, Lines(Heading() + rest)) == ReadLines(FRESH, Lines(rest))
  {
    var line := HeadingLine();
    assert line[|line| - 1] == '.';
    hide HeadingLine;
    HeadingIsPlain('\n');
    HeadingIsPlain('=');
    LinesOfLine(line, rest);
    IndexOfNone(line, '=');
    assert ([line] + Lines(rest))[1..] == Lines(rest);
  }

  lemma ReadSerials(s: State, rest: string)
    requires Keepable(s)
    ensures ReadLines(FRESH, Lines(SerialsText(s) + rest))
         == ReadLines(FRESH.(serial := s.serial, min := s.min, failed := s.failed), Lines(rest))
  {
    var a, b, c := Line("serial", Decimal(s.serial)), Line("min", Decimal(s.min)), Line("failed", Decimal(s.failed));
    assert SerialsText(s) + rest == a + (b + (c + rest));
    hide Lines, ReadLines, Line, Decimal, ParseOrZero, ReadField, KeyName;
    SerialFields(FRESH, Decimal(s.serial));
    ReadNumber(FRESH, "serial", s.serial, b + (c + rest));
    var one := FRESH.(serial := s.serial);
    SerialFields(one, Decimal(s.min));
    ReadNumber(one, "min", s.min, c + rest);
    var two := one.(min := s.min);
    SerialFields(two, Decimal(s.failed));
    ReadNumber(two, "failed", s.failed, rest);
  }

  lemma TrialValueReads(t: (nat, nat))
    requires t.0 < U64_LIMIT && t.1 < U32_LIMIT
    ensures ParseTrial(TrialValue(t)) == Some(t)
    ensures Trimmed(TrialValue(t)) && '\n' !in TrialValue(t)
  {
    var a, b := Decimal(t.0), Decimal(t.1);
    DigitsAreNoSpace(a);
    DigitsAreNoSpace(b);
    ParseDecimal(t.0, U64_LIMIT);
    ParseDecimal(t.1, U32_LIMIT);
    assert TrialValue(t) == JoinWords([a, b]) by {
      assert [a, b][1..] == [b];
    }
    WordsOfJoined([a, b]);
  }

  lemma ReadTrial(s: State, so: State, rest: string)
    requires Keepable(s) && so.trial == None && so.prev == 0
    ensures ReadLines(so, Lines(TrialText(s) + rest)) == ReadLines(so.(trial := s.trial, prev := s.prev), Lines(rest))
  {
    if s.trial.None? {
      assert TrialText(s) + rest == rest;
    } else {
      var a, b := Line("trial", TrialValue(s.trial.value)), Line("prev", Decimal(s.prev));
      assert TrialText(s) + rest == a + (b + rest);
      hide Lines, ReadLines, Line, Decimal, ParseOrZero, TrialValue, ParseTrial, TrialText, ReadField, KeyName;
      TrialFields(so, TrialValue(s.trial.value));
      TrialFields(so.(trial := s.trial), Decimal(s.prev));
      TrialValueReads(s.trial.value);
      ReadWritten(so, "trial", TrialValue(s.trial.value), b + rest);
      ReadNumber(so.(trial := s.trial), "prev", s.prev, rest);
    }
  }

  /** Reading back what was written gives the state that was written. */
  lemma RoundTrip(s: State)
    requires Keepable(s)
    ensures StateOf(TextOf(s)) == s
  {
    var serials := FRESH.(serial := s.serial, min := s.min, failed := s.failed);
    var trial := serials.(trial := s.trial, prev := s.prev);
    assert TextOf(s) == Heading() + (SerialsText(s) + (TrialText(s) + FilesText(s)));
    assert FilesText(s) + "" == FilesText(s);
    if s.files != "" {
      TrialFields(trial, s.files);
      ReadWritten(trial, "files", s.files, "");
    }
    assert ReadLines(trial, Lines(FilesText(s))) == s;
    hide Lines, ReadLines, Heading, SerialsText, TrialText, FilesText;
    ReadHeading(SerialsText(s) + (TrialText(s) + FilesText(s)));
    ReadSerials(s, TrialText(s) + FilesText(s));
    ReadTrial(s, serials, FilesText(s));
  }

  /** What any text reads as. */
  predicate Readable(s: State) {
    && s.serial < U64_LIMIT && s.min < U64_LIMIT && s.failed < U64_LIMIT && s.prev < U64_LIMIT
    && (s.trial.Some? ==> s.trial.value.0 < U64_LIMIT && s.trial.value.1 < U32_LIMIT)
    && Trimmed(s.files) && '\n' !in s.files
  }

  /** A state as it stands: `prev` means nothing without a trial, and is not kept. */
  function Standing(s: State): State {
    if s.trial.None? then s.(prev := 0) else s
  }

  lemma {:induction false} TrimShortens(s: string)
    ensures Trimmed(Trim(s)) && forall c :: c in Trim(s) ==> c in s
  {
    TrimStartShortens(s);
    TrimEndShortens(TrimStart(s));
  }

  lemma {:induction false} TrimStartShortens(s: string)
    ensures TrimStart(s) != "" ==> !IsSpace(TrimStart(s)[0])
    ensures forall c :: c in TrimStart(s) ==> c in s
  {
    if s != "" && IsSpace(s[0]) {
      TrimStartShortens(s[1..]);
    }
  }

  lemma {:induction false} TrimEndShortens(s: string)
    ensures TrimEnd(s) <= s
    ensures TrimEnd(s) != "" ==> !IsSpace(TrimEnd(s)[|TrimEnd(s)| - 1])
  {
    if s != "" && IsSpace(s[|s| - 1]) {
      TrimEndShortens(s[..|s| - 1]);
    }
  }

  predicate OneLineEach(lines: seq<string>) {
    forall i :: 0 <= i < |lines| ==> '\n' !in lines[i]
  }

  lemma {:induction false} LinesAreSingle(s: string)
    ensures OneLineEach(Lines(s))
    decreases |s|
  {
    if s != "" {
      var i := IndexOf(s, '\n');
      if i < |s| {
        LinesAreSingle(s[i + 1..]);
        assert '\n' !in s[..i];
        if i > 0 && s[i - 1] == '\r' {
          assert s[..i - 1] == s[..i][..i - 1];
        }
      } else {
        assert s[..i] == s;
      }
    }
  }

  lemma LineStaysReadable(s: State, line: string)
    requires Readable(s) && '\n' !in line
    ensures Readable(ReadLine(s, line))
  {
    hide Trimmed, Trim;
    var i := IndexOf(line, '=');
    if i < |line| {
      TrimShortens(line[i + 1..]);
      assert '\n' !in Trim(line[i + 1..]);
    }
  }

  lemma {:induction false} LinesStayReadable(s: State, lines: seq<string>)
    requires Readable(s) && OneLineEach(lines)
    ensures Readable(ReadLines(s, lines))
    decreases |lines|
  {
    hide Readable, ReadLine;
    if lines != [] {
      LineStaysReadable(s, lines[0]);
      LinesStayReadable(ReadLine(s, lines[0]), lines[1..]);
    }
  }

  /** Any text at all reads as a state that can be written back. */
  lemma AnyTextIsReadable(text: string)
    ensures Readable(StateOf(text))
  {
    LinesAreSingle(text);
    assert Readable(FRESH);
    LinesStayReadable(FRESH, Lines(text));
  }

  /** A state written to the medium is the state that then stands. */
  lemma WrittenStands(s: State)
    requires Readable(s)
    ensures StateOf(TextOf(s)) == Standing(s)
  {
    hide Heading, Line, Decimal, Trimmed;
    assert TextOf(s) == TextOf(Standing(s));
    RoundTrip(Standing(s));
  }

  /** Without a file list the text is short. */
  lemma ShortWithoutList(s: State)
    requires Readable(s) && s.files == ""
    ensures |TextOf(s)| <= 300
  {
    U64Digits(s.serial);
    U64Digits(s.min);
    U64Digits(s.failed);
    U64Digits(s.prev);
    if s.trial.Some? {
      U64Digits(s.trial.value.0);
      U64Digits(s.trial.value.1);
    }
    HeadingIsShort();
    hide Decimal, Heading;
    assert |"serial"| == 6 && |"min"| == 3 && |"failed"| == 6 && |" = "| == 3;
    assert |"trial"| == 5 && |"prev"| == 4;
  }

  /** With one it is longer by that list and its line. */
  lemma ShortWithList(s: State)
    requires Readable(s)
    ensures |TextOf(s)| <= 309 + |s.files|
  {
    ShortWithoutList(s.(files := ""));
    assert |"files"| == 5 && |" = "| == 3;
    assert SerialsText(s) == SerialsText(s.(files := "")) && TrialText(s) == TrialText(s.(files := ""));
    hide Heading, SerialsText, TrialText;
  }

  lemma HeadingIsShort()
    ensures |Heading()| == 74
  {
  }

  // ------------------------------------------------------- the changed list

  /** A path the last update changed, and whether it had no earlier copy. */
  datatype Change = Change(path: string, isNew: bool)

  function Mark(c: Change): string {
    if c.isNew then "+" + c.path else c.path
  }

  function Unmark(word: string): Change {
    if word != "" && word[0] == '+' then Change(word[1..], true) else Change(word, false)
  }

  function Kept(words: seq<string>): seq<Change> {
    if words == [] then []
    else
      var c := Unmark(words[0]);
      if PathOk(c.path) then [c] + Kept(words[1..]) else Kept(words[1..])
  }

  /** `State::changed`: the words of the list that are paths. */
  function Changed(s: State): seq<Change> {
    Kept(Words(s.files))
  }

  function Marks(cs: seq<Change>): seq<string> {
    seq(|cs|, i requires 0 <= i < |cs| => Mark(cs[i]))
  }

  /** The list as `apply` joins it into the state. */
  function FileList(cs: seq<Change>): string {
    JoinWords(Marks(cs))
  }

  predicate AllPathsOk(cs: seq<Change>) {
    forall i :: 0 <= i < |cs| ==> PathOk(cs[i].path)
  }

  lemma {:induction false} PiecesMakeThePath(p: string)
    requires forall k :: 0 <= k < |Split(p, '/')| ==> ComponentOk(Split(p, '/')[k])
    ensures p != "" && PathChar(p[0])
    ensures forall i :: 0 <= i < |p| ==> p[i] == '/' || PathChar(p[i])
    decreases |p|
  {
    var parts := Split(p, '/');
    var i := IndexOf(p, '/');
    assert ComponentOk(parts[0]);
    if i < |p| {
      assert parts[1..] == Split(p[i + 1..], '/');
      PiecesMakeThePath(p[i + 1..]);
      assert p == p[..i] + ['/'] + p[i + 1..];
    }
  }

  /** An accepted path is one word, and not a marked one. */
  lemma PathIsAWord(p: string)
    requires PathOk(p)
    ensures p != "" && NoSpace(p) && p[0] != '+' && '\\' !in p
    ensures forall i :: 0 <= i < |p| ==> p[i] == '/' || PathChar(p[i])
  {
    hide PlaceOk, HasSuffix;
    PiecesMakeThePath(p);
  }

  lemma {:induction false} LastPiece(p: string)
    ensures var last := Split(p, '/')[|Split(p, '/')| - 1];
            EndsWith(p, last) && '/' !in last && (|last| < |p| ==> p[|p| - |last| - 1] == '/')
    decreases |p|
  {
    hide IndexOf;
    var i := IndexOf(p, '/');
    if i < |p| {
      var rest := p[i + 1..];
      LastPiece(rest);
      var parts := Split(rest, '/');
      var last := parts[|parts| - 1];
      assert Split(p, '/') == [p[..i]] + parts;
      assert p[|p| - |last|..] == rest[|rest| - |last|..];
    } else {
      assert p[..i] == p;
    }
  }

  lemma SuffixIsInLastPiece(p: string, last: string, end: string)
    requires EndsWith(p, last) && (|last| < |p| ==> p[|p| - |last| - 1] == '/')
    requires last != "" && last[0] != '.' && !HasSuffix(last, end)
    requires |end| > 0 && end[0] == '.' && '/' !in end && Fold(end) == end
    ensures !EndsWith(Fold(p), end)
  {
  }

  lemma LastPieceOk(p: string)
    requires PathOk(p)
    ensures var last := Split(p, '/')[|Split(p, '/')| - 1];
            ComponentOk(last) && !HasSuffix(last, ".new") && !HasSuffix(last, ".prev")
  {
    hide PlaceOk, HasSuffix, ComponentOk;
  }

  lemma SiblingEnds()
    ensures Fold(".new") == ".new" && Fold(".prev") == ".prev"
    ensures '/' !in ".new" && '/' !in ".prev"
  {
  }

  /** No accepted path ends in a name the update itself uses, in any case. */
  lemma NotASiblingName(p: string)
    requires PathOk(p)
    ensures !EndsWith(Fold(p), ".new") && !EndsWith(Fold(p), ".prev")
  {
    hide Fold, HasSuffix, EndsWith, PathOk;
    LastPieceOk(p);
    LastPiece(p);
    SiblingEnds();
    var parts := Split(p, '/');
    SuffixIsInLastPiece(p, parts[|parts| - 1], ".new");
    SuffixIsInLastPiece(p, parts[|parts| - 1], ".prev");
  }

  lemma {:induction false} KeptAreAll(cs: seq<Change>)
    requires AllPathsOk(cs)
    ensures Kept(Marks(cs)) == cs
  {
    hide PathOk;
    if cs != [] {
      assert PathOk(cs[0].path);
      PathIsAWord(cs[0].path);
      assert ("+" + cs[0].path)[1..] == cs[0].path;
      assert Unmark(Mark(cs[0])) == cs[0];
      assert Marks(cs)[1..] == Marks(cs[1..]);
      KeptAreAll(cs[1..]);
    }
  }

  lemma MarksAreWords(cs: seq<Change>)
    requires AllPathsOk(cs)
    ensures forall i :: 0 <= i < |cs| ==> Marks(cs)[i] != "" && NoSpace(Marks(cs)[i])
  {
    hide PathOk;
    forall i | 0 <= i < |cs|
      ensures Marks(cs)[i] != "" && NoSpace(Marks(cs)[i])
    {
      assert PathOk(cs[i].path);
      PathIsAWord(cs[i].path);
    }
  }

  /** `changed` gives back exactly the list that was joined into `files`. */
  lemma ChangedIsTheList(s: State, cs: seq<Change>)
    requires AllPathsOk(cs) && s.files == FileList(cs)
    ensures Changed(s) == cs
  {
    hide PathOk;
    MarksAreWords(cs);
    WordsOfJoined(Marks(cs));
    KeptAreAll(cs);
  }

  lemma {:induction false} JoinedIsOneLine(words: seq<string>)
    requires forall i :: 0 <= i < |words| ==> words[i] != "" && NoSpace(words[i])
    ensures Trimmed(JoinWords(words)) && '\n' !in JoinWords(words)
    ensures words != [] ==> JoinWords(words) != ""
  {
    if |words| > 1 {
      JoinedIsOneLine(words[1..]);
      var rest := JoinWords(words[1..]);
      assert JoinWords(words)[|JoinWords(words)| - 1] == rest[|rest| - 1];
    }
  }

  /** So a trial's state, list and all, survives the medium. */
  lemma TrialRoundTrip(s: State, cs: seq<Change>)
    requires AllPathsOk(cs)
    requires Keepable(s.(files := ""))
    ensures Keepable(s.(files := FileList(cs)))
    ensures StateOf(TextOf(s.(files := FileList(cs)))) == s.(files := FileList(cs))
    ensures Changed(StateOf(TextOf(s.(files := FileList(cs))))) == cs
  {
    hide PathOk;
    MarksAreWords(cs);
    JoinedIsOneLine(Marks(cs));
    RoundTrip(s.(files := FileList(cs)));
    ChangedIsTheList(s.(files := FileList(cs)), cs);
  }

  lemma LinesWritten()
    ensures Line("serial", Decimal(5)) == "serial = 5\n" && Line("min", Decimal(4)) == "min = 4\n"
    ensures Line("failed", Decimal(3)) == "failed = 3\n" && Line("prev", Decimal(2)) == "prev = 2\n"
  {
  }

  lemma TrialWritten()
    ensures Line("trial", TrialValue((6, 1))) == "trial = 6 1\n"
  {
    assert Decimal(6) == "6" && Decimal(1) == "1";
    hide Decimal;
    assert TrialValue((6, 1)) == "6 1";
  }

  /** A state's text, line by line. */
  lemma TextOfATrial()
    ensures TextOf(State(5, 4, 3, Some((6, 1)), 2, "startup.nsh"))
         == Heading() + ("serial = 5\n" + "min = 4\n" + "failed = 3\n") + ("trial = 6 1\n" + "prev = 2\n")
            + "files = startup.nsh\n"
  {
    hide Heading, Decimal, Line, TrialValue;
    LinesWritten();
    TrialWritten();
    FilesWritten();
  }

  lemma FilesWritten()
    ensures Line("files", "startup.nsh") == "files = startup.nsh\n"
  {
  }
}
