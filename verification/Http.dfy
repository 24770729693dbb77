/** Where one HTTP/1.x request ends in the bytes of a connection (`request` in
    `src/command.rs`). */
module Http {
  import opened Bytes
  import opened Text
  import opened Wire

  const REQUEST_MAX: nat := 8192
  const HEAD_END: seq<byte> := CRLF + CRLF

  datatype Why = HeadersTooLong | NotUtf8 | NoRequestLine | NotHttp1 | BadLength | RequestTooLong

  datatype Request = Partial | Bad(why: Why) | Done(verb: string, path: string, body: seq<byte>)

  /** `split("\r\n")`. */
  function SplitLines(s: string): (ls: seq<string>)
    ensures |ls| > 0
  {
    var i := LineLength(s);
    if i == |s| then [s] else [s[..i]] + SplitLines(s[i + 2..])
  }

  /** Where the first line break is, `|s|` if there is none. */
  function LineLength(s: string): (n: nat)
    ensures n == |s| || (n + 2 <= |s| && s[n] == '\r' && s[n + 1] == '\n')
  {
    if |s| < 2 then |s|
    else if s[0] == '\r' && s[1] == '\n' then 0
    else 1 + LineLength(s[1..])
  }

  /** What a header line says the body's length is; `None` if it is about
      something else. */
  function LengthIn(line: string): Option<Option<nat>> {
    var field := SplitOnce(line, ':');
    if field.None? || !SameName(Trim(field.value.0), "content-length") then None
    else Some(ParseNat(Trim(field.value.1), U64_LIMIT))
  }

  /** The body's length by these header lines: the last to give one counts, and
      one that is no number spoils the request. */
  function LengthBy(lines: seq<string>): (n: Option<nat>)
    ensures n.Some? ==> n.value < U64_LIMIT
  {
    if lines == [] then Some(0)
    else
      var before, here := LengthBy(lines[..|lines| - 1]), LengthIn(lines[|lines| - 1]);
      if before.None? || here.None? then before else here.value
  }

  datatype Head = Refused(why: Why) | Head(verb: string, path: string, length: nat)

  function HeadOf(bytes: seq<byte>): Head {
    var head := Decode(bytes);
    if head.None? then Refused(NotUtf8)
    else
      var lines := SplitLines(head.value);
      var first := Split(lines[0], ' ');
      if |first| < 3 then Refused(NoRequestLine)
      else if !("HTTP/1." <= first[2]) then Refused(NotHttp1)
      else
        var length := LengthBy(lines[1..]);
        if length.None? then Refused(BadLength) else Head(first[0], first[1], length.value)
  }

  function RequestOf(buf: seq<byte>): Request {
    var end := Find(buf, HEAD_END);
    if end.None? then (if |buf| >= REQUEST_MAX then Bad(HeadersTooLong) else Partial)
    else
      assert IsAt(buf, HEAD_END, end.value);
      Framed(buf, end.value + 4, HeadOf(buf[..end.value]))
  }

  /** With the head ending at `start`. */
  function Framed(buf: seq<byte>, start: nat, head: Head): Request
    requires start <= |buf|
  {
    match head
    case Refused(why) => Bad(why)
    case Head(verb, path, length) =>
      if start + length > REQUEST_MAX then Bad(RequestTooLong)
      else if |buf| < start + length then Partial
      else Done(verb, path, buf[start..start + length])
  }

  /** A request read so far from everything received on the connection. */
  method ReadRequest(buf: seq<byte>) returns (r: Request)
    ensures r == RequestOf(buf)
  {
    hide LengthIn, LengthBy, Decode;
    var end := Find(buf, HEAD_END);
    if end.None? {
      return if |buf| >= REQUEST_MAX then Bad(HeadersTooLong) else Partial;
    }
    assert IsAt(buf, HEAD_END, end.value);
    var head := Decode(buf[..end.value]);
    if head.None? {
      return Bad(NotUtf8);
    }
    var lines := SplitLines(head.value);
    var first := Split(lines[0], ' ');
    if |first| < 3 {
      return Bad(NoRequestLine);
    }
    if !("HTTP/1." <= first[2]) {
      return Bad(NotHttp1);
    }
    var length := ReadLength(lines[1..]);
    if length.None? {
      return Bad(BadLength);
    }
    var start := end.value + 4;
    if start + length.value > REQUEST_MAX {
      return Bad(RequestTooLong);
    }
    if |buf| < start + length.value {
      return Partial;
    }
    return Done(first[0], first[1], buf[start..start + length.value]);
  }

  method ReadLength(lines: seq<string>) returns (length: Option<nat>)
    ensures length == LengthBy(lines)
  {
    hide LengthIn;
    length := Some(0);
    for i := 0 to |lines|
      invariant length == LengthBy(lines[..i]) && length.Some?
    {
      assert lines[..i + 1][..i] == lines[..i];
      var here := LengthIn(lines[i]);
      if here.Some? {
        if here.value.None? {
          StaysSpoilt(lines, i + 1);
          return None;
        }
        length := here.value;
      }
    }
    assert lines[..|lines|] == lines;
  }

  lemma {:induction false} StaysSpoilt(lines: seq<string>, i: nat)
    requires i <= |lines| && LengthBy(lines[..i]) == None
    ensures LengthBy(lines) == None
    decreases |lines| - i
  {
    hide LengthIn;
    if i == |lines| {
      assert lines[..i] == lines;
    } else {
      assert lines[..i + 1][..i] == lines[..i];
      StaysSpoilt(lines, i + 1);
    }
  }

  // ------------------------------------------------------------- properties

  /** Whatever has been decided stays decided when more arrives: the same
      request, or still none that is served. */
  lemma VerdictStands(buf: seq<byte>, more: seq<byte>)
    ensures RequestOf(buf).Done? ==> RequestOf(buf + more) == RequestOf(buf)
    ensures RequestOf(buf).Bad? ==> RequestOf(buf + more).Bad?
  {
    hide HeadOf, IsAt;
    var all := buf + more;
    FoundStays(buf, more, HEAD_END);
    var end := Find(buf, HEAD_END);
    HeadEnds(buf);
    HeadEnds(all);
    if end.Some? {
      SliceStays(buf, more, 0, end.value);
      match HeadOf(buf[..end.value]) {
        case Refused(_) =>
        case Head(_, _, length) =>
          var start := end.value + 4;
          if start + length <= |buf| {
            SliceStays(buf, more, start, start + length);
          }
      }
    }
  }

  lemma SliceStays(buf: seq<byte>, more: seq<byte>, i: nat, j: nat)
    requires i <= j <= |buf|
    ensures (buf + more)[i..j] == buf[i..j] && (i == 0 ==> (buf + more)[..j] == buf[..j])
  {
    assert (buf + more)[i..j] == buf[i..j];
  }

  lemma HeadEnds(buf: seq<byte>)
    ensures Find(buf, HEAD_END).Some? ==> Find(buf, HEAD_END).value + 4 <= |buf|
    ensures |HEAD_END| == 4
  {
    assert Find(buf, HEAD_END).Some? ==> IsAt(buf, HEAD_END, Find(buf, HEAD_END).value);
  }

  /** How the bytes arrive does not matter: at any two moments at which there is
      a verdict, it is the same request or none that is served. */
  lemma ArrivalDoesNotMatter(stream: seq<byte>, m: nat, n: nat)
    requires m <= |stream| && n <= |stream|
    requires RequestOf(stream[..m]) != Partial && RequestOf(stream[..n]) != Partial
    ensures RequestOf(stream[..m]).Bad? <==> RequestOf(stream[..n]).Bad?
    ensures RequestOf(stream[..m]).Done? ==> RequestOf(stream[..m]) == RequestOf(stream[..n])
  {
    hide RequestOf;
    var a, b := if m <= n then m else n, if m <= n then n else m;
    assert stream[..b] == stream[..a] + stream[a..b];
    VerdictStands(stream[..a], stream[a..b]);
  }

  /** By the largest size a request may have, it is done or refused. */
  lemma VerdictComes(buf: seq<byte>)
    ensures RequestOf(buf).Partial? ==> |buf| < REQUEST_MAX
    ensures RequestOf(buf).Done? ==> |RequestOf(buf).body| <= REQUEST_MAX
  {
    hide HeadOf, IsAt;
    HeadEnds(buf);
  }

  // ------------------------------------------------- a request as it is sent

  const BREAK: string := ['\r', '\n']

  /** Part of a header line: ASCII, and no line break. */
  predicate Inline(s: string) {
    IsAscii(s) && '\r' !in s && '\n' !in s
  }

  function JoinLines(lines: seq<string>): string
    requires |lines| > 0
  {
    if |lines| == 1 then lines[0] else lines[0] + BREAK + JoinLines(lines[1..])
  }

  predicate LinesOk(lines: seq<string>) {
    |lines| > 0 && forall i :: 0 <= i < |lines| ==> Inline(lines[i]) && lines[i] != ""
  }

  datatype Sent = Sent(verb: string, path: string, version: string, fields: seq<string>, body: seq<byte>)
  {
    function Lines(): (ls: seq<string>)
      ensures |ls| > 0
    {
      [verb + [' '] + (path + [' '] + version)] + fields
    }

    predicate Ok() {
      && Inline(verb) && Inline(path) && ' ' !in verb && ' ' !in path
      && (version == "HTTP/1.1" || version == "HTTP/1.0")
      && LinesOk(Lines()) && LengthBy(fields) == Some(|body|)
      && |JoinLines(Lines())| + 4 + |body| <= REQUEST_MAX
    }

    function Bytes(): seq<byte>
      requires Ok()
    {
      JoinIsAscii(Lines());
      Plain(JoinLines(Lines())) + HEAD_END + body
    }
  }

  lemma {:induction false} JoinIsAscii(lines: seq<string>)
    requires LinesOk(lines)
    ensures IsAscii(JoinLines(lines)) && JoinLines(lines) != "" && JoinLines(lines)[0] != '\r'
  {
    if |lines| > 1 {
      JoinIsAscii(lines[1..]);
    }
    assert lines[0][0] in lines[0];
  }

  /** Two line breaks in a row are only at the end of the head. */
  lemma {:induction false} NoEmptyLine(lines: seq<string>, j: nat)
    requires LinesOk(lines) && j < |JoinLines(lines)|
    ensures var t := JoinLines(lines) + BREAK + BREAK; !(t[j] == '\r' && t[j + 2] == '\r')
  {
    var t, l := JoinLines(lines) + BREAK + BREAK, lines[0];
    if j < |l| {
      assert t[j] == l[j] && l[j] in l;
    } else if |lines| > 1 {
      var rest := JoinLines(lines[1..]);
      assert t == l + BREAK + (rest + BREAK + BREAK);
      JoinIsAscii(lines[1..]);
      if j >= |l| + 2 {
        NoEmptyLine(lines[1..], j - |l| - 2);
      }
    }
  }

  lemma {:induction false} LineLengthOf(line: string, rest: string)
    requires '\r' !in line
    ensures LineLength(line) == |line| && LineLength(line + BREAK + rest) == |line|
  {
    if line != "" {
      assert (line + BREAK + rest)[1..] == line[1..] + BREAK + rest;
      LineLengthOf(line[1..], rest);
    }
  }

  lemma {:induction false} LinesComeBack(lines: seq<string>)
    requires LinesOk(lines)
    ensures SplitLines(JoinLines(lines)) == lines
  {
    hide IsAscii;
    var l := lines[0];
    if |lines| == 1 {
      LineLengthOf(l, "");
    } else {
      var rest := JoinLines(lines[1..]);
      var all := l + BREAK + rest;
      LineLengthOf(l, rest);
      LinesComeBack(lines[1..]);
      assert all[..|l|] == l && all[|l| + 2..] == rest;
    }
  }

  lemma VersionIsOneWord(version: string)
    requires version == "HTTP/1.1" || version == "HTTP/1.0"
    ensures Split(version, ' ') == [version] && "HTTP/1." <= version
  {
    IndexOfNone(version, ' ');
  }

  lemma FirstLineSplits(r: Sent)
    requires r.Ok()
    ensures Split(r.Lines()[0], ' ') == [r.verb, r.path, r.version]
  {
    hide Sent.Ok, Split, LinesOk;
    FirstLineParts(r);
    SplitAt(r.verb, ' ', r.path + [' '] + r.version);
    SplitAt(r.path, ' ', r.version);
    VersionIsOneWord(r.version);
    assert r.verb + [' '] + (r.path + [' '] + r.version) == r.Lines()[0];
  }

  lemma FirstLineParts(r: Sent)
    requires r.Ok()
    ensures ' ' !in r.verb && ' ' !in r.path && (r.version == "HTTP/1.1" || r.version == "HTTP/1.0")
  {
    hide LinesOk, LengthBy, JoinLines, Inline;
  }

  /** The head of a request ends where it was made to. */
  lemma HeadFound(lines: seq<string>, body: seq<byte>)
    requires LinesOk(lines)
    ensures IsAscii(JoinLines(lines))
    ensures Find(Plain(JoinLines(lines)) + HEAD_END + body, HEAD_END) == Some(|JoinLines(lines)|)
  {
    JoinIsAscii(lines);
    var head := JoinLines(lines);
    var b := Plain(head) + HEAD_END + body;
    forall j | 0 <= j < |head|
      ensures !IsAt(b, HEAD_END, j)
    {
      NoEmptyLine(lines, j);
      CharsAreBytes(head, body, j);
    }
    assert b[|head|..|head| + 4] == HEAD_END;
    FoundAt(b, HEAD_END, |head|);
  }

  lemma CharsAreBytes(head: string, body: seq<byte>, j: nat)
    requires IsAscii(head) && j < |head|
    requires var t := head + BREAK + BREAK; !(t[j] == '\r' && t[j + 2] == '\r')
    ensures !IsAt(Plain(head) + HEAD_END + body, HEAD_END, j)
  {
    hide IsAt;
    var b, t := Plain(head) + HEAD_END + body, head + BREAK + BREAK;
    EndsTwice(b, j);
    assert b[j] as nat == t[j] as nat;
    assert b[j + 2] as nat == t[j + 2] as nat;
  }

  lemma EndsTwice(b: seq<byte>, j: nat)
    ensures IsAt(b, HEAD_END, j) ==> j + 4 <= |b| && b[j] == 0x0D && b[j + 2] == 0x0D
  {
    if IsAt(b, HEAD_END, j) {
      assert b[j..j + |HEAD_END|][0] == b[j] && b[j..j + |HEAD_END|][2] == b[j + 2];
    }
  }

  /** A request comes back as it was sent, whatever follows it, and not before
      its last byte has arrived. */
  lemma RequestComesBack(r: Sent, more: seq<byte>, n: nat)
    requires r.Ok()
    ensures RequestOf(r.Bytes() + more) == Done(r.verb, r.path, r.body)
    ensures n < |r.Bytes()| ==> RequestOf(r.Bytes()[..n]) == Partial
  {
    hide LengthBy, LinesOk, Inline, Split, SplitLines, Decode, IsAscii;
    VersionIsOneWord(r.version);
    var lines := r.Lines();
    var head := JoinLines(lines);
    HeadFound(lines, r.body);
    LinesComeBack(lines);
    FirstLineSplits(r);
    PlainDecodes(head);
    var b := r.Bytes();
    assert lines[1..] == r.fields;
    assert b[..|head|] == Plain(head);
    assert HeadOf(Plain(head)) == Head(r.verb, r.path, |r.body|);
    assert b[|head| + 4..] == r.body;
    HeadEnds(b);
    assert RequestOf(b) == Done(r.verb, r.path, r.body);
    VerdictStands(b, more);
    if n < |b| {
      PrefixIsPartial(r, n);
    }
  }

  lemma PrefixIsPartial(r: Sent, n: nat)
    requires r.Ok() && n < |r.Bytes()|
    requires HeadOf(r.Bytes()[..|JoinLines(r.Lines())|]) == Head(r.verb, r.path, |r.body|)
    ensures RequestOf(r.Bytes()[..n]) == Partial
  {
    hide LengthBy, LinesOk, Inline, HeadOf, IsAt;
    var head := JoinLines(r.Lines());
    var b := r.Bytes();
    HeadFound(r.Lines(), r.body);
    HeadEnds(b[..n]);
    FoundStays(b[..n], b[n..], HEAD_END);
    assert b[..n] + b[n..] == b;
    if Find(b[..n], HEAD_END).Some? {
      assert b[..n][..|head|] == b[..|head|];
    }
  }

  // --------------------------------------------------- the length as it is sent

  predicate IsBlank(s: string) {
    forall i :: 0 <= i < |s| ==> s[i] == ' ' || s[i] == '\t'
  }

  /** `Content-Length: n`, in any case, with any blanks around its parts. */
  ghost predicate SaysLength(line: string, n: nat) {
    exists name, x, y, z ::
      && SameButForCase(name, "Content-Length") && IsBlank(x) && IsBlank(y) && IsBlank(z) && n < U64_LIMIT
      && line == name + x + [':'] + (y + Decimal(n) + z)
  }

  /** A line about something else. */
  ghost predicate SaysOther(line: string) {
    || ':' !in line
    || exists name, value ::
         line == name + [':'] + value && ':' !in name && NoSpace(name) && !SameButForCase(name, "Content-Length")
  }

  lemma {:induction false} BlanksGo(x: string, s: string)
    requires IsBlank(x) && (s != "" ==> !IsSpace(s[0]))
    ensures TrimStart(x + s) == s
  {
    if x == "" {
      assert x + s == s;
    } else {
      assert (x + s)[1..] == x[1..] + s;
      BlanksGo(x[1..], s);
    }
  }

  lemma {:induction false} BlanksGoAtTheEnd(s: string, x: string)
    requires IsBlank(x) && s != "" && !IsSpace(s[|s| - 1])
    ensures TrimEnd(s + x) == s
  {
    if x == "" {
      assert s + x == s;
    } else {
      assert (s + x)[..|s + x| - 1] == s + x[..|x| - 1];
      BlanksGoAtTheEnd(s, x[..|x| - 1]);
    }
  }

  lemma TrimsTo(x: string, s: string, y: string)
    requires IsBlank(x) && IsBlank(y) && NoSpace(s) && s != ""
    ensures Trim(x + s + y) == s
  {
    hide IsSpace;
    assert x + s + y == x + (s + y);
    assert (s + y)[0] == s[0];
    BlanksGo(x, s + y);
    BlanksGoAtTheEnd(s, y);
  }

  lemma NameOfLength(name: string)
    requires SameButForCase(name, "Content-Length")
    ensures ':' !in name && NoSpace(name) && name != "" && SameName(name, "content-length")
  {
    hide IsSpace;
    forall i | 0 <= i < |name|
      ensures name[i] != ':' && !IsSpace(name[i])
    {
      LetterOrDash("Content-Length"[i], name[i]);
    }
    SameLetters();
    CaseTwice(name, "Content-Length", "content-length");
    SameNameIsSameButForCase(name, "content-length");
  }

  lemma LetterOrDash(x: char, y: char)
    requires x == '-' || 'A' <= x <= 'Z' || 'a' <= x <= 'z'
    requires x == y || CaseOf(x, y) || CaseOf(y, x)
    ensures y != ':' && !IsSpace(y)
  {
  }

  lemma SameLetters()
    ensures SameButForCase("Content-Length", "content-length")
  {
  }

  lemma LengthReads(line: string, n: nat)
    requires SaysLength(line, n)
    ensures LengthIn(line) == Some(Some(n))
  {
    hide SameButForCase, SameName, Trim, Decimal, ParseNat, IsBlank;
    var name, x, y, z :|
      && SameButForCase(name, "Content-Length") && IsBlank(x) && IsBlank(y) && IsBlank(z) && n < U64_LIMIT
      && line == name + x + [':'] + (y + Decimal(n) + z);
    NameOfLength(name);
    NoColonInBlanks(x);
    SplitOnceAt(name + x, ':', y + Decimal(n) + z);
    NothingIsBlank();
    TrimsTo("", name, x);
    assert "" + name + x == name + x;
    DigitsAreNoSpace(Decimal(n));
    TrimsTo(y, Decimal(n), z);
    ParseDecimal(n, U64_LIMIT);
  }

  lemma NothingIsBlank()
    ensures IsBlank("")
  {
  }

  lemma NoColonInBlanks(x: string)
    requires IsBlank(x)
    ensures ':' !in x
  {
  }

  lemma OtherReads(line: string)
    requires SaysOther(line)
    ensures LengthIn(line) == None
  {
    hide SameButForCase, SameName, Trim;
    if ':' !in line {
      IndexOfNone(line, ':');
    } else {
      var name, value :|
        line == name + [':'] + value && ':' !in name && NoSpace(name) && !SameButForCase(name, "Content-Length");
      SplitOnceAt(name, ':', value);
      WordTrims(name);
      OtherName(name);
    }
  }

  lemma WordTrims(name: string)
    requires NoSpace(name)
    ensures Trim(name) == name
  {
    TrimOfTrimmed(name);
  }

  lemma OtherName(name: string)
    requires !SameButForCase(name, "Content-Length")
    ensures !SameName(name, "content-length")
  {
    SameNameIsSameButForCase(name, "content-length");
    if SameButForCase(name, "content-length") {
      SameLetters();
      CaseTwice(name, "content-length", "Content-Length");
    }
  }

  lemma CaseTwice(a: string, b: string, c: string)
    requires SameButForCase(a, b) && (SameButForCase(c, b) || SameButForCase(b, c))
    ensures SameButForCase(a, c)
  {
    SameNameIsSameButForCase(a, b);
    SameNameIsSameButForCase(c, b);
    SameNameIsSameButForCase(b, c);
    SameNameIsSameButForCase(a, c);
  }

  /** The body is as long as the last length line says, or empty if there is none. */
  lemma {:induction false} LengthAsWritten(lines: seq<string>, k: nat, n: nat)
    requires k <= |lines| && (if k == 0 then n == 0 else SaysLength(lines[k - 1], n))
    requires forall i :: k <= i < |lines| ==> SaysOther(lines[i])
    requires forall i :: 0 <= i < k ==> SaysOther(lines[i]) || exists m :: SaysLength(lines[i], m)
    ensures LengthBy(lines) == Some(n)
  {
    hide SaysLength, SaysOther, LengthIn;
    if lines != [] {
      var last := |lines| - 1;
      if k == |lines| {
        EarlierAreRead(lines[..last]);
        LengthReads(lines[last], n);
      } else {
        OtherReads(lines[last]);
        LengthAsWritten(lines[..last], k, n);
      }
    }
  }

  lemma {:induction false} EarlierAreRead(lines: seq<string>)
    requires forall i :: 0 <= i < |lines| ==> SaysOther(lines[i]) || exists m :: SaysLength(lines[i], m)
    ensures LengthBy(lines).Some?
  {
    hide SaysLength, SaysOther, LengthIn;
    if lines != [] {
      var last := |lines| - 1;
      EarlierAreRead(lines[..last]);
      if SaysOther(lines[last]) {
        OtherReads(lines[last]);
      } else {
        var m: nat :| SaysLength(lines[last], m);
        LengthReads(lines[last], m);
      }
    }
  }
}
