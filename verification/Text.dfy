/** The string operations the boot medium's text formats are read with, as
    Rust's `str` defines them: `lines`, `trim`, `split_once`,
    `split_whitespace` and the unsigned `parse`. */
module Text {
  import opened Bytes

  /** `char::is_whitespace`: Unicode's White_Space. */
  predicate IsSpace(c: char) {
    || '\U{0009}' <= c <= '\U{000D}' || c == ' ' || c == '\U{0085}' || c == '\U{00A0}' || c == '\U{1680}'
    || '\U{2000}' <= c <= '\U{200A}' || c == '\U{2028}' || c == '\U{2029}' || c == '\U{202F}'
    || c == '\U{205F}' || c == '\U{3000}'
  }

  function TrimStart(s: string): string {
    if s != "" && IsSpace(s[0]) then TrimStart(s[1..]) else s
  }

  function TrimEnd(s: string): string {
    if s != "" && IsSpace(s[|s| - 1]) then TrimEnd(s[..|s| - 1]) else s
  }

  function Trim(s: string): string {
    TrimEnd(TrimStart(s))
  }

  /** Where `c` first is, `|s|` when it is nowhere. */
  function IndexOf(s: string, c: char): (i: nat)
    ensures i <= |s| && c !in s[..i]
    ensures i < |s| ==> s[i] == c
  {
    if s == "" || s[0] == c then 0
    else
      var i := IndexOf(s[1..], c);
      assert s[..i + 1] == [s[0]] + s[1..][..i];
      i + 1
  }

  function SplitOnce(s: string, c: char): Option<(string, string)> {
    var i := IndexOf(s, c);
    if i == |s| then None else Some((s[..i], s[i + 1..]))
  }

  /** `split(c)`: the pieces between the separators, empty ones included. */
  function Split(s: string, c: char): (parts: seq<string>)
    ensures |parts| > 0
  {
    var i := IndexOf(s, c);
    if i == |s| then [s] else [s[..i]] + Split(s[i + 1..], c)
  }

  /** `lines()`: each line without its `\n` or `\r\n`; the last may have none. */
  function Lines(s: string): seq<string> {
    if s == "" then []
    else
      var i := IndexOf(s, '\n');
      if i == |s| then [s]
      else if i > 0 && s[i - 1] == '\r' then [s[..i - 1]] + Lines(s[i + 1..])
      else [s[..i]] + Lines(s[i + 1..])
  }

  /** Length of the run of characters at the front that are not whitespace. */
  function WordLength(s: string): (n: nat)
    ensures n <= |s|
    ensures n < |s| ==> IsSpace(s[n])
  {
    if s == "" || IsSpace(s[0]) then 0 else 1 + WordLength(s[1..])
  }

  /** `split_whitespace()`. */
  function Words(s: string): seq<string> {
    if s == "" then []
    else if IsSpace(s[0]) then Words(s[1..])
    else
      var n := WordLength(s);
      [s[..n]] + Words(s[n..])
  }

  function Lower(c: char): char {
    if 'A' <= c <= 'Z' then (c as int + 32) as char else c
  }

  /** ASCII lower case, which is how FAT tells names apart. */
  function Fold(s: string): (f: string)
    ensures |f| == |s|
    ensures forall i :: 0 <= i < |s| ==> f[i] == Lower(s[i])
  {
    seq(|s|, i requires 0 <= i < |s| => Lower(s[i]))
  }

  predicate SameName(a: string, b: string) {
    Fold(a) == Fold(b)
  }

  predicate EndsWith(s: string, end: string) {
    |end| <= |s| && s[|s| - |end|..] == end
  }

  predicate IsDigit(c: char) {
    '0' <= c <= '9'
  }

  function DigitValue(c: char): nat
    requires IsDigit(c)
  {
    c as nat - '0' as nat
  }

  predicate AllDigits(s: string) {
    forall i :: 0 <= i < |s| ==> IsDigit(s[i])
  }

  function ValueOf(s: string): nat
    requires AllDigits(s)
  {
    if s == "" then 0 else 10 * ValueOf(s[..|s| - 1]) + DigitValue(s[|s| - 1])
  }

  /** `str::parse` for an unsigned integer below `limit`. */
  function ParseNat(s: string, limit: nat): (n: Option<nat>)
    ensures n.Some? ==> n.value < limit
  {
    var digits := if s != "" && s[0] == '+' then s[1..] else s;
    if digits == "" || !AllDigits(digits) then None
    else if ValueOf(digits) < limit then Some(ValueOf(digits))
    else None
  }

  function ParseOrZero(s: string, limit: nat): nat {
    var n := ParseNat(s, limit);
    if n.Some? then n.value else 0
  }

  function Digit(n: nat): char
    requires n < 10
  {
    ('0' as nat + n) as char
  }

  /** A number as `{}` prints it. */
  function Decimal(n: nat): (s: string)
    ensures s != "" && AllDigits(s)
  {
    if n < 10 then [Digit(n)] else Decimal(n / 10) + [Digit(n % 10)]
  }

  // ------------------------------------------------------------- properties

  lemma {:induction false} DecimalValue(n: nat)
    ensures ValueOf(Decimal(n)) == n
  {
    var s := Decimal(n);
    if n >= 10 {
      DecimalValue(n / 10);
      assert s[..|s| - 1] == Decimal(n / 10);
    } else {
      assert s[..|s| - 1] == "";
    }
  }

  /** Printing and parsing undo each other. */
  lemma ParseDecimal(n: nat, limit: nat)
    requires n < limit
    ensures ParseNat(Decimal(n), limit) == Some(n)
  {
    DecimalValue(n);
    assert IsDigit(Decimal(n)[0]);
  }

  /** A number below the limit, with any leading zeros and a plus sign or none, and
      nothing else, parses. */
  lemma ParsesExactlyWhen(s: string, limit: nat, n: nat)
    ensures ParseNat(s, limit) == Some(n)
       <==> n < limit && exists d :: d != "" && AllDigits(d) && ValueOf(d) == n && (s == d || s == "+" + d)
  {
    forall d | d != "" && AllDigits(d) && (s == d || s == "+" + d)
      ensures d == if s != "" && s[0] == '+' then s[1..] else s
    {
      assert IsDigit(d[0]);
    }
    if s != "" && s[0] == '+' {
      assert s == "+" + s[1..];
    }
  }

  predicate NoSpace(s: string) {
    forall i :: 0 <= i < |s| ==> !IsSpace(s[i])
  }

  /** No whitespace at either end. */
  predicate Trimmed(s: string) {
    s != "" ==> !IsSpace(s[0]) && !IsSpace(s[|s| - 1])
  }

  lemma TrimOfTrimmed(s: string)
    requires Trimmed(s)
    ensures Trim(s) == s && Trim(" " + s) == s && Trim(s + " ") == s
  {
    assert (" " + s)[1..] == s;
    if s != "" {
      assert TrimEnd(s + " ") == TrimEnd((s + " ")[..|s|]);
      assert (s + " ")[..|s|] == s;
    } else {
      assert s + " " == " ";
      assert " "[1..] == "";
    }
  }

  lemma {:induction false} IndexOfFirst(a: string, c: char, rest: string)
    requires c !in a
    ensures IndexOf(a + [c] + rest, c) == |a|
  {
    if a != "" {
      assert (a + [c] + rest)[1..] == a[1..] + [c] + rest;
      IndexOfFirst(a[1..], c, rest);
    }
  }

  lemma {:induction false} IndexOfNone(a: string, c: char)
    requires c !in a
    ensures IndexOf(a, c) == |a|
  {
    if a != "" {
      IndexOfNone(a[1..], c);
    }
  }

  lemma SplitAt(a: string, c: char, rest: string)
    requires c !in a
    ensures Split(a + [c] + rest, c) == [a] + Split(rest, c)
    ensures Split(a, c) == [a]
  {
    IndexOfFirst(a, c, rest);
    IndexOfNone(a, c);
    var s := a + [c] + rest;
    assert s[..|a|] == a && s[|a| + 1..] == rest;
    assert Split(s, c) == [s[..|a|]] + Split(s[|a| + 1..], c);
  }

  /** A text is its first piece, or that, the separator, and the text of the others. */
  lemma FirstPiece(s: string, c: char) returns (rest: string)
    ensures c !in Split(s, c)[0]
    ensures |Split(s, c)| == 1 ==> s == Split(s, c)[0]
    ensures |Split(s, c)| > 1 ==> s == Split(s, c)[0] + [c] + rest && Split(rest, c) == Split(s, c)[1..]
  {
    var i := IndexOf(s, c);
    rest := if i < |s| then s[i + 1..] else "";
  }

  lemma SplitOnceAt(a: string, c: char, rest: string)
    requires c !in a
    ensures SplitOnce(a + [c] + rest, c) == Some((a, rest))
  {
    IndexOfFirst(a, c, rest);
    var s := a + [c] + rest;
    assert s[..|a|] == a && s[|a| + 1..] == rest;
  }

  /** A line written with its newline is read back as that line. */
  lemma LinesOfLine(line: string, rest: string)
    requires '\n' !in line
    requires line != "" ==> line[|line| - 1] != '\r'
    ensures Lines(line + "\n" + rest) == [line] + Lines(rest)
  {
    IndexOfFirst(line, '\n', rest);
    var s := line + ['\n'] + rest;
    assert s == line + "\n" + rest;
    assert s[|line| + 1..] == rest;
    assert s[..|line|] == line;
  }

  lemma FirstLineReturns(s: string, i: nat)
    requires 0 < i < |s| && IndexOf(s, '\n') == i && s[i - 1] == '\r'
    ensures Lines(s) == [s[..i - 1]] + Lines(s[i + 1..])
  {
  }

  /** So is one written with a carriage return as well. */
  lemma LinesOfReturn(line: string, rest: string)
    requires '\n' !in line
    ensures Lines(line + "\r\n" + rest) == [line] + Lines(rest)
  {
    hide Lines, IndexOf;
    var s := line + ['\r'] + ['\n'] + rest;
    IndexOfFirst(line + ['\r'], '\n', rest);
    assert s == line + "\r\n" + rest;
    FirstLineReturns(s, |line| + 1);
    assert s[|line| + 2..] == rest;
    assert s[..|line|] == line;
  }

  /** And a last one with nothing after it. */
  lemma LastLine(line: string)
    requires '\n' !in line && line != ""
    ensures Lines(line) == [line]
  {
    IndexOfNone(line, '\n');
  }

  lemma {:induction false} WordLengthOf(word: string, rest: string)
    requires NoSpace(word)
    requires rest != "" ==> IsSpace(rest[0])
    ensures WordLength(word + rest) == |word|
  {
    if word == "" {
      assert word + rest == rest;
    } else {
      assert (word + rest)[1..] == word[1..] + rest;
      WordLengthOf(word[1..], rest);
    }
  }

  /** A word followed by nothing, or by whitespace, is read back as that word. */
  lemma WordsOfWord(word: string, rest: string)
    requires word != "" && NoSpace(word)
    requires rest != "" ==> IsSpace(rest[0])
    ensures Words(word + rest) == [word] + Words(rest)
  {
    WordLengthOf(word, rest);
    assert (word + rest)[..|word|] == word;
    assert (word + rest)[|word|..] == rest;
  }

  function JoinWords(words: seq<string>): string {
    if |words| == 0 then ""
    else if |words| == 1 then words[0]
    else words[0] + " " + JoinWords(words[1..])
  }

  /** `join(" ")` then `split_whitespace` gives the words back. */
  lemma {:induction false} WordsOfJoined(words: seq<string>)
    requires forall i :: 0 <= i < |words| ==> words[i] != "" && NoSpace(words[i])
    ensures Words(JoinWords(words)) == words
  {
    assert IsSpace(' ') && Words("") == [];
    hide Words, WordLength, IsSpace;
    if |words| == 1 {
      WordsOfWord(words[0], "");
      assert words[0] + "" == words[0];
      assert [words[0]] + [] == words;
    } else if |words| > 1 {
      var rest := " " + JoinWords(words[1..]);
      WordsOfJoined(words[1..]);
      assert rest[1..] == JoinWords(words[1..]);
      WordsOfWord(words[0], rest);
      assert words[0] + rest == JoinWords(words);
    }
  }

  lemma DigitsAreNoSpace(s: string)
    requires AllDigits(s)
    ensures NoSpace(s) && '\n' !in s && '=' !in s && Trimmed(s)
  {
  }

  lemma FoldConcat(a: string, b: string)
    ensures Fold(a + b) == Fold(a) + Fold(b)
  {
  }

  /** The same letter in upper and in lower case. */
  predicate CaseOf(x: char, y: char) {
    'A' <= x <= 'Z' && 'a' <= y <= 'z' && x as int - 'A' as int == y as int - 'a' as int
  }

  /** The same text but for the case of ASCII letters. */
  predicate SameButForCase(a: string, b: string) {
    |a| == |b| && forall i :: 0 <= i < |a| ==> a[i] == b[i] || CaseOf(a[i], b[i]) || CaseOf(b[i], a[i])
  }

  lemma SameNameIsSameButForCase(a: string, b: string)
    ensures SameName(a, b) <==> SameButForCase(a, b)
  {
    if SameName(a, b) {
      forall i | 0 <= i < |a|
        ensures a[i] == b[i] || CaseOf(a[i], b[i]) || CaseOf(b[i], a[i])
      {
        assert Fold(a)[i] == Fold(b)[i];
      }
    }
  }

  function Pow10(k: nat): nat {
    if k == 0 then 1 else 10 * Pow10(k - 1)
  }

  lemma {:induction false} DecimalLength(n: nat, k: nat)
    requires n < Pow10(k)
    ensures |Decimal(n)| <= if k == 0 then 1 else k
  {
    assert Pow10(1) == 10;
    if n >= 10 {
      DecimalLength(n / 10, k - 1);
    }
  }

  /** A 64-bit number takes at most 20 digits. */
  lemma U64Digits(n: nat)
    requires n < U64_LIMIT
    ensures |Decimal(n)| <= 20
  {
    assert Pow10(4) == 1_0000;
    assert Pow10(8) == 1_0000_0000;
    assert Pow10(12) == 1_0000_0000_0000;
    assert Pow10(16) == 1_0000_0000_0000_0000;
    assert Pow10(20) == 1_0000_0000_0000_0000_0000;
    DecimalLength(n, 20);
  }
}
