/** The JSON the command channel prints and reads (`escape`, `json_str`,
    `json_u64` and `value_of` in `src/command.rs`; section 7 of RFC 8259). */
module Json {
  import opened Bytes
  import opened Text
  import opened Hex

  const QUOTE: char := '\U{0022}'
  const SLASH: char := '\U{005C}'

  // --------------------------------------------------------------- printing

  /** A control character's escape: four digits, zeros in front. */
  function Unicode(n: nat): string
    requires n < 0x20
  {
    [SLASH, 'u', '0', '0'] + (if n < 16 then ['0'] else []) + HexOf(n)
  }

  /** One character of a string's contents. */
  function Escaped(c: char): string {
    if c == QUOTE then [SLASH, QUOTE]
    else if c == SLASH then [SLASH, SLASH]
    else if c == '\n' then [SLASH, 'n']
    else if c == '\r' then [SLASH, 'r']
    else if c == '\t' then [SLASH, 't']
    else if c as nat < 0x20 then Unicode(c as nat)
    else [c]
  }

  function Escape(s: string): string {
    if s == "" then "" else Escape(s[..|s| - 1]) + Escaped(s[|s| - 1])
  }

  method PrintEscaped(s: string) returns (o: string)
    ensures o == Escape(s)
  {
    hide Escaped;
    o := "";
    for i := 0 to |s|
      invariant o == Escape(s[..i])
    {
      assert s[..i + 1][..i] == s[..i];
      o := o + Escaped(s[i]);
    }
    assert s[..|s|] == s;
  }

  // ---------------------------------------------------------------- reading

  /** Where a string's closing quote is, from its first character on; an escaped
      character is passed over whole, even past the end. */
  function Closing(s: string): nat {
    if s == "" || s[0] == QUOTE then 0
    else if s[0] != SLASH then 1 + Closing(s[1..])
    else if |s| == 1 then 2
    else 2 + Closing(s[2..])
  }

  /** The text after the key and its colon, outside any inner value, without leading spaces. */
  function ValueFrom(s: string, depth: nat, key: string): Option<string>
    decreases |s|
  {
    if s == "" then None
    else if s[0] == '{' || s[0] == '[' then ValueFrom(s[1..], depth + 1, key)
    else if s[0] == '}' || s[0] == ']' then ValueFrom(s[1..], if depth > 0 then depth - 1 else 0, key)
    else if s[0] == QUOTE then
      var j := Closing(s[1..]);
      if j >= |s| - 1 then None
      else
        var after := TrimStart(s[j + 2..]);
        if depth == 1 && s[1..j + 1] == key && after != "" && after[0] == ':' then Some(TrimStart(after[1..]))
        else ValueFrom(s[j + 2..], depth, key)
    else ValueFrom(s[1..], depth, key)
  }

  method ValueOf(body: string, key: string) returns (v: Option<string>)
    ensures v == ValueFrom(body, 0, key)
  {
    hide Closing, TrimStart;
    var depth, i := 0, 0;
    assert body[0..] == body;
    while i < |body|
      invariant 0 <= i <= |body| && 0 <= depth
      invariant ValueFrom(body, 0, key) == ValueFrom(body[i..], depth, key)
    {
      var s := body[i..];
      assert s[1..] == body[i + 1..];
      if s[0] == '{' || s[0] == '[' {
        depth := depth + 1;
      } else if s[0] == '}' || s[0] == ']' {
        depth := if depth > 0 then depth - 1 else 0;
      } else if s[0] == QUOTE {
        var j := FindClosing(s[1..]);
        if j >= |s| - 1 {
          return None;
        }
        var name := s[1..j + 1];
        i := i + j + 2;
        assert s[j + 2..] == body[i..];
        var rest := TrimStart(body[i..]);
        if depth == 1 && name == key && rest != "" && rest[0] == ':' {
          return Some(TrimStart(rest[1..]));
        }
        continue;
      }
      i := i + 1;
    }
    return None;
  }

  method FindClosing(s: string) returns (j: nat)
    ensures j == Closing(s)
  {
    j := 0;
    assert s[0..] == s;
    while j < |s| && s[j] != QUOTE
      invariant if j <= |s| then Closing(s) == j + Closing(s[j..]) else j == |s| + 1 == Closing(s)
    {
      assert s[j..][1..] == s[j + 1..];
      j := j + if s[j] == SLASH then 2 else 1;
    }
  }

  /** The four characters an escaped code takes, fewer at the end. */
  function CodeDigits(s: string): string {
    s[..Min(4, |s|)]
  }

  function CharOf(h: string): Option<char> {
    var v := ParseHex(h, U32_LIMIT);
    if v.None? || !(v.value < 0xD800 || 0xE000 <= v.value < 0x11_0000) then None else Some(v.value as char)
  }

  /** What one escape stands for, and how long it is; any letter but these stands
      for itself. */
  function EscapeAt(s: string): Option<(char, nat)>
    requires s != "" && s[0] == SLASH
  {
    if |s| == 1 then None
    else if s[1] == 'n' then Some(('\n', 2))
    else if s[1] == 'r' then Some(('\r', 2))
    else if s[1] == 't' then Some(('\t', 2))
    else if s[1] == 'u' then
      var h := CodeDigits(s[2..]);
      if CharOf(h).None? then None else Some((CharOf(h).value, 2 + |h|))
    else Some((s[1], 2))
  }

  /** A string's text, up to its closing quote. */
  function Unescape(s: string): Option<string>
    decreases |s|
  {
    if s == "" then None
    else if s[0] == QUOTE then Some("")
    else if s[0] == SLASH then
      var e := EscapeAt(s);
      if e.None? then None else Follow(e.value.0, Unescape(s[e.value.1..]))
    else Follow(s[0], Unescape(s[1..]))
  }

  function Follow(c: char, rest: Option<string>): Option<string> {
    if rest.None? then None else Some([c] + rest.value)
  }

  function Joined(sofar: string, rest: Option<string>): Option<string> {
    if rest.None? then None else Some(sofar + rest.value)
  }

  function StringOf(v: Option<string>): Option<string> {
    if v.None? || v.value == "" || v.value[0] != QUOTE then None else Unescape(v.value[1..])
  }

  method ReadUnescaped(s: string) returns (text: Option<string>)
    ensures text == Unescape(s)
  {
    hide EscapeAt;
    var out, i := "", 0;
    assert s[0..] == s;
    assert Joined("", Unescape(s)) == Unescape(s) by { NothingSoFar(Unescape(s)); }
    while i < |s|
      invariant 0 <= i <= |s| && Unescape(s) == Joined(out, Unescape(s[i..]))
    {
      var rest := s[i..];
      if rest[0] == QUOTE {
        assert out + "" == out;
        return Some(out);
      }
      if rest[0] == SLASH {
        var e := EscapeAt(rest);
        if e.None? {
          return None;
        }
        EscapeFits(rest);
        OneMore(out, e.value.0, Unescape(rest[e.value.1..]));
        assert rest[e.value.1..] == s[i + e.value.1..];
        out, i := out + [e.value.0], i + e.value.1;
      } else {
        OneMore(out, rest[0], Unescape(rest[1..]));
        assert rest[1..] == s[i + 1..];
        out, i := out + [rest[0]], i + 1;
      }
    }
    return None;
  }

  lemma NothingSoFar(rest: Option<string>)
    ensures Joined("", rest) == rest
  {
    assert rest.Some? ==> "" + rest.value == rest.value;
  }

  lemma EscapeFits(s: string)
    requires s != "" && s[0] == SLASH && EscapeAt(s).Some?
    ensures 2 <= EscapeAt(s).value.1 <= |s|
  {
  }

  lemma OneMore(sofar: string, c: char, rest: Option<string>)
    ensures Joined(sofar, Follow(c, rest)) == Joined(sofar + [c], rest)
  {
    if rest.Some? {
      assert sofar + ([c] + rest.value) == sofar + [c] + rest.value;
    }
  }

  /** The text a key of the object itself has, if it is a string. */
  method JsonStr(body: string, key: string) returns (text: Option<string>)
    ensures text == StringOf(ValueFrom(body, 0, key))
  {
    hide ValueFrom, Unescape;
    var v := ValueOf(body, key);
    if v.None? || v.value == "" || v.value[0] != QUOTE {
      return None;
    }
    text := ReadUnescaped(v.value[1..]);
  }

  function DigitsLength(s: string): (n: nat)
    ensures n <= |s| && AllDigits(s[..n]) && (n < |s| ==> !IsDigit(s[n]))
  {
    if s == "" || !IsDigit(s[0]) then 0
    else
      var n := DigitsLength(s[1..]);
      assert s[1..][..n] == s[1..n + 1];
      n + 1
  }

  /** The number a key of the object itself has, if it is digits. */
  function NumberOf(v: Option<string>): Option<nat> {
    if v.None? then None else ParseNat(v.value[..DigitsLength(v.value)], U64_LIMIT)
  }

  // ---------------------------------------------------- strings come back

  lemma {:induction false} EscapeInTwo(a: string, b: string)
    ensures Escape(a + b) == Escape(a) + Escape(b)
  {
    hide Escaped;
    if b == "" {
      assert a + b == a;
    } else {
      assert (a + b)[..|a + b| - 1] == a + b[..|b| - 1];
      EscapeInTwo(a, b[..|b| - 1]);
    }
  }

  lemma EscapeHead(s: string)
    requires s != ""
    ensures Escape(s) == Escaped(s[0]) + Escape(s[1..])
  {
    hide Escaped;
    assert [s[0]] + s[1..] == s;
    EscapeInTwo([s[0]], s[1..]);
    assert [s[0]][..0] == [];
    assert Escape([s[0]]) == Escape([]) + Escaped(s[0]);
  }

  lemma UnicodeParses(n: nat)
    requires n < 0x20
    ensures |Unicode(n)| == 6 && CharOf(Unicode(n)[2..]) == Some(n as char)
    ensures forall i :: 2 <= i < 6 ==> IsHex(Unicode(n)[i])
  {
    hide HexOf, HexNumber;
    var h := HexOf(n);
    HexComesBack(n);
    HexLength(n);
    var zeros := if n < 16 then ['0', '0', '0'] else ['0', '0'];
    LeadingZeros(zeros, h);
    assert Unicode(n)[2..] == zeros + h;
  }

  lemma HexLength(n: nat)
    requires n < 0x20
    ensures |HexOf(n)| == if n < 16 then 1 else 2
  {
    if n >= 16 {
      assert HexOf(n / 16) == [HexDigit(n / 16)];
    }
  }

  lemma {:induction false} LeadingZeros(zeros: string, h: string)
    requires AllHex(h) && forall i :: 0 <= i < |zeros| ==> zeros[i] == '0'
    ensures AllHex(zeros + h) && HexNumber(zeros + h) == HexNumber(h)
  {
    if h == "" {
      ZerosAreZero(zeros);
      assert zeros + h == zeros;
    } else {
      LeadingZeros(zeros, h[..|h| - 1]);
      assert (zeros + h)[..|zeros + h| - 1] == zeros + h[..|h| - 1];
    }
  }

  lemma {:induction false} ZerosAreZero(zeros: string)
    requires forall i :: 0 <= i < |zeros| ==> zeros[i] == '0'
    ensures AllHex(zeros) && HexNumber(zeros) == 0
  {
    if zeros != "" {
      ZerosAreZero(zeros[..|zeros| - 1]);
    }
  }

  /** One escaped character is read back as itself. */
  lemma OneComesBack(c: char, rest: string)
    ensures Unescape(Escaped(c) + rest) == Follow(c, Unescape(rest))
  {
    hide CharOf, Unicode;
    var e := Escaped(c);
    var all := e + rest;
    assert all[|e|..] == rest;
    if c != QUOTE && c != SLASH && c != '\n' && c != '\r' && c != '\t' && c as nat < 0x20 {
      var u := Unicode(c as nat);
      UnicodeParses(c as nat);
      UnicodeStarts(c as nat);
      assert CodeDigits(all[2..]) == u[2..];
      assert EscapeAt(all) == Some((c, 6));
    }
  }

  lemma UnicodeStarts(n: nat)
    requires n < 0x20
    ensures Unicode(n) != "" && Unicode(n)[0] == SLASH && |Unicode(n)| > 1 && Unicode(n)[1] == 'u'
  {
  }

  lemma {:induction false} StringComesBack(s: string, tail: string)
    ensures Unescape(Escape(s) + [QUOTE] + tail) == Some(s)
  {
    hide Escaped;
    if s == "" {
      assert Escape(s) + [QUOTE] + tail == [QUOTE] + tail;
    } else {
      EscapeHead(s);
      var rest := Escape(s[1..]) + [QUOTE] + tail;
      assert Escape(s) + [QUOTE] + tail == Escaped(s[0]) + rest;
      OneComesBack(s[0], rest);
      StringComesBack(s[1..], tail);
      assert [s[0]] + s[1..] == s;
    }
  }

  /** One of the ways section 7 of RFC 8259 has to write a character: itself, a
      letter or a mark after a backslash, or four hexadecimal digits. */
  predicate Spells(p: string, c: char) {
    || (p == [c] && c != QUOTE && c != SLASH)
    || (p == [SLASH, c] && (c == QUOTE || c == SLASH || c == '/'))
    || (p == [SLASH, 'n'] && c as nat == 0x0A) || (p == [SLASH, 'r'] && c as nat == 0x0D)
    || (p == [SLASH, 't'] && c as nat == 0x09)
    || (|p| == 6 && p[0] == SLASH && p[1] == 'u' && AllHex(p[2..]) && HexNumber(p[2..]) == c as nat)
  }

  lemma SpelledIsRead(p: string, c: char, rest: string)
    requires Spells(p, c)
    ensures Unescape(p + rest) == Follow(c, Unescape(rest))
  {
    hide HexNumber, AllHex;
    var all := p + rest;
    assert all[|p|..] == rest;
    if |p| == 6 {
      assert CodeDigits(all[2..]) == p[2..];
      HexHasNoSign(p[2..]);
    }
  }

  lemma HexHasNoSign(h: string)
    requires AllHex(h) && h != ""
    ensures ParseHex(h, U32_LIMIT) == if HexNumber(h) < U32_LIMIT then Some(HexNumber(h)) else None
  {
  }

  /** What `escape` prints for a character is one of them, with no control character
      left in it. */
  lemma EscapeIsASpelling(c: char)
    ensures Spells(Escaped(c), c) && forall i :: 0 <= i < |Escaped(c)| ==> 0x20 <= Escaped(c)[i] as nat
  {
    hide Unicode, HexNumber;
    if c as nat < 0x20 {
      UnicodeParses(c as nat);
      UnicodeStarts(c as nat);
      var u := Unicode(c as nat);
      AllAreHex(u[2..]);
      HexHasNoSign(u[2..]);
    }
  }

  lemma AllAreHex(h: string)
    requires forall i :: 0 <= i < |h| ==> IsHex(h[i])
    ensures AllHex(h) && forall i :: 0 <= i < |h| ==> 0x20 <= h[i] as nat
  {
  }

  function Together(ps: seq<string>): string {
    if ps == [] then "" else ps[0] + Together(ps[1..])
  }

  /** A string is read whichever of these ways each of its characters is written. */
  lemma {:induction false} AnySpellingIsRead(ps: seq<string>, s: string, tail: string)
    requires |ps| == |s| && forall i :: 0 <= i < |s| ==> Spells(ps[i], s[i])
    ensures Unescape(Together(ps) + [QUOTE] + tail) == Some(s)
  {
    hide Spells;
    if s == "" {
      assert Together(ps) + [QUOTE] + tail == [QUOTE] + tail;
    } else {
      var rest := Together(ps[1..]) + [QUOTE] + tail;
      assert Together(ps) + [QUOTE] + tail == ps[0] + rest;
      SpelledIsRead(ps[0], s[0], rest);
      AnySpellingIsRead(ps[1..], s[1..], tail);
      assert [s[0]] + s[1..] == s;
    }
  }

  lemma OneIsPassed(c: char, rest: string)
    ensures Closing(Escaped(c) + rest) == |Escaped(c)| + Closing(rest)
  {
    var e := Escaped(c);
    var all := e + rest;
    assert all[|e|..] == rest;
    if c != QUOTE && c != SLASH && c != '\n' && c != '\r' && c != '\t' && c as nat < 0x20 {
      UnicodeParses(c as nat);
      assert all[2..] == e[2..] + rest;
      PlainIsPassed(e[2..], rest);
    } else {
      PlainIsPassed([], rest);
    }
  }

  lemma {:induction false} PlainIsPassed(p: string, rest: string)
    requires QUOTE !in p && SLASH !in p
    ensures Closing(p + rest) == |p| + Closing(rest)
  {
    if p == "" {
      assert p + rest == rest;
    } else {
      assert (p + rest)[1..] == p[1..] + rest;
      PlainIsPassed(p[1..], rest);
    }
  }

  /** The quote that closes a printed string is the one put there to close it. */
  lemma {:induction false} ClosesAtItsEnd(s: string, tail: string)
    ensures Closing(Escape(s) + [QUOTE] + tail) == |Escape(s)|
  {
    hide Escaped;
    if s == "" {
      assert Escape(s) + [QUOTE] + tail == [QUOTE] + tail;
    } else {
      EscapeHead(s);
      var rest := Escape(s[1..]) + [QUOTE] + tail;
      assert Escape(s) + [QUOTE] + tail == Escaped(s[0]) + rest;
      OneIsPassed(s[0], rest);
      ClosesAtItsEnd(s[1..], tail);
    }
  }

  // ---------------------------------------------------- objects come back

  datatype Value = Text(s: string) | Bare(raw: string) | Array(items: Items) | Object(fields: Fields)
  datatype Items = NoItems | Item(first: Value, others: Items)
  datatype Fields = NoFields | Field(key: string, value: Value, others: Fields)

  /** No quotes and no brackets. */
  predicate NothingNested(raw: string) {
    forall i :: 0 <= i < |raw| ==>
      raw[i] != QUOTE && raw[i] != '{' && raw[i] != '}' && raw[i] != '[' && raw[i] != ']'
  }

  /** A number, `true`, `false` or `null`: no part of JSON's punctuation but what
      may stand in a number. */
  predicate BareOk(raw: string) {
    raw != "" && !IsSpace(raw[0]) && NothingNested(raw)
  }

  predicate Ok(v: Value) {
    match v
    case Text(_) => true
    case Bare(raw) => BareOk(raw)
    case Array(items) => ItemsOk(items)
    case Object(fields) => FieldsOk(fields)
  }

  predicate ItemsOk(items: Items) {
    items.Item? ==> Ok(items.first) && ItemsOk(items.others)
  }

  predicate FieldsOk(fields: Fields) {
    fields.Field? ==> Ok(fields.value) && FieldsOk(fields.others)
  }

  function Quoted(s: string): string {
    [QUOTE] + Escape(s) + [QUOTE]
  }

  function Print(v: Value): string {
    match v
    case Text(s) => Quoted(s)
    case Bare(raw) => raw
    case Array(items) => ['['] + PrintItems(items) + [']']
    case Object(fields) => ['{'] + PrintFields(fields) + ['}']
  }

  function PrintItems(items: Items): string {
    match items
    case NoItems => ""
    case Item(v, NoItems) => Print(v)
    case Item(v, others) => Print(v) + [','] + PrintItems(others)
  }

  function PrintFields(fields: Fields): string {
    match fields
    case NoFields => ""
    case Field(k, v, NoFields) => Quoted(k) + [':'] + Print(v)
    case Field(k, v, others) => Quoted(k) + [':'] + Print(v) + [','] + PrintFields(others)
  }

  function Lookup(fields: Fields, key: string): Option<Value> {
    match fields
    case NoFields => None
    case Field(k, v, others) => if k == key then Some(v) else Lookup(others, key)
  }

  /** What may come after a value. */
  predicate Ends(tail: string) {
    tail != "" && (tail[0] == ',' || tail[0] == ']' || tail[0] == '}')
  }

  /** A string is passed over, unless it is the key at depth 1. */
  lemma PastString(s: string, tail: string, depth: nat, key: string)
    requires tail != "" && !IsSpace(tail[0])
    requires depth == 1 && Escape(s) == key ==> tail[0] != ':'
    ensures ValueFrom(Quoted(s) + tail, depth, key) == ValueFrom(tail, depth, key)
  {
    hide Escape, Closing;
    var all, e := Quoted(s) + tail, Escape(s);
    ClosesAtItsEnd(s, tail);
    assert all[1..] == e + [QUOTE] + tail;
    assert all[1..|e| + 1] == e && all[|e| + 2..] == tail;
  }

  lemma {:induction false} PastBare(raw: string, tail: string, depth: nat, key: string)
    requires NothingNested(raw)
    ensures ValueFrom(raw + tail, depth, key) == ValueFrom(tail, depth, key)
  {
    if raw == "" {
      assert raw + tail == tail;
    } else {
      assert (raw + tail)[1..] == raw[1..] + tail;
      PastBare(raw[1..], tail, depth, key);
    }
  }

  /** A value is passed over, whatever texts and keys are inside it. */
  lemma {:induction false} PastValue(v: Value, tail: string, depth: nat, key: string)
    requires Ok(v) && Ends(tail) && depth >= 1
    ensures ValueFrom(Print(v) + tail, depth, key) == ValueFrom(tail, depth, key)
  {
    hide Quoted, BareOk;
    match v {
      case Text(s) => PastString(s, tail, depth, key);
      case Bare(raw) => BareIsPlain(raw); PastBare(raw, tail, depth, key);
      case Array(items) =>
        var after := [']'] + tail;
        assert (Print(v) + tail)[1..] == PrintItems(items) + after;
        PastItems(items, after, depth + 1, key);
        assert after[1..] == tail;
      case Object(fields) =>
        var after := ['}'] + tail;
        assert (Print(v) + tail)[1..] == PrintFields(fields) + after;
        PastFields(fields, after, depth + 1, key);
        assert after[1..] == tail;
    }
  }

  lemma BareIsPlain(raw: string)
    requires BareOk(raw)
    ensures NothingNested(raw)
  {
  }

  lemma {:induction false} PastItems(items: Items, tail: string, depth: nat, key: string)
    requires ItemsOk(items) && Ends(tail) && depth >= 1
    ensures ValueFrom(PrintItems(items) + tail, depth, key) == ValueFrom(tail, depth, key)
  {
    match items {
      case NoItems => assert PrintItems(items) + tail == tail;
      case Item(v, NoItems) => PastValue(v, tail, depth, key);
      case Item(v, others) =>
        var after := PrintItems(others) + tail;
        assert PrintItems(items) + tail == Print(v) + ([','] + after);
        PastValue(v, [','] + after, depth, key);
        assert ([','] + after)[1..] == after;
        PastItems(others, tail, depth, key);
    }
  }

  lemma {:induction false} PastFields(fields: Fields, tail: string, depth: nat, key: string)
    requires FieldsOk(fields) && Ends(tail) && depth >= 2
    ensures ValueFrom(PrintFields(fields) + tail, depth, key) == ValueFrom(tail, depth, key)
  {
    hide Quoted;
    match fields {
      case NoFields => assert PrintFields(fields) + tail == tail;
      case Field(k, v, NoFields) =>
        assert PrintFields(fields) + tail == Quoted(k) + ([':'] + (Print(v) + tail));
        PastKey(k, Print(v) + tail, depth, key);
        PastValue(v, tail, depth, key);
      case Field(k, v, others) =>
        var after := [','] + (PrintFields(others) + tail);
        assert PrintFields(fields) + tail == Quoted(k) + ([':'] + (Print(v) + after));
        PastKey(k, Print(v) + after, depth, key);
        PastValue(v, after, depth, key);
        assert after[1..] == PrintFields(others) + tail;
        PastFields(others, tail, depth, key);
    }
  }

  lemma PastKey(k: string, rest: string, depth: nat, key: string)
    requires depth == 1 ==> Escape(k) != key
    ensures ValueFrom(Quoted(k) + ([':'] + rest), depth, key) == ValueFrom(rest, depth, key)
  {
    hide Quoted, Escape;
    PastString(k, [':'] + rest, depth, key);
    assert ([':'] + rest)[1..] == rest;
  }

  /** A key that is written as it is. */
  predicate PlainKey(key: string) {
    forall i :: 0 <= i < |key| ==> key[i] != QUOTE && key[i] != SLASH && key[i] as nat >= 0x20
  }

  lemma {:induction false} SameWhenEscaped(k: string, key: string)
    requires PlainKey(key)
    ensures Escape(k) == key <==> k == key
  {
    hide Escaped;
    if k != "" {
      var n := |k| - 1;
      var head, c := k[..n], k[n];
      PlainOrSlash(c);
      assert k == head + [c];
      if Escaped(c) == [c] {
        assert Escape(k) == Escape(head) + [c];
        if key != "" {
          var m := |key| - 1;
          assert key == key[..m] + [key[m]];
          SameWhenEscaped(head, key[..m]);
          SameEnds(Escape(head), c, key[..m], key[m]);
          SameEnds(head, c, key[..m], key[m]);
        }
      } else {
        SlashStays(k, n);
      }
    }
  }

  lemma SameEnds(a: string, c: char, b: string, d: char)
    ensures a + [c] == b + [d] <==> a == b && c == d
  {
    assert (a + [c])[..|a|] == a && (b + [d])[..|b|] == b;
    assert |a| == |b| ==> (a + [c])[|a|] == c && (b + [d])[|a|] == d;
  }

  lemma PlainOrSlash(c: char)
    ensures Escaped(c) == [c] <==> c != QUOTE && c != SLASH && c as nat >= 0x20
    ensures Escaped(c) != [c] ==> Escaped(c) != "" && Escaped(c)[0] == SLASH
  {
    hide HexOf;
  }

  lemma SlashStays(k: string, n: nat)
    requires n == |k| - 1 && Escaped(k[n]) != "" && Escaped(k[n])[0] == SLASH
    ensures SLASH in Escape(k)
  {
    hide Escaped;
    assert Escaped(k[n])[0] == SLASH;
    assert Escape(k)[|Escape(k[..n])|] == SLASH;
  }

  /** What the reader finds in an object's fields is the first with that key. */
  lemma {:induction false} FieldFound(fields: Fields, tail: string, key: string) returns (rest: string)
    requires FieldsOk(fields) && Ends(tail) && PlainKey(key)
    ensures Lookup(fields, key).None? ==> ValueFrom(PrintFields(fields) + tail, 1, key) == ValueFrom(tail, 1, key)
    ensures Lookup(fields, key).Some? ==>
              && Ends(rest)
              && ValueFrom(PrintFields(fields) + tail, 1, key) == Some(Print(Lookup(fields, key).value) + rest)
  {
    hide Quoted, Escape, PlainKey, Print;
    rest := tail;
    match fields {
      case NoFields => assert PrintFields(fields) + tail == tail;
      case Field(k, v, others) =>
        rest := if others.NoFields? then tail else [','] + (PrintFields(others) + tail);
        assert PrintFields(fields) + tail == Quoted(k) + ([':'] + (Print(v) + rest));
        SameWhenEscaped(k, key);
        if k == key {
          KeyFound(k, v, rest);
        } else {
          PastKey(k, Print(v) + rest, 1, key);
          PastValue(v, rest, 1, key);
          if others.Field? {
            assert rest[1..] == PrintFields(others) + tail;
            rest := FieldFound(others, tail, key);
          }
        }
    }
  }

  lemma KeyFound(key: string, v: Value, rest: string)
    requires Escape(key) == key && Ok(v)
    ensures ValueFrom(Quoted(key) + ([':'] + (Print(v) + rest)), 1, key) == Some(Print(v) + rest)
  {
    hide Escape, Closing;
    var tail := [':'] + (Print(v) + rest);
    var all := Quoted(key) + tail;
    ClosesAtItsEnd(key, tail);
    assert all[1..] == key + [QUOTE] + tail;
    assert all[1..|key| + 1] == key && all[|key| + 2..] == tail;
    assert tail[1..] == Print(v) + rest;
    StartsPlain(v);
  }

  lemma StartsPlain(v: Value)
    requires Ok(v)
    ensures Print(v) != "" && !IsSpace(Print(v)[0])
    ensures Print(v)[0] == QUOTE <==> v.Text?
  {
  }

  function TextIn(found: Option<Value>): Option<string> {
    if found.Some? && found.value.Text? then Some(found.value.s) else None
  }

  /** For any object, nested as deep as it may be, and any plain key: the string
      the first field of that name has, and nothing where no field has it or it
      is no string. No text and no key inside a value is taken for it. */
  lemma StringsComeBack(fields: Fields, key: string)
    requires FieldsOk(fields) && PlainKey(key)
    ensures StringOf(ValueFrom(Print(Object(fields)), 0, key)) == TextIn(Lookup(fields, key))
  {
    hide ValueFrom, Unescape, PlainKey, Print;
    var found := Lookup(fields, key);
    var rest := ObjectFound(fields, key);
    if found.Some? {
      LookupIsOk(fields, key);
      StartsPlain(found.value);
      if found.value.Text? {
        StringComesBack(found.value.s, rest);
        TextPrinted(found.value.s, rest);
      }
    }
  }

  lemma TextPrinted(s: string, rest: string)
    ensures (Print(Text(s)) + rest)[1..] == Escape(s) + [QUOTE] + rest
  {
  }

  lemma ObjectFound(fields: Fields, key: string) returns (rest: string)
    requires FieldsOk(fields) && PlainKey(key)
    ensures var v := ValueFrom(Print(Object(fields)), 0, key);
            if Lookup(fields, key).None? then v == None
            else Ends(rest) && v == Some(Print(Lookup(fields, key).value) + rest)
  {
    hide PlainKey, PrintFields, TrimStart, Closing;
    var body := Print(Object(fields));
    assert body[1..] == PrintFields(fields) + ['}'];
    rest := FieldFound(fields, ['}'], key);
    assert ['}'][1..] == [];
  }

  lemma {:induction false} LookupIsOk(fields: Fields, key: string)
    requires FieldsOk(fields) && Lookup(fields, key).Some?
    ensures Ok(Lookup(fields, key).value)
  {
    if fields.key != key {
      LookupIsOk(fields.others, key);
    }
  }

  /** A number comes back as well. */
  lemma NumbersComeBack(fields: Fields, key: string, n: nat)
    requires FieldsOk(fields) && PlainKey(key) && n < U64_LIMIT && Lookup(fields, key) == Some(Bare(Decimal(n)))
    ensures NumberOf(ValueFrom(Print(Object(fields)), 0, key)) == Some(n)
  {
    hide PlainKey, ValueFrom;
    var rest := ObjectFound(fields, key);
    DigitsEnd(Decimal(n), rest);
    ParseDecimal(n, U64_LIMIT);
    assert (Decimal(n) + rest)[..|Decimal(n)|] == Decimal(n);
  }

  lemma {:induction false} DigitsEnd(digits: string, rest: string)
    requires AllDigits(digits) && (rest != "" ==> !IsDigit(rest[0]))
    ensures DigitsLength(digits + rest) == |digits|
  {
    if digits == "" {
      assert digits + rest == rest;
    } else {
      assert (digits + rest)[1..] == digits[1..] + rest;
      DigitsEnd(digits[1..], rest);
    }
  }
}
