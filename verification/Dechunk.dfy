/** Chunked transfer coding undone in place (`dechunk` in `src/manifest.rs`;
    section 7.1 of RFC 9112). */
module Chunked {
  import opened Bytes
  import opened Text
  import opened Wire
  import opened Hex

  /** The size a chunk's first line gives, its extensions apart. */
  function SizeOf(line: seq<byte>): Option<nat> {
    var text := Decode(line);
    if text.None? then None else ParseHex(Trim(Split(text.value, ';')[0]), U64_LIMIT)
  }

  /** Where a line's break is. */
  function EndOfLine(b: seq<byte>): (i: Option<nat>)
    ensures i.Some? ==> i.value + 2 <= |b|
  {
    var i := Find(b, CRLF);
    assert i.Some? ==> IsAt(b, CRLF, i.value);
    i
  }

  predicate BreaksAt(b: seq<byte>, i: nat): (r: bool)
    ensures r ==> i + 2 <= |b|
  {
    i + 2 <= |b| && b[i..i + 2] == CRLF
  }

  /** What a chunked body holds: nothing, if it is cut short or malformed. */
  function Unchunked(b: seq<byte>): Option<seq<byte>> {
    var eol := EndOfLine(b);
    if eol.None? then None
    else
      var size := SizeOf(b[..eol.value]);
      if size.None? then None
      else if size.value == 0 then Some([])
      else
        var rest := b[eol.value + 2..];
        if !BreaksAt(rest, size.value) then None
        else
          var more := Unchunked(rest[size.value + 2..]);
          if more.None? then None else Some(rest[..size.value] + more.value)
  }

  /** What `buf[..end]` becomes with the chunk data in front of it. */
  function Joined(sofar: seq<byte>, more: Option<seq<byte>>): Option<seq<byte>> {
    if more.None? then None else Some(sofar + more.value)
  }

  /** The whole of a body, in place: its length, with its bytes at the front of
      `buf`. The write index never passes the read index, so no chunk is
      written over before it is read. */
  method Dechunk(buf: array<byte>) returns (n: Option<nat>)
    modifies buf
    ensures var body := Unchunked(old(buf[..]));
            && (n.Some? <==> body.Some?)
            && (n.Some? ==> n.value == |body.value| <= buf.Length && buf[..n.value] == body.value)
  {
    hide Unchunked, SizeOf, Joined, Along, Copied, EndOfLine, BreaksAt;
    ghost var all := buf[..];
    var rd, wr := 0, 0;
    AtTheStart(all);
    while true
      invariant 0 <= wr <= rd <= buf.Length && Along(all, buf[..], rd, wr)
      decreases buf.Length - rd
    {
      ghost var now := buf[..];
      var rest := buf[rd..];
      assert rest == now[rd..];
      Turn(all, now, rd, wr);
      var eol := EndOfLine(rest);
      if eol.None? {
        return None;
      }
      var size := SizeOf(rest[..eol.value]);
      if size.None? {
        return None;
      }
      if size.value == 0 {
        return Some(wr);
      }
      rd := rd + eol.value + 2;
      if !BreaksAt(buf[..], rd + size.value) {
        return None;
      }
      CopyWithin(buf, rd, size.value, wr);
      OneMoreChunk(all, now, buf[..], rd - eol.value - 2, wr, eol.value, size.value);
      wr := wr + size.value;
      rd := rd + size.value + 2;
    }
  }

  /** What is behind the write index, and what is still to come, make up the body;
      nothing to come has been touched. */
  ghost predicate Along(all: seq<byte>, buf: seq<byte>, rd: nat, wr: nat) {
    && wr <= rd <= |buf| == |all| && buf[rd..] == all[rd..]
    && Unchunked(all) == Joined(buf[..wr], Unchunked(all[rd..]))
  }

  ghost predicate Copied(before: seq<byte>, now: seq<byte>, rd: nat, n: nat, wr: nat) {
    && wr <= rd && rd + n <= |before| == |now|
    && now[..wr + n] == before[..wr] + before[rd..rd + n] && now[rd + n..] == before[rd + n..]
  }

  /** The ways a turn ends. */
  lemma Turn(all: seq<byte>, buf: seq<byte>, rd: nat, wr: nat)
    requires Along(all, buf, rd, wr)
    ensures var eol := EndOfLine(buf[rd..]);
            if eol.None? || SizeOf(buf[rd..][..eol.value]).None? then Unchunked(all) == None
            else
              var at, size := rd + eol.value + 2, SizeOf(buf[rd..][..eol.value]).value;
              && at <= |buf|
              && (size == 0 ==> Unchunked(all) == Some(buf[..wr]))
              && (size > 0 && !BreaksAt(buf, at + size) ==> Unchunked(all) == None)
  {
    hide Unchunked, SizeOf, EndOfLine;
    var b := all[rd..];
    FirstChunk(b);
    JoinedToOne(buf[..wr], []);
    var eol := EndOfLine(b);
    if eol.Some? && SizeOf(b[..eol.value]).Some? {
      var at, size := rd + eol.value + 2, SizeOf(b[..eol.value]).value;
      if at + size + 2 <= |buf| {
        SameSlices(all, buf, rd, eol.value, size);
      }
    }
  }

  lemma AtTheStart(all: seq<byte>)
    ensures Along(all, all, 0, 0)
  {
    hide Unchunked;
    assert all[0..] == all && all[..0] == [];
    if Unchunked(all).Some? {
      assert [] + Unchunked(all).value == Unchunked(all).value;
    }
  }

  lemma OneMoreChunk(all: seq<byte>, buf: seq<byte>, now: seq<byte>, rd: nat, wr: nat, eol: nat, size: nat)
    requires Along(all, buf, rd, wr) && EndOfLine(buf[rd..]) == Some(eol) && SizeOf(buf[rd..][..eol]) == Some(size)
    requires var at := rd + eol + 2;
             && size > 0 && BreaksAt(buf, at + size)
             && Copied(buf, now, at, size, wr)
    ensures Along(all, now, rd + eol + 2 + size + 2, wr + size)
  {
    hide Unchunked, SizeOf, EndOfLine;
    var b, at := all[rd..], rd + eol + 2;
    FirstChunk(b);
    SameSlices(all, buf, rd, eol, size);
    assert now[at + size + 2..] == now[at + size..][2..] && all[at + size + 2..] == all[at + size..][2..];
    var more := Unchunked(all[at + size + 2..]);
    if more.Some? {
      assert buf[..wr] + (buf[at..at + size] + more.value) == buf[..wr] + buf[at..at + size] + more.value;
    }
  }

  lemma SameSlices(all: seq<byte>, buf: seq<byte>, rd: nat, eol: nat, size: nat)
    requires |all| == |buf| && rd + eol + 2 + size + 2 <= |all| && buf[rd..] == all[rd..]
    ensures var at, rest := rd + eol + 2, all[rd..][eol + 2..];
            && rest[..size] == buf[at..at + size] && rest[size..size + 2] == buf[at + size..at + size + 2]
            && rest[size + 2..] == all[at + size + 2..] && buf[at + size..] == all[at + size..]
  {
    var at, rest := rd + eol + 2, all[rd..][eol + 2..];
    assert rest == buf[rd..][eol + 2..] == buf[at..];
    assert rest == all[at..];
  }

  lemma JoinedToOne(sofar: seq<byte>, data: seq<byte>)
    ensures Joined(sofar, None) == None && Joined(sofar, Some(data)) == Some(sofar + data)
    ensures Joined(sofar, Some([])) == Some(sofar)
  {
    assert sofar + [] == sofar;
  }

  /** `copy_within(rd..rd + n, wr)`. */
  method CopyWithin(buf: array<byte>, rd: nat, n: nat, wr: nat)
    requires wr <= rd && rd + n <= buf.Length
    modifies buf
    ensures Copied(old(buf[..]), buf[..], rd, n, wr)
  {
    forall i | 0 <= i < n {
      buf[wr + i] := buf[rd + i];
    }
  }

  /** One turn. */
  lemma FirstChunk(b: seq<byte>)
    ensures Unchunked(b) ==
            var eol := EndOfLine(b);
            if eol.None? || SizeOf(b[..eol.value]).None? then None
            else
              var size, rest := SizeOf(b[..eol.value]).value, b[eol.value + 2..];
              if size == 0 then Some([])
              else if !BreaksAt(rest, size) then None
              else Joined(rest[..size], Unchunked(rest[size + 2..]))
  {
    hide SizeOf, EndOfLine, BreaksAt;
  }

  // ------------------------------------------------------------- properties

  /** A chunk as it is sent: its size line, whatever extensions it has, and data. */
  datatype Chunk = Chunk(line: seq<byte>, data: seq<byte>)

  predicate OneLine(line: seq<byte>) {
    EndOfLine(line) == None
  }

  predicate WellFormed(c: Chunk) {
    OneLine(c.line) && c.data != [] && SizeOf(c.line) == Some(|c.data|)
  }

  predicate Sendable(chunks: seq<Chunk>, last: seq<byte>) {
    && OneLine(last) && SizeOf(last) == Some(0)
    && forall i :: 0 <= i < |chunks| ==> WellFormed(chunks[i])
  }

  /** The chunks, then the line of the last one, which has no data. */
  function Encoded(chunks: seq<Chunk>, last: seq<byte>): seq<byte> {
    if chunks == [] then last + CRLF
    else chunks[0].line + CRLF + chunks[0].data + CRLF + Encoded(chunks[1..], last)
  }

  function Data(chunks: seq<Chunk>): seq<byte> {
    if chunks == [] then [] else chunks[0].data + Data(chunks[1..])
  }

  /** A line ends at its own line break. */
  lemma LineEnds(line: seq<byte>, rest: seq<byte>)
    requires OneLine(line)
    ensures EndOfLine(line + CRLF + rest) == Some(|line|)
    ensures (line + CRLF + rest)[..|line|] == line && (line + CRLF + rest)[|line| + 2..] == rest
  {
    var b := line + CRLF + rest;
    assert b[|line|..|line| + 2] == CRLF;
    forall j | 0 <= j < |line|
      ensures !IsAt(b, CRLF, j)
    {
      if j + 2 <= |line| {
        AtInMore(line, CRLF + rest, CRLF, j);
        assert line + (CRLF + rest) == b;
        assert !IsAt(line, CRLF, j);
      } else {
        assert b[j..j + 2][1] == b[j + 1] == 0x0D;
      }
    }
    FoundAt(b, CRLF, |line|);
  }

  lemma ChunkRead(c: Chunk, rest: seq<byte>)
    requires WellFormed(c)
    ensures Unchunked(c.line + CRLF + c.data + CRLF + rest) == Joined(c.data, Unchunked(rest))
  {
    hide SizeOf, Unchunked, EndOfLine;
    var b, after := c.line + CRLF + c.data + CRLF + rest, c.data + CRLF + rest;
    assert b == c.line + CRLF + after;
    LineEnds(c.line, after);
    FirstChunk(b);
    assert after[|c.data|..|c.data| + 2] == CRLF && after[..|c.data|] == c.data && after[|c.data| + 2..] == rest;
  }

  /** Any well-formed body comes back as its data, whatever follows it. */
  lemma {:induction false} BodyComesBack(chunks: seq<Chunk>, last: seq<byte>, trailer: seq<byte>)
    requires Sendable(chunks, last)
    ensures Unchunked(Encoded(chunks, last) + trailer) == Some(Data(chunks))
  {
    hide SizeOf, WellFormed, Unchunked, EndOfLine, OneLine;
    if chunks == [] {
      LineEnds(last, trailer);
      FirstChunk(last + CRLF + trailer);
    } else {
      var c := chunks[0];
      BodyComesBack(chunks[1..], last, trailer);
      var rest := Encoded(chunks[1..], last) + trailer;
      assert Encoded(chunks, last) + trailer == c.line + CRLF + c.data + CRLF + rest;
      ChunkRead(c, rest);
    }
  }

  /** And only those are bodies: what comes back is the data of chunks the bytes
      begin with. */
  lemma {:induction false} OnlyWellFormedBodies(b: seq<byte>)
    returns (chunks: seq<Chunk>, last: seq<byte>, trailer: seq<byte>)
    requires Unchunked(b).Some?
    ensures Sendable(chunks, last) && b == Encoded(chunks, last) + trailer && Data(chunks) == Unchunked(b).value
    decreases |b|
  {
    hide SizeOf, Unchunked, EndOfLine, BreaksAt, OneLine, Encoded, Data, Sendable;
    FirstChunk(b);
    BreakIsThere(b);
    var eol := EndOfLine(b).value;
    var line, rest := b[..eol], b[eol + 2..];
    var size := SizeOf(line).value;
    UpToTheFirst(b);
    if size == 0 {
      chunks, last, trailer := [], line, rest;
      NoChunks(line);
    } else {
      var c, more := Chunk(line, rest[..size]), rest[size + 2..];
      var tail;
      tail, last, trailer := OnlyWellFormedBodies(more);
      chunks := [c] + tail;
      OneMoreSendable(c, tail, last);
      DataThenBreak(rest, size);
      Regrouped(line, rest, c.data, more, Encoded(tail, last), trailer);
    }
  }

  lemma NoChunks(last: seq<byte>)
    requires OneLine(last) && SizeOf(last) == Some(0)
    ensures Sendable([], last) && Encoded([], last) == last + CRLF && Data([]) == []
  {
  }

  lemma Regrouped(line: seq<byte>, rest: seq<byte>, data: seq<byte>, more: seq<byte>, tail: seq<byte>,
                  trailer: seq<byte>)
    requires rest == data + CRLF + more && more == tail + trailer
    ensures line + CRLF + rest == line + CRLF + data + CRLF + tail + trailer
  {
  }

  lemma OneMoreSendable(c: Chunk, tail: seq<Chunk>, last: seq<byte>)
    ensures WellFormed(c) && Sendable(tail, last) ==> Sendable([c] + tail, last)
    ensures Encoded([c] + tail, last) == c.line + CRLF + c.data + CRLF + Encoded(tail, last)
    ensures Data([c] + tail) == c.data + Data(tail)
  {
    hide WellFormed;
    assert ([c] + tail)[1..] == tail;
  }

  lemma DataThenBreak(rest: seq<byte>, size: nat)
    requires BreaksAt(rest, size)
    ensures rest == rest[..size] + CRLF + rest[size + 2..]
  {
    InThree(rest, size);
  }

  lemma BreakIsThere(b: seq<byte>)
    requires EndOfLine(b).Some?
    ensures var eol := EndOfLine(b).value; eol + 2 <= |b| && b == b[..eol] + CRLF + b[eol + 2..]
  {
    hide Find;
    var eol := EndOfLine(b).value;
    assert b[eol..eol + |CRLF|] == CRLF;
    InThree(b, eol);
  }

  lemma InThree(b: seq<byte>, i: nat)
    requires i + 2 <= |b|
    ensures b == b[..i] + b[i..i + 2] + b[i + 2..]
  {
  }

  lemma UpToTheFirst(b: seq<byte>)
    requires EndOfLine(b).Some?
    ensures OneLine(b[..EndOfLine(b).value])
  {
    hide IsAt, Find;
    FoundInside(b);
    var i := EndOfLine(b).value;
    FoundStays(b[..i], b[i..], CRLF);
    assert b[..i] + b[i..] == b;
    FoundInside(b[..i]);
  }

  lemma FoundInside(b: seq<byte>)
    ensures EndOfLine(b).Some? ==> EndOfLine(b).value + 2 <= |b|
  {
  }

  /** Cut anywhere before its end, a body is refused. */
  lemma {:induction false} CutShortIsRefused(chunks: seq<Chunk>, last: seq<byte>, n: nat)
    requires Sendable(chunks, last) && n < |Encoded(chunks, last)|
    ensures Unchunked(Encoded(chunks, last)[..n]) == None
  {
    hide SizeOf, Unchunked, EndOfLine, OneLine;
    var whole := Encoded(chunks, last);
    if chunks == [] {
      LineCutShort(last, n);
    } else {
      var c, rest := chunks[0], Encoded(chunks[1..], last);
      var head := c.line + CRLF + c.data + CRLF;
      if n <= |c.line| + 1 {
        LineCutShort(c.line, n);
        assert whole[..n] == (c.line + CRLF)[..n];
      } else if n < |head| {
        ChunkCutShort(c, n);
        assert whole[..n] == head[..n];
      } else {
        var m := n - |head|;
        CutShortIsRefused(chunks[1..], last, m);
        assert whole[..n] == c.line + CRLF + c.data + CRLF + rest[..m];
        ChunkRead(c, rest[..m]);
      }
    }
  }

  lemma LineCutShort(line: seq<byte>, n: nat)
    requires OneLine(line) && n <= |line| + 1
    ensures Unchunked((line + CRLF)[..n]) == None
  {
    hide SizeOf;
    LineEnds(line, []);
    var b := (line + CRLF)[..n];
    assert line + CRLF + [] == b + (line + CRLF)[n..];
    FoundStays(b, (line + CRLF)[n..], CRLF);
  }

  lemma ChunkCutShort(c: Chunk, n: nat)
    requires WellFormed(c) && |c.line| + 2 <= n < |c.line| + 2 + |c.data| + 2
    ensures Unchunked((c.line + CRLF + c.data + CRLF)[..n]) == None
  {
    hide SizeOf, Unchunked, EndOfLine;
    var b := (c.line + CRLF + c.data + CRLF)[..n];
    var after := (c.data + CRLF)[..n - |c.line| - 2];
    assert b == c.line + CRLF + after;
    LineEnds(c.line, after);
    FirstChunk(b);
  }

  // ---------------------------------------------------------- size lines

  /** A size in hexadecimal reads as that size, with or without an extension. */
  lemma SizeLineReads(n: nat, ext: string)
    requires n < U64_LIMIT && IsAscii(ext)
    ensures SizeOf(Plain(HexOf(n))) == Some(n)
    ensures IsAscii(HexOf(n) + [';'] + ext) && SizeOf(Plain(HexOf(n) + [';'] + ext)) == Some(n)
  {
    hide ParseHex, Decode, Trim, HexOf, AllHex;
    var s := HexOf(n);
    HexParses(n, U64_LIMIT);
    PlainDecodes(s);
    PlainDecodes(s + [';'] + ext);
    TrimOfTrimmed(s);
    FirstPiece(s, ';', ext);
  }

  lemma FirstPiece(s: string, c: char, rest: string)
    requires c !in s
    ensures Split(s, c)[0] == s && Split(s + [c] + rest, c)[0] == s
  {
    IndexOfNone(s, c);
    IndexOfFirst(s, c, rest);
    assert (s + [c] + rest)[..|s|] == s;
  }
}
