/** A manifest written out, and read back as itself: what `parse` accepts is no
    less than what it promises to (`src/manifest.rs`). */
module ManifestText {
  import opened Bytes
  import opened Text
  import opened UpdateState
  import opened Manifests
  import opened Hex

  /** One line's key and value. */
  datatype Pair = Pair(key: string, value: string)

  /** A value one line can hold. */
  predicate OneLine(v: string) {
    Trimmed(v) && '\n' !in v
  }

  predicate IsKey(k: string) {
    k != "" && NoSpace(k) && k[0] != '#'
  }

  predicate PairOk(p: Pair) {
    IsKey(p.key) && OneLine(p.value)
  }

  function LineOf(p: Pair): string {
    if p.value == "" then p.key else p.key + [' '] + p.value
  }

  function TextOfPairs(ps: seq<Pair>): string {
    if ps == [] then "" else LineOf(ps[0]) + "\n" + TextOfPairs(ps[1..])
  }

  function LinesOfPairs(ps: seq<Pair>): seq<string> {
    seq(|ps|, i requires 0 <= i < |ps| => LineOf(ps[i]))
  }

  lemma NoNewlineInAWord(s: string)
    requires NoSpace(s)
    ensures '\n' !in s
  {
  }

  lemma LineReads(p: Pair)
    requires PairOk(p)
    ensures var line := LineOf(p);
            && line != "" && line[0] != '#' && Trim(line) == line && '\n' !in line && line[|line| - 1] != '\r'
            && KeyOf(line) == p.key && RestOf(line) == p.value
  {
    hide IsSpace;
    var line := LineOf(p);
    NoNewlineInAWord(p.key);
    SpaceIsSpace();
    if p.value == "" {
      WordLengthOf(p.key, "");
      assert p.key + "" == p.key;
      TrimOfTrimmed(p.key);
      TrimOfTrimmed("");
    } else {
      var rest := [' '] + p.value;
      assert line == p.key + rest;
      WordLengthOf(p.key, rest);
      assert line[|p.key|..] == " " + p.value;
      TrimOfTrimmed(p.value);
      TrimOfTrimmed(line);
      assert line[|line| - 1] == p.value[|p.value| - 1];
    }
  }

  lemma SpaceIsSpace()
    ensures IsSpace(' ') && IsSpace('\r') && IsSpace('\n')
  {
  }

  lemma {:induction false} PairsAreLines(ps: seq<Pair>)
    requires forall i :: 0 <= i < |ps| ==> PairOk(ps[i])
    ensures Meaningful(Lines(TextOfPairs(ps))) == LinesOfPairs(ps)
  {
    hide PairOk, LineOf, Trim, Lines, Meaningful, KeyOf, RestOf;
    if ps == [] {
      NothingSaid();
    } else {
      var rest := TextOfPairs(ps[1..]);
      LineReads(ps[0]);
      LinesOfLine(LineOf(ps[0]), rest);
      OneLineMore(LineOf(ps[0]), Lines(rest));
      PairsAreLines(ps[1..]);
      assert LinesOfPairs(ps) == [LineOf(ps[0])] + LinesOfPairs(ps[1..]);
    }
  }

  lemma NothingSaid()
    ensures Meaningful(Lines("")) == []
  {
  }

  lemma OneLineMore(line: string, lines: seq<string>)
    requires Trim(line) == line && line != "" && line[0] != '#'
    ensures Meaningful([line] + lines) == [line] + Meaningful(lines)
  {
    hide Trim;
    assert ([line] + lines)[1..] == lines;
  }

  // ------------------------------------------------------- reading the pairs

  /** The lines' items, one after another. */
  function ReadPairs(p: Progress, ps: seq<Pair>): Result<Progress, Bad> {
    ReadItems(p, LinesOfPairs(ps))
  }

  lemma {:induction false} ReadInTwo(p: Progress, xs: seq<string>, ys: seq<string>)
    requires ReadItems(p, xs).Ok?
    ensures ReadItems(p, xs + ys) == ReadItems(ReadItems(p, xs).value, ys)
    decreases |xs|
  {
    hide ReadItem;
    if xs == [] {
      assert xs + ys == ys;
    } else {
      assert (xs + ys)[1..] == xs[1..] + ys;
      ReadInTwo(ReadItem(p, xs[0]).value, xs[1..], ys);
    }
  }

  lemma ReadOne(p: Progress, line: string)
    ensures ReadItems(p, [line]) == ReadItem(p, line)
  {
    hide ReadItem;
    assert [line][1..] == [];
  }

  // ---------------------------------------------------------- hex and files

  function HexText(b: seq<byte>): string {
    if b == [] then "" else [HexDigit(b[0] as nat / 16), HexDigit(b[0] as nat % 16)] + HexText(b[1..])
  }

  lemma {:induction false} HexTextReads(b: seq<byte>)
    ensures |HexText(b)| == 2 * |b| && (forall i :: 0 <= i < |HexText(b)| ==> IsHex(HexText(b)[i]))
    ensures NoSpace(HexText(b)) && HexBytes(HexText(b)) == b
  {
    hide IsSpace, IsHex, HexValue;
    if b != [] {
      HexTextReads(b[1..]);
      var s := HexText(b);
      assert s[2..] == HexText(b[1..]);
      assert b == [b[0]] + b[1..];
    }
  }

  /** A digest in capitals, or in both, is read as the same. */
  lemma {:induction false} AnyCaseIsTheDigest(b: seq<byte>, s: string)
    requires SameButForCase(s, HexText(b))
    ensures |s| == 2 * |b| && (forall i :: 0 <= i < |s| ==> IsHex(s[i])) && HexBytes(s) == b
  {
    hide IsHex, HexValue;
    var t := HexText(b);
    HexTextReads(b);
    forall i | 0 <= i < |s|
      ensures IsHex(s[i]) && HexValue(s[i]) == HexValue(t[i])
    {
      CaseKeepsValue(s[i], t[i]);
    }
    if b != [] {
      assert t[2..] == HexText(b[1..]);
      assert SameButForCase(s[2..], t[2..]);
      AnyCaseIsTheDigest(b[1..], s[2..]);
      assert HexBytes(t) == b && b == [b[0]] + b[1..];
    }
  }

  function FileValue(e: Entry): string {
    JoinWords([HexText(e.sha256), Decimal(e.size), e.path])
  }

  lemma {:induction false} DecimalIsAWord(n: nat)
    ensures NoSpace(Decimal(n)) && Decimal(n) != ""
  {
    var s := Decimal(n);
    forall i | 0 <= i < |s|
      ensures !IsSpace(s[i])
    {
      assert IsDigit(s[i]);
    }
  }

  lemma FileValueReads(e: Entry)
    requires PathOk(e.path) && |e.sha256| == 32
    ensures OneLine(FileValue(e)) && FileValue(e) != ""
    ensures Words(FileValue(e)) == [HexText(e.sha256), Decimal(e.size), e.path]
  {
    hide Words, PathOk, IsSpace, HexText, Decimal;
    HexTextReads(e.sha256);
    DecimalIsAWord(e.size);
    PathIsAWord(e.path);
    var h, d, p := HexText(e.sha256), Decimal(e.size), e.path;
    WordsOfJoined([h, d, p]);
    assert [h, d, p][1..] == [d, p] && [d, p][1..] == [p];
    assert JoinWords([p]) == p && JoinWords([d, p]) == d + " " + p;
    var v := FileValue(e);
    assert v == h + " " + (d + " " + p);
    SpaceIsSpace();
    NoNewlineInAWord(h);
    NoNewlineInAWord(d);
    NoNewlineInAWord(p);
    assert v[0] == h[0] && v[|v| - 1] == p[|p| - 1];
  }

  lemma FileReads(p: Progress, e: Entry)
    requires FileOk(e) && !p.m.Names(e.path) && |p.m.files| < MAX_FILES && p.total + e.size <= MAX_TOTAL
    ensures PairOk(Pair("file", FileValue(e)))
    ensures ReadItem(p, LineOf(Pair("file", FileValue(e))))
         == Ok(Progress(p.m.(files := p.m.files + [e]), p.total + e.size))
  {
    hide PathOk, HexText, Decimal, Words, FileValue, LineOf, KeyOf, RestOf, Hex32, ParseNat, Trimmed, Manifest.Names;
    FileValueReads(e);
    KeysAreKeys();
    LineReads(Pair("file", FileValue(e)));
    HexTextReads(e.sha256);
    Hex32Reads(e.sha256);
    ParseDecimal(e.size, U64_LIMIT);
  }

  lemma Hex32Reads(b: seq<byte>)
    requires |b| == 32
    ensures Hex32(HexText(b)) == Some(b)
  {
    HexTextReads(b);
  }

  lemma KeysAreKeys()
    ensures IsKey("version") && IsKey("commit") && IsKey("golden") && IsKey("serial") && IsKey("downgrade")
    ensures IsKey("canary") && IsKey("file") && IsKey("stormbootx-manifest")
  {
  }

  // ------------------------------------------------------- whole manifests

  function CanaryPairs(cs: seq<string>): (ps: seq<Pair>)
    ensures |ps| == |cs|
  {
    seq(|cs|, i requires 0 <= i < |cs| => Pair("canary", cs[i]))
  }

  function FilePairs(files: seq<Entry>): (ps: seq<Pair>)
    ensures |ps| == |files|
  {
    seq(|files|, i requires 0 <= i < |files| => Pair("file", FileValue(files[i])))
  }

  function FieldPairs(m: Manifest): seq<Pair> {
    [Pair("version", m.version), Pair("commit", m.commit), Pair("golden", m.golden), Pair("serial", Decimal(m.serial)),
     Pair("downgrade", if m.downgrade then "true" else "false")]
  }

  function TextFor(m: Manifest): string {
    TextOfPairs([Pair("stormbootx-manifest", "1")] + (FieldPairs(m) + CanaryPairs(m.canaries) + FilePairs(m.files)))
  }

  /** Each of its texts fits a line. */
  predicate Writable(m: Manifest) {
    && OneLine(m.version) && OneLine(m.commit) && OneLine(m.golden)
    && forall i :: 0 <= i < |m.canaries| ==> OneLine(m.canaries[i])
  }

  lemma {:induction false} FilesRead(p: Progress, files: seq<Entry>)
    requires p.m.files == [] && p.total == 0 && |files| <= MAX_FILES && Total(files) <= MAX_TOTAL
    requires AllDistinct(files) && forall i :: 0 <= i < |files| ==> FileOk(files[i])
    ensures forall i :: 0 <= i < |files| ==> PairOk(FilePairs(files)[i])
    ensures ReadPairs(p, FilePairs(files)) == Ok(Progress(p.m.(files := files), Total(files)))
  {
    hide FileOk, PairOk, LineOf, ReadItem, ReadItems, FileValue, AllDistinct, Manifest.Names, Total, FilePairs,
         LinesOfPairs;
    if files == [] {
      NoFiles(p);
    } else {
      var n := |files| - 1;
      var before, e := files[..n], files[n];
      OneMoreFile(files);
      FilesRead(p, before);
      var q := Progress(p.m.(files := before), Total(before));
      NotNamedYet(q.m, files, n);
      FileReads(q, e);
      var line := LineOf(Pair("file", FileValue(e)));
      ReadOne(q, line);
      ReadInTwo(p, LinesOfPairs(FilePairs(before)), [line]);
    }
  }

  lemma NoFiles(p: Progress)
    requires p.m.files == [] && p.total == 0
    ensures FilePairs([]) == [] && ReadPairs(p, []) == Ok(Progress(p.m.(files := []), Total([])))
  {
    assert p.m.(files := []) == p.m;
  }

  lemma OneMoreFile(files: seq<Entry>)
    requires files != []
    ensures var n := |files| - 1;
            var before, e := files[..n], files[n];
            && FilePairs(files) == FilePairs(before) + [Pair("file", FileValue(e))]
            && LinesOfPairs(FilePairs(files)) == LinesOfPairs(FilePairs(before)) + [LineOf(Pair("file", FileValue(e)))]
            && Total(files) == Total(before) + e.size && (AllDistinct(files) ==> AllDistinct(before))
            && before + [e] == files
  {
    hide FileValue, LineOf, SameName;
  }

  lemma NotNamedYet(m: Manifest, files: seq<Entry>, n: nat)
    requires AllDistinct(files) && n < |files| && m.files == files[..n]
    ensures !m.Names(files[n].path)
  {
    hide Fold;
  }

  lemma {:induction false} CanariesRead(p: Progress, cs: seq<string>)
    requires p.m.canaries == [] && |cs| <= MAX_CANARIES && forall i :: 0 <= i < |cs| ==> OneLine(cs[i])
    ensures forall i :: 0 <= i < |cs| ==> PairOk(CanaryPairs(cs)[i])
    ensures ReadPairs(p, CanaryPairs(cs)) == Ok(p.(m := p.m.(canaries := cs)))
  {
    hide OneLine, LineOf, IsKey, ReadItem;
    KeysAreKeys();
    if cs == [] {
      assert p.(m := p.m.(canaries := [])) == p;
    } else {
      var n := |cs| - 1;
      var before := cs[..n];
      CanariesRead(p, before);
      var q := p.(m := p.m.(canaries := before));
      CanaryReads(q, cs[n]);
      var line := LineOf(Pair("canary", cs[n]));
      ReadOne(q, line);
      assert LinesOfPairs(CanaryPairs(cs)) == LinesOfPairs(CanaryPairs(before)) + [line];
      ReadInTwo(p, LinesOfPairs(CanaryPairs(before)), [line]);
      assert before + [cs[n]] == cs;
    }
  }

  lemma CanaryReads(p: Progress, c: string)
    requires |p.m.canaries| < MAX_CANARIES && OneLine(c)
    ensures ReadItem(p, LineOf(Pair("canary", c))) == Ok(p.(m := p.m.(canaries := p.m.canaries + [c])))
  {
    hide LineOf, KeyOf, RestOf, ReadFile, ParseNat;
    KeysAreKeys();
    LineReads(Pair("canary", c));
  }

  lemma FieldsRead(m: Manifest)
    requires Accepted(m) && Writable(m)
    ensures forall i :: 0 <= i < |FieldPairs(m)| ==> PairOk(FieldPairs(m)[i])
    ensures ReadPairs(Progress(EMPTY, 0), FieldPairs(m)) == Ok(Progress(m.(files := [], canaries := []), 0))
  {
    hide LineOf, ReadItem, ReadItems, PairOk, OneLine, AllDistinct, FileOk, Manifest.Names, Total, Decimal, Bootloader;
    FieldsAreOk(m);
    ParseDecimal(m.serial, U64_LIMIT);
    var p0 := Progress(EMPTY, 0);
    var p1 := p0.(m := p0.m.(version := m.version));
    var p2 := p1.(m := p1.m.(commit := m.commit));
    var p3 := p2.(m := p2.m.(golden := m.golden));
    var p4 := p3.(m := p3.m.(serial := m.serial));
    var p5 := p4.(m := p4.m.(downgrade := m.downgrade));
    var ps := FieldPairs(m);
    FieldReads(p0, ps[0]);
    FieldReads(p1, ps[1]);
    FieldReads(p2, ps[2]);
    FieldReads(p3, ps[3]);
    FieldReads(p4, ps[4]);
    FiveItems(p0, p1, p2, p3, p4, p5, LinesOfPairs(ps));
  }

  lemma FieldsAreOk(m: Manifest)
    requires Writable(m)
    ensures forall i :: 0 <= i < |FieldPairs(m)| ==> PairOk(FieldPairs(m)[i])
  {
    hide OneLine, IsKey, Decimal;
    DecimalIsAWord(m.serial);
    WordIsOneLine(Decimal(m.serial));
    WordIsOneLine("true");
    WordIsOneLine("false");
    KeysAreKeys();
  }

  lemma WordIsOneLine(w: string)
    requires NoSpace(w)
    ensures OneLine(w)
  {
    NoNewlineInAWord(w);
  }

  lemma FieldReads(p: Progress, f: Pair)
    requires PairOk(f)
    ensures f.key == "version" ==> ReadItem(p, LineOf(f)) == Ok(p.(m := p.m.(version := f.value)))
    ensures f.key == "commit" ==> ReadItem(p, LineOf(f)) == Ok(p.(m := p.m.(commit := f.value)))
    ensures f.key == "golden" ==> ReadItem(p, LineOf(f)) == Ok(p.(m := p.m.(golden := f.value)))
    ensures f.key == "downgrade" ==> ReadItem(p, LineOf(f)) == Ok(p.(m := p.m.(downgrade := f.value == "true")))
    ensures f.key == "serial" && ParseNat(f.value, U64_LIMIT).Some? ==>
              ReadItem(p, LineOf(f)) == Ok(p.(m := p.m.(serial := ParseNat(f.value, U64_LIMIT).value)))
  {
    hide LineOf, KeyOf, RestOf, ReadFile, ParseNat;
    LineReads(f);
  }

  lemma FiveItems(p0: Progress, p1: Progress, p2: Progress, p3: Progress, p4: Progress, p5: Progress, ls: seq<string>)
    requires |ls| == 5 && ReadItem(p0, ls[0]) == Ok(p1) && ReadItem(p1, ls[1]) == Ok(p2)
             && ReadItem(p2, ls[2]) == Ok(p3)
    requires ReadItem(p3, ls[3]) == Ok(p4) && ReadItem(p4, ls[4]) == Ok(p5)
    ensures ReadItems(p0, ls) == Ok(p5)
  {
    hide ReadItem;
    assert ReadItems(p4, ls[4..]) == Ok(p5) by {
      assert ls[4..][1..] == [];
    }
    assert ls[3..][1..] == ls[4..] && ls[2..][1..] == ls[3..] && ls[1..][1..] == ls[2..];
    assert ReadItems(p3, ls[3..]) == Ok(p5);
    assert ReadItems(p2, ls[2..]) == Ok(p5);
    assert ReadItems(p1, ls[1..]) == Ok(p5);
  }

  /** Every manifest of the kind `parse` accepts is accepted, and read as itself. */
  lemma AcceptedComesBack(m: Manifest)
    requires Accepted(m) && Writable(m)
    ensures ManifestOf(TextFor(m)) == Ok(m)
  {
    hide ReadItem, PairOk, LineOf, Meaningful, Lines, TextOfPairs, FileOk, OneLine, AllDistinct, Total, Manifest.Names,
         FieldPairs, CanaryPairs, FilePairs;
    var head := Pair("stormbootx-manifest", "1");
    var fields, canaries, files := FieldPairs(m), CanaryPairs(m.canaries), FilePairs(m.files);
    FieldsRead(m);
    var p := Progress(m.(files := [], canaries := []), 0);
    CanariesRead(p, m.canaries);
    var q := Progress(m.(files := []), 0);
    FilesRead(q, m.files);
    HeadReads();
    var ps := [head] + (fields + canaries + files);
    forall i | 0 <= i < |ps|
      ensures PairOk(ps[i])
    {
      if 0 < i <= |fields| {
        assert ps[i] == fields[i - 1];
      } else if |fields| < i <= |fields| + |canaries| {
        assert ps[i] == canaries[i - 1 - |fields|];
      } else if i > 0 {
        assert ps[i] == files[i - 1 - |fields| - |canaries|];
      } else {
        assert ps[i] == head && PairOk(head);
      }
    }
    PairsAreLines(ps);
    assert LinesOfPairs(ps)[1..] == LinesOfPairs(fields) + LinesOfPairs(canaries) + LinesOfPairs(files);
    ReadInTwo(Progress(EMPTY, 0), LinesOfPairs(fields), LinesOfPairs(canaries));
    ReadInTwo(Progress(EMPTY, 0), LinesOfPairs(fields) + LinesOfPairs(canaries), LinesOfPairs(files));
    assert m.(files := []).(files := m.files) == m;
  }

  lemma HeadReads()
    ensures PairOk(Pair("stormbootx-manifest", "1")) && LineOf(Pair("stormbootx-manifest", "1")) == Format()
  {
    KeysAreKeys();
  }
}
