/** Which names a lookup takes for an entry's (`short_name` and `lfn_eq` in
    `src/esp.rs`): exactly those that are the same but for the case of ASCII
    letters. */
module Names {
  import opened Bytes
  import opened Text
  import Fats
  import opened Lfns
  import opened Dirs
  import opened Lookups

  // ------------------------------------------------------------- long names

  /** A character is one unit, itself, or a pair of surrogates that stand for it
      (section 3.9 of the Unicode Standard). */
  lemma UnitsDecode(c: char)
    ensures var u := UnitsFor(c);
            if c as nat < 0x1_0000 then u == [c as nat]
            else
              && |u| == 2 && 0xD800 <= u[0] < 0xDC00 <= u[1] < 0xE000
              && c as nat == 0x1_0000 + (u[0] - 0xD800) * 0x400 + (u[1] - 0xDC00)
  {
  }

  lemma UnitsTellApart(x: char, y: char)
    ensures |UnitsFor(x)| == |UnitsFor(y)| == 1 ==>
              (SameUnit(UnitsFor(x)[0], UnitsFor(y)[0]) <==> x == y || CaseOf(x, y) || CaseOf(y, x))
    ensures |UnitsFor(x)| == |UnitsFor(y)| == 2 ==>
              (SameUnit(UnitsFor(x)[0], UnitsFor(y)[0]) && SameUnit(UnitsFor(x)[1], UnitsFor(y)[1]) <==> x == y)
    ensures |UnitsFor(x)| != |UnitsFor(y)| ==> !SameUnit(UnitsFor(x)[0], UnitsFor(y)[0])
  {
  }

  /** The same character, either case of an ASCII letter. */
  predicate SameChar(x: char, y: char) {
    x == y || CaseOf(x, y) || CaseOf(y, x)
  }

  lemma HeadAndTail(a: string, b: string)
    requires a != "" && b != ""
    ensures SameButForCase(a, b) <==> SameChar(a[0], b[0]) && SameButForCase(a[1..], b[1..])
  {
  }

  lemma SplitUnits(p: seq<nat>, q: seq<nat>, x: seq<nat>, y: seq<nat>)
    requires |p| == |q|
    ensures SameUnits(p + x, q + y) <==> SameUnits(p, q) && SameUnits(x, y)
  {
    hide SameUnit;
    if SameUnits(p + x, q + y) {
      assert forall i :: 0 <= i < |p| ==> (p + x)[i] == p[i] && (q + y)[i] == q[i];
      forall i | 0 <= i < |x|
        ensures |x| == |y| && SameUnit(x[i], y[i])
      {
        assert (p + x)[|p| + i] == x[i] && (q + y)[|p| + i] == y[i];
      }
    }
  }

  lemma {:induction false} UnitsMatchExactlyWhen(a: string, b: string)
    ensures SameUnits(Utf16(a), Utf16(b)) <==> SameButForCase(a, b)
  {
    if a != "" && b != "" {
      var x, y := UnitsFor(a[0]), UnitsFor(b[0]);
      UnitsMatchExactlyWhen(a[1..], b[1..]);
      UnitsTellApart(a[0], b[0]);
      HeadAndTail(a, b);
      if |x| == |y| {
        SplitUnits(x, y, Utf16(a[1..]), Utf16(b[1..]));
      } else {
        assert Utf16(a)[0] == x[0] && Utf16(b)[0] == y[0];
      }
    }
  }

  // -------------------------------------------------------------- 8.3 names

  /** The characters of an 8.3 name are the letters, the digits and sixteen marks. */
  lemma ShortCharacters(c: char)
    ensures InShort(c) <==>
              || 'A' <= c <= 'Z' || 'a' <= c <= 'z' || '0' <= c <= '9'
              || c in {'!', '#', '$', '%', '&', '\'', '(', ')', '-', '@', '^', '_', '`', '{', '}', '~'}
  {
  }

  lemma PaddedMatchExactlyWhen(s: string, t: string, n: nat)
    requires |s| <= n && |t| <= n && AllInShort(s) && AllInShort(t)
    ensures Padded8(s, n) == Padded8(t, n) <==> SameButForCase(s, t)
  {
    var p, q := Padded8(s, n), Padded8(t, n);
    forall i | 0 <= i < n
      ensures i < |s| ==> InShort(s[i]) && p[i] == Upper(s[i]) && p[i] != 0x20
      ensures i < |t| ==> InShort(t[i]) && q[i] == Upper(t[i]) && q[i] != 0x20
      ensures i < |s| && i < |t| ==> (p[i] == q[i] <==> SameChar(s[i], t[i]))
    {
    }
    assert |s| < n ==> p[|s|] == 0x20;
    assert |t| < n ==> q[|t|] == 0x20;
    if SameButForCase(s, t) {
      assert forall i :: 0 <= i < n ==> p[i] == q[i];
    }
  }

  lemma SameInBoth(a: string, b: string, x: string, y: string)
    ensures SameButForCase(a, x) && SameButForCase(b, y) ==> SameButForCase(a + b, x + y)
  {
  }

  /** A half and its dot, in any case, taken apart again. */
  lemma SameApart(name: string, stem: string, ext: string)
    requires SameButForCase(name, stem + ['.'] + ext) && AllInShort(stem) && AllInShort(ext)
    ensures var s, e := name[..|stem|], name[|stem| + 1..];
            && name == s + ['.'] + e && AllInShort(s) && AllInShort(e)
            && SameButForCase(s, stem) && SameButForCase(e, ext)
  {
    var s, e := name[..|stem|], name[|stem| + 1..];
    assert (stem + ['.'] + ext)[|stem|] == '.';
    forall i | 0 <= i < |stem|
      ensures SameChar(s[i], stem[i]) && InShort(s[i])
    {
      assert (stem + ['.'] + ext)[i] == stem[i];
    }
    forall i | 0 <= i < |ext|
      ensures SameChar(e[i], ext[i]) && InShort(e[i])
    {
      assert (stem + ['.'] + ext)[|stem| + 1 + i] == ext[i];
    }
  }

  lemma ShortOfBoth(stem: string, ext: string)
    requires AllInShort(stem) && AllInShort(ext) && 1 <= |stem| <= 8 && |ext| <= 3
    ensures ShortNameOf(stem + ['.'] + ext) == Some(Padded8(stem, 8) + Padded8(ext, 3))
    ensures ShortNameOf(stem) == Some(Padded8(stem, 8) + Padded8("", 3))
  {
    hide LastIndexOf, Padded8;
    NoDotInside(stem);
    DotBeforeExt(stem, ext);
    assert InShort(stem[0]);
    var name := stem + ['.'] + ext;
    assert name[..|stem|] == stem && name[|stem| + 1..] == ext;
  }

  /** An 8.3 name is that of exactly the texts that spell it, with its dot, or
      without one if nothing comes after it. */
  lemma ShortIsFoundExactlyWhen(name: string, stem: string, ext: string)
    requires AllInShort(stem) && AllInShort(ext) && 1 <= |stem| <= 8 && |ext| <= 3
    ensures ShortNameOf(name) == Some(Padded8(stem, 8) + Padded8(ext, 3))
       <==> SameButForCase(name, stem + ['.'] + ext) || (ext == "" && SameButForCase(name, stem))
  {
    hide AllInShort, Padded8, LastIndexOf, SameButForCase;
    if SameButForCase(name, stem + ['.'] + ext) {
      SameApart(name, stem, ext);
      var s, e := name[..|stem|], name[|stem| + 1..];
      SameLength(s, stem);
      SameLength(e, ext);
      ShortOfBoth(s, e);
      PaddedMatchExactlyWhen(s, stem, 8);
      PaddedMatchExactlyWhen(e, ext, 3);
    } else if ext == "" && SameButForCase(name, stem) {
      CaseStaysIn(name, stem);
      ShortOfBoth(name, "");
      PaddedMatchExactlyWhen(name, stem, 8);
    } else if ShortNameOf(name) == Some(Padded8(stem, 8) + Padded8(ext, 3)) {
      SpellsIt(name, stem, ext);
    }
  }

  lemma SameLength(a: string, b: string)
    requires SameButForCase(a, b)
    ensures |a| == |b|
  {
  }

  lemma CaseStaysIn(a: string, b: string)
    requires SameButForCase(a, b) && AllInShort(b)
    ensures AllInShort(a) && |a| == |b|
  {
  }

  lemma FirstIsNoDot(stem: string, rest: seq<byte>)
    requires AllInShort(stem) && 1 <= |stem| <= 8
    ensures (Padded8(stem, 8) + rest)[0] != 0x2E
  {
    assert InShort(stem[0]);
  }

  lemma SpellsIt(name: string, stem: string, ext: string)
    requires AllInShort(stem) && AllInShort(ext) && 1 <= |stem| <= 8 && |ext| <= 3
    requires ShortNameOf(name) == Some(Padded8(stem, 8) + Padded8(ext, 3))
    ensures SameButForCase(name, stem + ['.'] + ext) || (ext == "" && SameButForCase(name, stem))
  {
    hide AllInShort, Padded8, LastIndexOf, SameButForCase;
    FirstIsNoDot(stem, Padded8(ext, 3));
    var dot := LastIndexOf(name, '.');
    var s, e := if dot < 0 then name else name[..dot], if dot < 0 then "" else name[dot + 1..];
    assert Padded8(s, 8) == (Padded8(s, 8) + Padded8(e, 3))[..8];
    assert Padded8(s, 8) == Padded8(stem, 8) && Padded8(e, 3) == Padded8(ext, 3);
    PaddedMatchExactlyWhen(s, stem, 8);
    PaddedMatchExactlyWhen(e, ext, 3);
    if dot < 0 {
      SameLength(e, ext);
    } else {
      assert name == s + ['.'] + e;
      DotsAreSame();
      SameInBoth(s, ['.'], stem, ['.']);
      SameInBoth(s + ['.'], e, stem + ['.'], ext);
    }
  }

  lemma DotsAreSame()
    ensures SameButForCase(['.'], ['.'])
  {
  }

  /** A name leads to a listed entry exactly when it spells its long name, or its
      8.3 name, but for case. */
  lemma MatchesExactlyWhen(l: Listed, text: string, stem: string, ext: string, name: string)
    requires l.long && l.name == Utf16(text)
    requires AllInShort(stem) && AllInShort(ext) && 1 <= |stem| <= 8 && |ext| <= 3
    requires l.short == Padded8(stem, 8) + Padded8(ext, 3)
    ensures Matches(l, name)
       <==> || SameButForCase(name, text)
            || SameButForCase(name, stem + ['.'] + ext) || (ext == "" && SameButForCase(name, stem))
  {
    hide AllInShort, Padded8, ShortNameOf, Utf16;
    ShortIsFoundExactlyWhen(name, stem, ext);
    UnitsMatchExactlyWhen(text, name);
    assert SameButForCase(text, name) <==> SameButForCase(name, text);
  }

  // ------------------------------------------------------------------ paths

  /** Pieces with one separator, of either kind, between each two. */
  function Separated(pieces: seq<string>, marks: seq<char>): string
    requires |pieces| == |marks| + 1
    decreases |marks|
  {
    if marks == [] then pieces[0] else pieces[0] + [marks[0]] + Separated(pieces[1..], marks[1..])
  }

  /** The pieces that go somewhere: empty ones and `.` stay where they are. */
  function Kept(pieces: seq<string>): seq<string> {
    if pieces == [] then []
    else (if pieces[0] == "" || pieces[0] == "." then [] else [pieces[0]]) + Kept(pieces[1..])
  }

  predicate IsPiece(s: string) {
    '/' !in s && '\\' !in s
  }

  lemma {:induction false} PieceEnds(s: string, rest: string)
    requires IsPiece(s) && (rest == "" || IsSeparator(rest[0]))
    ensures PartLength(s + rest) == |s|
  {
    if s == "" {
      assert s + rest == rest;
    } else {
      assert (s + rest)[1..] == s[1..] + rest;
      PieceEnds(s[1..], rest);
    }
  }

  /** A path leads through its pieces, however many and whichever separators there
      are between them. */
  lemma {:induction false} PartsArePieces(pieces: seq<string>, marks: seq<char>)
    requires |pieces| == |marks| + 1
    requires forall i :: 0 <= i < |pieces| ==> IsPiece(pieces[i])
    requires forall i :: 0 <= i < |marks| ==> marks[i] == '/' || marks[i] == '\\'
    ensures Parts(Separated(pieces, marks)) == Kept(pieces)
    decreases |marks|
  {
    hide PartLength;
    var path := Separated(pieces, marks);
    if marks == [] {
      PieceEnds(pieces[0], "");
      assert pieces[0] + "" == pieces[0] && path[..|path|] == path;
      assert pieces[1..] == [];
    } else {
      var rest := [marks[0]] + Separated(pieces[1..], marks[1..]);
      assert path == pieces[0] + rest;
      PieceEnds(pieces[0], rest);
      assert path[|pieces[0]| + 1..] == Separated(pieces[1..], marks[1..]);
      PartsArePieces(pieces[1..], marks[1..]);
    }
  }

  /** And starts from the root exactly when nothing is in front of its first separator. */
  lemma StartsAtTheRoot(from: Fats.Entry, pieces: seq<string>, marks: seq<char>)
    requires |pieces| == |marks| + 1 && IsPiece(pieces[0])
    requires forall i :: 0 <= i < |marks| ==> marks[i] == '/' || marks[i] == '\\'
    ensures Lookups.StartOf(from, Separated(pieces, marks))
         == if marks != [] && pieces[0] == "" then Fats.Entry.Entry(0, 0, true) else from
  {
    var path := Separated(pieces, marks);
    if pieces[0] != "" {
      assert path[0] == pieces[0][0] && pieces[0][0] in pieces[0];
    } else if marks != [] {
      assert path[0] == marks[0];
    }
  }
}
