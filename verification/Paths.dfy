/** Which paths an update may write (`path_ok` in `src/manifest.rs`), by the names
    there are between their slashes. */
module Paths {
  import opened Bytes
  import opened Text
  import opened UpdateState

  /** One component: letters, digits, dots, dashes and underscores, not beginning
      with a dot or a dash. */
  predicate IsPlain(n: string) {
    && n != "" && n[0] != '.' && n[0] != '-'
    && forall i :: 0 <= i < |n| ==>
         'A' <= n[i] <= 'Z' || 'a' <= n[i] <= 'z' || '0' <= n[i] <= '9' || n[i] == '.' || n[i] == '_' || n[i] == '-'
  }

  /** It ends in this, whatever the case. */
  ghost predicate Ends(n: string, end: string) {
    exists a, b :: n == a + b && SameButForCase(b, end)
  }

  /** A file's own name: not one of those an update puts beside it. */
  ghost predicate IsFile(n: string) {
    IsPlain(n) && !Ends(n, ".new") && !Ends(n, ".prev")
  }

  ghost predicate IsBootFile(p: string) {
    exists e, b, n :: p == e + "/" + b + "/" + n && SameButForCase(e, "EFI") && SameButForCase(b, "BOOT") && IsFile(n)
  }

  ghost predicate IsOwnFile(p: string) {
    exists s, n ::
      && p == s + "/" + n && SameButForCase(s, "stormboot") && IsFile(n)
      && !SameButForCase(n, "state") && !SameButForCase(n, "local.conf")
  }

  ghost predicate IsFileBelow(p: string) {
    exists s, d, n :: p == s + "/" + d + "/" + n && SameButForCase(s, "stormboot") && IsPlain(d) && IsFile(n)
  }

  /** The places there are: the shell's script in the root, any file the firmware
      boots, and below `stormboot` a file, but not the medium's own two, or one in a
      directory. */
  ghost predicate IsPlace(p: string) {
    SameButForCase(p, "startup.nsh") || IsBootFile(p) || IsOwnFile(p) || IsFileBelow(p)
  }

  lemma PlainIsComponent(n: string)
    ensures IsPlain(n) <==> ComponentOk(n)
    ensures IsPlain(n) ==> '/' !in n
  {
  }

  /** A name has an ending exactly when it is something and then that ending, in
      either case. */
  lemma SuffixExactlyWhen(n: string, end: string)
    ensures HasSuffix(n, end) <==> exists a, b :: a != "" && n == a + b && SameButForCase(b, end)
  {
    hide SameButForCase;
    if HasSuffix(n, end) {
      var k := |n| - |end|;
      SameNameIsSameButForCase(n[k..], end);
      assert n == n[..k] + n[k..];
    }
    forall a, b | a != "" && n == a + b && SameButForCase(b, end)
      ensures HasSuffix(n, end)
    {
      SameNameIsSameButForCase(b, end);
      SameSize(b, end);
      assert n[|n| - |end|..] == b;
    }
  }

  lemma SameSize(a: string, b: string)
    requires SameButForCase(a, b)
    ensures |a| == |b|
  {
  }

  lemma EndsExactlyWhen(n: string, end: string)
    requires IsPlain(n) && end != "" && end[0] == '.'
    ensures Ends(n, end) <==> HasSuffix(n, end)
  {
    hide HasSuffix;
    SuffixExactlyWhen(n, end);
    forall a, b | n == a + b && SameButForCase(b, end)
      ensures a != ""
    {
      assert b[0] == '.' && n[|a|] == b[0];
    }
  }

  lemma FileExactlyWhen(n: string)
    ensures IsFile(n) <==> ComponentOk(n) && !HasSuffix(n, ".new") && !HasSuffix(n, ".prev")
  {
    hide Ends, HasSuffix;
    PlainIsComponent(n);
    if IsPlain(n) {
      EndsExactlyWhen(n, ".new");
      EndsExactlyWhen(n, ".prev");
    }
  }

  lemma CaseIsPlain(n: string, k: string)
    requires SameButForCase(n, k) && IsPlain(k)
    ensures IsPlain(n)
  {
  }

  lemma KnownNames()
    ensures IsPlain("startup.nsh") && IsPlain("EFI") && IsPlain("BOOT") && IsPlain("stormboot")
  {
  }

  predicate SameLast(a: string, b: string) {
    a != "" && b != ""
    && (a[|a| - 1] == b[|b| - 1] || CaseOf(a[|a| - 1], b[|b| - 1]) || CaseOf(b[|b| - 1], a[|a| - 1]))
  }

  lemma EndsAlike(n: string, end: string)
    requires Ends(n, end) && end != ""
    ensures SameLast(n, end)
  {
    var a, b :| n == a + b && SameButForCase(b, end);
    assert n[|n| - 1] == b[|b| - 1];
  }

  lemma ScriptEnds(n: string)
    requires SameButForCase(n, "startup.nsh")
    ensures !SameLast(n, ".new") && !SameLast(n, ".prev")
  {
    var k := "startup.nsh";
    assert k[|k| - 1] == 'h';
  }

  /** The shell's script has a name of its own. */
  lemma ScriptIsFile(n: string)
    requires SameButForCase(n, "startup.nsh")
    ensures IsFile(n)
  {
    hide SameButForCase, IsPlain, Ends, SameLast;
    KnownNames();
    CaseIsPlain(n, "startup.nsh");
    ScriptEnds(n);
    if Ends(n, ".new") {
      EndsAlike(n, ".new");
    }
    if Ends(n, ".prev") {
      EndsAlike(n, ".prev");
    }
  }

  lemma OnePiece(n: string)
    requires IsPlain(n)
    ensures Split(n, '/') == [n]
  {
    hide IsPlain, Split;
    PlainIsComponent(n);
    SplitAt(n, '/', "");
  }

  lemma TwoPieces(a: string, n: string)
    requires IsPlain(a) && IsPlain(n)
    ensures Split(a + "/" + n, '/') == [a, n]
  {
    hide IsPlain, Split;
    PlainIsComponent(a);
    SplitAt(a, '/', n);
    OnePiece(n);
  }

  lemma ThreePieces(a: string, b: string, n: string)
    requires IsPlain(a) && IsPlain(b) && IsPlain(n)
    ensures Split(a + "/" + b + "/" + n, '/') == [a, b, n]
  {
    hide IsPlain, Split;
    PlainIsComponent(a);
    SplitAt(a, '/', b + "/" + n);
    TwoPieces(b, n);
    assert a + "/" + b + "/" + n == a + ['/'] + (b + "/" + n);
  }

  /** The same conditions on the pieces. */
  ghost predicate PiecesOk(parts: seq<string>) {
    && 1 <= |parts| <= 3 && IsFile(parts[|parts| - 1])
    && (forall i :: 0 <= i < |parts| ==> IsPlain(parts[i]))
    && if |parts| == 1 then SameButForCase(parts[0], "startup.nsh")
       else if |parts| == 2 then
         && SameButForCase(parts[0], "stormboot")
         && !SameButForCase(parts[1], "state") && !SameButForCase(parts[1], "local.conf")
       else
         || (SameButForCase(parts[0], "EFI") && SameButForCase(parts[1], "BOOT"))
         || SameButForCase(parts[0], "stormboot")
  }

  lemma PlacesOfPieces(parts: seq<string>)
    requires 0 < |parts|
    ensures PlaceOk(parts) <==>
              if |parts| == 1 then SameButForCase(parts[0], "startup.nsh")
              else if |parts| == 2 then
                && SameButForCase(parts[0], "stormboot")
                && !SameButForCase(parts[1], "state") && !SameButForCase(parts[1], "local.conf")
              else
                && |parts| == 3
                && (|| (SameButForCase(parts[0], "EFI") && SameButForCase(parts[1], "BOOT"))
                    || SameButForCase(parts[0], "stormboot"))
  {
    hide SameName, SameButForCase;
    SameNameIsSameButForCase(parts[0], "startup.nsh");
    SameNameIsSameButForCase(parts[0], "EFI");
    SameNameIsSameButForCase(parts[0], "stormboot");
    TwoDirectories(parts[0]);
    if |parts| > 1 {
      SameNameIsSameButForCase(parts[1], "BOOT");
      SameNameIsSameButForCase(parts[1], "state");
      SameNameIsSameButForCase(parts[1], "local.conf");
    }
  }

  lemma TwoDirectories(n: string)
    ensures !SameButForCase(n, "EFI") || !SameButForCase(n, "stormboot")
  {
  }

  lemma PathOkInPieces(p: string)
    ensures PathOk(p) <==> 0 < |p| <= 128 && PiecesOk(Split(p, '/'))
  {
    hide Split, ComponentOk, IsPlain, PlaceOk, SameButForCase, HasSuffix, IsFile;
    var parts := Split(p, '/');
    PlacesOfPieces(parts);
    FileExactlyWhen(parts[|parts| - 1]);
    forall i | 0 <= i < |parts|
      ensures IsPlain(parts[i]) <==> ComponentOk(parts[i])
    {
      PlainIsComponent(parts[i]);
    }
  }

  lemma PiecesAreAPlace(p: string)
    requires PiecesOk(Split(p, '/'))
    ensures IsPlace(p)
  {
    hide Split, IsPlain, SameButForCase, IsFile;
    var parts := Split(p, '/');
    var rest := FirstPiece(p, '/');
    if |parts| > 1 {
      var last := FirstPiece(rest, '/');
      if |parts| > 2 {
        var none := FirstPiece(last, '/');
        assert p == parts[0] + "/" + parts[1] + "/" + parts[2];
      } else {
        assert p == parts[0] + "/" + parts[1];
      }
    }
  }

  lemma PlaceIsPieces(p: string)
    requires IsPlace(p)
    ensures p != "" && PiecesOk(Split(p, '/'))
  {
    hide Split, IsPlain, SameButForCase, Ends;
    KnownNames();
    if SameButForCase(p, "startup.nsh") {
      ScriptIsFile(p);
      OnePiece(p);
      NotEmpty(p);
    } else if IsBootFile(p) {
      var e, b, n :| p == e + "/" + b + "/" + n && SameButForCase(e, "EFI") && SameButForCase(b, "BOOT") && IsFile(n);
      CaseIsPlain(e, "EFI");
      CaseIsPlain(b, "BOOT");
      ThreePieces(e, b, n);
    } else if IsOwnFile(p) {
      var s, n :| p == s + "/" + n && SameButForCase(s, "stormboot") && IsFile(n)
                  && !SameButForCase(n, "state") && !SameButForCase(n, "local.conf");
      CaseIsPlain(s, "stormboot");
      TwoPieces(s, n);
    } else {
      var s, d, n :| p == s + "/" + d + "/" + n && SameButForCase(s, "stormboot") && IsPlain(d) && IsFile(n);
      CaseIsPlain(s, "stormboot");
      ThreePieces(s, d, n);
    }
  }

  lemma NotEmpty(n: string)
    requires IsPlain(n)
    ensures n != ""
  {
  }

  /** An update may write exactly the paths of up to 128 characters that are one of
      the places. */
  lemma AllowedExactlyWhen(p: string)
    ensures PathOk(p) <==> |p| <= 128 && IsPlace(p)
  {
    hide PathOk, IsPlace, PiecesOk;
    PathOkInPieces(p);
    if IsPlace(p) {
      PlaceIsPieces(p);
    }
    if PiecesOk(Split(p, '/')) {
      PiecesAreAPlace(p);
    }
  }
}
