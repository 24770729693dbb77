/** Hexadecimal numbers, as `from_str_radix(.., 16)` reads and `{:x}` prints them. */
module Hex {
  import opened Bytes
  import opened Text

  predicate IsHex(c: char) {
    '0' <= c <= '9' || 'a' <= c <= 'f' || 'A' <= c <= 'F'
  }

  function HexValue(c: char): (n: nat)
    requires IsHex(c)
    ensures n < 16
  {
    if c <= '9' then c as nat - '0' as nat
    else if c <= 'F' then c as nat - 'A' as nat + 10
    else c as nat - 'a' as nat + 10
  }

  predicate AllHex(s: string) {
    forall i :: 0 <= i < |s| ==> IsHex(s[i])
  }

  function HexNumber(s: string): nat
    requires AllHex(s)
  {
    if s == "" then 0 else 16 * HexNumber(s[..|s| - 1]) + HexValue(s[|s| - 1])
  }

  /** For an unsigned number below `limit`. */
  function ParseHex(s: string, limit: nat): (n: Option<nat>)
    ensures n.Some? ==> n.value < limit
  {
    var digits := if s != "" && s[0] == '+' then s[1..] else s;
    if digits == "" || !AllHex(digits) || HexNumber(digits) >= limit then None
    else Some(HexNumber(digits))
  }

  function HexDigit(n: nat): (c: char)
    requires n < 16
    ensures IsHex(c) && HexValue(c) == n
    ensures c as nat < 0x80 && !IsSpace(c) && c != ';' && c != '+'
  {
    if n < 10 then ('0' as nat + n) as char else ('a' as nat + n - 10) as char
  }

  function HexOf(n: nat): (s: string)
    ensures s != "" && AllHex(s) && NoSpace(s) && ';' !in s && s[0] != '+'
    ensures forall i :: 0 <= i < |s| ==> s[i] as nat < 0x80
  {
    if n < 16 then [HexDigit(n)] else HexOf(n / 16) + [HexDigit(n % 16)]
  }

  lemma {:induction false} HexComesBack(n: nat)
    ensures HexNumber(HexOf(n)) == n
  {
    var s := HexOf(n);
    if n < 16 {
      assert s[..0] == [];
    } else {
      HexComesBack(n / 16);
      assert s[..|s| - 1] == HexOf(n / 16);
    }
  }

  lemma HexParses(n: nat, limit: nat)
    requires n < limit
    ensures ParseHex(HexOf(n), limit) == Some(n)
  {
    HexComesBack(n);
  }

  lemma CaseKeepsValue(x: char, y: char)
    requires IsHex(y) && (x == y || CaseOf(x, y) || CaseOf(y, x))
    ensures IsHex(x) && HexValue(x) == HexValue(y)
  {
  }

  /** A number reads the same in capitals. */
  lemma {:induction false} AnyCaseReads(s: string, t: string)
    requires AllHex(t) && SameButForCase(s, t)
    ensures AllHex(s) && HexNumber(s) == HexNumber(t)
  {
    hide IsHex, HexValue;
    forall i | 0 <= i < |s|
      ensures IsHex(s[i]) && HexValue(s[i]) == HexValue(t[i])
    {
      CaseKeepsValue(s[i], t[i]);
    }
    if s != "" {
      AnyCaseReads(s[..|s| - 1], t[..|t| - 1]);
    }
  }
}
