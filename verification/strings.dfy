/** The text operations of Rust's standard library that the patcher relies on:
    `{}` and `{:x}` formatting of integers, `join`, `contains`, `ends_with`,
    ASCII `to_lowercase` and `replace`. */
module Strings {

  predicate IsDigit(c: char) { '0' <= c <= '9' }

  function DigitChar(d: nat): (c: char)
    requires d < 16
    ensures d < 10 ==> IsDigit(c) && c as int - '0' as int == d
  {
    if d < 10 then ('0' as int + d) as char else ('a' as int + d - 10) as char
  }

  /** Rust's `{}` for an unsigned integer: decimal, no leading zeros. */
  function DecimalString(n: nat): (s: string)
    ensures |s| >= 1
    ensures forall i :: 0 <= i < |s| ==> IsDigit(s[i])
    decreases n
  {
    if n < 10 then [DigitChar(n)] else DecimalString(n / 10) + [DigitChar(n % 10)]
  }

  function DigitValue(c: char): nat
    requires IsDigit(c)
  {
    c as int - '0' as int
  }

  /** Reads a string of decimal digits back as a number. */
  function ParseDecimal(s: string): nat
    requires forall i :: 0 <= i < |s| ==> IsDigit(s[i])
  {
    if s == [] then 0 else 10 * ParseDecimal(s[..|s| - 1]) + DigitValue(s[|s| - 1])
  }

  /** Decimal formatting loses nothing: the digits read back as the number. */
  lemma {:induction false} DecimalRoundTrip(n: nat)
    ensures ParseDecimal(DecimalString(n)) == n
    decreases n
  {
    var s := DecimalString(n);
    if n >= 10 {
      assert s[..|s| - 1] == DecimalString(n / 10);
      DecimalRoundTrip(n / 10);
    }
  }

  function Pow10(k: nat): nat { if k == 0 then 1 else 10 * Pow10(k - 1) }

  /** A number below 10^k takes at most k decimal digits. */
  lemma {:induction false} DecimalStringLength(n: nat, k: nat)
    requires 0 < k && n < Pow10(k)
    ensures |DecimalString(n)| <= k
    decreases k
  {
    if n >= 10 {
      assert Pow10(1) == 10;
      assert k > 1;
      DecimalStringLength(n / 10, k - 1);
    }
  }

  /** Rust's `{:x}`: lower-case hexadecimal, no leading zeros. */
  function HexString(n: nat): (s: string)
    ensures |s| >= 1
    decreases n
  {
    if n < 16 then [DigitChar(n)] else HexString(n / 16) + [DigitChar(n % 16)]
  }

  /** `lines.join(sep)`. */
  function Join(lines: seq<string>, sep: string): string {
    if lines == [] then ""
    else if |lines| == 1 then lines[0]
    else lines[0] + sep + Join(lines[1..], sep)
  }

  predicate StartsWith(s: string, prefix: string) {
    |prefix| <= |s| && s[..|prefix|] == prefix
  }

  predicate EndsWith(s: string, suffix: string) {
    |suffix| <= |s| && s[|s| - |suffix|..] == suffix
  }

  /** `t` occurs in `s` starting at index `i`. */
  predicate OccursAt(s: string, t: string, i: nat) {
    i + |t| <= |s| && s[i..i + |t|] == t
  }

  /** `s.contains(t)`. */
  predicate Contains(s: string, t: string) {
    exists i: nat :: i <= |s| && OccursAt(s, t, i)
  }

  lemma ContainsTransitive(s: string, t: string, u: string)
    requires Contains(s, t) && Contains(t, u)
    ensures Contains(s, u)
  {
    var i: nat :| i <= |s| && OccursAt(s, t, i);
    var j: nat :| j <= |t| && OccursAt(t, u, j);
    forall k | 0 <= k < |u| ensures s[i + j..i + j + |u|][k] == u[k] {
      assert t[j..j + |u|][k] == u[k];
      assert s[i..i + |t|][j + k] == t[j + k];
    }
    assert s[i + j..i + j + |u|] == u;
    assert OccursAt(s, u, i + j);
  }

  function LowerChar(c: char): char {
    if 'A' <= c <= 'Z' then (c as int + 32) as char else c
  }

  /** `to_lowercase` on ASCII letters. */
  function ToLower(s: string): (r: string)
    ensures |r| == |s|
    ensures forall i :: 0 <= i < |s| ==> r[i] == LowerChar(s[i])
  {
    seq(|s|, i requires 0 <= i < |s| => LowerChar(s[i]))
  }

  /** `s.replace(pat, rep)`: every non-overlapping occurrence of `pat`, scanning
      left to right, is replaced by `rep`. */
  function ReplaceAll(s: string, pat: string, rep: string): string
    requires |pat| > 0
    decreases |s|
  {
    if |s| < |pat| then s
    else if s[..|pat|] == pat then rep + ReplaceAll(s[|pat|..], pat, rep)
    else [s[0]] + ReplaceAll(s[1..], pat, rep)
  }

  lemma DropFirstOfAppend(s: string, t: string)
    requires |s| > 0
    ensures (s + t)[1..] == s[1..] + t
  {
  }

  /** A pattern whose first character does not recur in it cannot overlap a
      copy of itself, so one appended at the end is always replaced. */
  lemma {:induction false} ReplaceAppended(s: string, pat: string, rep: string)
    requires |pat| > 0
    requires forall k :: 0 < k < |pat| ==> pat[k] != pat[0]
    ensures ReplaceAll(s + pat, pat, rep) == ReplaceAll(s, pat, rep) + rep
    decreases |s|
  {
    var sp := s + pat;
    if |s| == 0 {
      assert sp == pat;
      assert sp[|pat|..] == [];
    } else if |s| < |pat| {
      assert sp[..|pat|][|s|] == pat[0] != pat[|s|];
      DropFirstOfAppend(s, pat);
      assert ReplaceAll(sp, pat, rep) == [s[0]] + ReplaceAll(s[1..] + pat, pat, rep);
      ReplaceAppended(s[1..], pat, rep);
      assert ReplaceAll(s[1..], pat, rep) == s[1..];
      assert ReplaceAll(s, pat, rep) == s == [s[0]] + s[1..];
    } else if s[..|pat|] == pat {
      assert sp[..|pat|] == pat;
      assert sp[|pat|..] == s[|pat|..] + pat;
      assert ReplaceAll(sp, pat, rep) == rep + ReplaceAll(s[|pat|..] + pat, pat, rep);
      ReplaceAppended(s[|pat|..], pat, rep);
    } else {
      assert sp[..|pat|] == s[..|pat|];
      DropFirstOfAppend(s, pat);
      assert ReplaceAll(sp, pat, rep) == [s[0]] + ReplaceAll(s[1..] + pat, pat, rep);
      ReplaceAppended(s[1..], pat, rep);
    }
  }

  /** Replacing a pattern that does not occur changes nothing. */
  lemma {:induction false} ReplaceAbsent(s: string, pat: string, rep: string)
    requires |pat| > 0 && !Contains(s, pat)
    ensures ReplaceAll(s, pat, rep) == s
    decreases |s|
  {
    if |s| >= |pat| {
      assert !OccursAt(s, pat, 0);
      if Contains(s[1..], pat) {
        var i: nat :| i <= |s[1..]| && OccursAt(s[1..], pat, i);
        assert s[i + 1..i + 1 + |pat|] == s[1..][i..i + |pat|];
        assert OccursAt(s, pat, i + 1);
      }
      ReplaceAbsent(s[1..], pat, rep);
    }
  }

  /** A replacement at least as long as the pattern never shortens the text. */
  lemma {:induction false} ReplaceAllGrows(s: string, pat: string, rep: string)
    requires 0 < |pat| <= |rep|
    ensures |ReplaceAll(s, pat, rep)| >= |s|
    decreases |s|
  {
    if |s| >= |pat| {
      if s[..|pat|] == pat {
        ReplaceAllGrows(s[|pat|..], pat, rep);
      } else {
        ReplaceAllGrows(s[1..], pat, rep);
      }
    }
  }
}
