/** The little text handling of the k-sweep result files (v0.1/analyzing/KNN.py): decimal
    numerals as written by str() and read back by int(), the two regular expressions that
    pull the sample range out of a row label, and the substring test `t in s`. */
module Text {
  import opened Wrappers

  /** The digit class `\d`, restricted to ASCII. */
  predicate IsDigit(c: char)
  {
    '0' <= c <= '9'
  }

  predicate AllDigits(s: string)
  {
    forall i :: 0 <= i < |s| ==> IsDigit(s[i])
  }

  function DigitChar(d: nat): (c: char)
    requires d < 10
    ensures IsDigit(c)
  {
    ('0' as int + d) as char
  }

  function DigitValue(c: char): (d: nat)
    requires IsDigit(c)
    ensures d < 10 && DigitChar(d) == c
  {
    c as int - '0' as int
  }

  /** str(n) for n >= 0: its decimal digits, most significant first, without leading zeros. */
  function NatString(n: nat): (s: string)
    ensures |s| > 0 && AllDigits(s)
    ensures s[0] == '0' ==> n == 0
    decreases n
  {
    if n < 10 then [DigitChar(n)] else NatString(n / 10) + [DigitChar(n % 10)]
  }

  /** str(i) for any int. */
  function IntString(i: int): string
  {
    if i < 0 then "-" + NatString(-i) else NatString(i)
  }

  /** int(s) for a string of decimal digits (leading zeros allowed). */
  function DigitsValue(s: string): nat
    requires AllDigits(s)
    decreases |s|
  {
    if s == [] then 0 else DigitsValue(s[..|s| - 1]) * 10 + DigitValue(s[|s| - 1])
  }

  /** int(str(n)) == n. */
  lemma {:induction false} NatStringRoundTrip(n: nat)
    ensures DigitsValue(NatString(n)) == n
    decreases n
  {
    if n >= 10 {
      var s := NatString(n);
      NatStringRoundTrip(n / 10);
      assert s[..|s| - 1] == NatString(n / 10);
      assert DigitValue(s[|s| - 1]) == n % 10;
    }
  }

  /** The length of the run of digits that starts s. */
  function DigitRun(s: string): (n: nat)
    ensures n <= |s| && AllDigits(s[..n])
    ensures n < |s| ==> !IsDigit(s[n])
    decreases |s|
  {
    if s == [] || !IsDigit(s[0]) then 0 else 1 + DigitRun(s[1..])
  }

  /** The first match of the pattern `(\d+)-`: the leftmost maximal run of digits that is
      followed by a dash (a shorter run never helps, since a digit is not a dash). */
  function MatchBeforeDash(s: string): (m: Option<string>)
    ensures m.Some? ==> |m.value| > 0 && AllDigits(m.value)
    decreases |s|
  {
    if s == [] then None
    else
      var n := DigitRun(s);
      if 0 < n < |s| && s[n] == '-' then Some(s[..n]) else MatchBeforeDash(s[1..])
  }

  /** The first match of the pattern `-(\d+)`: the maximal run of digits after the first
      dash that is followed by a digit. */
  function MatchAfterDash(s: string): (m: Option<string>)
    ensures m.Some? ==> |m.value| > 0 && AllDigits(m.value)
    decreases |s|
  {
    if |s| < 2 then None
    else if s[0] == '-' && IsDigit(s[1]) then
      var n := DigitRun(s[1..]);
      assert s[1..1 + n] == s[1..][..n];
      Some(s[1..1 + n])
    else MatchAfterDash(s[1..])
  }

  /** Python's `t in s` for strings. */
  function Contains(s: string, t: string): bool
    decreases |s|
  {
    if |s| < |t| then false else s[..|t|] == t || (s != [] && Contains(s[1..], t))
  }

  /** Characters without digits do not move the first `(\d+)-` match. */
  lemma {:induction false} BeforeDashSkips(p: string, s: string)
    requires forall i :: 0 <= i < |p| ==> !IsDigit(p[i])
    ensures MatchBeforeDash(p + s) == MatchBeforeDash(s)
    decreases |p|
  {
    if p != [] {
      assert (p + s)[0] == p[0] && (p + s)[1..] == p[1..] + s;
      assert DigitRun(p + s) == 0;
      BeforeDashSkips(p[1..], s);
    } else {
      assert p + s == s;
    }
  }

  /** Characters without a dash do not move the first `-(\d+)` match that follows them. */
  lemma {:induction false} AfterDashSkips(p: string, s: string)
    requires forall i :: 0 <= i < |p| ==> p[i] != '-'
    requires |s| >= 2
    ensures MatchAfterDash(p + s) == MatchAfterDash(s)
    decreases |p|
  {
    if p != [] {
      assert (p + s)[0] == p[0] && p[0] != '-' && |p + s| >= 2;
      assert (p + s)[1..] == p[1..] + s;
      AfterDashSkips(p[1..], s);
    } else {
      assert p + s == s;
    }
  }

  /** A run of digits ends at the first non-digit. */
  lemma {:induction false} DigitRunOf(d: string, rest: string)
    requires AllDigits(d)
    requires rest != [] && !IsDigit(rest[0])
    ensures DigitRun(d + rest) == |d|
    decreases |d|
  {
    if d != [] {
      assert (d + rest)[1..] == d[1..] + rest;
      DigitRunOf(d[1..], rest);
    }
  }

  /** Characters that differ from the first letter of t do not change whether t occurs. */
  lemma {:induction false} ContainsSkips(p: string, s: string, t: string)
    requires t != [] && forall i :: 0 <= i < |p| ==> p[i] != t[0]
    ensures Contains(p + s, t) == Contains(s, t)
    decreases |p|
  {
    if p != [] {
      assert (p + s)[1..] == p[1..] + s;
      if |p + s| >= |t| {
        assert (p + s)[..|t|][0] == p[0];
        assert (p + s)[..|t|] != t;
      }
      ContainsSkips(p[1..], s, t);
    } else {
      assert p + s == s;
    }
  }
}
