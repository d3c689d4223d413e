/**
 Text helpers shared by the queue commands and the display: decimal digit
 strings (Python's `str.isdigit`, `int(...)` and `str(n)` on ASCII decimals),
 suffix tests and the head of a `str.split`.
 */
module Text {

  predicate IsDigit(c: char) {
    '0' <= c <= '9'
  }

  /** Every character is a decimal digit (possibly the empty string). */
  predicate AllDigits(s: string) {
    forall i :: 0 <= i < |s| ==> IsDigit(s[i])
  }

  /** `s.isdigit()` for ASCII text: non-empty and all digits. */
  predicate IsDecimal(s: string) {
    |s| > 0 && AllDigits(s)
  }

  /** No superfluous leading zero, as `str(n)` produces. */
  predicate Canonical(s: string) {
    IsDecimal(s) && (s[0] != '0' || |s| == 1)
  }

  function DigitValue(c: char): (d: nat)
    requires IsDigit(c)
    ensures d < 10
  {
    c as int - '0' as int
  }

  function DigitChar(d: nat): (c: char)
    requires d < 10
    ensures IsDigit(c) && DigitValue(c) == d
  {
    ('0' as int + d) as char
  }

  /** `int(s)` for a string of decimal digits, read most significant digit first. */
  function ParseDecimal(s: string): nat
    requires AllDigits(s)
  {
    if |s| == 0 then 0 else 10 * ParseDecimal(s[..|s| - 1]) + DigitValue(s[|s| - 1])
  }

  /** `str(n)` for a natural number. */
  function NatToString(n: nat): (r: string)
    ensures Canonical(r)
    ensures |r| == 1 <==> n < 10
  {
    if n < 10 then [DigitChar(n)] else NatToString(n / 10) + [DigitChar(n % 10)]
  }

  /** Reading back what `NatToString` wrote gives the number. */
  lemma {:induction false} ParseNatToString(n: nat)
    ensures ParseDecimal(NatToString(n)) == n
  {
    if n >= 10 {
      var r := NatToString(n);
      ParseNatToString(n / 10);
      assert r[..|r| - 1] == NatToString(n / 10);
    }
  }

  /** A decimal string whose first digit is not zero denotes a positive number. */
  lemma {:induction false} LeadingDigitPositive(s: string)
    requires IsDecimal(s) && s[0] != '0'
    ensures ParseDecimal(s) > 0
    ensures |s| >= 2 ==> ParseDecimal(s) >= 10
  {
    if |s| >= 2 {
      LeadingDigitPositive(s[..|s| - 1]);
    }
  }

  /** The other direction: a canonical decimal string is the rendering of its value. */
  lemma {:induction false} NatToStringParse(s: string)
    requires Canonical(s)
    ensures NatToString(ParseDecimal(s)) == s
  {
    if |s| >= 2 {
      var init := s[..|s| - 1];
      var d := DigitValue(s[|s| - 1]);
      LeadingDigitPositive(s);
      assert Canonical(init);
      NatToStringParse(init);
      var n := ParseDecimal(s);
      assert n / 10 == ParseDecimal(init) && n % 10 == d;
      assert DigitChar(d) == s[|s| - 1];
      assert init + [s[|s| - 1]] == s;
    }
  }

  /** Python's `s.endswith(suffix)`. */
  predicate EndsWith(s: string, suffix: string) {
    |suffix| <= |s| && s[|s| - |suffix|..] == suffix
  }

  /** `pat` occurs in `s` starting at index `j`. */
  predicate OccursAt(s: string, pat: string, j: int) {
    0 <= j && j + |pat| <= |s| && s[j..j + |pat|] == pat
  }

  /** Index of the first occurrence of `pat` in `s` at or after `k`, or `|s|` when there is none. */
  function FindFrom(s: string, pat: string, k: nat): (r: nat)
    requires |pat| > 0 && k <= |s|
    ensures k <= r <= |s|
    ensures r < |s| <==> OccursAt(s, pat, r)
    ensures forall j :: k <= j < r ==> !OccursAt(s, pat, j)
    decreases |s| - k
  {
    if k + |pat| > |s| then |s|
    else if s[k..k + |pat|] == pat then k
    else FindFrom(s, pat, k + 1)
  }

  /** `s.split(sep)[0]`: the text before the first occurrence of `sep`, or all of `s`. */
  function SplitHead(s: string, sep: string): (r: string)
    requires |sep| > 0
    ensures |r| <= |s| && r == s[..|r|]
    ensures |r| < |s| ==> OccursAt(s, sep, |r|)
    ensures forall j :: 0 <= j < |r| ==> !OccursAt(s, sep, j)
  {
    s[..FindFrom(s, sep, 0)]
  }

  /** Splitting `head + sep` where `head` holds no occurrence of `sep`'s first character gives back `head`. */
  lemma SplitHeadOfSuffixed(head: string, sep: string)
    requires |sep| > 0
    requires forall i :: 0 <= i < |head| ==> head[i] != sep[0]
    ensures SplitHead(head + sep, sep) == head
  {
    var s := head + sep;
    assert OccursAt(s, sep, |head|);
    assert forall j :: 0 <= j < |head| ==> s[j] == head[j];
  }
}
