/** The pieces of Python's `str` behaviour the upload handler relies on:
    `str.strip()`, `str.endswith()` and `str(int)`. */
module PyText {

  /** The characters for which Python's `str.isspace()` holds, which are
      exactly the ones `str.strip()` with no argument removes. */
  predicate IsSpace(c: char): (b: bool)
    // what can make up an email address is never stripped
    ensures ('a' <= c <= 'z') || ('A' <= c <= 'Z') || IsDigit(c) || c == '@' || c == '.' || c == '-' || c == '_' ==> !b
    // the ASCII blanks are
    ensures c == ' ' || c == '\t' || c == '\n' || c == '\r' ==> b
  {
    ('\t' <= c <= '\r')                    // tab, newline, vertical tab, form feed, carriage return
    || ('\U{1C}' <= c <= '\U{1F}')         // file, group, record and unit separators
    || c == ' '
    || c == '\U{85}' || c == '\U{A0}'
    || c == '\U{1680}'
    || ('\U{2000}' <= c <= '\U{200A}')
    || c == '\U{2028}' || c == '\U{2029}'
    || c == '\U{202F}' || c == '\U{205F}'
    || c == '\U{3000}'
  }

  predicate AllSpace(s: string) {
    forall k | 0 <= k < |s| :: IsSpace(s[k])
  }

  /** Every character of `s[lo..hi]` is whitespace. */
  predicate SpaceBetween(s: string, lo: nat, hi: nat)
    requires lo <= hi <= |s|
  {
    forall k | lo <= k < hi :: IsSpace(s[k])
  }

  /** The index where `s.lstrip()` starts, scanning from `i`: everything
      skipped is whitespace and the character there (if any) is not. */
  function ContentStart(s: string, i: nat): (n: nat)
    requires i <= |s|
    ensures i <= n <= |s| && SpaceBetween(s, i, n)
    ensures n < |s| ==> !IsSpace(s[n])
    decreases |s| - i
  {
    if i < |s| && IsSpace(s[i]) then ContentStart(s, i + 1) else i
  }

  /** The index where `s.rstrip()` ends, scanning down from `j` but not below
      `lo`: everything skipped is whitespace and the character before the
      result (if above `lo`) is not. */
  function ContentEnd(s: string, lo: nat, j: nat): (n: nat)
    requires lo <= j <= |s|
    ensures lo <= n <= j && SpaceBetween(s, n, j)
    ensures lo < n ==> !IsSpace(s[n - 1])
    decreases j
  {
    if lo < j && IsSpace(s[j - 1]) then ContentEnd(s, lo, j - 1) else j
  }

  /** Non-empty, and neither starting nor ending with whitespace. */
  predicate Trimmed(s: string) {
    s != [] && !IsSpace(s[0]) && !IsSpace(s[|s| - 1])
  }

  /** `s.strip()`: empty exactly when `s` is all whitespace, and otherwise
      starting and ending with a non-whitespace character. */
  function Strip(s: string): (r: string)
    ensures r == [] <==> AllSpace(s)
    ensures r != [] ==> Trimmed(r)
  {
    var i := ContentStart(s, 0);
    var j := ContentEnd(s, i, |s|);
    assert i == j ==> i == |s|;
    s[i..j]
  }

  /** What `s.strip()` keeps is a contiguous infix of `s`, and what it
      removes on either side is whitespace. */
  lemma StripInfix(s: string)
    ensures exists i, j | 0 <= i <= j <= |s| ::
      Strip(s) == s[i..j] && SpaceBetween(s, 0, i) && SpaceBetween(s, j, |s|)
  {
    var i := ContentStart(s, 0);
    var j := ContentEnd(s, i, |s|);
    assert Strip(s) == s[i..j];
  }

  /** Stripping twice gives what stripping once gives. */
  lemma StripIdempotent(s: string)
    ensures Strip(Strip(s)) == Strip(s)
  {
  }

  /** `s.endswith(suffix)`. */
  predicate EndsWith(s: string, suffix: string): (b: bool)
    ensures b <==> |suffix| <= |s| && forall k | 0 <= k < |suffix| :: s[|s| - |suffix| + k] == suffix[k]
  {
    |suffix| <= |s| && s[|s| - |suffix|..] == suffix
  }

  predicate IsDigit(c: char) {
    '0' <= c <= '9'
  }

  predicate AllDigits(s: string) {
    forall k | 0 <= k < |s| :: IsDigit(s[k])
  }

  function DigitChar(d: nat): (c: char)
    requires d < 10
    ensures IsDigit(c)
  {
    (d + '0' as int) as char
  }

  function DigitValue(c: char): (d: nat)
    requires IsDigit(c)
    ensures d < 10 && DigitChar(d) == c
  {
    c as int - '0' as int
  }

  /** Decimal digits of a natural number, most significant first, with no
      leading zero (the digits `str(n)` prints for `n >= 0`). */
  function NatToDecimal(n: nat): (r: string)
    ensures r != [] && AllDigits(r)
    ensures |r| > 1 ==> r[0] != '0'
    decreases n
  {
    if n < 10 then [DigitChar(n)] else NatToDecimal(n / 10) + [DigitChar(n % 10)]
  }

  /** Reads a string of decimal digits back as the number it denotes. */
  function DecimalToNat(s: string): nat
    requires AllDigits(s)
  {
    if s == [] then 0 else DecimalToNat(s[..|s| - 1]) * 10 + DigitValue(s[|s| - 1])
  }

  lemma {:induction false} NatDecimalRoundTrip(n: nat)
    ensures DecimalToNat(NatToDecimal(n)) == n
    decreases n
  {
    if n >= 10 {
      NatDecimalRoundTrip(n / 10);
      var s := NatToDecimal(n);
      assert s[..|s| - 1] == NatToDecimal(n / 10);
      assert DigitValue(s[|s| - 1]) == n % 10 by {
        assert DigitChar(DigitValue(s[|s| - 1])) == DigitChar(n % 10);
      }
    }
  }

  /** `str(i)` for a Python `int`: a minus sign for negative numbers, then
      the decimal digits of the magnitude. */
  function IntToDecimal(i: int): (r: string)
    ensures r != [] && (r[0] == '-' <==> i < 0)
    ensures forall k | (if i < 0 then 1 else 0) <= k < |r| :: IsDigit(r[k])
  {
    if i < 0 then "-" + NatToDecimal(-i) else NatToDecimal(i)
  }

  /** Two integers print the same exactly when they are equal. */
  lemma IntToDecimalInjective(a: int, b: int)
    requires IntToDecimal(a) == IntToDecimal(b)
    ensures a == b
  {
    var s := IntToDecimal(a);
    assert (a < 0) == (b < 0);
    if a < 0 {
      assert s[1..] == NatToDecimal(-a);
      assert s[1..] == NatToDecimal(-b);
      NatDecimalRoundTrip(-a);
      NatDecimalRoundTrip(-b);
    } else {
      NatDecimalRoundTrip(a);
      NatDecimalRoundTrip(b);
    }
  }
}
