/**
 * Character and string helpers standing for the parts of Python's `str`
 * that the tool relies on: `\s` and `strip()`, `\d` and `int()`,
 * `lower()`, `startswith()` and `isalnum()`.  All of them are modelled on
 * ASCII only.
 */
module Text {

  /**
   * Whitespace as matched by `\s` and removed by `strip()` (ASCII part):
   * space, tab, line feed, vertical tab, form feed, carriage return and the
   * four separators U+001C to U+001F.
   */
  predicate IsSpace(c: char) {
    || c == ' ' || c == '\t' || c == '\n' || c == '\r' || c == '\U{0B}' || c == '\U{0C}'
    || ('\U{1C}' <= c <= '\U{1F}')
  }

  predicate IsDigit(c: char) {
    '0' <= c <= '9'
  }

  predicate IsLetter(c: char) {
    ('a' <= c <= 'z') || ('A' <= c <= 'Z')
  }

  /** `str.isalnum()` for one character. */
  predicate IsAlnum(c: char) {
    IsDigit(c) || IsLetter(c)
  }

  predicate IsBlank(s: string) {
    forall i :: 0 <= i < |s| ==> IsSpace(s[i])
  }

  predicate IsDigits(s: string) {
    forall i :: 0 <= i < |s| ==> IsDigit(s[i])
  }

  function Min(a: int, b: int): int {
    if a <= b then a else b
  }

  /** The index of the first non-space character of `s` at or after `i`, or `|s|`. */
  function SkipSpaces(s: string, i: nat): (r: nat)
    requires i <= |s|
    ensures i <= r <= |s|
    ensures forall k :: i <= k < r ==> IsSpace(s[k])
    ensures r < |s| ==> !IsSpace(s[r])
    decreases |s| - i
  {
    if i == |s| || !IsSpace(s[i]) then i else SkipSpaces(s, i + 1)
  }

  /** The end of `s[..j]` once its trailing spaces are dropped. */
  function SkipSpacesBack(s: string, j: nat): (r: nat)
    requires j <= |s|
    ensures r <= j
    ensures forall k :: r <= k < j ==> IsSpace(s[k])
    ensures r > 0 ==> !IsSpace(s[r - 1])
  {
    if j == 0 || !IsSpace(s[j - 1]) then j else SkipSpacesBack(s, j - 1)
  }

  /** `str.strip()`: the text of `s` without surrounding whitespace. */
  function Strip(s: string): (r: string)
    ensures |r| <= |s|
    ensures r == [] <==> IsBlank(s)
    ensures r != [] ==> !IsSpace(r[0]) && !IsSpace(r[|r| - 1])
  {
    var lo := SkipSpaces(s, 0);
    if lo == |s| then [] else
    var hi := SkipSpacesBack(s, |s|);
    assert !IsSpace(s[lo]);
    s[lo..hi]
  }

  /** `str.lower()` for one character. */
  function LowerChar(c: char): (r: char)
    ensures IsLetter(c) ==> IsLetter(r) && ('a' <= r <= 'z')
    ensures !('A' <= c <= 'Z') ==> r == c
  {
    if 'A' <= c <= 'Z' then (c as int - 'A' as int + 'a' as int) as char else c
  }

  function Lower(s: string): (r: string)
    ensures |r| == |s|
    ensures forall i :: 0 <= i < |s| ==> r[i] == LowerChar(s[i])
  {
    seq(|s|, i requires 0 <= i < |s| => LowerChar(s[i]))
  }

  predicate StartsWith(s: string, prefix: string) {
    |prefix| <= |s| && s[..|prefix|] == prefix
  }

  /** `s.lower().startswith(prefix)`: only the first `|prefix|` characters are lowered. */
  predicate LowerStartsWith(s: string, prefix: string) {
    |prefix| <= |s| && Lower(s[..|prefix|]) == prefix
  }

  lemma LowerStartsWithChars(s: string, prefix: string)
    ensures LowerStartsWith(s, prefix) <==>
              |prefix| <= |s| && forall i :: 0 <= i < |prefix| ==> LowerChar(s[i]) == prefix[i]
  {
    if |prefix| <= |s| {
      var l := Lower(s[..|prefix|]);
      if forall i :: 0 <= i < |prefix| ==> LowerChar(s[i]) == prefix[i] {
        assert forall i :: 0 <= i < |prefix| ==> l[i] == prefix[i];
      }
    }
  }

  /** The character-by-character test is `lower()` followed by `startswith()`. */
  lemma LowerStartsWithIsStartsWith(s: string, prefix: string)
    ensures LowerStartsWith(s, prefix) <==> StartsWith(Lower(s), prefix)
  {
    LowerStartsWithChars(s, prefix);
    var l := Lower(s);
    if |prefix| <= |s| {
      if forall i :: 0 <= i < |prefix| ==> LowerChar(s[i]) == prefix[i] {
        assert l[..|prefix|] == prefix;
      }
      if l[..|prefix|] == prefix {
        forall i | 0 <= i < |prefix| ensures LowerChar(s[i]) == prefix[i] {
          assert l[..|prefix|][i] == l[i];
        }
      }
    }
  }

  /**
   * For a prefix without whitespace, testing after the leading whitespace
   * is testing the stripped text: trailing whitespace cannot be part of it.
   */
  lemma LowerStartsWithStripped(s: string, prefix: string)
    requires forall i :: 0 <= i < |prefix| ==> !IsSpace(prefix[i])
    ensures LowerStartsWith(s[SkipSpaces(s, 0)..], prefix) <==> LowerStartsWith(Strip(s), prefix)
  {
    var lo, n := SkipSpaces(s, 0), |prefix|;
    if lo < |s| && n > 0 {
      var hi := SkipSpacesBack(s, |s|);
      assert lo < hi by {
        assert !IsSpace(s[lo]);
      }
      var u, t := s[lo..], s[lo..hi];
      assert Strip(s) == t;
      if LowerStartsWith(u, prefix) {
        assert LowerChar(u[n - 1]) == prefix[n - 1] by {
          assert Lower(u[..n])[n - 1] == prefix[n - 1];
        }
        assert lo + n <= hi;
        assert u[..n] == t[..n];
      }
      if LowerStartsWith(t, prefix) {
        assert u[..n] == t[..n];
      }
    }
  }

  function Pow10(n: nat): (r: nat)
    ensures r >= 1
  {
    if n == 0 then 1 else 10 * Pow10(n - 1)
  }

  function DigitValue(c: char): (d: nat)
    requires IsDigit(c)
    ensures d <= 9
  {
    c as int - '0' as int
  }

  /** `int(s)` for a string of decimal digits; leading zeros are allowed. */
  function DecimalValue(s: string): (v: nat)
    requires IsDigits(s)
    ensures v < Pow10(|s|)
  {
    if s == [] then 0 else 10 * DecimalValue(s[..|s| - 1]) + DigitValue(s[|s| - 1])
  }

  /** A field of at most four digits denotes a number of at most 9999. */
  lemma {:induction false} DecimalValueBound(s: string)
    requires IsDigits(s) && |s| <= 4
    ensures DecimalValue(s) <= 9999
  {
    PowMonotone(|s|, 4);
  }

  lemma {:induction false} PowMonotone(m: nat, n: nat)
    requires m <= n
    ensures Pow10(m) <= Pow10(n)
  {
    if m < n {
      PowMonotone(m, n - 1);
    }
  }
}
