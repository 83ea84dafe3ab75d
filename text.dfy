/** String helpers with JavaScript's meaning: the white space that `String.prototype.trim` strips
    and `\s` matches, lower-casing of the Latin, Greek and Cyrillic capitals, and the decimal
    text `Number.prototype.toString` gives a non-negative integer. */
module Text {

  /** ECMAScript WhiteSpace and LineTerminator code points. */
  predicate IsWhitespace(c: char) {
    || c == ' ' || c == '\t' || c == '\n' || c == '\r'
    || c == '\U{000B}' || c == '\U{000C}' || c == '\U{00A0}' || c == '\U{1680}'
    || ('\U{2000}' <= c <= '\U{200A}')
    || c == '\U{2028}' || c == '\U{2029}' || c == '\U{202F}' || c == '\U{205F}'
    || c == '\U{3000}' || c == '\U{FEFF}'
  }

  predicate NoWhitespace(s: string) {
    forall i | 0 <= i < |s| :: !IsWhitespace(s[i])
  }

  predicate AllWhitespace(s: string) {
    forall i | 0 <= i < |s| :: IsWhitespace(s[i])
  }

  /** The first index at or after i whose character is not white space, or |s|. */
  function SkipForward(s: string, i: nat): (j: nat)
    requires i <= |s|
    ensures i <= j <= |s|
    ensures forall k | i <= k < j :: IsWhitespace(s[k])
    ensures j == |s| || !IsWhitespace(s[j])
    decreases |s| - i
  {
    if i < |s| && IsWhitespace(s[i]) then SkipForward(s, i + 1) else i
  }

  /** The index just past the last character before j that is not white space, or 0. */
  function SkipBackward(s: string, j: nat): (i: nat)
    requires j <= |s|
    ensures i <= j
    ensures forall k | i <= k < j :: IsWhitespace(s[k])
    ensures i == 0 || !IsWhitespace(s[i - 1])
  {
    if j > 0 && IsWhitespace(s[j - 1]) then SkipBackward(s, j - 1) else j
  }

  /** No white space at either end: the strings `trim` leaves as they are. */
  predicate Trimmed(s: string) {
    s == "" || (!IsWhitespace(s[0]) && !IsWhitespace(s[|s| - 1]))
  }

  /** `String.prototype.trim`: the input without white space at either end. What is cut off is
      white space, and what is kept is the slice between the first and the last character that
      is not. */
  function Trim(s: string): (r: string)
    ensures r == "" <==> AllWhitespace(s)
    ensures Trimmed(r)
    ensures |r| <= |s|
    ensures r != "" ==> r == s[SkipForward(s, 0)..SkipBackward(s, |s|)]
  {
    var i := SkipForward(s, 0);
    var j := SkipBackward(s, |s|);
    if j <= i then
      ""
    else s[i..j]
  }

  lemma TrimmedFixpoint(s: string)
    ensures Trimmed(s) <==> Trim(s) == s
  {
  }

  lemma TrimIdempotent(s: string)
    ensures Trim(Trim(s)) == Trim(s)
  {
    TrimmedFixpoint(Trim(s));
  }

  /** The capital letters the model lower-cases: ASCII A to Z, the Latin-1 capitals U+00C0 to
      U+00DE but the multiplication sign, the Greek capitals U+0391 to U+03A9 but the unassigned
      U+03A2 and the sigma (whose lower case depends on its position in a word), and the Cyrillic
      capitals U+0400 to U+042F. Each of them has a one-character lower case. */
  predicate IsUpper(c: char) {
    || ('A' <= c <= 'Z')
    || ('\U{00C0}' <= c <= '\U{00DE}' && c != '\U{00D7}')
    || ('\U{0391}' <= c <= '\U{03A9}' && c != '\U{03A2}' && c != '\U{03A3}')
    || ('\U{0400}' <= c <= '\U{042F}')
  }

  /** The lower case of one character: U+0400 to U+040F move down by 0x50 places, the other
      capitals by 0x20; every other character is left alone. */
  function LowerChar(c: char): (l: char)
    ensures IsWhitespace(l) == IsWhitespace(c)
    ensures !IsUpper(l)
    ensures !IsUpper(c) ==> l == c
  {
    if '\U{0400}' <= c <= '\U{040F}' then (c as int + 0x50) as char
    else if IsUpper(c) then (c as int + 0x20) as char
    else c
  }

  /** No capital the model lower-cases. */
  predicate NoUpper(s: string) {
    forall i | 0 <= i < |s| :: !IsUpper(s[i])
  }

  /** `String.prototype.toLowerCase` on the capitals of `IsUpper`. */
  function ToLower(s: string): (r: string)
    ensures |r| == |s| && NoUpper(r)
    ensures forall i | 0 <= i < |s| :: r[i] == LowerChar(s[i])
  {
    seq(|s|, i requires 0 <= i < |s| => LowerChar(s[i]))
  }

  /** Lower-casing leaves a string without upper-case letters unchanged. */
  lemma ToLowerFixpoint(s: string)
    requires NoUpper(s)
    ensures ToLower(s) == s
  {
  }

  /** Trimming keeps a string free of upper-case letters, since it only cuts off its ends. */
  lemma TrimNoUpper(s: string)
    requires NoUpper(s)
    ensures NoUpper(Trim(s))
  {
  }

  lemma ToLowerIdempotent(s: string)
    ensures ToLower(ToLower(s)) == ToLower(s)
  {
  }

  /** Lower-casing keeps every character's white-space status, so both skips find the same index. */
  lemma {:induction false} SkipForwardToLower(s: string, i: nat)
    requires i <= |s|
    ensures SkipForward(ToLower(s), i) == SkipForward(s, i)
    decreases |s| - i
  {
    if i < |s| {
      assert ToLower(s)[i] == LowerChar(s[i]);
      if IsWhitespace(s[i]) {
        SkipForwardToLower(s, i + 1);
      }
    }
  }

  lemma {:induction false} SkipBackwardToLower(s: string, j: nat)
    requires j <= |s|
    ensures SkipBackward(ToLower(s), j) == SkipBackward(s, j)
  {
    if j > 0 {
      assert ToLower(s)[j - 1] == LowerChar(s[j - 1]);
      if IsWhitespace(s[j - 1]) {
        SkipBackwardToLower(s, j - 1);
      }
    }
  }

  lemma ToLowerSlice(s: string, i: nat, j: nat)
    requires i <= j <= |s|
    ensures ToLower(s)[i..j] == ToLower(s[i..j])
  {
  }

  /** Trimming and lower-casing commute, so the order in which two setters apply them is irrelevant. */
  lemma TrimToLowerCommute(s: string)
    ensures Trim(ToLower(s)) == ToLower(Trim(s))
  {
    SkipForwardToLower(s, 0);
    SkipBackwardToLower(s, |s|);
    var i, j := SkipForward(s, 0), SkipBackward(s, |s|);
    if i < j {
      ToLowerSlice(s, i, j);
    }
  }

  /** `String.prototype.length`: UTF-16 code units, two for a character outside the Basic
      Multilingual Plane. */
  function Utf16Length(s: string): (n: nat)
    ensures |s| <= n <= 2 * |s|
    ensures (forall i | 0 <= i < |s| :: s[i] as int <= 0xFFFF) ==> n == |s|
  {
    if s == "" then 0 else (if s[0] as int > 0xFFFF then 2 else 1) + Utf16Length(s[1..])
  }

  predicate IsDigit(c: char) {
    '0' <= c <= '9'
  }

  predicate AllDigits(s: string) {
    forall i | 0 <= i < |s| :: IsDigit(s[i])
  }

  /** Decimal digits with at most one point and at least one digit after it, the pattern
      `([0-9]*[.])?[0-9]+`, which is also `(\d+)?\.?\d+`. */
  predicate UnsignedNumeral(b: string) {
    || (b != "" && AllDigits(b))
    || exists d | 0 <= d < |b| :: b[d] == '.' && d + 1 < |b| && AllDigits(b[..d]) && AllDigits(b[d + 1..])
  }

  function DigitChar(d: nat): (c: char)
    requires d < 10
    ensures IsDigit(c)
  {
    ('0' as int + d) as char
  }

  function DigitValue(c: char): (d: nat)
    requires IsDigit(c)
    ensures d < 10 && DigitChar(d) == c
  {
    c as int - '0' as int
  }

  /** The decimal text of a non-negative integer, as `Number.prototype.toString` writes it. */
  function DecimalString(n: nat): (s: string)
    ensures s != "" && AllDigits(s)
    ensures s[0] == '0' <==> n == 0
  {
    if n < 10 then [DigitChar(n)] else DecimalString(n / 10) + [DigitChar(n % 10)]
  }

  /** The integer a string of decimal digits denotes. */
  function DecimalValue(s: string): (n: nat)
    requires AllDigits(s)
  {
    if s == "" then 0 else DecimalValue(s[..|s| - 1]) * 10 + DigitValue(s[|s| - 1])
  }

  lemma {:induction false} DecimalRoundTrip(n: nat)
    ensures DecimalValue(DecimalString(n)) == n
  {
    if n >= 10 {
      var s := DecimalString(n);
      assert s[..|s| - 1] == DecimalString(n / 10);
      DecimalRoundTrip(n / 10);
    }
  }

  function Pow10(k: nat): (p: nat)
    ensures p >= 1
  {
    if k == 0 then 1 else 10 * Pow10(k - 1)
  }

  /** A number with k + 1 decimal digits is written with exactly k + 1 characters. */
  lemma {:induction false} DecimalLength(n: nat, k: nat)
    requires Pow10(k) <= n < Pow10(k + 1)
    ensures |DecimalString(n)| == k + 1
  {
    if k > 0 {
      assert Pow10(k - 1) <= n / 10 < Pow10(k);
      DecimalLength(n / 10, k - 1);
    }
  }
}
