/** The six-digit one-time code every issuing handler draws:
    `Math.floor(100000 + Math.random() * 900000).toString()`. The draw of `Math.random()` is a
    parameter, a real number in [0, 1); the float arithmetic is taken as exact. */
module CodeGenerator {
  import opened Text

  const CodeMin: int := 100000
  const CodeMax: int := 999999

  /** The integer a draw r of `Math.random()` turns into. */
  function DrawCode(r: real): (n: int)
    requires 0.0 <= r < 1.0
    ensures CodeMin <= n <= CodeMax
  {
    (100000.0 + r * 900000.0).Floor
  }

  /** No six-digit code is out of reach: every one of them is drawn by some r in [0, 1). */
  lemma DrawCodeCoversRange(n: int)
    requires CodeMin <= n <= CodeMax
    ensures var r := (n - CodeMin) as real / 900000.0; 0.0 <= r < 1.0 && DrawCode(r) == n
  {
    var r := (n - CodeMin) as real / 900000.0;
    assert 100000.0 + r * 900000.0 == n as real;
  }

  /** Exactly six decimal digits, the first of them not zero. */
  predicate IsSixDigitCode(s: string) {
    |s| == 6 && AllDigits(s) && s[0] != '0'
  }

  /** The code as the handlers store and mail it. */
  function IssueCode(r: real): (code: string)
    requires 0.0 <= r < 1.0
    ensures IsSixDigitCode(code)
    ensures DecimalValue(code) == DrawCode(r)
  {
    var n := DrawCode(r);
    assert Pow10(5) == 100000 && Pow10(6) == 1000000;
    DecimalLength(n, 5);
    DecimalRoundTrip(n);
    DecimalString(n)
  }

  /** Two draws give the same code exactly when they give the same integer. */
  lemma IssueCodeInjective(r1: real, r2: real)
    requires 0.0 <= r1 < 1.0 && 0.0 <= r2 < 1.0
    ensures IssueCode(r1) == IssueCode(r2) <==> DrawCode(r1) == DrawCode(r2)
  {
  }
}
