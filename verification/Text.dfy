/** Decimal numbers in names, as Go prints them. */
module Text {

  predicate IsDigit(c: char) { '0' <= c <= '9' }

  predicate AllDigits(s: string) { forall i :: 0 <= i < |s| ==> IsDigit(s[i]) }

  function ParseDec(s: string): nat {
    if s == "" then 0
    else 10 * ParseDec(s[..|s| - 1]) + (if IsDigit(s[|s| - 1]) then (s[|s| - 1] as nat) - ('0' as nat) else 0)
  }

  function Decimal(n: nat): string {
    (if n < 10 then "" else Decimal(n / 10)) + ["0123456789"[n % 10]]
  }

  lemma {:induction false} DecimalDigits(n: nat)
    ensures |Decimal(n)| > 0 && forall i :: 0 <= i < |Decimal(n)| ==> IsDigit(Decimal(n)[i])
  {
    if n >= 10 { DecimalDigits(n / 10); }
  }

  lemma DigitChar(d: nat)
    requires d < 10
    ensures IsDigit("0123456789"[d]) && ("0123456789"[d] as nat) - ('0' as nat) == d
  {
    assert d == 0 || d == 1 || d == 2 || d == 3 || d == 4 || d == 5 || d == 6 || d == 7 || d == 8 || d == 9;
  }

  lemma {:induction false} ParseDecimal(n: nat)
    ensures ParseDec(Decimal(n)) == n
  {
    var d := "0123456789"[n % 10];
    var t := if n < 10 then "" else Decimal(n / 10);
    DigitChar(n % 10);
    if n >= 10 { ParseDecimal(n / 10); }
    assert Decimal(n) == t + [d] && (t + [d])[..|t|] == t;
  }

  /** A printed number determines the number. */
  lemma DecimalInjective(m: nat, n: nat)
    requires Decimal(m) == Decimal(n)
    ensures m == n
  {
    ParseDecimal(m);
    ParseDecimal(n);
  }
}
