/** The decimal text of a natural number, as the tool writes round numbers and recorded integers. */
module Decimals {

  predicate IsDigit(c: char) { '0' <= c <= '9' }

  function Digits(n: nat): (r: string)
    ensures r != "" && forall i | 0 <= i < |r| :: IsDigit(r[i])
  {
    (if n < 10 then "" else Digits(n / 10)) + [('0' as int + n % 10) as char]
  }

  function ValueOf(s: string): int {
    if s == "" then 0 else ValueOf(s[..|s| - 1]) * 10 + (s[|s| - 1] as int - '0' as int)
  }

  /** The text reads back as the number, so no two numbers share one. */
  lemma {:induction false} DigitsReadBack(n: nat)
    ensures ValueOf(Digits(n)) == n
  {
    var front := if n < 10 then "" else Digits(n / 10);
    assert Digits(n)[..|front|] == front;
    if n >= 10 { DigitsReadBack(n / 10); }
  }

  lemma {:induction false} DigitsLead(n: nat)
    ensures n > 0 ==> Digits(n)[0] != '0'
  {
    if n >= 10 { DigitsLead(n / 10); }
  }

  /** A number as a program prints it: digits without a leading zero, and a minus sign before any but zero. */
  predicate IsNumeral(s: string) {
    if s == "" then false else if s[0] == '-' then IsPlain(s[1..]) && s[1..] != "0" else IsPlain(s)
  }

  predicate IsPlain(s: string) {
    s != "" && (forall i | 0 <= i < |s| :: IsDigit(s[i])) && (s[0] == '0' ==> s == "0")
  }

  /** The number a numeral is read as. */
  function NumberIn(s: string): int
    requires IsNumeral(s)
  {
    if s[0] == '-' then -ValueOf(s[1..]) else ValueOf(s)
  }

  function Decimal(n: int): string { if n < 0 then "-" + Digits(-n) else Digits(n) }

  /** What is printed for a number is a numeral that reads as that number. */
  lemma DecimalReadsBack(n: int)
    ensures IsNumeral(Decimal(n)) && NumberIn(Decimal(n)) == n
  {
    var m: nat := if n < 0 then -n else n;
    DigitsReadBack(m);
    DigitsLead(m);
    if m == 0 { assert Digits(0) == "0"; }
    assert IsPlain(Digits(m));
    if n < 0 {
      assert Decimal(n)[1..] == Digits(m);
      assert Digits(m) != "0" by { assert ValueOf("0"[..0]) == 0; assert ValueOf("0") == 0; }
    } else {
      assert IsDigit(Digits(m)[0]);
    }
  }
}
