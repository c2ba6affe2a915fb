/** Decimal numerals, as `String(n)` prints them and `Number` reads them. */
module Decimal {

  function DigitChar(d: nat): char
    requires d < 10
  {
    "0123456789"[d]
  }

  predicate IsDigit(c: char) {
    '0' <= c <= '9'
  }

  function DigitValue(c: char): nat
    requires IsDigit(c)
  {
    c as int - '0' as int
  }

  /** `\d+` */
  predicate IsNumeral(s: string) {
    s != [] && forall c :: c in s ==> IsDigit(c)
  }

  function Print(n: nat): string {
    if n < 10 then [DigitChar(n)] else Print(n / 10) + [DigitChar(n % 10)]
  }

  function Read(s: string): nat
    requires forall c :: c in s ==> IsDigit(c)
  {
    if s == [] then 0 else 10 * Read(s[..|s| - 1]) + DigitValue(s[|s| - 1])
  }

  lemma {:induction false} ReadPrint(n: nat)
    ensures IsNumeral(Print(n)) && Read(Print(n)) == n
  {
    if n < 10 {
      assert [DigitChar(n)][..0] == [];
      assert DigitValue(DigitChar(n)) == n;
    } else {
      ReadPrint(n / 10);
      assert Print(n)[..|Print(n)| - 1] == Print(n / 10);
      assert DigitValue(DigitChar(n % 10)) == n % 10;
    }
  }

  /** A negative number prints with a minus sign. */
  function PrintInt(n: int): string {
    if n < 0 then "-" + Print(-n) else Print(n)
  }

  lemma {:induction false} PrintIntInjective(m: int, n: int)
    requires PrintInt(m) == PrintInt(n)
    ensures m == n
  {
    ReadPrint(if m < 0 then -m else m);
    ReadPrint(if n < 0 then -n else n);
    assert m < 0 ==> PrintInt(m)[0] == '-' && PrintInt(m)[1..] == Print(-m);
    assert n < 0 ==> PrintInt(n)[0] == '-' && PrintInt(n)[1..] == Print(-n);
    assert m >= 0 ==> PrintInt(m)[0] in Print(m);
    assert n >= 0 ==> PrintInt(n)[0] in Print(n);
  }
}
