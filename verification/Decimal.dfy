/** Decimal numerals, as the hash ring and the schedule store put them into strings. */
module Decimal {

  predicate IsDigit(c: char) { '0' <= c <= '9' }

  function Digit(d: nat): (c: char)
    requires d < 10
    ensures IsDigit(c) && c as int == '0' as int + d
  {
    ['0', '1', '2', '3', '4', '5', '6', '7', '8', '9'][d]
  }

  /** `strconv.Itoa`, and `%d`, of a natural number. */
  function Itoa(n: nat): (s: string)
    ensures s != [] && forall i :: 0 <= i < |s| ==> IsDigit(s[i])
  {
    if n < 10 then [Digit(n)] else Itoa(n / 10) + [Digit(n % 10)]
  }

  /** The number that a string of digits denotes in base ten. */
  function Value(s: string): int {
    if s == [] then 0 else 10 * Value(s[..|s| - 1]) + (s[|s| - 1] as int - '0' as int)
  }

  /** `Itoa` writes the one numeral without a leading zero that denotes its argument. */
  lemma {:induction false} ItoaDenotes(n: nat)
    ensures Value(Itoa(n)) == n
    ensures n > 0 ==> Itoa(n)[0] != '0'
  {
    if n >= 10 {
      ItoaDenotes(n / 10);
      assert Itoa(n)[..|Itoa(n)| - 1] == Itoa(n / 10);
    }
  }

  lemma ItoaInjective(a: nat, b: nat)
    requires Itoa(a) == Itoa(b)
    ensures a == b
  {
    ItoaDenotes(a);
    ItoaDenotes(b);
  }

  /** A numeral after a dash can be split off again, because digits are not dashes. */
  lemma DashedNumeralInjective(p: string, a: nat, q: string, b: nat)
    requires p + "-" + Itoa(a) == q + "-" + Itoa(b)
    ensures p == q && a == b
  {
    var s, t := p + "-" + Itoa(a), q + "-" + Itoa(b);
    assert s[|p|] == '-' && t[|q|] == '-';
    assert forall i :: |p| < i < |s| ==> s[i] == Itoa(a)[i - |p| - 1];
    assert forall i :: |q| < i < |t| ==> t[i] == Itoa(b)[i - |q| - 1];
    assert |p| == |q|;
    assert p == s[..|p|] && q == t[..|q|];
    assert Itoa(a) == s[|p| + 1..] && Itoa(b) == t[|q| + 1..];
    ItoaInjective(a, b);
  }
}
