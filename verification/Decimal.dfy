/** Decimal numerals. */
module Decimal {

  predicate Digit(c: char) { '0' <= c <= '9' }

  predicate IsNatText(s: string) { s != "" && forall i :: 0 <= i < |s| ==> Digit(s[i]) }

  function NatText(n: nat): (s: string)
    ensures IsNatText(s)
  {
    if n < 10 then ['0' + n as char] else NatText(n / 10) + ['0' + (n % 10) as char]
  }

  function IntText(i: int): string { if i < 0 then "-" + NatText(-i) else NatText(i) }

  function NatValue(s: string): nat
    requires forall i :: 0 <= i < |s| ==> Digit(s[i])
  {
    if s == "" then 0
    else
      assert Digit(s[|s| - 1]);
      NatValue(s[..|s| - 1]) * 10 + (s[|s| - 1] - '0') as nat
  }

  predicate IsIntText(s: string) { IsNatText(s) || (s != "" && s[0] == '-' && IsNatText(s[1..])) }

  function IntValue(s: string): int
    requires IsIntText(s)
  {
    if IsNatText(s) then NatValue(s) else -(NatValue(s[1..]) as int)
  }

  lemma {:induction false} NatRoundTrip(n: nat)
    ensures NatValue(NatText(n)) == n
  {
    if n < 10 {
      assert NatText(n)[..0] == "";
    } else {
      NatRoundTrip(n / 10);
      assert NatText(n)[..|NatText(n)| - 1] == NatText(n / 10);
    }
  }

  lemma IntRoundTrip(i: int)
    ensures IsIntText(IntText(i)) && IntValue(IntText(i)) == i
  {
    if i < 0 {
      NatRoundTrip(-i);
      assert IntText(i)[1..] == NatText(-i);
      assert !Digit(IntText(i)[0]);
    } else {
      NatRoundTrip(i);
    }
  }
}
