/**
 Decimal text of integers, as std::to_string writes it and std::stoi and
 property_get_int32 read it back.
 */
module Decimal {

  function DigitChar(d: nat): char
    requires d < 10
  {
    '0' + d as char
  }

  predicate IsDigit(c: char) {
    '0' <= c <= '9'
  }

  function NatText(n: nat): string {
    if n < 10 then [DigitChar(n)] else NatText(n / 10) + [DigitChar(n % 10)]
  }

  function Text(n: int): string {
    if n < 0 then "-" + NatText(-n) else NatText(n)
  }

  function NatValue(s: string): nat
    requires forall i :: 0 <= i < |s| ==> IsDigit(s[i])
  {
    if s == "" then 0
    else
      assert IsDigit(s[|s| - 1]);
      NatValue(s[..|s| - 1]) * 10 + (s[|s| - 1] as int - '0' as int)
  }

  /** The integer a text denotes; 0 when it is none, as property_get_int32 defaults. */
  function Value(s: string): int {
    if s != "" && s[0] == '-' && (forall i :: 1 <= i < |s| ==> IsDigit(s[i])) then 0 - NatValue(s[1..])
    else if forall i :: 0 <= i < |s| ==> IsDigit(s[i]) then NatValue(s)
    else 0
  }

  lemma {:induction false} NatTextDigits(n: nat)
    ensures NatText(n) != "" && forall i :: 0 <= i < |NatText(n)| ==> IsDigit(NatText(n)[i])
    decreases n
  {
    if n >= 10 {
      NatTextDigits(n / 10);
    }
  }

  lemma {:induction false} NatRoundTrip(n: nat)
    ensures forall i :: 0 <= i < |NatText(n)| ==> IsDigit(NatText(n)[i])
    ensures NatValue(NatText(n)) == n
    decreases n
  {
    NatTextDigits(n);
    if n < 10 {
      assert NatText(n)[..0] == "";
    } else {
      NatTextDigits(n / 10);
      NatRoundTrip(n / 10);
      assert NatText(n)[..|NatText(n)| - 1] == NatText(n / 10);
    }
  }

  /** Every integer reads back from its own text, so the text tells integers apart. */
  lemma RoundTrip(n: int)
    ensures Value(Text(n)) == n
  {
    if n < 0 {
      NatRoundTrip(-n);
      assert Text(n)[1..] == NatText(-n);
      assert forall i :: 1 <= i < |Text(n)| ==> Text(n)[i] == NatText(-n)[i - 1];
    } else {
      NatRoundTrip(n);
      NatTextDigits(n);
      assert IsDigit(Text(n)[0]);
    }
  }

  lemma Injective(m: int, n: int)
    requires Text(m) == Text(n)
    ensures m == n
  {
    RoundTrip(m);
    RoundTrip(n);
  }

  /** The text is nonempty and made of digits, after an optional sign. */
  lemma TextShape(n: int)
    ensures Text(n) != ""
    ensures forall i :: 0 <= i < |Text(n)| ==> IsDigit(Text(n)[i]) || Text(n)[i] == '-'
  {
    if n < 0 {
      NatTextDigits(-n);
    } else {
      NatTextDigits(n);
    }
  }
}
