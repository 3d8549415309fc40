/** Natural numbers and their decimal texts, as BigInt reads and prints them. */
module Decimal {

  predicate IsDigit(c: char) {
    '0' <= c <= '9'
  }

  predicate AllDigits(s: string) {
    forall i | 0 <= i < |s| :: IsDigit(s[i])
  }

  function DigitChar(d: nat): (c: char)
    requires d < 10
    ensures IsDigit(c)
  {
    '0' + d as char
  }

  function DigitValue(c: char): (d: nat)
    requires IsDigit(c)
    ensures d < 10 && DigitChar(d) == c
  {
    (c - '0') as nat
  }

  function ToText(n: nat): (s: string)
    ensures s != "" && AllDigits(s)
  {
    if n < 10 then [DigitChar(n)] else ToText(n / 10) + [DigitChar(n % 10)]
  }

  function Value(s: string): nat
    requires AllDigits(s)
  {
    if s == "" then 0 else 10 * Value(s[..|s| - 1]) + DigitValue(s[|s| - 1])
  }

  lemma ValueAppend(s: string, c: char)
    requires AllDigits(s) && IsDigit(c)
    ensures AllDigits(s + [c]) && Value(s + [c]) == 10 * Value(s) + DigitValue(c)
  {
    assert (s + [c])[..|s|] == s;
  }

  /** Printing and reading back gives the number. */
  lemma {:induction false} TextRoundTrip(n: nat)
    ensures Value(ToText(n)) == n
  {
    if n < 10 {
      ValueAppend("", DigitChar(n));
      assert "" + [DigitChar(n)] == ToText(n);
    } else {
      TextRoundTrip(n / 10);
      ValueAppend(ToText(n / 10), DigitChar(n % 10));
    }
  }

  predicate NoLeadingZero(s: string) {
    |s| == 1 || (|s| > 1 && s[0] != '0')
  }

  lemma {:induction false} ToTextHasNoLeadingZero(n: nat)
    ensures NoLeadingZero(ToText(n))
    ensures n > 0 ==> ToText(n)[0] != '0'
  {
    if n >= 10 {
      ToTextHasNoLeadingZero(n / 10);
    }
  }

  /** A digit text without leading zeros is the text of its value. */
  lemma {:induction false} ValueRoundTrip(s: string)
    requires AllDigits(s) && NoLeadingZero(s)
    ensures ToText(Value(s)) == s
    ensures |s| > 1 ==> Value(s) >= 10
    decreases |s|
  {
    var init, last := s[..|s| - 1], s[|s| - 1];
    assert s == init + [last];
    ValueAppend(init, last);
    if |s| == 1 {
      assert init == "" && ToText(Value(s)) == [last];
    } else {
      if |init| == 1 {
        ValueAppend("", init[0]);
        assert "" + [init[0]] == init;
      }
      ValueRoundTrip(init);
      assert Value(s) / 10 == Value(init) && Value(s) % 10 == DigitValue(last);
    }
  }
}
