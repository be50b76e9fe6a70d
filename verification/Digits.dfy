/** Decimal digits of a natural number, as the runtime prints and reads them. */
module Digits {

  predicate IsDigit(c: char) {
    '0' <= c <= '9'
  }

  predicate AllDigits(text: string) {
    forall i :: 0 <= i < |text| ==> IsDigit(text[i])
  }

  function DigitOf(n: nat): (c: char)
    requires n < 10
    ensures IsDigit(c)
  {
    '0' + n as char
  }

  function Printed(n: nat): (text: string)
    ensures text != [] && AllDigits(text)
  {
    if n < 10 then [DigitOf(n)] else Printed(n / 10) + [DigitOf(n % 10)]
  }

  function ValueOf(text: string): nat
    requires AllDigits(text)
  {
    if text == [] then 0 else 10 * ValueOf(text[..|text| - 1]) + (text[|text| - 1] - '0') as nat
  }

  lemma {:induction false} PrintedIsRead(n: nat)
    ensures ValueOf(Printed(n)) == n
  {
    if n >= 10 {
      PrintedIsRead(n / 10);
      assert Printed(n)[..|Printed(n)| - 1] == Printed(n / 10);
    } else {
      assert [DigitOf(n)][..0] == [];
    }
  }

  function Power(k: nat): (p: nat)
    ensures p > 0
  {
    if k == 0 then 1 else 10 * Power(k - 1)
  }

  lemma {:induction false} JoinedDigits(a: string, b: string)
    requires AllDigits(a) && AllDigits(b)
    ensures AllDigits(a + b) && ValueOf(a + b) == ValueOf(a) * Power(|b|) + ValueOf(b)
    decreases |b|
  {
    if b == [] {
      assert a + b == a;
    } else {
      var front := b[..|b| - 1];
      JoinedDigits(a, front);
      assert (a + b)[..|a + b| - 1] == a + front;
      assert ValueOf(a) * Power(|b|) == 10 * (ValueOf(a) * Power(|front|));
    }
  }

  lemma {:induction false} ValueIsBelow(text: string)
    requires AllDigits(text)
    ensures ValueOf(text) < Power(|text|)
    decreases |text|
  {
    if text != [] {
      ValueIsBelow(text[..|text| - 1]);
    }
  }

  function Zeros(k: nat): (text: string)
    ensures |text| == k && AllDigits(text) && forall i :: 0 <= i < k ==> text[i] == '0'
  {
    seq(k, i => '0')
  }

  lemma {:induction false} ZerosAreNothing(k: nat)
    ensures ValueOf(Zeros(k)) == 0
  {
    if k > 0 {
      ZerosAreNothing(k - 1);
      assert Zeros(k)[..k - 1] == Zeros(k - 1);
    }
  }

  /** A number of at most k digits is printed in at most k. */
  lemma {:induction false} PrintedIsShort(n: nat, k: nat)
    requires k > 0 && n < Power(k)
    ensures |Printed(n)| <= k
    decreases n
  {
    if n >= 10 && k > 1 {
      PrintedIsShort(n / 10, k - 1);
    }
  }
}
