/** An energy inventory in millionths of its unit, and the decimal it crosses the contract as
    (backend/internal/fleet/amount.go). */
module Amounts {
  import opened Wrappers
  import opened Digits
  import Billing

  const AMOUNT_SCALE: int := 1_000_000
  const FRACTION_WIDTH: nat := 6

  function TrimmedRight(text: string): (trimmed: string)
    ensures |trimmed| <= |text| && text == trimmed + Zeros(|text| - |trimmed|)
    ensures trimmed != [] ==> trimmed[|trimmed| - 1] != '0'
  {
    if text == [] || text[|text| - 1] != '0' then text
    else
      var trimmed := TrimmedRight(text[..|text| - 1]);
      assert text == (trimmed + Zeros(|text| - 1 - |trimmed|)) + ['0'];
      assert Zeros(|text| - 1 - |trimmed|) + ['0'] == Zeros(|text| - |trimmed|);
      trimmed
  }

  function PaddedLeft(text: string): string
    requires |text| <= FRACTION_WIDTH
  {
    Zeros(FRACTION_WIDTH - |text|) + text
  }

  function PaddedRight(text: string): string
    requires |text| <= FRACTION_WIDTH
  {
    text + Zeros(FRACTION_WIDTH - |text|)
  }

  /** Six digits of a fraction. */
  function FractionDigits(fraction: nat): string
    requires fraction < AMOUNT_SCALE
  {
    SixDigits(fraction);
    PaddedLeft(Printed(fraction))
  }

  lemma {:induction false} SixDigits(fraction: nat)
    requires fraction < AMOUNT_SCALE
    ensures |Printed(fraction)| <= FRACTION_WIDTH
    ensures Power(6) == AMOUNT_SCALE
  {
    assert Power(6) == 10 * Power(5) == 100 * Power(4) == 1_000 * Power(3) == 10_000 * Power(2);
    PrintedIsShort(fraction, 6);
  }

  /** Canonical, at most six fractional digits, and never a trailing fractional zero. */
  function Decimal(amount: int): string
    requires 0 <= amount <= Billing.MAX_INT64
  {
    var whole, fraction := Printed(amount / AMOUNT_SCALE), amount % AMOUNT_SCALE;
    if fraction == 0 then whole else whole + "." + TrimmedRight(FractionDigits(fraction))
  }

  /** The text before the first separator, the text after it, and whether there is one. */
  function Cut(text: string): (r: (string, string, bool))
    ensures r.2 ==> text == r.0 + "." + r.1
    ensures !r.2 ==> r.0 == text && r.1 == [] && '.' !in text
    ensures '.' !in r.0
  {
    if text == [] then ([], [], false)
    else if text[0] == '.' then
      assert text == [] + "." + text[1..];
      ([], text[1..], true)
    else
      var (before, after, split) := Cut(text[1..]);
      assert text == [text[0]] + text[1..];
      ([text[0]] + before, after, split)
  }

  predicate WellFormed(text: string) {
    var (whole, fraction, split) := Cut(text);
    && whole != [] && AllDigits(whole)
    && (split ==> fraction != [] && |fraction| <= 6 && AllDigits(fraction))
  }

  function ParseInt(digits: string): Option<int>
    requires AllDigits(digits)
  {
    if ValueOf(digits) > Billing.MAX_INT64 then None else Some(ValueOf(digits))
  }

  function ParseAmount(text: string): Option<int> {
    var (whole, fraction, split) := Cut(text);
    if !WellFormed(text) || ParseInt(whole).None? then None
    else
      var units := ParseInt(whole).value;
      var padded := ParseInt(PaddedRight(fraction));
      if padded.None? then None
      else if units > (Billing.MAX_INT64 - padded.value) / AMOUNT_SCALE then None
      else Some(units * AMOUNT_SCALE + padded.value)
  }

  /** What a well-formed decimal states: its digits, read with the separator moved six places to the right. */
  function Millionths(text: string): nat
    requires WellFormed(text)
  {
    var (whole, fraction, _) := Cut(text);
    ValueOf(whole + fraction) * Power(6 - |fraction|)
  }

  lemma {:induction false} MillionthsArePadded(text: string)
    requires WellFormed(text)
    ensures var (whole, fraction, _) := Cut(text);
            AllDigits(whole + PaddedRight(fraction)) && Millionths(text) == ValueOf(whole + PaddedRight(fraction))
  {
    var (whole, fraction, _) := Cut(text);
    var zeros := Zeros(6 - |fraction|);
    JoinedDigits(whole + fraction, zeros);
    ZerosAreNothing(6 - |fraction|);
    assert whole + PaddedRight(fraction) == (whole + fraction) + zeros;
  }

  /** A decimal is accepted exactly when it is well formed and what it states fits the signed 64-bit range, and
      is then read as exactly that. */
  lemma {:induction false} ParseAmountIsExact(text: string)
    ensures ParseAmount(text).Some? <==> WellFormed(text) && Millionths(text) <= 0x7fff_ffff_ffff_ffff
    ensures ParseAmount(text).Some? ==> ParseAmount(text).value == Millionths(text)
  {
    if WellFormed(text) {
      MillionthsArePadded(text);
      var (whole, fraction, _) := Cut(text);
      var padded := PaddedRight(fraction);
      JoinedDigits(whole, padded);
      ValueIsBelow(padded);
      SixDigits(0);
      RangeIsChecked(ValueOf(whole), ValueOf(padded));
    }
  }

  lemma {:induction false} RangeIsChecked(units: nat, fraction: nat)
    requires fraction < AMOUNT_SCALE
    ensures units > (Billing.MAX_INT64 - fraction) / AMOUNT_SCALE <==>
            units * AMOUNT_SCALE + fraction > Billing.MAX_INT64
  {
  }

  lemma {:induction false} CutAtTheFirst(before: string, after: string)
    requires '.' !in before
    ensures Cut(before + "." + after) == (before, after, true)
    decreases |before|
  {
    var text := before + "." + after;
    if before == [] {
      assert text == "." + after && text[1..] == after;
    } else {
      CutAtTheFirst(before[1..], after);
      assert text[1..] == before[1..] + "." + after;
      assert before == [before[0]] + before[1..];
    }
  }

  lemma {:induction false} CutNowhere(text: string)
    requires '.' !in text
    ensures Cut(text) == (text, [], false)
  {
    if text != [] {
      CutNowhere(text[1..]);
      assert text == [text[0]] + text[1..];
    }
  }

  /** What a decimal of an amount is cut into. */
  lemma {:induction false} DecimalIsCut(amount: int)
    requires 0 <= amount <= Billing.MAX_INT64
    ensures var (whole, fraction, split) := Cut(Decimal(amount));
            && whole == Printed(amount / AMOUNT_SCALE)
            && (split <==> amount % AMOUNT_SCALE != 0)
            && fraction == (if split then TrimmedRight(FractionDigits(amount % AMOUNT_SCALE)) else [])
  {
    var whole := Printed(amount / AMOUNT_SCALE);
    assert forall i :: 0 <= i < |whole| ==> whole[i] != '.';
    if amount % AMOUNT_SCALE == 0 {
      CutNowhere(whole);
    } else {
      CutAtTheFirst(whole, TrimmedRight(FractionDigits(amount % AMOUNT_SCALE)));
    }
  }

  lemma {:induction false} FractionDigitsAreRead(fraction: nat)
    requires 0 < fraction < AMOUNT_SCALE
    ensures |FractionDigits(fraction)| == FRACTION_WIDTH
    ensures AllDigits(FractionDigits(fraction)) && ValueOf(FractionDigits(fraction)) == fraction
  {
    SixDigits(fraction);
    JoinedDigits(Zeros(FRACTION_WIDTH - |Printed(fraction)|), Printed(fraction));
    ZerosAreNothing(FRACTION_WIDTH - |Printed(fraction)|);
    PrintedIsRead(fraction);
  }

  /** The six digits of a fraction state it, and are given back by padding what trimming left. */
  lemma {:induction false} FractionIsRead(fraction: nat)
    requires 0 < fraction < AMOUNT_SCALE
    ensures var trimmed := TrimmedRight(FractionDigits(fraction));
            && trimmed != [] && |trimmed| <= FRACTION_WIDTH && AllDigits(trimmed)
            && PaddedRight(trimmed) == FractionDigits(fraction)
            && AllDigits(FractionDigits(fraction)) && ValueOf(FractionDigits(fraction)) == fraction
  {
    var digits := FractionDigits(fraction);
    FractionDigitsAreRead(fraction);
    var trimmed := TrimmedRight(digits);
    forall i | 0 <= i < |trimmed|
      ensures IsDigit(trimmed[i])
    {
      assert trimmed[i] == digits[i];
    }
    if trimmed == [] {
      assert digits == Zeros(FRACTION_WIDTH);
      ZerosAreNothing(FRACTION_WIDTH);
    }
  }

  /** The whole part and six digits of a fraction, read as one number. */
  lemma {:induction false} JoinedAmount(whole: nat, six: string)
    requires AllDigits(six) && |six| == FRACTION_WIDTH
    ensures AllDigits(Printed(whole) + six)
    ensures ValueOf(Printed(whole) + six) == whole * AMOUNT_SCALE + ValueOf(six)
  {
    PrintedIsRead(whole);
    JoinedDigits(Printed(whole), six);
    SixDigits(0);
  }

  /** What a decimal states is the amount it was printed from. */
  lemma {:induction false} DecimalStatesTheAmount(amount: int)
    requires 0 <= amount <= 0x7fff_ffff_ffff_ffff
    ensures WellFormed(Decimal(amount)) && Millionths(Decimal(amount)) == amount
  {
    DecimalIsCut(amount);
    var fraction := amount % AMOUNT_SCALE;
    if fraction != 0 {
      FractionIsRead(fraction);
      JoinedAmount(amount / AMOUNT_SCALE, FractionDigits(fraction));
    } else {
      assert PaddedRight([]) == Zeros(FRACTION_WIDTH);
      ZerosAreNothing(FRACTION_WIDTH);
      JoinedAmount(amount / AMOUNT_SCALE, Zeros(FRACTION_WIDTH));
    }
    MillionthsArePadded(Decimal(amount));
  }

  /** Every amount reads back from the decimal it is printed as. */
  lemma {:induction false} AmountRoundTrip(amount: int)
    requires 0 <= amount <= 0x7fff_ffff_ffff_ffff
    ensures ParseAmount(Decimal(amount)) == Some(amount)
  {
    DecimalStatesTheAmount(amount);
    ParseAmountIsExact(Decimal(amount));
  }

  /** A decimal with a fraction ends in a digit that is not zero; one without has no separator. */
  lemma {:induction false} DecimalNeverTrails(amount: int)
    requires 0 <= amount <= Billing.MAX_INT64
    ensures var text := Decimal(amount);
            && text != []
            && ('.' in text <==> amount % 1_000_000 != 0)
            && ('.' in text ==> IsDigit(text[|text| - 1]) && text[|text| - 1] != '0')
  {
    DecimalIsCut(amount);
    var text := Decimal(amount);
    if amount % AMOUNT_SCALE != 0 {
      FractionIsRead(amount % AMOUNT_SCALE);
      assert text[|Printed(amount / AMOUNT_SCALE)|] == '.';
    }
  }
}
