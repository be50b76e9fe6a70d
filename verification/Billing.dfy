/** What a ride costs, exactly, in the signed 64-bit range (backend/internal/billing). */
module Billing {
  import opened Wrappers

  const MAX_INT64: int := 0x7fff_ffff_ffff_ffff
  const MIN_INT64: int := -0x8000_0000_0000_0000
  const TWO_TO_64: int := 0x1_0000_0000_0000_0000
  const MICROSECONDS_PER_MINUTE: int := 60_000_000
  const NANOSECONDS_PER_MICROSECOND: int := 1_000

  predicate InInt64(x: int) {
    MIN_INT64 <= x <= MAX_INT64
  }

  /** What the signed 64-bit range keeps of a number. */
  function Wrapped(x: int): (w: int)
    ensures InInt64(w)
    ensures InInt64(x) ==> w == x
  {
    var low := x % TWO_TO_64;
    if low > MAX_INT64 then low - TWO_TO_64 else low
  }

  datatype Refusal =
    | NegativeDuration
    | NegativeMinutes
    | NegativeRate
    | ModeAmountBeyondRange
    | TotalAmountBeyondRange
    | ModeDurationBeyondRange

  /** Whole tyiyn per begun minute of each mode. */
  datatype Rates = Rates(driving: int, paused: int)

  datatype Charge = Charge(
    rates: Rates,
    drivingDuration: int, pausedDuration: int,
    drivingMinutes: int, pausedMinutes: int,
    drivingAmount: int, pausedAmount: int,
    total: int)

  /** The minutes a duration of nanoseconds has begun: the fewest that cover its whole microseconds. */
  function StartedMinutes(duration: int): (r: Result<int, Refusal>)
    ensures r.Err? <==> duration < 0
    ensures r.Ok? ==>
              (r.value - 1) * 60_000_000 < duration / 1_000 <= r.value * 60_000_000
    ensures r.Ok? && InInt64(duration) ==> 0 <= r.value <= 0x7fff_ffff_ffff_ffff
  {
    if duration < 0 then Err(NegativeDuration)
    else
      var microseconds := duration / NANOSECONDS_PER_MICROSECOND;
      var minutes := microseconds / MICROSECONDS_PER_MINUTE;
      Ok(if microseconds % MICROSECONDS_PER_MINUTE != 0 then minutes + 1 else minutes)
  }

  /** The product of two 64-bit numbers as its high and low words give it, and whether it left the range. */
  function Times(left: int, right: int): (int, bool) {
    if left < 0 || right < 0 then (0, true)
    else
      var high, low := (left * right) / TWO_TO_64, (left * right) % TWO_TO_64;
      (Wrapped(low), high != 0 || low > MAX_INT64)
  }

  function Plus(left: int, right: int): (int, bool) {
    if left < 0 || right < 0 then (0, true)
    else if left > MAX_INT64 - right then (0, true)
    else (left + right, false)
  }

  function PricedAt(rate: int, minutes: int): Result<int, Refusal> {
    if rate < 0 then Err(NegativeRate)
    else if minutes < 0 then Err(NegativeMinutes)
    else if Times(rate, minutes).1 then Err(ModeAmountBeyondRange)
    else Ok(Times(rate, minutes).0)
  }

  function Add(left: int, right: int): Result<int, Refusal> {
    if Plus(left, right).1 then Err(TotalAmountBeyondRange) else Ok(Plus(left, right).0)
  }

  function Compute(rates: Rates, driving: int, paused: int): Result<Charge, Refusal> {
    var drivingMinutes :- StartedMinutes(driving);
    var pausedMinutes :- StartedMinutes(paused);
    var drivingAmount :- PricedAt(rates.driving, drivingMinutes);
    var pausedAmount :- PricedAt(rates.paused, pausedMinutes);
    var total :- Add(drivingAmount, pausedAmount);
    Ok(Charge(rates, driving, paused, drivingMinutes, pausedMinutes, drivingAmount, pausedAmount, total))
  }

  /** The counts of two modes added, refused when the sum wrapped below its first summand. */
  function SumMicroseconds(left: int, right: int): Result<int, Refusal> {
    if left < 0 || right < 0 then Err(NegativeDuration)
    else
      var total := Wrapped(left + right);
      if total < left then Err(ModeDurationBeyondRange) else Ok(total)
  }

  /** A product is reported to leave the range exactly when it does, and is the product otherwise. */
  lemma {:induction false} TimesIsExact(left: int, right: int)
    requires left >= 0 && right >= 0
    ensures Times(left, right).1 <==> left * right > 0x7fff_ffff_ffff_ffff
    ensures !Times(left, right).1 ==> Times(left, right).0 == left * right
  {
    HighWordIsZeroBelow(left * right);
  }

  lemma {:induction false} HighWordIsZeroBelow(x: int)
    requires x >= 0
    ensures x < TWO_TO_64 ==> x / TWO_TO_64 == 0 && x % TWO_TO_64 == x
    ensures x >= TWO_TO_64 ==> x / TWO_TO_64 != 0
  {
  }

  lemma {:induction false} SumMicrosecondsIsExact(left: int, right: int)
    requires InInt64(left) && InInt64(right)
    ensures SumMicroseconds(left, right).Ok? <==> left >= 0 && right >= 0 && left + right <= 0x7fff_ffff_ffff_ffff
    ensures SumMicroseconds(left, right).Ok? ==> SumMicroseconds(left, right).value == left + right
  {
    if left >= 0 && right >= 0 && left + right > MAX_INT64 {
      assert left + right < TWO_TO_64;
      HighWordIsZeroBelow(left + right);
    }
  }

  predicate Priceable(rates: Rates, driving: int, paused: int) {
    && driving >= 0 && paused >= 0 && rates.driving >= 0 && rates.paused >= 0
    && rates.driving * StartedMinutes(driving).value <= 0x7fff_ffff_ffff_ffff
    && rates.paused * StartedMinutes(paused).value <= 0x7fff_ffff_ffff_ffff
    && rates.driving * StartedMinutes(driving).value + rates.paused * StartedMinutes(paused).value
       <= 0x7fff_ffff_ffff_ffff
  }

  /** A charge is computed exactly when its durations and rates are not negative and the exact amounts fit
      the signed 64-bit range, and it is then those amounts. */
  lemma {:induction false} ComputeIsExact(rates: Rates, driving: int, paused: int)
    requires InInt64(driving) && InInt64(paused)
    ensures Compute(rates, driving, paused).Ok? <==> Priceable(rates, driving, paused)
    ensures Compute(rates, driving, paused).Ok? ==>
              var charge := Compute(rates, driving, paused).value;
              && charge.rates == rates && charge.drivingDuration == driving && charge.pausedDuration == paused
              && StartedMinutes(driving) == Ok(charge.drivingMinutes)
              && StartedMinutes(paused) == Ok(charge.pausedMinutes)
              && charge.drivingAmount == rates.driving * charge.drivingMinutes
              && charge.pausedAmount == rates.paused * charge.pausedMinutes
              && charge.total == charge.drivingAmount + charge.pausedAmount
              && 0 <= charge.total <= 0x7fff_ffff_ffff_ffff
  {
    if driving >= 0 && paused >= 0 && rates.driving >= 0 && rates.paused >= 0 {
      var d, p := StartedMinutes(driving).value, StartedMinutes(paused).value;
      TimesIsExact(rates.driving, d);
      TimesIsExact(rates.paused, p);
      assert rates.driving * d >= 0 && rates.paused * p >= 0;
    }
  }

  // ---------- rounding once against rounding every interval ----------

  function Sum(durations: seq<nat>): nat {
    if durations == [] then 0 else durations[0] + Sum(durations[1..])
  }

  function SumStarted(durations: seq<nat>): nat {
    if durations == [] then 0 else StartedMinutes(durations[0]).value + SumStarted(durations[1..])
  }

  predicate WholeMicroseconds(durations: seq<nat>) {
    forall i :: 0 <= i < |durations| ==> durations[i] % NANOSECONDS_PER_MICROSECOND == 0
  }

  /** Rounding the sum of a mode once never bills more than rounding every interval, and less by fewer
      minutes than there are intervals. */
  lemma {:induction false} RoundingOnceIsNeverDearer(durations: seq<nat>)
    requires durations != [] && WholeMicroseconds(durations)
    ensures StartedMinutes(Sum(durations)).value <= SumStarted(durations)
    ensures SumStarted(durations) <= StartedMinutes(Sum(durations)).value + |durations| - 1
  {
    if |durations| == 1 {
      assert durations[1..] == [];
    } else {
      RoundingOnceIsNeverDearer(durations[1..]);
      WholeSum(durations[1..]);
      RoundingTwo(durations[0], Sum(durations[1..]));
    }
  }

  lemma {:induction false} WholeSum(durations: seq<nat>)
    requires WholeMicroseconds(durations)
    ensures Sum(durations) % NANOSECONDS_PER_MICROSECOND == 0
  {
    if durations != [] {
      WholeSum(durations[1..]);
    }
  }

  lemma {:induction false} RoundingTwo(a: nat, b: nat)
    requires a % NANOSECONDS_PER_MICROSECOND == 0 && b % NANOSECONDS_PER_MICROSECOND == 0
    ensures StartedMinutes(a + b).value <= StartedMinutes(a).value + StartedMinutes(b).value
            <= StartedMinutes(a + b).value + 1
  {
    assert (a + b) / NANOSECONDS_PER_MICROSECOND == a / NANOSECONDS_PER_MICROSECOND + b / NANOSECONDS_PER_MICROSECOND;
  }
}
