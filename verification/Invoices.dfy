/** What a finished ride cost, written down once, and the state of what is owed on it
    (backend/internal/invoices). */
module Invoices {
  import opened Wrappers
  import opened Energy
  import opened Billing

  /** Why a ride ended (backend/internal/completion). */
  datatype Reason = UserFinished | EnergyDepleted

  /** One mode of a ride: durations are counted in whole microseconds. */
  datatype Line = Line(mode: Mode, duration: int, minutes: int, rate: int, amount: int)

  datatype Draft = Draft(
    rental: Option<nat>,
    user: Option<nat>,
    issuedAt: Option<int>,
    reason: Reason,
    exhausted: Option<seq<Kind>>,
    driving: Line,
    paused: Line,
    total: int)

  datatype Fault =
    | NoRental
    | NoUser
    | NoMoment
    | NegativeTotal
    | WrongMode
    | Refused(refusal: Refusal)
    | NegativeAmount
    | AmountIsNotItsProduct
    | TotalIsNotTheSum

  predicate InRange(line: Line) {
    InInt64(line.duration) && InInt64(line.minutes) && InInt64(line.rate) && InInt64(line.amount)
  }

  function DrivingLine(charge: Charge): Line {
    Line(Driving, charge.drivingDuration / NANOSECONDS_PER_MICROSECOND, charge.drivingMinutes,
         charge.rates.driving, charge.drivingAmount)
  }

  function PausedLine(charge: Charge): Line {
    Line(Paused, charge.pausedDuration / NANOSECONDS_PER_MICROSECOND, charge.pausedMinutes,
         charge.rates.paused, charge.pausedAmount)
  }

  function ValidateLine(line: Line): Result<(), Fault> {
    if line.mode != Driving && line.mode != Paused then Err(WrongMode)
    else if line.duration < 0 then Err(Refused(NegativeDuration))
    else if line.minutes < 0 then Err(Refused(NegativeMinutes))
    else if line.rate < 0 then Err(Refused(NegativeRate))
    else if line.amount < 0 then Err(NegativeAmount)
    else
      match PricedAt(line.rate, line.minutes)
      case Err(refusal) => Err(Refused(refusal))
      case Ok(priced) => if priced != line.amount then Err(AmountIsNotItsProduct) else Ok(())
  }

  /** A line that can be one of an invoice: its amount is the exact product of its own rate and minutes. */
  predicate ExactLine(mode: Mode, line: Line) {
    && line.mode == mode
    && line.duration >= 0 && line.minutes >= 0 && line.rate >= 0
    && line.amount == line.rate * line.minutes <= 0x7fff_ffff_ffff_ffff
  }

  lemma {:induction false} LineIsValidWhenExact(line: Line)
    ensures ValidateLine(line).Ok? <==> (line.mode == Driving || line.mode == Paused) && ExactLine(line.mode, line)
  {
    if line.rate >= 0 && line.minutes >= 0 {
      TimesIsExact(line.rate, line.minutes);
    }
  }

  predicate LineOf(mode: Mode, line: Line) {
    line.mode == mode && ValidateLine(line).Ok?
  }

  predicate Acceptable(d: Draft) {
    && d.rental.Some? && d.user.Some? && d.issuedAt.Some?
    && LineOf(Driving, d.driving) && LineOf(Paused, d.paused)
    && d.total == d.driving.amount + d.paused.amount <= MAX_INT64
  }

  /** A draft is acceptable exactly when it names its ride, its account and its moment, each line is the exact
      product of its own rate and minutes and the total is their exact sum. */
  lemma {:induction false} AcceptableIsExact(d: Draft)
    ensures Acceptable(d) <==>
              && d.rental.Some? && d.user.Some? && d.issuedAt.Some?
              && ExactLine(Driving, d.driving) && ExactLine(Paused, d.paused)
              && d.total == d.driving.amount + d.paused.amount <= 0x7fff_ffff_ffff_ffff
  {
    LineIsValidWhenExact(d.driving);
    LineIsValidWhenExact(d.paused);
  }

  /** The total is summed line by line, and a draft is refused at the first rule it breaks. */
  method Validate(d: Draft) returns (r: Result<(), Fault>)
    requires InRange(d.driving) && InRange(d.paused) && InInt64(d.total)
    ensures r.Ok? <==> Acceptable(d)
    ensures d.rental.None? <==> r == Err(NoRental)
    ensures d.rental.Some? && d.user.None? <==> r == Err(NoUser)
    ensures d.rental.Some? && d.user.Some? && d.issuedAt.None? <==> r == Err(NoMoment)
    ensures d.rental.Some? && d.user.Some? && d.issuedAt.Some? && d.total < 0 <==> r == Err(NegativeTotal)
    ensures r == Err(TotalIsNotTheSum) ==>
              && LineOf(Driving, d.driving) && LineOf(Paused, d.paused)
              && d.total != d.driving.amount + d.paused.amount
  {
    if d.rental.None? {
      return Err(NoRental);
    }
    if d.user.None? {
      return Err(NoUser);
    }
    if d.issuedAt.None? {
      return Err(NoMoment);
    }
    if d.total < 0 {
      return Err(NegativeTotal);
    }
    var lines := [(Driving, d.driving), (Paused, d.paused)];
    var total := 0;
    var i := 0;
    while i < |lines|
      invariant 0 <= i <= 2
      invariant i > 0 ==> LineOf(Driving, d.driving)
      invariant i > 1 ==> LineOf(Paused, d.paused)
      invariant total == (if i > 0 then d.driving.amount else 0) + (if i > 1 then d.paused.amount else 0)
      invariant 0 <= total <= MAX_INT64
    {
      var (mode, line) := lines[i];
      if line.mode != mode {
        return Err(WrongMode);
      }
      var fault := ValidateLine(line);
      if fault.Err? {
        return fault;
      }
      if line.amount > MAX_INT64 - total {
        return Err(Refused(TotalAmountBeyondRange));
      }
      total := total + line.amount;
      i := i + 1;
    }
    if total != d.total {
      return Err(TotalIsNotTheSum);
    }
    return Ok(());
  }

  /** Every charge the policy computes is one whose draft is accepted. */
  lemma {:induction false} ChargesAreAcceptable(rates: Rates, driving: int, paused: int, rental: nat, user: nat,
                                                moment: int, reason: Reason, exhausted: Option<seq<Kind>>)
    requires InInt64(driving) && InInt64(paused) && Compute(rates, driving, paused).Ok?
    ensures var charge := Compute(rates, driving, paused).value;
            Acceptable(Draft(Some(rental), Some(user), Some(moment), reason, exhausted,
                             DrivingLine(charge), PausedLine(charge), charge.total))
  {
    ComputeIsExact(rates, driving, paused);
    var charge := Compute(rates, driving, paused).value;
    AcceptableIsExact(Draft(Some(rental), Some(user), Some(moment), reason, exhausted,
                            DrivingLine(charge), PausedLine(charge), charge.total));
  }

  /** A line as its row is read back: the product is computed again, unchecked. */
  function Decoded(mode: Mode, duration: int, minutes: int, rate: int): Line {
    Line(mode, duration, minutes, rate, Wrapped(minutes * rate))
  }

  /** The unchecked product reproduces the amount of every line a draft was accepted with. */
  lemma {:induction false} StoredLineIsTheLine(d: Draft)
    requires Acceptable(d)
    ensures Decoded(Driving, d.driving.duration, d.driving.minutes, d.driving.rate) == d.driving
    ensures Decoded(Paused, d.paused.duration, d.paused.minutes, d.paused.rate) == d.paused
  {
    AcceptableIsExact(d);
    assert d.driving.minutes * d.driving.rate == d.driving.amount >= 0;
    assert d.paused.minutes * d.paused.rate == d.paused.amount >= 0;
  }

  // ---------- invoices and their payments ----------

  datatype PaymentStatus = Pending | Failed | Settled

  const DECLINED := "declined"
  const INITIAL_VERSION: int := 1

  /** `passed` is history that no statement reads: every state the payment was in, in order. */
  datatype Payment = Payment(
    status: PaymentStatus,
    version: int,
    createdAt: int,
    updatedAt: int,
    paidAt: Option<int>,
    failedAt: Option<int>,
    failureCode: Option<string>,
    passed: seq<PaymentStatus>)

  datatype Invoice = Invoice(
    rental: nat,
    user: nat,
    issuedAt: int,
    reason: Reason,
    exhausted: Option<seq<Kind>>,
    driving: Line,
    paused: Line,
    total: int,
    payment: Payment)

  /** The payment an invoice is issued with: one that owes nothing is settled by the moment it was issued. */
  function FirstPayment(total: int, issuedAt: int): Payment {
    if total == 0 then Payment(Settled, INITIAL_VERSION, issuedAt, issuedAt, Some(issuedAt), None, None, [Settled])
    else Payment(Pending, INITIAL_VERSION, issuedAt, issuedAt, None, None, None, [Pending])
  }

  /** The invoice a draft is written as. */
  function Issued(d: Draft): Invoice
    requires Acceptable(d)
  {
    Invoice(d.rental.value, d.user.value, d.issuedAt.value, d.reason, d.exhausted, d.driving, d.paused, d.total,
            FirstPayment(d.total, d.issuedAt.value))
  }

  /** The invoice as the moment it was issued left it, derived from what it never changes. */
  function AsIssued(invoice: Invoice): Invoice {
    invoice.(payment := FirstPayment(invoice.total, invoice.issuedAt))
  }

  predicate Outstanding(invoice: Invoice) {
    invoice.total > 0 && invoice.payment.status != Settled
  }

  datatype Outcome = Outcome(status: PaymentStatus, moment: int, failureCode: Option<string>)

  function Paid(moment: int): Outcome {
    Outcome(Settled, moment, None)
  }

  function Declined(moment: int): Outcome {
    Outcome(Failed, moment, Some(DECLINED))
  }

  datatype SettleError = OutcomeUnusable | AlreadySettled | CheckViolated

  predicate OutcomeUsable(outcome: Outcome) {
    || (outcome.status == Settled && outcome.failureCode == None)
    || (outcome.status == Failed && outcome.failureCode == Some(DECLINED))
  }

  /** Moves a payment from the state the transition starts from; a row in another state is left untouched. */
  function Settle(invoice: Invoice, from: PaymentStatus, outcome: Outcome): Result<Invoice, SettleError> {
    if !OutcomeUsable(outcome) then Err(OutcomeUnusable)
    else if invoice.payment.status != from then Err(AlreadySettled)
    else if outcome.moment < invoice.payment.createdAt then Err(CheckViolated)
    else
      Ok(invoice.(payment := invoice.payment.(
        status := outcome.status,
        version := invoice.payment.version + 1,
        updatedAt := outcome.moment,
        paidAt := if outcome.status == Settled then Some(outcome.moment) else None,
        failedAt := if outcome.status == Failed then Some(outcome.moment) else None,
        failureCode := if outcome.status == Failed then outcome.failureCode else None,
        passed := invoice.payment.passed + [outcome.status])))
  }

  /** A payment that owes is waiting first and may be refused once before it is paid; paid is for good. */
  predicate Passage(passed: seq<PaymentStatus>) {
    || passed == [Settled]
    || passed == [Pending] || passed == [Pending, Failed]
    || passed == [Pending, Settled] || passed == [Pending, Failed, Settled]
  }

  /** What the state of a payment says about its moments and its reason; its version counts its states. */
  predicate PaymentOk(invoice: Invoice) {
    var p := invoice.payment;
    && invoice.total >= 0
    && p.createdAt == invoice.issuedAt <= p.updatedAt
    && (p.paidAt.Some? <==> p.status == Settled)
    && (p.failedAt.Some? <==> p.status == Failed)
    && (p.failureCode == if p.status == Failed then Some(DECLINED) else None)
    && (p.status != Pending ==> p.paidAt == Some(p.updatedAt) || p.failedAt == Some(p.updatedAt))
    && (p.version == 1 <==> p == FirstPayment(invoice.total, invoice.issuedAt))
    && Passage(p.passed) && p.version == |p.passed| && p.passed[|p.passed| - 1] == p.status
    && (p.passed == [Settled] <==> invoice.total == 0)
  }

  lemma {:induction false} IssuedPaymentOk(d: Draft)
    requires Acceptable(d)
    ensures PaymentOk(Issued(d))
    ensures AsIssued(Issued(d)) == Issued(d)
  {
  }

  /** The three moves a payment makes: each starts where it must, adds one version, and leaves what the
      invoice states, and so what it was issued as, untouched. */
  lemma {:induction false} SettleKeepsPaymentOk(invoice: Invoice, from: PaymentStatus, outcome: Outcome)
    requires PaymentOk(invoice) && from != Settled && (from == Failed ==> outcome.status == Settled)
    requires Settle(invoice, from, outcome).Ok?
    ensures var settled := Settle(invoice, from, outcome).value;
            && PaymentOk(settled)
            && settled.payment.version == invoice.payment.version + 1
            && (invoice.payment.status, settled.payment.status) in
                 {(Pending, Settled), (Pending, Failed), (Failed, Settled)}
            && AsIssued(settled) == AsIssued(invoice)
            && (Outstanding(settled) ==> Outstanding(invoice))
  {
  }
}
