/** The letter about one invoice and the box that keeps one letter per delivery key
    (backend/internal/invoices/letter.go, backend/internal/mailstub). */
module Mail {
  import opened Wrappers
  import opened Energy
  import opened Invoices

  // ---------- what a letter says ----------

  datatype ReasonText = FinishedByUser | OutOfEnergy(sources: seq<Kind>)

  datatype LineText = LineText(minutes: int, rate: int, amount: int)

  datatype PaymentText = PaidText | WaitingText | RefusedText

  /** Everything the text of a letter is rendered from; the wording around it never varies. */
  datatype Letter = Letter(
    issuedAt: int,
    reason: ReasonText,
    driving: LineText,
    paused: LineText,
    total: int,
    payment: PaymentText)

  function ReasonOf(invoice: Invoice): ReasonText {
    match invoice.reason
    case UserFinished => FinishedByUser
    case EnergyDepleted => OutOfEnergy(if invoice.exhausted.Some? then invoice.exhausted.value else [])
  }

  function LineOf(line: Line): LineText {
    LineText(line.minutes, line.rate, line.amount)
  }

  function PaymentOf(status: PaymentStatus): PaymentText {
    match status
    case Settled => PaidText
    case Pending => WaitingText
    case Failed => RefusedText
  }

  function LetterOf(invoice: Invoice): Letter {
    Letter(invoice.issuedAt, ReasonOf(invoice), LineOf(invoice.driving), LineOf(invoice.paused), invoice.total,
           PaymentOf(invoice.payment.status))
  }

  /** No move of a payment changes the letter about the invoice as it was issued. */
  lemma {:induction false} LetterAsIssuedIsSettled(invoice: Invoice, from: PaymentStatus, outcome: Outcome)
    requires Settle(invoice, from, outcome).Ok?
    ensures LetterOf(AsIssued(Settle(invoice, from, outcome).value)) == LetterOf(AsIssued(invoice))
  {
  }

  /** Every move of a payment changes the letter about the invoice as it stands, so a second delivery that
      rendered that one would not be a repeat of the first. */
  lemma {:induction false} LetterAsItStandsIsNot(invoice: Invoice, from: PaymentStatus, outcome: Outcome)
    requires Settle(invoice, from, outcome).Ok?
    ensures LetterOf(Settle(invoice, from, outcome).value) == LetterOf(invoice) <==> outcome.status == from
  {
  }

  // ---------- the box ----------

  const MAX_RECIPIENT_LENGTH: nat := 254

  datatype Request = Request(to: string, letter: Letter)

  datatype Message = Message(request: Request, acceptedAt: int)

  datatype MailError = Invalid | Conflict

  /** `armed` is a recorded demand that the answer of the next letter stored be lost. */
  datatype Box = Box(messages: map<nat, Message>, armed: bool)

  datatype Receipt = Receipt(message: Message, replayed: bool, dropped: bool)

  predicate Sendable(request: Request) {
    request.to != "" && |request.to| <= MAX_RECIPIENT_LENGTH
  }

  function Accepted(box: Box, key: nat, request: Request, now: int): Result<(Box, Receipt), MailError> {
    if !Sendable(request) then Err(Invalid)
    else if key in box.messages then
      if box.messages[key].request != request then Err(Conflict)
      else Ok((box, Receipt(box.messages[key], true, false)))
    else
      var message := Message(request, now);
      Ok((Box(box.messages[key := message], false), Receipt(message, false, box.armed)))
  }

  /** A stored letter is never replaced and never removed. */
  predicate BoxFollows(a: Box, b: Box) {
    forall key :: key in a.messages ==> key in b.messages && b.messages[key] == a.messages[key]
  }

  /** Whatever is delivered under whatever key: what was stored stays, a key that is answered holds exactly the
      letter that was sent, and a conflict is only ever met by a different one. A demand is spent on the first letter
      stored after it. */
  lemma {:induction false} AcceptKeepsLetters(box: Box, key: nat, request: Request, now: int)
    ensures Accepted(box, key, request, now) == Err(Invalid) <==> !(1 <= |request.to| <= 254)
    ensures Accepted(box, key, request, now) == Err(Conflict) <==>
              1 <= |request.to| <= 254 && key in box.messages && box.messages[key].request != request
    ensures Accepted(box, key, request, now).Ok? ==>
              var (after, receipt) := Accepted(box, key, request, now).value;
              && BoxFollows(box, after) && key in after.messages
              && after.messages.Keys == box.messages.Keys + {key}
              && after.messages[key] == receipt.message && receipt.message.request == request
              && (receipt.replayed <==> key in box.messages)
              && (receipt.dropped <==> !receipt.replayed && box.armed)
              && (after.armed <==> receipt.replayed && box.armed)
              && (receipt.replayed ==> after == box)
  {
  }

  /** Delivering a letter twice is delivering it once: the second answer is the receipt of the first letter. */
  lemma {:induction false} SecondDeliveryIsARepeat(box: Box, key: nat, request: Request, now: int, later: int)
    requires Accepted(box, key, request, now).Ok?
    ensures var (once, first) := Accepted(box, key, request, now).value;
            Accepted(once, key, request, later) == Ok((once, Receipt(first.message, true, false)))
  {
  }

  class Mailbox {
    var messages: map<nat, Message>
    var armed: bool

    ghost function Value(): Box
      reads this
    {
      Box(messages, armed)
    }

    constructor ()
      ensures Value() == Box(map[], false)
    {
      messages, armed := map[], false;
    }

    /** Inserts the letter unless its key holds one, and reads back what the insert left. */
    method Store(key: nat, request: Request, now: int) returns (r: Result<(Message, bool), MailError>)
      modifies this`messages
      ensures r.Ok? ==>
                && Sendable(request) && key in messages
                && r.value.0 == messages[key] && messages[key].request == request
                && r.value.1 == (key !in old(messages))
                && messages == (if r.value.1 then old(messages)[key := Message(request, now)] else old(messages))
      ensures r.Err? ==>
                && messages == old(messages)
                && r.error == (if !Sendable(request) then Invalid else Conflict)
                && (Sendable(request) ==> key in messages && messages[key].request != request)
    {
      if !Sendable(request) {
        return Err(Invalid);
      }
      var written := key !in messages;
      if written {
        messages := messages[key := Message(request, now)];
      }
      var stored := messages[key];
      if stored.request != request {
        return Err(Conflict);
      }
      return Ok((stored, written));
    }

    /** One transaction: the letter is stored together with the demand it spends, or neither is. */
    method Accept(key: nat, request: Request, now: int) returns (r: Result<Receipt, MailError>)
      modifies this
      ensures match Accepted(old(Value()), key, request, now)
              case Ok((after, receipt)) => r == Ok(receipt) && Value() == after
              case Err(error) => r == Err(error) && Value() == old(Value())
    {
      var stored := Store(key, request, now);
      if stored.Err? {
        return Err(stored.error);
      }
      if !stored.value.1 {
        return Ok(Receipt(stored.value.0, true, false));
      }
      var dropped := armed;
      armed := false;
      return Ok(Receipt(stored.value.0, false, dropped));
    }
  }
}
