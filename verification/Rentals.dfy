/** The rows a rental is made of and the statements that change them
    (backend/internal/rentals/store.go, segment.go, ending.go, progress.go, deadline.go). */
module Rentals {
  import opened Wrappers
  import opened Energy
  import opened Invoices
  import Billing
  import Journeys

  /** How far a rental has got (backend/internal/rentals/stage/stage.go). */
  datatype Stage = Reserved | Active | Paused | Cancelled | Expired | Completed

  const RESERVATION_LIFETIME: int := 900_000_000_000

  datatype Segment = Segment(mode: Mode, from: int, to: Option<int>)

  datatype Rental = Rental(
    user: nat,
    vehicle: nat,
    zone: nat,
    rates: Billing.Rates,
    stage: Stage,
    version: int,
    reservedAt: int,
    expiresAt: int,
    startedAt: Option<int>,
    endedAt: Option<int>,
    modeStartedAt: Option<int>,
    reason: Option<Reason>,
    exhausted: Option<seq<Kind>>)

  /** The durable work an ending owes. */
  datatype Task = PaymentAttempt | InvoiceLetter

  /** Everything stored under one rental. `drove` and `missed` are history that no operation reads: the
      nanoseconds of this ride its vehicle's model charged as driving, and the nanoseconds of driving the
      model was moved past without charging them. */
  datatype Row = Row(
    rental: Rental,
    segments: seq<Segment>,
    invoice: Option<Invoice>,
    owed: seq<Task>,
    drove: int,
    missed: int)

  /** The row without its history: what is stored. */
  function Bare(row: Row): Row {
    row.(drove := 0, missed := 0)
  }

  /** What a failed statement rolls its transaction back with. */
  datatype Failure =
    | RentalMoved
    | RentalNotEnded
    | CheckFailed
    | UniqueViolated
    | NoSuchVehicle
    | DurationUnreadable
    | Unpriceable(refusal: Billing.Refusal)
    | DraftUnacceptable
    | InvoiceMissing
    | Unplayable(error: Journeys.JourneyError)
    | Unsettled(settling: SettleError)

  predicate Live(r: Rental) {
    r.endedAt.None?
  }

  predicate Riding(r: Rental) {
    (r.stage == Active || r.stage == Stage.Paused) && r.modeStartedAt.Some?
  }

  /** A reservation is due at exactly its deadline, not a moment later. */
  predicate Overdue(r: Rental, at: int) {
    r.stage == Reserved && at >= r.expiresAt
  }

  // ---------- segments ----------

  function ButLast<T>(xs: seq<T>): seq<T>
    requires xs != []
  {
    xs[..|xs| - 1]
  }

  function Last<T>(xs: seq<T>): T
    requires xs != []
  {
    xs[|xs| - 1]
  }

  /** The update that closes whatever is open. */
  function Closed(segments: seq<Segment>, at: int): (closed: seq<Segment>)
    ensures |closed| == |segments|
  {
    if segments == [] then []
    else
      var last := Last(segments);
      Closed(ButLast(segments), at) + [if last.to.None? then last.(to := Some(at)) else last]
  }

  /** The check of the table: a segment that lasts no time is not one. */
  predicate ClosesLater(segments: seq<Segment>, at: int) {
    forall i :: 0 <= i < |segments| && segments[i].to.None? ==> segments[i].from < at
  }

  function CloseOpenSegment(row: Row, at: int): Result<Row, Failure> {
    if ClosesLater(row.segments, at) then Ok(row.(segments := Closed(row.segments, at))) else Err(CheckFailed)
  }

  /** At most one segment of a ride is open, decided by the index rather than by a read before the insert. */
  function OpenSegment(row: Row, mode: Mode, at: int): Result<Row, Failure> {
    if exists i :: 0 <= i < |row.segments| && row.segments[i].to.None? then Err(UniqueViolated)
    else Ok(row.(segments := row.segments + [Segment(mode, at, None)]))
  }

  function BeginSegment(row: Row, mode: Mode, at: int): Result<Row, Failure> {
    var closed :- CloseOpenSegment(row, at);
    OpenSegment(closed, mode, at)
  }

  /** The sum of one mode by a moment, counting an open segment up to it. */
  function TimeIn(segments: seq<Segment>, mode: Mode, at: int): int {
    if segments == [] then 0
    else
      var last := Last(segments);
      TimeIn(ButLast(segments), mode, at) +
      if last.mode == mode && last.from <= at then (if last.to.Some? then last.to.value else at) - last.from else 0
  }

  // ---------- transitions of one row ----------

  datatype Action = Start | Pause | Resume

  function StageBefore(action: Action): Stage {
    match action
    case Start => Reserved
    case Pause => Active
    case Resume => Stage.Paused
  }

  function StageAfter(action: Action): Stage {
    if action == Pause then Stage.Paused else Active
  }

  function ModeAfter(action: Action): Mode {
    if action == Pause then Mode.Paused else Driving
  }

  function MoveRide(row: Row, action: Action, moment: int): Result<Row, Failure> {
    if row.rental.stage != StageBefore(action) then Err(RentalMoved)
    else
      Ok(row.(rental := row.rental.(
        stage := StageAfter(action),
        version := row.rental.version + 1,
        startedAt := if action == Start then Some(moment) else row.rental.startedAt,
        modeStartedAt := Some(moment))))
  }

  /** Ends a reservation; a rental another transaction moved first is left alone. */
  function EndReservationAs(row: Row, ending: Stage, at: int): (Row, bool) {
    if row.rental.stage != Reserved then (row, false)
    else
      (row.(rental := row.rental.(
         stage := ending, version := row.rental.version + 1, endedAt := Some(at), modeStartedAt := None)), true)
  }

  datatype Ending = Ending(reason: Reason, endedAt: int, exhausted: Option<seq<Kind>>)

  function CompleteRental(row: Row, ending: Ending): Result<Row, Failure> {
    if row.rental.stage != Active && row.rental.stage != Stage.Paused then Err(RentalNotEnded)
    else if ending.exhausted == Some([]) then Err(CheckFailed)
    else
      Ok(row.(rental := row.rental.(
        stage := Completed,
        version := row.rental.version + 1,
        endedAt := Some(ending.endedAt),
        modeStartedAt := None,
        reason := Some(ending.reason),
        exhausted := ending.exhausted)))
  }

  /** What the ride costs by a moment, at the rates stored with the rental. */
  function Price(row: Row, at: int): Result<Billing.Charge, Failure> {
    var driving, paused := TimeIn(row.segments, Driving, at), TimeIn(row.segments, Mode.Paused, at);
    if !Billing.InInt64(driving) || !Billing.InInt64(paused) then Err(DurationUnreadable)
    else
      match Billing.Compute(row.rental.rates, driving, paused)
      case Ok(charge) => Ok(charge)
      case Err(refusal) => Err(Unpriceable(refusal))
  }

  function DraftOf(id: nat, rental: Rental, charge: Billing.Charge, ending: Ending, moment: int): Draft {
    Draft(Some(id), Some(rental.user), Some(moment), ending.reason, ending.exhausted,
          DrivingLine(charge), PausedLine(charge), charge.total)
  }

  /** One invoice per rental, decided by the database. */
  function Issue(row: Row, draft: Draft): Result<Row, Failure> {
    if !Acceptable(draft) then Err(DraftUnacceptable)
    else if row.invoice.Some? then Err(UniqueViolated)
    else Ok(row.(invoice := Some(Issued(draft))))
  }

  /** The attempt at a payment is owed only while the invoice waits for one; the letter always. */
  function TasksOf(invoice: Invoice): seq<Task> {
    if invoice.payment.status == Pending then [PaymentAttempt, InvoiceLetter] else [InvoiceLetter]
  }

  function Owe(row: Row): Row {
    match row.invoice
    case None => row
    case Some(invoice) => row.(owed := row.owed + TasksOf(invoice))
  }

  /** Everything an ending writes under the rental. */
  function EndRow(id: nat, row: Row, moment: int, ending: Ending): Result<Row, Failure> {
    var completed :- CompleteRental(row, ending);
    var closed :- CloseOpenSegment(completed, ending.endedAt);
    var charge :- Price(closed, ending.endedAt);
    var issued :- Issue(closed, DraftOf(id, closed.rental, charge, ending, moment));
    Ok(Owe(issued))
  }

  /** A ride moved along, and priced for the answer. */
  function MoveRow(row: Row, action: Action, moment: int): Result<Row, Failure> {
    var moved :- MoveRide(row, action, moment);
    var begun :- BeginSegment(moved, ModeAfter(action), moment);
    var _ :- Price(begun, moment);
    Ok(begun)
  }

  function ReservedRow(user: nat, vehicle: nat, zone: nat, rates: Billing.Rates, moment: int): Row {
    Row(Rental(user, vehicle, zone, rates, Reserved, INITIAL_VERSION, moment, moment + RESERVATION_LIFETIME,
               None, None, None, None, None),
        [], None, [], 0, 0)
  }

  // ---------- what a stored row always is ----------

  /** Segments that are closed and cover `from` to `to` without a gap or an overlap. */
  predicate Tile(segments: seq<Segment>, from: int, to: int) {
    if segments == [] then from == to
    else
      var last := Last(segments);
      && last.to == Some(to) && last.from < to
      && (last.mode == Driving || last.mode == Mode.Paused)
      && Tile(ButLast(segments), from, last.from)
  }

  /** The segments of a ride in progress: everything before the current mode is covered, and the current mode
      is the one segment that is open. */
  predicate TileOpen(segments: seq<Segment>, from: int, mode: Mode, modeFrom: int) {
    segments != [] && Last(segments) == Segment(mode, modeFrom, None) && Tile(ButLast(segments), from, modeFrom)
  }

  predicate NeverRidden(row: Row) {
    && row.rental.startedAt.None? && row.rental.modeStartedAt.None? && row.rental.reason.None?
    && row.rental.exhausted.None? && row.segments == [] && row.invoice.None? && row.owed == []
    && row.drove == 0 && row.missed == 0
  }

  predicate InProgress(row: Row, mode: Mode, clock: int) {
    var r := row.rental;
    && r.endedAt.None? && r.reason.None? && r.exhausted.None? && row.invoice.None? && row.owed == []
    && r.startedAt.Some? && r.modeStartedAt.Some?
    && r.reservedAt <= r.startedAt.value < r.expiresAt
    && r.startedAt.value <= r.modeStartedAt.value <= clock
    && TileOpen(row.segments, r.startedAt.value, mode, r.modeStartedAt.value)
    && row.drove >= 0 && row.missed >= 0
  }

  /** An invoice states the billing of the two sums of its ride at the rates stored with the rental. */
  predicate Bills(invoice: Invoice, id: nat, row: Row) {
    var r := row.rental;
    && r.endedAt.Some?
    && invoice.rental == id && invoice.user == r.user
    && Some(invoice.reason) == r.reason && invoice.exhausted == r.exhausted
    && var driving, paused := TimeIn(row.segments, Driving, r.endedAt.value),
                              TimeIn(row.segments, Mode.Paused, r.endedAt.value);
       var charge := Billing.Compute(r.rates, driving, paused);
       && charge.Ok? && Billing.InInt64(driving) && Billing.InInt64(paused)
       && invoice.driving == DrivingLine(charge.value) && invoice.paused == PausedLine(charge.value)
       && invoice.total == charge.value.total
  }

  predicate Ended(id: nat, row: Row, clock: int) {
    var r := row.rental;
    && r.startedAt.Some? && r.endedAt.Some? && r.modeStartedAt.None?
    && r.reservedAt <= r.startedAt.value < r.endedAt.value <= clock
    && r.startedAt.value < r.expiresAt
    && r.reason.Some?
    && (r.reason.value == EnergyDepleted <==> r.exhausted.Some?)
    && (r.exhausted.Some? ==> r.exhausted.value != [])
    && Tile(row.segments, r.startedAt.value, r.endedAt.value)
    && row.invoice.Some? && Bills(row.invoice.value, id, row) && PaymentOk(row.invoice.value)
    && r.endedAt.value <= row.invoice.value.issuedAt && row.invoice.value.payment.updatedAt <= clock
    && row.owed == TasksOf(AsIssued(row.invoice.value))
    && row.drove >= 0 && row.missed >= 0
  }

  predicate RowOk(id: nat, row: Row, clock: int) {
    var r := row.rental;
    && r.reservedAt <= clock && r.expiresAt == r.reservedAt + RESERVATION_LIFETIME && r.version >= 1
    && match r.stage
       case Reserved => r.endedAt.None? && NeverRidden(row)
       case Active => InProgress(row, Driving, clock)
       case Paused => InProgress(row, Mode.Paused, clock)
       case Cancelled => r.endedAt.Some? && r.reservedAt <= r.endedAt.value <= clock && r.endedAt.value < r.expiresAt
                         && NeverRidden(row)
       case Expired => r.endedAt == Some(r.expiresAt) && r.expiresAt <= clock && NeverRidden(row)
       case Completed => Ended(id, row, clock)
  }

  // ---------- what each statement does to it ----------

  lemma {:induction false} TileIsClosed(segments: seq<Segment>, from: int, to: int)
    requires Tile(segments, from, to)
    ensures forall i :: 0 <= i < |segments| ==> segments[i].to.Some?
    ensures from <= to
    decreases |segments|
  {
    if segments != [] {
      var before := ButLast(segments);
      TileIsClosed(before, from, Last(segments).from);
      assert segments == before + [Last(segments)];
    }
  }

  lemma {:induction false} ClosedTileIsItself(segments: seq<Segment>, from: int, to: int, at: int)
    requires Tile(segments, from, to)
    ensures Closed(segments, at) == segments
    decreases |segments|
  {
    if segments != [] {
      ClosedTileIsItself(ButLast(segments), from, Last(segments).from, at);
      assert segments == ButLast(segments) + [Last(segments)];
    }
  }

  /** Closing the open segment of a ride in progress covers the ride up to that moment, and can be done
      exactly when the segment lasted some time. */
  lemma {:induction false} ClosingCoversTheRide(segments: seq<Segment>, from: int, mode: Mode, modeFrom: int, at: int)
    requires TileOpen(segments, from, mode, modeFrom) && (mode == Driving || mode == Mode.Paused)
    ensures ClosesLater(segments, at) <==> modeFrom < at
    ensures modeFrom < at ==> Tile(Closed(segments, at), from, at)
    ensures Closed(segments, at) == ButLast(segments) + [Segment(mode, modeFrom, Some(at))]
  {
    var before := ButLast(segments);
    TileIsClosed(before, from, modeFrom);
    ClosedTileIsItself(before, from, modeFrom, at);
    assert segments == before + [Last(segments)];
    assert segments[|before|].to.None?;
    var closed := Closed(segments, at);
    assert closed == before + [Segment(mode, modeFrom, Some(at))];
    assert ButLast(closed) == before;
  }

  /** A segment added at the end of a covered stretch. */
  lemma {:induction false} OpeningAfterACover(segments: seq<Segment>, from: int, at: int, mode: Mode)
    requires Tile(segments, from, at)
    ensures TileOpen(segments + [Segment(mode, at, None)], from, mode, at)
  {
    assert ButLast(segments + [Segment(mode, at, None)]) == segments;
  }

  /** The two sums of a covered stretch add up to its length. */
  lemma {:induction false} CoverAddsUp(segments: seq<Segment>, from: int, to: int, at: int)
    requires Tile(segments, from, to) && to <= at
    ensures TimeIn(segments, Driving, at) >= 0 && TimeIn(segments, Mode.Paused, at) >= 0
    ensures TimeIn(segments, Driving, at) + TimeIn(segments, Mode.Paused, at) == to - from
    decreases |segments|
  {
    if segments != [] {
      CoverAddsUp(ButLast(segments), from, Last(segments).from, at);
    }
  }

  /** What a covered stretch took does not depend on when it is asked, once it is over. */
  lemma {:induction false} CoverIsSettled(segments: seq<Segment>, from: int, to: int, mode: Mode, at: int, later: int)
    requires Tile(segments, from, to) && to <= at && to <= later
    ensures TimeIn(segments, mode, at) == TimeIn(segments, mode, later)
    decreases |segments|
  {
    if segments != [] {
      CoverIsSettled(ButLast(segments), from, Last(segments).from, mode, at, later);
    }
  }
}
