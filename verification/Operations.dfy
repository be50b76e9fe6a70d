/** What each rental transaction does to the tables once its rows are locked and its moment is fixed
    (backend/internal/rentals). A transaction is one function from the tables it finds to the tables it leaves,
    or the failure that rolls it back. The moment is the clock of the tables it is given. */
module Operations {
  import opened Wrappers
  import opened Energy
  import opened Invoices
  import opened Rentals
  import opened Fleet
  import Billing

  datatype Db = Db(rows: map<nat, Row>, vehicles: map<nat, Vehicle>, clock: int)

  /** A rental as a transaction read it. */
  datatype Held = Held(id: nat, rental: Rental)

  datatype RefusalKind =
    | VehicleUnavailable
    | ActiveRentalExists
    | DailyLimitReached
    | ReservationExpired
    | RentalCompleted
    | InvalidRentalState
    | RentalNotFound
    | OutsideServiceZone
    | TelemetryStale
    | OutstandingInvoice
    | PaymentInProgress
    | InvoiceNotFound

  datatype Answer =
    | Refusing(kind: RefusalKind)
    | Reserving(id: nat)
    | Moving(id: nat)
    | Finished(id: nat, invoice: Invoice)
    | Releasing(id: nat)
    | Showing(current: Option<nat>)
    | Ticking(completed: seq<nat>)
    | Paying(invoice: Invoice)
    | Nothing

  type Transaction = Result<(Db, Answer), Failure>

  // ---------- reads ----------

  predicate HoldsVehicle(db: Db, id: nat, v: nat) {
    id in db.rows && db.rows[id].rental.vehicle == v && Live(db.rows[id].rental)
  }

  predicate HoldsAccount(db: Db, id: nat, user: nat) {
    id in db.rows && db.rows[id].rental.user == user && Live(db.rows[id].rental)
  }

  ghost function LiveOn(db: Db, v: nat): (found: Option<nat>)
    ensures found.Some? ==> HoldsVehicle(db, found.value, v)
    ensures found.None? ==> forall id :: id in db.rows ==> !HoldsVehicle(db, id, v)
  {
    if exists id :: HoldsVehicle(db, id, v) then var id :| HoldsVehicle(db, id, v); Some(id) else None
  }

  ghost function LiveOf(db: Db, user: nat): (found: Option<nat>)
    ensures found.Some? ==> HoldsAccount(db, found.value, user)
    ensures found.None? ==> forall id :: id in db.rows ==> !HoldsAccount(db, id, user)
  {
    if exists id :: HoldsAccount(db, id, user) then var id :| HoldsAccount(db, id, user); Some(id) else None
  }

  predicate RentalOf(db: Db, caller: nat, id: nat) {
    id in db.rows && db.rows[id].rental.user == caller
  }

  predicate Owes(row: Row) {
    row.invoice.Some? && Outstanding(row.invoice.value)
  }

  predicate AccountOwes(db: Db, user: nat) {
    exists id :: id in db.rows && db.rows[id].rental.user == user && Owes(db.rows[id])
  }

  /** The calendar day of the service timezone, six hours ahead of the clock. */
  const DAY: int := 86_400_000_000_000
  const TIMEZONE: int := 21_600_000_000_000

  function ServiceDay(moment: int): int {
    (moment + TIMEZONE) / DAY
  }

  predicate DaySpent(db: Db, user: nat) {
    exists id :: id in db.rows && db.rows[id].rental.user == user
                 && ServiceDay(db.rows[id].rental.reservedAt) == ServiceDay(db.clock)
  }

  // ---------- writes ----------

  /** The version of a vehicle is raised by every change it is announced with. */
  function Announced(vehicle: Vehicle, depleted: bool): Vehicle {
    vehicle.(version := vehicle.version + 1, serviceRequired := vehicle.serviceRequired || depleted)
  }

  function WithRow(db: Db, id: nat, row: Row): Db {
    db.(rows := db.rows[id := row])
  }

  function WithBoth(db: Db, id: nat, row: Row, v: nat, vehicle: Vehicle): Db {
    db.(rows := db.rows[id := row], vehicles := db.vehicles[v := vehicle])
  }

  /** The change of a rental together with the announcement of its vehicle. */
  function Changed(db: Db, id: nat, row: Row, depleted: bool): Result<Db, Failure> {
    var v := row.rental.vehicle;
    if v !in db.vehicles then Err(NoSuchVehicle)
    else Ok(WithBoth(db, id, row, v, Announced(db.vehicles[v], depleted)))
  }

  /** History: a ride whose vehicle the model never moved charged none of its driving. */
  function Accounted(ended: Row, modelled: bool): Row {
    if !modelled && ended.rental.endedAt.Some? then
      ended.(missed := TimeIn(ended.segments, Driving, ended.rental.endedAt.value) - ended.drove)
    else ended
  }

  function Modelled(db: Db, v: nat): bool {
    v in db.vehicles && db.vehicles[v].model.Some?
  }

  function EndRide(db: Db, id: nat, ending: Ending): Result<Db, Failure>
    requires id in db.rows
  {
    var ended :- EndRow(id, db.rows[id], db.clock, ending);
    Changed(db, id, Accounted(ended, Modelled(db, ended.rental.vehicle)), ending.reason == EnergyDepleted)
  }

  /** Ends a reservation at its own deadline, and leaves alone one that another transaction ended. */
  function EndReservation(db: Db, id: nat): Result<Db, Failure>
    requires id in db.rows
  {
    var (released, moved) := EndReservationAs(db.rows[id], Expired, db.rows[id].rental.expiresAt);
    if moved then Changed(db, id, released, false) else Ok(db)
  }

  // ---------- the model meets a moment ----------

  /** What the vehicle does between the moment its state describes and the moment a command acts on. */
  function ModeOf(held: Option<Held>): Mode {
    if held.None? then Free
    else if held.value.rental.stage == Active then Driving
    else if held.value.rental.stage == Stage.Paused then Mode.Paused
    else Free
  }

  /** History: what a window played on a vehicle was to the ride that holds it. */
  function Credited(row: Row, mode: Mode, play: Play, moment: int): Row {
    if !Riding(row.rental) then row
    else if play.first then row.(missed := TimeIn(row.segments, Driving, moment) - row.drove)
    else if row.rental.stage != Active then row
    else if mode == Driving then row.(drove := row.drove + (play.until - play.from))
    else row.(missed := row.missed + (play.until - play.from))
  }

  ghost function Booked(db: Db, v: nat, mode: Mode, play: Play): Db {
    match LiveOn(db, v)
    case None => db.(vehicles := db.vehicles[v := play.vehicle])
    case Some(id) => WithBoth(db, id, Credited(db.rows[id], mode, play, db.clock), v, play.vehicle)
  }

  function DepletedAt(play: Play): Ending
    requires play.ranOut.Some?
  {
    Ending(EnergyDepleted, WholeMicrosecondFirstAfter(play.ranOut.value), Some(play.exhausted))
  }

  /** Brings the model of one vehicle to the moment in the mode of the rental the caller judged, and ends that
      ride if the sources ran out. A vehicle the model does not move is left exactly as it is. */
  ghost function Reconcile(db: Db, v: nat, held: Option<Held>): Result<Db, Failure>
    requires held.Some? ==> held.value.id in db.rows
  {
    if v !in db.vehicles || db.vehicles[v].begins.None? then Ok(db)
    else
      var play :- PlayVehicle(db.vehicles[v], ModeOf(held), db.clock);
      var booked := Booked(db, v, ModeOf(held), play);
      if play.ranOut.None? || held.None? || !Riding(held.value.rental) then Ok(booked)
      else EndRide(booked, held.value.id, DepletedAt(play))
  }

  // ---------- commands ----------

  function RecordExpiry(db: Db, id: nat): Transaction
    requires id in db.rows
  {
    var released :- EndReservation(db, id);
    Ok((released, Refusing(ReservationExpired)))
  }

  function RideRefusal(r: Rental, action: Action): Option<RefusalKind> {
    if r.stage == StageBefore(action) then None
    else if r.stage == Cancelled || r.stage == Expired then Some(ReservationExpired)
    else if r.stage == Completed then Some(RentalCompleted)
    else Some(InvalidRentalState)
  }

  /** The rest of a ride command once the vehicle was brought to its moment. `fit` is whether the catalog finds
      the vehicle fit to start; only a start asks. */
  function RideOnward(db: Db, action: Action, id: nat, fit: bool): Transaction
    requires id in db.rows
  {
    var target := db.rows[id];
    if Overdue(target.rental, db.clock) then RecordExpiry(db, id)
    else if RideRefusal(target.rental, action).Some? then Ok((db, Refusing(RideRefusal(target.rental, action).value)))
    else if action == Start && !fit then Ok((db, Refusing(VehicleUnavailable)))
    else
      var moved :- MoveRow(target, action, db.clock);
      var changed :- Changed(db, id, moved, false);
      Ok((changed, Moving(id)))
  }

  /** The rental a command names with its vehicle brought to the moment of the command. */
  ghost function ReconciledTarget(db: Db, id: nat): Result<Db, Failure>
    requires id in db.rows
  {
    Reconcile(db, db.rows[id].rental.vehicle, Some(Held(id, db.rows[id].rental)))
  }

  /** Start, pause and resume. */
  ghost function RideWithin(db: Db, action: Action, caller: nat, id: nat, fit: bool): Transaction {
    if !RentalOf(db, caller, id) then Ok((db, Refusing(RentalNotFound)))
    else
      var reconciled :- ReconciledTarget(db, id);
      if id !in reconciled.rows then Err(RentalMoved) else RideOnward(reconciled, action, id, fit)
  }

  /** The rest of a finish once the vehicle was brought to its moment. `landing` is why the vehicle may not be
      left where it stands, if it may not. */
  function FinishOnward(db: Db, id: nat, landing: Option<RefusalKind>): Transaction
    requires id in db.rows
  {
    var target := db.rows[id];
    if target.rental.stage == Completed then
      if target.invoice.None? then Err(InvoiceMissing) else Ok((db, Finished(id, target.invoice.value)))
    else if target.rental.stage != Active && target.rental.stage != Stage.Paused then
      Ok((db, Refusing(InvalidRentalState)))
    else if landing.Some? then Ok((db, Refusing(landing.value)))
    else
      var ended :- EndRide(db, id, Ending(UserFinished, db.clock, None));
      if id !in ended.rows || ended.rows[id].invoice.None? then Err(InvoiceMissing)
      else Ok((ended, Finished(id, ended.rows[id].invoice.value)))
  }

  ghost function FinishWithin(db: Db, caller: nat, id: nat, landing: Option<RefusalKind>): Transaction {
    if !RentalOf(db, caller, id) then Ok((db, Refusing(RentalNotFound)))
    else
      var reconciled :- ReconciledTarget(db, id);
      if id !in reconciled.rows then Err(RentalMoved) else FinishOnward(reconciled, id, landing)
  }

  function CancelWithin(db: Db, caller: nat, id: nat): Transaction {
    if !RentalOf(db, caller, id) then Ok((db, Refusing(RentalNotFound)))
    else
      var target := db.rows[id];
      match target.rental.stage
      case Reserved =>
        if Overdue(target.rental, db.clock) then RecordExpiry(db, id)
        else
          var changed :- Changed(db, id, EndReservationAs(target, Cancelled, db.clock).0, false);
          Ok((changed, Releasing(id)))
      case Expired => Ok((db, Refusing(ReservationExpired)))
      case Completed => Ok((db, Refusing(RentalCompleted)))
      case _ => Ok((db, Refusing(InvalidRentalState)))
  }

  /** The rental that holds an account or a vehicle at the moment, ended first when its deadline has passed. */
  function LiveAt(db: Db, found: Option<nat>): Result<(Db, Option<nat>), Failure>
    requires found.Some? ==> found.value in db.rows
  {
    if found.None? || !Overdue(db.rows[found.value].rental, db.clock) then Ok((db, found))
    else
      var released :- EndReservation(db, found.value);
      Ok((released, None))
  }

  /** Both live relationships are brought to the moment before the command judges either. */
  ghost function ReleaseOverdue(db: Db, caller: nat, v: nat): Result<(Db, Option<nat>), Failure> {
    var (first, held) :- LiveAt(db, LiveOf(db, caller));
    var (released, _) :- LiveAt(first, LiveOn(first, v));
    Ok((released, held))
  }

  /** The rules of the account, in the order useful to the caller. */
  predicate AccountRefuses(db: Db, caller: nat, held: Option<nat>) {
    AccountOwes(db, caller) || DaySpent(db, caller) || held.Some?
  }

  function AccountRefusal(db: Db, caller: nat, held: Option<nat>): RefusalKind
    requires AccountRefuses(db, caller, held)
  {
    if AccountOwes(db, caller) then OutstandingInvoice
    else if DaySpent(db, caller) then DailyLimitReached
    else ActiveRentalExists
  }

  /** Writes the reservation, or names the live rental that kept the row out. */
  ghost function CreateReservation(db: Db, caller: nat, v: nat, id: nat, zone: nat, rates: Billing.Rates): Transaction {
    if LiveOf(db, caller).Some? then Ok((db, Refusing(ActiveRentalExists)))
    else if id in db.rows || LiveOn(db, v).Some? then Ok((db, Refusing(VehicleUnavailable)))
    else
      var changed :- Changed(db, id, ReservedRow(caller, v, zone, rates, db.clock), false);
      Ok((changed, Reserving(id)))
  }

  /** Reserve. `available` is whether the catalog finds a vehicle that nobody holds fit to be booked, its
      service apart. */
  ghost function ReserveWithin(db: Db, caller: nat, v: nat, id: nat, zone: nat, rates: Billing.Rates,
                               available: bool): Transaction {
    var (released, held) :- ReleaseOverdue(db, caller, v);
    if AccountRefuses(released, caller, held) then Ok((released, Refusing(AccountRefusal(released, caller, held))))
    else if v !in released.vehicles || LiveOn(released, v).Some? || released.vehicles[v].serviceRequired
      || !available then
      Ok((released, Refusing(VehicleUnavailable)))
    else CreateReservation(released, caller, v, id, zone, rates)
  }

  /** What is current once the vehicle was brought to the moment. */
  ghost function CurrentOnward(db: Db, caller: nat): Transaction {
    var (left, now) :- LiveAt(db, LiveOf(db, caller));
    if now.Some? && Riding(left.rows[now.value].rental) then
      var _ :- Price(left.rows[now.value], db.clock);
      Ok((left, Showing(now)))
    else Ok((left, Showing(now)))
  }

  /** The read of what is current, which ends what has run out before it answers. */
  ghost function CurrentWithin(db: Db, caller: nat): Transaction {
    var (released, held) :- LiveAt(db, LiveOf(db, caller));
    if held.None? || !Riding(released.rows[held.value].rental) then Ok((released, Showing(held)))
    else
      var reconciled :- ReconciledTarget(released, held.value);
      CurrentOnward(reconciled, caller)
  }

  /** The rental that holds a vehicle, as a tick reads it before it moves anything. */
  ghost function HolderOf(db: Db, v: nat): Option<Held> {
    match LiveOn(db, v)
    case None => None
    case Some(id) => Some(Held(id, db.rows[id].rental))
  }

  /** Every vehicle in turn, with the holders as they were read once for the whole fleet. */
  ghost function ReconcileFleet(db: Db, read: Db, vs: seq<nat>): Result<(Db, seq<nat>), Failure>
    decreases |vs|
  {
    if vs == [] then Ok((db, []))
    else
      var held := HolderOf(read, vs[0]);
      if held.Some? && held.value.id !in db.rows then Err(RentalMoved)
      else
        var moved :- Reconcile(db, vs[0], held);
        var (rest, completed) :- ReconcileFleet(moved, read, vs[1..]);
        var ended := held.Some? && Live(db.rows[held.value.id].rental)
                     && held.value.id in moved.rows && !Live(moved.rows[held.value.id].rental);
        Ok((rest, (if ended then [held.value.id] else []) + completed))
  }

  ghost function TickWithin(db: Db, vs: seq<nat>): Transaction {
    var (moved, completed) :- ReconcileFleet(db, db, vs);
    Ok((moved, Ticking(completed)))
  }

  /** What the read of notifications does before it reads. */
  ghost function NotificationsWithin(db: Db, caller: nat): Transaction {
    var (released, _) :- LiveAt(db, LiveOf(db, caller));
    Ok((released, Nothing))
  }

  /** One reservation the sweep found due, judged again under its locks. */
  function ExpireWithin(db: Db, id: nat): Transaction {
    if id !in db.rows || !Overdue(db.rows[id].rental, db.clock) then Ok((db, Nothing))
    else
      var released :- EndReservation(db, id);
      Ok((released, Releasing(id)))
  }

  function SettleRow(db: Db, id: nat, from: PaymentStatus, outcome: Outcome): Transaction
    requires id in db.rows && db.rows[id].invoice.Some?
  {
    match Settle(db.rows[id].invoice.value, from, outcome)
    case Err(error) => Err(Unsettled(error))
    case Ok(settled) => Ok((WithRow(db, id, db.rows[id].(invoice := Some(settled))), Paying(settled)))
  }

  /** The service's one first attempt. `declined` is what a recorded demand asks of it. */
  function AttemptWithin(db: Db, id: nat, declined: bool): Transaction {
    if id !in db.rows || db.rows[id].invoice.None? then Ok((db, Nothing))
    else if db.rows[id].invoice.value.payment.status != Pending then Ok((db, Nothing))
    else SettleRow(db, id, Pending, if declined then Declined(db.clock) else Paid(db.clock))
  }

  /** The attempt a person asks for, which a refusal alone permits. */
  function PayWithin(db: Db, caller: nat, id: nat): Transaction {
    if id !in db.rows || db.rows[id].invoice.None? || db.rows[id].invoice.value.user != caller then
      Ok((db, Refusing(InvoiceNotFound)))
    else
      match db.rows[id].invoice.value.payment.status
      case Pending => Ok((db, Refusing(PaymentInProgress)))
      case Settled => Ok((db, Paying(db.rows[id].invoice.value)))
      case Failed => SettleRow(db, id, Failed, Paid(db.clock))
  }
}
