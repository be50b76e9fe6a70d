/** Whole runs: any sequence of transactions at moments that never go back, each committed or rolled back. */
module Runs {
  import opened Wrappers
  import opened Energy
  import opened Invoices
  import opened Rentals
  import opened Fleet
  import opened Operations
  import opened Invariants
  import opened Keeping
  import opened Lifecycle
  import Billing
  import Journeys

  /** One transaction, with everything it reads of the world outside the tables. */
  datatype Step =
    | Ride(action: Action, caller: nat, id: nat, fit: bool)
    | Finish(caller: nat, id: nat, landing: Option<RefusalKind>)
    | Cancel(caller: nat, id: nat)
    | Expire(id: nat)
    | Reserve(caller: nat, vehicle: nat, id: nat, zone: nat, rates: Billing.Rates, available: bool)
    | Current(caller: nat)
    | Notifications(caller: nat)
    | Tick(vehicles: seq<nat>)
    | Attempt(id: nat, declined: bool)
    | Pay(caller: nat, id: nat)
    | Observe(vehicle: nat, begins: Journeys.Model)

  datatype Timed = Timed(moment: int, step: Step)

  /** A vehicle confirmed where it stands and what it holds. */
  function Observed(db: Db, v: nat, begins: Journeys.Model): Db {
    if v in db.vehicles then db.(vehicles := db.vehicles[v := db.vehicles[v].(begins := Some(begins))]) else db
  }

  ghost function Perform(db: Db, step: Step): Transaction {
    match step
    case Ride(action, caller, id, fit) => RideWithin(db, action, caller, id, fit)
    case Finish(caller, id, landing) => FinishWithin(db, caller, id, landing)
    case Cancel(caller, id) => CancelWithin(db, caller, id)
    case Expire(id) => ExpireWithin(db, id)
    case Reserve(caller, v, id, zone, rates, available) => ReserveWithin(db, caller, v, id, zone, rates, available)
    case Current(caller) => CurrentWithin(db, caller)
    case Notifications(caller) => NotificationsWithin(db, caller)
    case Tick(vs) => TickWithin(db, vs)
    case Attempt(id, declined) => AttemptWithin(db, id, declined)
    case Pay(caller, id) => PayWithin(db, caller, id)
    case Observe(v, begins) => Ok((Observed(db, v, begins), Nothing))
  }

  /** The moment is fixed once the rows are locked; a failure rolls everything back. */
  ghost function Commit(db: Db, timed: Timed): Db {
    match Perform(db.(clock := timed.moment), timed.step)
    case Ok((after, _)) => after
    case Err(_) => db
  }

  ghost function Run(db: Db, steps: seq<Timed>): Db
    decreases |steps|
  {
    if steps == [] then db else Run(Commit(db, steps[0]), steps[1..])
  }

  /** Moments are whole microseconds that never go back, and a tick reads each vehicle of the fleet once. */
  predicate Timely(clock: int, steps: seq<Timed>) {
    && (forall i :: 0 <= i < |steps| ==> WholeMoment(steps[i].moment) && clock <= steps[i].moment)
    && (forall i, j :: 0 <= i < j < |steps| ==> steps[i].moment <= steps[j].moment)
    && (forall i :: 0 <= i < |steps| && steps[i].step.Tick? ==> NoRepeats(steps[i].step.vehicles))
  }

  /** Before anything was reserved. */
  function Installed(vehicles: map<nat, Vehicle>, clock: int): Db {
    Db(map[], vehicles, clock)
  }

  predicate Fresh(vehicles: map<nat, Vehicle>) {
    forall v :: v in vehicles ==> vehicles[v].version >= 1 && vehicles[v].model.None?
  }

  lemma {:induction false} ObservedIsKept(db: Db, v: nat, begins: Journeys.Model)
    requires Inv(db)
    ensures Kept(db, Observed(db, v, begins))
  {
    var after := Observed(db, v, begins);
    KeptAsIs(db);
    if v in db.vehicles {
      forall id | id in after.rows
        ensures RowIn(after, id)
      {
        assert RowIn(db, id);
      }
      forall a, b | a in after.rows && b in after.rows && a != b
        ensures Apart(after.rows[a], after.rows[b])
      {
        assert Apart(db.rows[a], db.rows[b]);
      }
      forall w | w in after.vehicles
        ensures VehicleOk(after.vehicles[w], db.clock)
      {
        assert VehicleOk(db.vehicles[w], db.clock);
      }
    }
  }

  lemma {:induction false} PerformIsKept(db: Db, step: Step)
    requires Inv(db) && (step.Tick? ==> NoRepeats(step.vehicles)) && Perform(db, step).Ok?
    ensures Kept(db, Perform(db, step).value.0)
  {
    match step
    case Ride(action, caller, id, fit) => RideIsKept(db, action, caller, id, fit);
    case Finish(caller, id, landing) => FinishIsKept(db, caller, id, landing);
    case Cancel(caller, id) => CancelIsKept(db, caller, id);
    case Expire(id) => ExpireIsKept(db, id);
    case Reserve(caller, v, id, zone, rates, available) => ReserveIsKept(db, caller, v, id, zone, rates, available);
    case Current(caller) => CurrentIsKept(db, caller);
    case Notifications(caller) => LiveAtIsKept(db, LiveOf(db, caller));
    case Tick(vs) => TickIsKept(db, vs);
    case Attempt(id, declined) => AttemptIsKept(db, id, declined);
    case Pay(caller, id) => PayIsKept(db, caller, id);
    case Observe(v, begins) => ObservedIsKept(db, v, begins);
  }

  lemma {:induction false} CommitIsKept(db: Db, timed: Timed)
    requires Inv(db) && Timely(db.clock, [timed])
    ensures Inv(Commit(db, timed)) && Evolved(db, Commit(db, timed))
    ensures db.clock <= Commit(db, timed).clock <= timed.moment
  {
    assert [timed][0] == timed;
    KeptAsIs(db);
    var now := db.(clock := timed.moment);
    LaterIsInv(db, timed.moment);
    if Perform(now, timed.step).Ok? {
      PerformIsKept(now, timed.step);
    }
  }

  /** The invariants hold in every reachable state, and nothing that was decided is ever rewritten. */
  lemma {:induction false} RunIsKept(db: Db, steps: seq<Timed>)
    requires Inv(db) && Timely(db.clock, steps)
    ensures Inv(Run(db, steps)) && Evolved(db, Run(db, steps)) && db.clock <= Run(db, steps).clock
    decreases |steps|
  {
    if steps == [] {
      KeptAsIs(db);
    } else {
      assert Timely(db.clock, [steps[0]]);
      CommitIsKept(db, steps[0]);
      var next := Commit(db, steps[0]);
      assert Timely(next.clock, steps[1..]);
      RunIsKept(next, steps[1..]);
      EvolvedTwice(db, next, Run(next, steps[1..]));
    }
  }

  lemma {:induction false} InstalledIsInv(vehicles: map<nat, Vehicle>, clock: int)
    requires Fresh(vehicles) && WholeMoment(clock)
    ensures Inv(Installed(vehicles, clock))
  {
  }

  /** A state some run reaches from a fleet in which nothing was reserved yet. */
  ghost predicate Reachable(db: Db) {
    exists vehicles, clock, steps ::
      Fresh(vehicles) && WholeMoment(clock) && Timely(clock, steps) && db == Run(Installed(vehicles, clock), steps)
  }

  lemma {:induction false} ReachableIsInv(db: Db)
    requires Reachable(db)
    ensures Inv(db)
  {
    var vehicles, clock, steps :|
      Fresh(vehicles) && WholeMoment(clock) && Timely(clock, steps) && db == Run(Installed(vehicles, clock), steps);
    InstalledIsInv(vehicles, clock);
    RunIsKept(Installed(vehicles, clock), steps);
  }

  // ---------- what that means ----------

  predicate IsOpen(segments: seq<Segment>, i: int) {
    0 <= i < |segments| && segments[i].to.None?
  }

  /** In every reachable state a ride in progress has exactly one open segment: it is the last one, in the mode
      of its stage, it began when the mode did, and the model of its vehicle accounts for a moment between that
      one and now. */
  lemma {:induction false} RidesHaveOneOpenSegment(db: Db, id: nat)
    requires Reachable(db) && id in db.rows && Riding(db.rows[id].rental)
    ensures var row := db.rows[id];
            var last := |row.segments| - 1;
            && row.segments != [] && row.rental.modeStartedAt.Some?
            && (forall i :: IsOpen(row.segments, i) <==> i == last)
            && row.segments[last].mode == (if row.rental.stage == Active then Driving else Mode.Paused)
            && row.segments[last].from == row.rental.modeStartedAt.value <= db.clock
            && row.rental.vehicle in db.vehicles
            && (db.vehicles[row.rental.vehicle].model.Some? ==>
                  row.rental.modeStartedAt.value <= db.vehicles[row.rental.vehicle].model.value.processedAt <= db.clock)
  {
    ReachableIsInv(db);
    assert RowIn(db, id);
    var row := db.rows[id];
    assert VehicleOk(db.vehicles[row.rental.vehicle], db.clock);
    TileIsClosed(ButLast(row.segments), row.rental.startedAt.value, row.rental.modeStartedAt.value);
    assert row.segments == ButLast(row.segments) + [Last(row.segments)];
  }

  /** The segments of a ride that is over are closed, follow one another without a gap or an overlap from its
      start to its end, and their two sums add up to its length. */
  lemma {:induction false} EndedRidesAreTiled(db: Db, id: nat)
    requires Reachable(db) && id in db.rows && db.rows[id].rental.stage == Completed
    ensures var segments := db.rows[id].segments;
            var r := db.rows[id].rental;
            && r.startedAt.Some? && r.endedAt.Some? && segments != []
            && segments[0].from == r.startedAt.value && Last(segments).to == r.endedAt
            && (forall i :: 0 <= i < |segments| ==> segments[i].to.Some? && segments[i].from < segments[i].to.value)
            && (forall i :: 0 < i < |segments| ==> segments[i - 1].to == Some(segments[i].from))
            && TimeIn(segments, Driving, r.endedAt.value) + TimeIn(segments, Mode.Paused, r.endedAt.value)
               == r.endedAt.value - r.startedAt.value
  {
    ReachableIsInv(db);
    assert RowIn(db, id);
    var r := db.rows[id].rental;
    TileInOrder(db.rows[id].segments, r.startedAt.value, r.endedAt.value);
    CoverAddsUp(db.rows[id].segments, r.startedAt.value, r.endedAt.value, r.endedAt.value);
  }

  lemma {:induction false} TileInOrder(segments: seq<Segment>, from: int, to: int)
    requires Tile(segments, from, to)
    ensures segments == [] ==> from == to
    ensures segments != [] ==> segments[0].from == from && Last(segments).to == Some(to)
    ensures forall i :: 0 <= i < |segments| ==> segments[i].to.Some? && segments[i].from < segments[i].to.value
    ensures forall i :: 0 < i < |segments| ==> segments[i - 1].to == Some(segments[i].from)
    decreases |segments|
  {
    if segments != [] {
      var before := ButLast(segments);
      TileInOrder(before, from, Last(segments).from);
      assert segments == before + [Last(segments)];
    }
  }

  /** A line of an invoice states one mode of a ride: its time in whole microseconds, the minutes begun in it, the rate
      stored with the rental and their product. */
  predicate States(line: Line, mode: Mode, time: int, rate: int) {
    && line.mode == mode && line.rate == rate
    && line.duration == time / 1_000
    && (line.minutes - 1) * 60_000_000 < line.duration <= line.minutes * 60_000_000
    && line.amount == rate * line.minutes
  }

  /** Exactly the rides that were completed have an invoice, and each has one: its two lines state the time of the
      ride in each mode at the rates stored with the rental, and its total is their sum. */
  lemma {:induction false} CompletedRidesAreInvoicedOnce(db: Db, id: nat)
    requires Reachable(db) && id in db.rows
    ensures db.rows[id].invoice.Some? <==> db.rows[id].rental.stage == Completed
    ensures db.rows[id].invoice.Some? ==>
              var (row, invoice) := (db.rows[id], db.rows[id].invoice.value);
              && row.rental.endedAt.Some?
              && var (r, at) := (row.rental, row.rental.endedAt.value);
                 && invoice.rental == id && invoice.user == r.user && at <= invoice.issuedAt
                 && Some(invoice.reason) == r.reason && invoice.exhausted == r.exhausted
                 && States(invoice.driving, Driving, TimeIn(row.segments, Driving, at), r.rates.driving)
                 && States(invoice.paused, Mode.Paused, TimeIn(row.segments, Mode.Paused, at), r.rates.paused)
                 && 0 <= invoice.total == invoice.driving.amount + invoice.paused.amount <= 0x7fff_ffff_ffff_ffff
                 && row.owed == (if invoice.total > 0 then [PaymentAttempt, InvoiceLetter] else [InvoiceLetter])
  {
    ReachableIsInv(db);
    assert RowIn(db, id);
    var row := db.rows[id];
    if row.rental.stage == Completed {
      BilledExactly(id, row, db.clock);
    }
  }

  lemma {:induction false} BilledExactly(id: nat, row: Row, clock: int)
    requires Ended(id, row, clock)
    ensures var (r, at, invoice) := (row.rental, row.rental.endedAt.value, row.invoice.value);
            && States(invoice.driving, Driving, TimeIn(row.segments, Driving, at), r.rates.driving)
            && States(invoice.paused, Mode.Paused, TimeIn(row.segments, Mode.Paused, at), r.rates.paused)
            && 0 <= invoice.total == invoice.driving.amount + invoice.paused.amount <= 0x7fff_ffff_ffff_ffff
  {
    var driving := TimeIn(row.segments, Driving, row.rental.endedAt.value);
    var paused := TimeIn(row.segments, Mode.Paused, row.rental.endedAt.value);
    CoverAddsUp(row.segments, row.rental.startedAt.value, row.rental.endedAt.value, row.rental.endedAt.value);
    Billing.ComputeIsExact(row.rental.rates, driving, paused);
  }

  predicate HoldsAt(r: Rental, moment: int) {
    r.reservedAt <= moment && (r.endedAt.Some? ==> moment < r.endedAt.value)
  }

  /** Over the whole history no account and no vehicle has two rentals at one moment, although expiry and depletion end
      a rental in the past, and a midnight of the service timezone separates any two reservations of one account. */
  lemma {:induction false} RentalsNeverOverlap(db: Db, a: nat, b: nat, moment: int)
    requires Reachable(db) && a in db.rows && b in db.rows && a != b
    ensures db.rows[a].rental.user == db.rows[b].rental.user || db.rows[a].rental.vehicle == db.rows[b].rental.vehicle
            ==> !(HoldsAt(db.rows[a].rental, moment) && HoldsAt(db.rows[b].rental, moment))
    ensures db.rows[a].rental.user == db.rows[b].rental.user ==>
              || MidnightBetween(db.rows[a].rental.reservedAt, db.rows[b].rental.reservedAt)
              || MidnightBetween(db.rows[b].rental.reservedAt, db.rows[a].rental.reservedAt)
  {
    ReachableIsInv(db);
    assert Apart(db.rows[a], db.rows[b]);
    ServiceDaysEndAtMidnight(db.rows[a].rental.reservedAt, db.rows[b].rental.reservedAt);
  }

  /** An account owes on one invoice at most, and on none while it holds a vehicle. */
  lemma {:induction false} DebtIsSingle(db: Db, a: nat, b: nat)
    requires Reachable(db) && a in db.rows && b in db.rows && db.rows[a].rental.user == db.rows[b].rental.user
    ensures Owes(db.rows[a]) && Owes(db.rows[b]) ==> a == b
    ensures Owes(db.rows[a]) ==> !Live(db.rows[b].rental)
  {
    ReachableIsInv(db);
    assert RowIn(db, a);
    assert a == b || Apart(db.rows[a], db.rows[b]);
  }

  /** A payment states its moments and its reason exactly as its state explains them, and its version is one more
      than the number of its transitions. */
  lemma {:induction false} PaymentsExplainThemselves(db: Db, id: nat)
    requires Reachable(db) && id in db.rows && db.rows[id].invoice.Some?
    ensures PaymentOk(db.rows[id].invoice.value)
    ensures var payment := db.rows[id].invoice.value.payment;
            && Passage(payment.passed) && payment.version == 1 + (|payment.passed| - 1)
            && payment.passed[|payment.passed| - 1] == payment.status
            && (payment.passed == [Settled] <==> db.rows[id].invoice.value.total == 0)
            && payment.createdAt == db.rows[id].invoice.value.issuedAt
            && payment.paidAt == (if payment.status == Settled then Some(payment.updatedAt) else None)
            && payment.failedAt == (if payment.status == Failed then Some(payment.updatedAt) else None)
            && payment.failureCode == (if payment.status == Failed then Some("declined") else None)
    ensures Owes(db.rows[id]) <==> db.rows[id].invoice.value.payment.status in {Pending, Failed}
  {
    ReachableIsInv(db);
    assert RowIn(db, id);
  }

  /** The model never charges driving that the segments do not record: what it charged is at most what was
      driven, and all of it, to the part of a microsecond a run-out is carried forward by, exactly when no
      driving was missed. */
  lemma {:induction false} ChargedDrivingIsDriven(db: Db, id: nat)
    requires Reachable(db) && id in db.rows && db.rows[id].rental.stage == Completed
    ensures var row := db.rows[id];
            && row.rental.endedAt.Some?
            && var driven := TimeIn(row.segments, Driving, row.rental.endedAt.value);
               && 0 <= row.drove <= driven
               && (row.missed == 0 ==> driven < row.drove + 1_000)
               && (row.missed >= 1_000 ==> row.drove < driven)
               && (row.rental.reason == Some(UserFinished) ==> (row.drove == driven <==> row.missed == 0))
  {
    ReachableIsInv(db);
    assert RowIn(db, id);
  }
}
