/** What the public version of a vehicle counts, and when a vehicle is out of service
    (backend/internal/rentals/announce.go, backend/internal/fleet/changes.go). */
module Announcements {
  import opened Wrappers
  import opened Energy
  import opened Invoices
  import opened Rentals
  import opened Fleet
  import opened Operations
  import opened Invariants
  import opened Keeping
  import opened Lifecycle
  import opened Runs
  import opened Discovery
  import Billing
  import Journeys

  // ---------- the sum of the versions ----------

  ghost function AnyOf(rows: map<nat, Row>): (id: nat)
    requires rows != map[]
    ensures id in rows
  {
    var id :| id in rows.Keys;
    id
  }

  function VersionOn(row: Row, v: nat): int {
    if row.rental.vehicle == v then row.rental.version else 0
  }

  /** The versions of all rentals of a vehicle, added up. */
  ghost function VersionsOn(rows: map<nat, Row>, v: nat): int
    decreases |rows|
  {
    if rows == map[] then 0
    else
      var id := AnyOf(rows);
      FewerRows(rows, id);
      VersionOn(rows[id], v) + VersionsOn(rows - {id}, v)
  }

  lemma {:induction false} FewerRows(rows: map<nat, Row>, id: nat)
    requires id in rows
    ensures |rows - {id}| < |rows|
  {
    assert (rows - {id}).Keys == rows.Keys - {id};
    assert |rows.Keys - {id}| == |rows.Keys| - 1;
  }

  /** Any one of them may be taken out first. */
  lemma {:induction false} OneApart(rows: map<nat, Row>, id: nat, v: nat)
    requires id in rows
    ensures VersionsOn(rows, v) == VersionOn(rows[id], v) + VersionsOn(rows - {id}, v)
    decreases |rows|
  {
    var first := AnyOf(rows);
    if first != id {
      FewerRows(rows, first);
      OneApart(rows - {first}, id, v);
      assert id in rows - {first} && first in rows - {id};
      FewerRows(rows, id);
      OneApart(rows - {id}, first, v);
      assert rows - {first} - {id} == rows - {id} - {first};
    }
  }

  lemma {:induction false} OneReplaced(rows: map<nat, Row>, id: nat, row: Row, v: nat)
    ensures VersionsOn(rows[id := row], v) ==
            VersionsOn(rows, v) + VersionOn(row, v) - (if id in rows then VersionOn(rows[id], v) else 0)
  {
    var after := rows[id := row];
    OneApart(after, id, v);
    assert after - {id} == rows - {id};
    if id in rows {
      OneApart(rows, id, v);
    } else {
      assert rows - {id} == rows;
    }
  }

  // ---------- the tally ----------

  predicate OutOfEnergyBy(row: Row) {
    row.rental.stage == Completed && row.rental.reason == Some(EnergyDepleted)
  }

  predicate RanOutOn(rows: map<nat, Row>, v: nat) {
    exists id :: id in rows && rows[id].rental.vehicle == v && OutOfEnergyBy(rows[id])
  }

  /** Since the fleet was installed the version of each vehicle was raised once for every change of a rental of it, and
      exactly the vehicles on which a ride ran out of energy were taken out of service. */
  ghost predicate Tallies(installed: map<nat, Vehicle>, db: Db) {
    && db.vehicles.Keys == installed.Keys
    && forall v :: v in installed ==>
         && db.vehicles[v].version == installed[v].version + VersionsOn(db.rows, v)
         && (db.vehicles[v].serviceRequired <==> installed[v].serviceRequired || RanOutOn(db.rows, v))
  }

  /** One rental and its vehicle changed together, announced or not. */
  predicate ChangedTogether(db: Db, id: nat, row: Row, v: nat, vehicle: Vehicle) {
    && v in db.vehicles && row.rental.vehicle == v
    && (id in db.rows ==> db.rows[id].rental.vehicle == v && (OutOfEnergyBy(db.rows[id]) ==> OutOfEnergyBy(row)))
    && vehicle.version - db.vehicles[v].version ==
       row.rental.version - (if id in db.rows then db.rows[id].rental.version else 0)
    && (vehicle.serviceRequired <==> db.vehicles[v].serviceRequired || OutOfEnergyBy(row))
  }

  lemma {:induction false} ChangeTallies(installed: map<nat, Vehicle>, db: Db, id: nat, row: Row, v: nat,
                                         vehicle: Vehicle)
    requires Tallies(installed, db) && ChangedTogether(db, id, row, v, vehicle)
    ensures Tallies(installed, WithBoth(db, id, row, v, vehicle))
  {
    var after := WithBoth(db, id, row, v, vehicle);
    forall w | w in installed
      ensures after.vehicles[w].version == installed[w].version + VersionsOn(after.rows, w)
      ensures after.vehicles[w].serviceRequired <==> installed[w].serviceRequired || RanOutOn(after.rows, w)
    {
      OneReplaced(db.rows, id, row, w);
      ReplacedRanOut(db.rows, id, row, w);
    }
  }

  lemma {:induction false} ReplacedRanOut(rows: map<nat, Row>, id: nat, row: Row, v: nat)
    requires id in rows ==>
               rows[id].rental.vehicle == row.rental.vehicle && (OutOfEnergyBy(rows[id]) ==> OutOfEnergyBy(row))
    ensures RanOutOn(rows[id := row], v) <==> RanOutOn(rows, v) || (row.rental.vehicle == v && OutOfEnergyBy(row))
  {
    var after := rows[id := row];
    assert id in after && after[id] == row;
    if RanOutOn(rows, v) {
      var other :| other in rows && rows[other].rental.vehicle == v && OutOfEnergyBy(rows[other]);
      assert other in after && after[other] == (if other == id then row else rows[other]);
    }
  }

  /** A vehicle moved on without an announcement. */
  lemma {:induction false} QuietVehicleTallies(installed: map<nat, Vehicle>, db: Db, v: nat, vehicle: Vehicle)
    requires Tallies(installed, db) && v in db.vehicles
    requires vehicle.version == db.vehicles[v].version
    requires vehicle.serviceRequired == db.vehicles[v].serviceRequired
    ensures Tallies(installed, db.(vehicles := db.vehicles[v := vehicle]))
  {
  }

  // ---------- one transaction ----------

  /** A change of a rental that raises its version raises that of its vehicle with it. */
  lemma {:induction false} AnnouncedTallies(installed: map<nat, Vehicle>, db: Db, id: nat, row: Row, depleted: bool)
    requires Tallies(installed, db) && Changed(db, id, row, depleted).Ok?
    requires row.rental.version == 1 + (if id in db.rows then db.rows[id].rental.version else 0)
    requires id in db.rows ==> db.rows[id].rental.vehicle == row.rental.vehicle && !OutOfEnergyBy(db.rows[id])
    requires depleted <==> OutOfEnergyBy(row)
    ensures Tallies(installed, Changed(db, id, row, depleted).value)
  {
    var v := row.rental.vehicle;
    ChangeTallies(installed, db, id, row, v, Announced(db.vehicles[v], depleted));
  }

  lemma {:induction false} ReleaseTallies(installed: map<nat, Vehicle>, db: Db, found: Option<nat>)
    requires Tallies(installed, db) && (found.Some? ==> found.value in db.rows) && LiveAt(db, found).Ok?
    ensures Tallies(installed, LiveAt(db, found).value.0)
  {
    if found.Some? && Overdue(db.rows[found.value].rental, db.clock) {
      var row := EndReservationAs(db.rows[found.value], Expired, db.rows[found.value].rental.expiresAt).0;
      AnnouncedTallies(installed, db, found.value, row, false);
    }
  }

  lemma {:induction false} BookedTallies(installed: map<nat, Vehicle>, db: Db, v: nat, mode: Mode, play: Play)
    requires Tallies(installed, db) && v in db.vehicles
    requires play.vehicle == db.vehicles[v].(model := play.vehicle.model)
    ensures Tallies(installed, Booked(db, v, mode, play))
  {
    match LiveOn(db, v)
    case None => QuietVehicleTallies(installed, db, v, play.vehicle);
    case Some(id) =>
      var row := Credited(db.rows[id], mode, play, db.clock);
      if OutOfEnergyBy(row) {
        assert RanOutOn(db.rows, v);
      }
      ChangeTallies(installed, db, id, row, v, play.vehicle);
  }

  lemma {:induction false} EndTallies(installed: map<nat, Vehicle>, db: Db, id: nat, ending: Ending)
    requires Tallies(installed, db) && id in db.rows && EndRide(db, id, ending).Ok?
    requires db.rows[id].rental.stage != Completed
    ensures Tallies(installed, EndRide(db, id, ending).value)
  {
    var ended := EndRow(id, db.rows[id], db.clock, ending).value;
    AnnouncedTallies(installed, db, id, Accounted(ended, Modelled(db, ended.rental.vehicle)),
                     ending.reason == EnergyDepleted);
  }

  lemma {:induction false} ReconcileTallies(installed: map<nat, Vehicle>, db: Db, v: nat, held: Option<Held>)
    requires Tallies(installed, db) && Inv(db) && HeldFits(db, v, held) && Reconcile(db, v, held).Ok?
    ensures Tallies(installed, Reconcile(db, v, held).value)
  {
    if v in db.vehicles && db.vehicles[v].begins.Some? {
      var mode := ModeOf(held);
      var play := PlayVehicle(db.vehicles[v], mode, db.clock).value;
      PlayIsQuiet(db, v, mode, play);
      BookedTallies(installed, db, v, mode, play);
      if play.ranOut.Some? && held.Some? && Riding(held.value.rental) {
        BookingKeepsRentals(db, v, mode, play);
        EndTallies(installed, Booked(db, v, mode, play), held.value.id, DepletedAt(play));
      }
    }
  }

  /** Playing a vehicle changes nothing of it but its state. */
  lemma {:induction false} PlayIsQuiet(db: Db, v: nat, mode: Mode, play: Play)
    requires Inv(db) && v in db.vehicles && db.vehicles[v].begins.Some?
    requires PlayVehicle(db.vehicles[v], mode, db.clock) == Ok(play)
    ensures play.vehicle == db.vehicles[v].(model := play.vehicle.model)
  {
    assert VehicleOk(db.vehicles[v], db.clock);
    if db.vehicles[v].model.None? {
      FirstPlayBegins(db.vehicles[v], mode, db.clock);
    } else {
      LaterPlayMovesOn(db.vehicles[v], mode, db.clock);
    }
  }

  lemma {:induction false} BookingKeepsRentals(db: Db, v: nat, mode: Mode, play: Play)
    ensures Booked(db, v, mode, play).rows.Keys == db.rows.Keys
    ensures forall id :: id in db.rows ==> Booked(db, v, mode, play).rows[id].rental == db.rows[id].rental
  {
  }

  lemma {:induction false} TargetTallies(installed: map<nat, Vehicle>, db: Db, id: nat)
    requires Tallies(installed, db) && Inv(db) && id in db.rows && ReconciledTarget(db, id).Ok?
    ensures Tallies(installed, ReconciledTarget(db, id).value)
  {
    ReconcileTallies(installed, db, db.rows[id].rental.vehicle, Some(Held(id, db.rows[id].rental)));
  }

  lemma {:induction false} RideTallies(installed: map<nat, Vehicle>, db: Db, action: Action, caller: nat, id: nat,
                                       fit: bool)
    requires Tallies(installed, db) && Inv(db) && RideWithin(db, action, caller, id, fit).Ok?
    ensures Tallies(installed, RideWithin(db, action, caller, id, fit).value.0)
  {
    if RentalOf(db, caller, id) {
      var reconciled := ReconciledTarget(db, id).value;
      TargetTallies(installed, db, id);
      TargetIsKept(db, id);
      RideIsOnward(db, action, caller, id, fit, reconciled);
      OnwardTallies(installed, reconciled, action, id, fit);
    }
  }

  lemma {:induction false} OnwardTallies(installed: map<nat, Vehicle>, db: Db, action: Action, id: nat, fit: bool)
    requires Tallies(installed, db) && id in db.rows && RideOnward(db, action, id, fit).Ok?
    ensures Tallies(installed, RideOnward(db, action, id, fit).value.0)
  {
    if Overdue(db.rows[id].rental, db.clock) {
      ReleaseTallies(installed, db, Some(id));
    } else if RideOnward(db, action, id, fit).value.1.Moving? {
      AnnouncedTallies(installed, db, id, MoveRow(db.rows[id], action, db.clock).value, false);
    }
  }

  lemma {:induction false} FinishTallies(installed: map<nat, Vehicle>, db: Db, caller: nat, id: nat,
                                         landing: Option<RefusalKind>)
    requires Tallies(installed, db) && Inv(db) && FinishWithin(db, caller, id, landing).Ok?
    ensures Tallies(installed, FinishWithin(db, caller, id, landing).value.0)
  {
    if RentalOf(db, caller, id) {
      var reconciled := ReconciledTarget(db, id).value;
      TargetTallies(installed, db, id);
      TargetIsKept(db, id);
      FinishIsOnward(db, caller, id, landing, reconciled);
      FinishOnwardTallies(installed, reconciled, id, landing);
    }
  }

  lemma {:induction false} FinishOnwardTallies(installed: map<nat, Vehicle>, db: Db, id: nat,
                                               landing: Option<RefusalKind>)
    requires Tallies(installed, db) && id in db.rows && FinishOnward(db, id, landing).Ok?
    ensures Tallies(installed, FinishOnward(db, id, landing).value.0)
  {
    if FinishOnward(db, id, landing).value.0 != db {
      EndTallies(installed, db, id, Ending(UserFinished, db.clock, None));
    }
  }

  lemma {:induction false} CancelTallies(installed: map<nat, Vehicle>, db: Db, caller: nat, id: nat)
    requires Tallies(installed, db) && CancelWithin(db, caller, id).Ok?
    ensures Tallies(installed, CancelWithin(db, caller, id).value.0)
  {
    if RentalOf(db, caller, id) && db.rows[id].rental.stage == Reserved {
      if Overdue(db.rows[id].rental, db.clock) {
        ReleaseTallies(installed, db, Some(id));
      } else {
        AnnouncedTallies(installed, db, id, EndReservationAs(db.rows[id], Cancelled, db.clock).0, false);
      }
    }
  }

  lemma {:induction false} ReserveTallies(installed: map<nat, Vehicle>, db: Db, caller: nat, v: nat, id: nat, zone: nat,
                                          rates: Billing.Rates, available: bool)
    requires Tallies(installed, db) && Inv(db)
    requires ReserveWithin(db, caller, v, id, zone, rates, available).Ok?
    ensures Tallies(installed, ReserveWithin(db, caller, v, id, zone, rates, available).value.0)
  {
    var (first, _) := LiveAt(db, LiveOf(db, caller)).value;
    var (released, _) := LiveAt(first, LiveOn(first, v)).value;
    ReleaseTallies(installed, db, LiveOf(db, caller));
    ReleaseTallies(installed, first, LiveOn(first, v));
    CreationTallies(installed, released, caller, v, id, zone, rates);
  }

  lemma {:induction false} CreationTallies(installed: map<nat, Vehicle>, db: Db, caller: nat, v: nat, id: nat,
                                           zone: nat, rates: Billing.Rates)
    requires Tallies(installed, db)
    ensures var r := CreateReservation(db, caller, v, id, zone, rates);
            r.Ok? ==> Tallies(installed, r.value.0)
  {
    if CreateReservation(db, caller, v, id, zone, rates).Ok? && id !in db.rows {
      var row := ReservedRow(caller, v, zone, rates, db.clock);
      if Changed(db, id, row, false).Ok? {
        AnnouncedTallies(installed, db, id, row, false);
      }
    }
  }

  lemma {:induction false} CurrentTallies(installed: map<nat, Vehicle>, db: Db, caller: nat)
    requires Tallies(installed, db) && Inv(db) && CurrentWithin(db, caller).Ok?
    ensures Tallies(installed, CurrentWithin(db, caller).value.0)
  {
    LiveAtIsKept(db, LiveOf(db, caller));
    ReleaseTallies(installed, db, LiveOf(db, caller));
    var (released, held) := LiveAt(db, LiveOf(db, caller)).value;
    CurrentIs(db, caller, released, held);
    if held.Some? && Riding(released.rows[held.value].rental) {
      var reconciled := ReconciledTarget(released, held.value).value;
      TargetTallies(installed, released, held.value);
      TargetIsKept(released, held.value);
      CurrentOnwardTallies(installed, reconciled, caller);
    }
  }

  lemma {:induction false} CurrentOnwardTallies(installed: map<nat, Vehicle>, db: Db, caller: nat)
    requires Tallies(installed, db) && CurrentOnward(db, caller).Ok?
    ensures Tallies(installed, CurrentOnward(db, caller).value.0)
  {
    ReleaseTallies(installed, db, LiveOf(db, caller));
  }

  lemma {:induction false} FleetTallies(installed: map<nat, Vehicle>, db: Db, read: Db, vs: seq<nat>)
    requires Tallies(installed, db) && Inv(db) && NoRepeats(vs) && AsRead(db, read, vs)
    requires ReconcileFleet(db, read, vs).Ok?
    ensures Tallies(installed, ReconcileFleet(db, read, vs).value.0)
    decreases |vs|
  {
    if vs != [] {
      FleetTurn(db, read, vs);
      ReconcileTallies(installed, db, vs[0], HolderOf(read, vs[0]));
      FleetTallies(installed, Reconcile(db, vs[0], HolderOf(read, vs[0])).value, read, vs[1..]);
    }
  }

  lemma {:induction false} SettlingTallies(installed: map<nat, Vehicle>, db: Db, id: nat, from: PaymentStatus,
                                           outcome: Outcome)
    requires Tallies(installed, db) && Inv(db) && id in db.rows && db.rows[id].invoice.Some?
    requires SettleRow(db, id, from, outcome).Ok?
    ensures Tallies(installed, SettleRow(db, id, from, outcome).value.0)
  {
    assert RowIn(db, id);
    var after := SettleRow(db, id, from, outcome).value.0;
    var v := db.rows[id].rental.vehicle;
    assert db.vehicles[v := db.vehicles[v]] == db.vehicles;
    if OutOfEnergyBy(db.rows[id]) {
      assert RanOutOn(db.rows, v);
    }
    ChangeTallies(installed, db, id, after.rows[id], v, db.vehicles[v]);
  }

  lemma {:induction false} AttemptTallies(installed: map<nat, Vehicle>, db: Db, id: nat, declined: bool)
    requires Tallies(installed, db) && Inv(db) && AttemptWithin(db, id, declined).Ok?
    ensures Tallies(installed, AttemptWithin(db, id, declined).value.0)
  {
    if AttemptWithin(db, id, declined).value.1.Paying? {
      SettlingTallies(installed, db, id, Pending, if declined then Declined(db.clock) else Paid(db.clock));
    }
  }

  lemma {:induction false} PayTallies(installed: map<nat, Vehicle>, db: Db, caller: nat, id: nat)
    requires Tallies(installed, db) && Inv(db) && PayWithin(db, caller, id).Ok?
    ensures Tallies(installed, PayWithin(db, caller, id).value.0)
  {
    if PayWithin(db, caller, id).value.0 != db {
      SettlingTallies(installed, db, id, Failed, Paid(db.clock));
    }
  }

  lemma {:induction false} ReadingTallies(installed: map<nat, Vehicle>, db: Db, v: nat, begins: Journeys.Model)
    requires Tallies(installed, db)
    ensures Tallies(installed, Observed(db, v, begins))
  {
    if v in db.vehicles {
      QuietVehicleTallies(installed, db, v, db.vehicles[v].(begins := Some(begins)));
    }
  }

  /** Payments and readings announce nothing of a rental. */
  lemma {:induction false} QuietStepTallies(installed: map<nat, Vehicle>, db: Db, step: Step)
    requires Tallies(installed, db) && Inv(db) && (step.Attempt? || step.Pay? || step.Observe?)
    requires Perform(db, step).Ok?
    ensures Tallies(installed, Perform(db, step).value.0)
  {
    match step
    case Attempt(id, declined) => AttemptTallies(installed, db, id, declined);
    case Pay(caller, id) => PayTallies(installed, db, caller, id);
    case Observe(v, begins) => ReadingTallies(installed, db, v, begins);
  }

  lemma {:induction false} RideStepTallies(installed: map<nat, Vehicle>, db: Db, step: Step)
    requires Tallies(installed, db) && Inv(db) && (step.Tick? ==> NoRepeats(step.vehicles)) && Perform(db, step).Ok?
    requires step.Ride? || step.Finish? || step.Current? || step.Tick?
    ensures Tallies(installed, Perform(db, step).value.0)
  {
    match step
    case Ride(action, caller, id, fit) => RideTallies(installed, db, action, caller, id, fit);
    case Finish(caller, id, landing) => FinishTallies(installed, db, caller, id, landing);
    case Current(caller) => CurrentTallies(installed, db, caller);
    case Tick(vs) => FleetTallies(installed, db, db, vs);
  }

  lemma {:induction false} ReservationStepTallies(installed: map<nat, Vehicle>, db: Db, step: Step)
    requires Tallies(installed, db) && Inv(db) && Perform(db, step).Ok?
    requires step.Cancel? || step.Expire? || step.Reserve? || step.Notifications?
    ensures Tallies(installed, Perform(db, step).value.0)
  {
    match step
    case Cancel(caller, id) => CancelTallies(installed, db, caller, id);
    case Expire(id) => ReleaseTallies(installed, db, if id in db.rows then Some(id) else None);
    case Reserve(caller, v, id, zone, rates, available) =>
      ReserveTallies(installed, db, caller, v, id, zone, rates, available);
    case Notifications(caller) => ReleaseTallies(installed, db, LiveOf(db, caller));
  }

  lemma {:induction false} StepTallies(installed: map<nat, Vehicle>, db: Db, step: Step)
    requires Tallies(installed, db) && Inv(db) && (step.Tick? ==> NoRepeats(step.vehicles)) && Perform(db, step).Ok?
    ensures Tallies(installed, Perform(db, step).value.0)
  {
    if step.Ride? || step.Finish? || step.Current? || step.Tick? {
      RideStepTallies(installed, db, step);
    } else if step.Cancel? || step.Expire? || step.Reserve? || step.Notifications? {
      ReservationStepTallies(installed, db, step);
    } else {
      QuietStepTallies(installed, db, step);
    }
  }

  // ---------- whole runs ----------

  lemma {:induction false} RunTallies(installed: map<nat, Vehicle>, db: Db, steps: seq<Timed>)
    requires Tallies(installed, db) && Inv(db) && Timely(db.clock, steps)
    ensures Tallies(installed, Run(db, steps))
    decreases |steps|
  {
    if steps != [] {
      var now, next := db.(clock := steps[0].moment), Commit(db, steps[0]);
      assert Timely(db.clock, [steps[0]]);
      CommitIsKept(db, steps[0]);
      LaterIsInv(db, steps[0].moment);
      assert Tallies(installed, now);
      if Perform(now, steps[0].step).Ok? {
        StepTallies(installed, now, steps[0].step);
      }
      assert Timely(next.clock, steps[1..]);
      RunTallies(installed, next, steps[1..]);
    }
  }

  /** In every reachable state the version of a vehicle is the one it was installed with and one more for every change
      any of its rentals ever went through; and a vehicle is out of service exactly when it was installed so or a ride
      on it ran out of energy. */
  lemma {:induction false} EveryChangeIsAnnounced(vehicles: map<nat, Vehicle>, clock: int, steps: seq<Timed>, v: nat)
    requires Fresh(vehicles) && WholeMoment(clock) && Timely(clock, steps) && v in vehicles
    ensures var db := Run(Installed(vehicles, clock), steps);
            && v in db.vehicles
            && db.vehicles[v].version == vehicles[v].version + VersionsOn(db.rows, v)
            && (db.vehicles[v].serviceRequired <==>
                  || vehicles[v].serviceRequired
                  || exists id :: id in db.rows && db.rows[id].rental.vehicle == v
                                  && db.rows[id].rental.stage == Completed
                                  && db.rows[id].rental.reason == Some(EnergyDepleted))
  {
    InstalledIsInv(vehicles, clock);
    RunTallies(vehicles, Installed(vehicles, clock), steps);
    var db := Run(Installed(vehicles, clock), steps);
    assert RanOutOn(db.rows, v) <==> exists id :: id in db.rows && db.rows[id].rental.vehicle == v
                                                  && db.rows[id].rental.stage == Completed
                                                  && db.rows[id].rental.reason == Some(EnergyDepleted);
  }
}
