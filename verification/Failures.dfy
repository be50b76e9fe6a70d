/** Which failures a rental transaction can meet at all. The guards the statements carry against a row that moved
    under its lock, a second open segment, a second invoice or a model ahead of its command never fire. */
module Failures {
  import opened Wrappers
  import opened Energy
  import opened Invoices
  import opened Rentals
  import opened RowSteps
  import opened Journeys
  import opened Fleet
  import opened Operations
  import opened Invariants
  import opened Keeping
  import opened Lifecycle
  import opened Runs

  /** A mode that would have lasted no time, an amount or a duration beyond its range, or a vehicle whose reading
      cannot begin a journey. */
  predicate Expected(f: Failure) {
    f.CheckFailed? || f.DurationUnreadable? || f.Unpriceable? || f == Unplayable(StateUnusable)
  }

  lemma {:induction false} EndRowFails(id: nat, row: Row, moment: int, ending: Ending)
    requires RowOk(id, row, moment) && Riding(row.rental) && EndingOk(ending) && ending.endedAt <= moment
    ensures EndRow(id, row, moment, ending).Err? ==> Expected(EndRow(id, row, moment, ending).error)
  {
    EndRowExactlyWhen(id, row, moment, ending);
    EndingClosesTheMode(id, row, ending.endedAt, moment);
    if row.rental.modeStartedAt.value < ending.endedAt && Price(row, ending.endedAt).Ok? {
      assert EndRow(id, row, moment, ending).Ok?;
    }
  }

  lemma {:induction false} MoveRowFails(id: nat, row: Row, action: Action, moment: int)
    requires RowOk(id, row, moment) && row.rental.stage == StageBefore(action)
    ensures MoveRow(row, action, moment).Err? ==> Expected(MoveRow(row, action, moment).error)
  {
    var moved := MoveRide(row, action, moment).value;
    assert BeginSegment(moved, ModeAfter(action), moment).Err? ==>
        BeginSegment(moved, ModeAfter(action), moment).error.CheckFailed? by {
      if action == Start {
        StartingOpensTheFirst(moved, moment);
      } else {
        MovingClosesTheMode(row, if action == Pause then Driving else Mode.Paused, ModeAfter(action), moment);
        assert moved.segments == row.segments;
      }
    }
  }

  lemma {:induction false} ReconcileFails(db: Db, v: nat, held: Option<Held>)
    requires Inv(db) && HeldFits(db, v, held)
    ensures Reconcile(db, v, held).Err? ==> Expected(Reconcile(db, v, held).error)
  {
    if v in db.vehicles && db.vehicles[v].begins.Some? {
      var vehicle, mode := db.vehicles[v], ModeOf(held);
      assert VehicleOk(vehicle, db.clock);
      PlayFailsExactlyWhen(vehicle, mode, db.clock);
      if PlayVehicle(vehicle, mode, db.clock).Ok? {
        var play := PlayVehicle(vehicle, mode, db.clock).value;
        if play.ranOut.Some? && held.Some? && Riding(held.value.rental) {
          RunOutFails(db, v, held.value.id, held, play);
        }
      }
    }
  }

  lemma {:induction false} RunOutFails(db: Db, v: nat, id: nat, held: Option<Held>, play: Play)
    requires Inv(db) && HeldFits(db, v, held) && held.Some? && held.value.id == id && Riding(held.value.rental)
    requires v in db.vehicles && db.vehicles[v].begins.Some?
    requires PlayVehicle(db.vehicles[v], ModeOf(held), db.clock) == Ok(play) && play.ranOut.Some?
    ensures var r := EndRide(Booked(db, v, ModeOf(held), play), id, DepletedAt(play));
            r.Err? ==> Expected(r.error)
  {
    assert RowIn(db, id) && VehicleOk(db.vehicles[v], db.clock);
    var rider := LiveOn(db, v);
    assert HoldsVehicle(db, id, v);
    HoldersAreOne(db, id, rider.value);
    HandedIsTheRider(db, v, held, id);
    RunOutRowFails(id, db.rows[id], db.vehicles[v], ModeOf(held), play, db.clock);
  }

  lemma {:induction false} RunOutRowFails(id: nat, row: Row, vehicle: Vehicle, mode: Mode, play: Play, clock: int)
    requires RowOk(id, row, clock) && Riding(row.rental) && HeldOk(row, vehicle) && VehicleOk(vehicle, clock)
    requires vehicle.begins.Some? && WholeMoment(clock) && PlayVehicle(vehicle, mode, clock) == Ok(play)
    requires ModeFits(row, mode) && play.ranOut.Some?
    ensures var r := EndRow(id, Credited(row, mode, play, clock), clock, DepletedAt(play));
            && (r.Err? ==> Expected(r.error))
            && (r.Ok? ==> r.value.rental.vehicle == row.rental.vehicle)
  {
    CreditedBalances(id, row, vehicle, mode, play, clock);
    RunOutVehicle(vehicle, mode, play, clock);
    EndRowFails(id, Credited(row, mode, play, clock), clock, DepletedAt(play));
  }

  lemma {:induction false} TargetFails(db: Db, id: nat)
    requires Inv(db) && id in db.rows
    ensures ReconciledTarget(db, id).Err? ==> Expected(ReconciledTarget(db, id).error)
  {
    assert RowIn(db, id);
    ReconcileFails(db, db.rows[id].rental.vehicle, Some(Held(id, db.rows[id].rental)));
  }

  lemma {:induction false} RideFails(db: Db, action: Action, caller: nat, id: nat, fit: bool)
    requires Inv(db)
    ensures RideWithin(db, action, caller, id, fit).Err? ==> Expected(RideWithin(db, action, caller, id, fit).error)
  {
    if RentalOf(db, caller, id) {
      TargetFails(db, id);
      if ReconciledTarget(db, id).Ok? {
        TargetIsKept(db, id);
        RideOnwardFails(ReconciledTarget(db, id).value, action, id, fit);
      }
    }
  }

  lemma {:induction false} RideOnwardFails(db: Db, action: Action, id: nat, fit: bool)
    requires Inv(db) && id in db.rows
    ensures RideOnward(db, action, id, fit).Err? ==> Expected(RideOnward(db, action, id, fit).error)
  {
    assert RowIn(db, id);
    if Overdue(db.rows[id].rental, db.clock) {
      EndReservationIsKept(db, id);
    } else if RideRefusal(db.rows[id].rental, action).None? {
      ChangingAlongFails(db, action, id);
    }
  }

  lemma {:induction false} ChangingAlongFails(db: Db, action: Action, id: nat)
    requires Inv(db) && id in db.rows && !Overdue(db.rows[id].rental, db.clock)
    requires db.rows[id].rental.stage == StageBefore(action)
    ensures var moved := MoveRow(db.rows[id], action, db.clock);
            && (moved.Err? ==> Expected(moved.error))
            && (moved.Ok? ==> Changed(db, id, moved.value, false).Ok?)
  {
    assert RowIn(db, id);
    MoveRowFails(id, db.rows[id], action, db.clock);
    if MoveRow(db.rows[id], action, db.clock).Ok? {
      MovedRowIsOk(id, db.rows[id], action, db.clock);
    }
  }

  lemma {:induction false} FinishFails(db: Db, caller: nat, id: nat, landing: Option<RefusalKind>)
    requires Inv(db)
    ensures FinishWithin(db, caller, id, landing).Err? ==> Expected(FinishWithin(db, caller, id, landing).error)
  {
    if RentalOf(db, caller, id) {
      TargetFails(db, id);
      if ReconciledTarget(db, id).Ok? {
        TargetIsKept(db, id);
        FinishOnwardFails(ReconciledTarget(db, id).value, id, landing);
      }
    }
  }

  lemma {:induction false} FinishOnwardFails(db: Db, id: nat, landing: Option<RefusalKind>)
    requires Inv(db) && id in db.rows
    ensures FinishOnward(db, id, landing).Err? ==> Expected(FinishOnward(db, id, landing).error)
  {
    assert RowIn(db, id);
    if Riding(db.rows[id].rental) {
      FinishingFails(db, id);
      if EndRide(db, id, Ending(UserFinished, db.clock, None)).Ok? {
        FinishingStores(db, id);
      }
    }
  }

  lemma {:induction false} FinishingFails(db: Db, id: nat)
    requires Inv(db) && id in db.rows && Riding(db.rows[id].rental)
    ensures var r := EndRide(db, id, Ending(UserFinished, db.clock, None));
            r.Err? ==> Expected(r.error)
  {
    assert RowIn(db, id);
    EndRowFails(id, db.rows[id], db.clock, Ending(UserFinished, db.clock, None));
    if EndRow(id, db.rows[id], db.clock, Ending(UserFinished, db.clock, None)).Ok? {
      EndedRowIsOk(id, db.rows[id], db.clock, Ending(UserFinished, db.clock, None));
    }
  }

  lemma {:induction false} CurrentFails(db: Db, caller: nat)
    requires Inv(db)
    ensures CurrentWithin(db, caller).Err? ==> Expected(CurrentWithin(db, caller).error)
  {
    LiveAtIsKept(db, LiveOf(db, caller));
    var (released, held) := LiveAt(db, LiveOf(db, caller)).value;
    CurrentIs(db, caller, released, held);
    if held.Some? && Riding(released.rows[held.value].rental) {
      CurrentTargetFails(released, held.value, caller);
    }
  }

  lemma {:induction false} CurrentTargetFails(db: Db, held: nat, caller: nat)
    requires Inv(db) && held in db.rows
    ensures var r := ReconciledTarget(db, held);
            && (r.Err? ==> Expected(r.error))
            && (r.Ok? ==> var onward := CurrentOnward(r.value, caller); onward.Err? ==> Expected(onward.error))
  {
    TargetFails(db, held);
    if ReconciledTarget(db, held).Ok? {
      TargetIsKept(db, held);
      CurrentOnwardFails(ReconciledTarget(db, held).value, caller);
    }
  }

  lemma {:induction false} CurrentOnwardFails(db: Db, caller: nat)
    requires Inv(db)
    ensures CurrentOnward(db, caller).Err? ==> Expected(CurrentOnward(db, caller).error)
  {
    LiveAtIsKept(db, LiveOf(db, caller));
  }

  lemma {:induction false} FleetFails(db: Db, read: Db, vs: seq<nat>)
    requires Inv(db) && NoRepeats(vs) && AsRead(db, read, vs)
    ensures ReconcileFleet(db, read, vs).Err? ==> Expected(ReconcileFleet(db, read, vs).error)
    decreases |vs|
  {
    if vs != [] {
      var held := HolderOf(read, vs[0]);
      ReconcileFails(db, vs[0], held);
      if Reconcile(db, vs[0], held).Ok? {
        ReconcileIsKept(db, vs[0], held);
        LaterVehiclesAsRead(db, Reconcile(db, vs[0], held).value, read, vs, held);
        FleetFails(Reconcile(db, vs[0], held).value, read, vs[1..]);
      }
    }
  }

  lemma {:induction false} SettlingNeverFails(db: Db, id: nat, from: PaymentStatus, outcome: Outcome)
    requires Inv(db) && id in db.rows && db.rows[id].invoice.Some?
    requires db.rows[id].invoice.value.payment.status == from && OutcomeUsable(outcome) && outcome.moment == db.clock
    ensures SettleRow(db, id, from, outcome).Ok?
  {
    assert RowIn(db, id);
  }

  /** In a reachable state the only failures left are the expected ones; reservations, cancellations, expiries
      and payments meet none. */
  lemma {:induction false} OnlyExpectedFailures(db: Db, timed: Timed)
    requires Reachable(db) && Timely(db.clock, [timed])
    ensures var r := Perform(db.(clock := timed.moment), timed.step);
            && (r.Err? ==> Expected(r.error))
            && (r.Err? ==> timed.step.Ride? || timed.step.Finish? || timed.step.Current? || timed.step.Tick?)
  {
    ReachableIsInv(db);
    assert [timed][0] == timed;
    LaterIsInv(db, timed.moment);
    var now := db.(clock := timed.moment);
    if timed.step.Ride? || timed.step.Finish? || timed.step.Current? || timed.step.Tick? {
      MovingFails(now, timed.step);
    } else {
      OthersNeverFail(now, timed.step);
    }
  }

  lemma {:induction false} MovingFails(db: Db, step: Step)
    requires Inv(db) && (step.Tick? ==> NoRepeats(step.vehicles))
    requires step.Ride? || step.Finish? || step.Current? || step.Tick?
    ensures Perform(db, step).Err? ==> Expected(Perform(db, step).error)
  {
    match step
    case Ride(action, caller, id, fit) => RideFails(db, action, caller, id, fit);
    case Finish(caller, id, landing) => FinishFails(db, caller, id, landing);
    case Current(caller) => CurrentFails(db, caller);
    case Tick(vs) => FleetFails(db, db, vs);
  }

  lemma {:induction false} OthersNeverFail(db: Db, step: Step)
    requires Inv(db) && !(step.Ride? || step.Finish? || step.Current? || step.Tick?)
    ensures Perform(db, step).Ok?
  {
    match step
    case Cancel(caller, id) => CancelIsKept(db, caller, id);
    case Expire(id) => ExpireIsKept(db, id);
    case Reserve(caller, v, id, zone, rates, available) => ReserveIsKept(db, caller, v, id, zone, rates, available);
    case Notifications(caller) => LiveAtIsKept(db, LiveOf(db, caller));
    case Attempt(id, declined) => AttemptNeverFails(db, id, declined);
    case Pay(caller, id) => PayNeverFails(db, caller, id);
    case Observe(v, begins) =>
  }

  lemma {:induction false} AttemptNeverFails(db: Db, id: nat, declined: bool)
    requires Inv(db)
    ensures AttemptWithin(db, id, declined).Ok?
  {
    if id in db.rows && db.rows[id].invoice.Some? && db.rows[id].invoice.value.payment.status == Pending {
      SettlingNeverFails(db, id, Pending, if declined then Declined(db.clock) else Paid(db.clock));
    }
  }

  lemma {:induction false} PayNeverFails(db: Db, caller: nat, id: nat)
    requires Inv(db)
    ensures PayWithin(db, caller, id).Ok?
  {
    if id in db.rows && db.rows[id].invoice.Some? && db.rows[id].invoice.value.payment.status == Failed {
      SettlingNeverFails(db, id, Failed, Paid(db.clock));
    }
  }
}
