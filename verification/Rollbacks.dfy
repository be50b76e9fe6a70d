/** Exactly when a command of a rental is rolled back
    (backend/internal/rentals/ride.go, finish.go, current.go, progress.go, segment.go). */
module Rollbacks {
  import opened Wrappers
  import opened Energy
  import opened Invoices
  import opened Rentals
  import opened RowSteps
  import opened Journeys
  import opened Fleet
  import opened Operations
  import opened Invariants
  import opened Keeping
  import opened Lifecycle
  import opened Discovery
  import opened Ticks
  import opened Outcomes
  import opened Answers
  import Burning
  import Failures

  // ---------- the vehicle brought to the moment ----------

  /** A first reading that begins no journey. */
  predicate Unreadable(vehicle: Vehicle) {
    vehicle.begins.Some? && vehicle.model.None? && !StateUsable(vehicle.begins.value)
  }

  /** The vehicle of a rental cannot be brought to the moment for it. */
  ghost predicate TargetBreaks(db: Db, id: nat)
    requires id in db.rows
  {
    var v := db.rows[id].rental.vehicle;
    if Live(db.rows[id].rental) then Breaks(db, v) else v in db.vehicles && Unreadable(db.vehicles[v])
  }

  lemma {:induction false} TargetFailsExactlyWhen(db: Db, id: nat)
    requires Inv(db) && id in db.rows
    ensures ReconciledTarget(db, id).Err? <==> TargetBreaks(db, id)
  {
    if Live(db.rows[id].rental) {
      TheRiderIsFound(db, id);
      ReconcileFailsExactlyWhen(db, db.rows[id].rental.vehicle);
    } else {
      OverFailsExactlyWhen(db, id);
    }
  }

  lemma {:induction false} OverFailsExactlyWhen(db: Db, id: nat)
    requires Inv(db) && id in db.rows && !Live(db.rows[id].rental)
    ensures ReconciledTarget(db, id).Err? <==>
            db.rows[id].rental.vehicle in db.vehicles && Unreadable(db.vehicles[db.rows[id].rental.vehicle])
  {
    OverIsFree(db, id);
    var v := db.rows[id].rental.vehicle;
    if v in db.vehicles && db.vehicles[v].begins.Some? {
      assert VehicleOk(db.vehicles[v], db.clock);
      PlayFailsExactlyWhen(db.vehicles[v], Free, db.clock);
      if PlayVehicle(db.vehicles[v], Free, db.clock).Ok? {
        IdlePlayIsOk(db.vehicles[v], Free, db.clock);
      }
    }
  }

  /** The sources of the vehicle of a ride do not last to the moment. */
  ghost predicate RunsOutNow(db: Db, id: nat)
    requires id in db.rows
  {
    var r := db.rows[id].rental;
    && Riding(r) && Modelled(db, r.vehicle) && Burning.ValidSources(db.vehicles[r.vehicle].model.value.sources)
    && UsedUpBy(db.vehicles[r.vehicle].model.value, ModeOfRide(r), db.clock)
  }

  /** A ride brought to its moment is over exactly when its sources do not last to it. */
  lemma {:induction false} RideEndsExactlyWhen(db: Db, id: nat, reconciled: Db)
    requires Inv(db) && id in db.rows && Riding(db.rows[id].rental) && ReconciledTarget(db, id) == Ok(reconciled)
    ensures id in reconciled.rows && (!Live(reconciled.rows[id].rental) <==> RunsOutNow(db, id))
    ensures Live(reconciled.rows[id].rental) ==> Bare(reconciled.rows[id]) == Bare(db.rows[id])
  {
    assert RowIn(db, id);
    TheRiderIsFound(db, id);
    var v, mode := db.rows[id].rental.vehicle, ModeOfRide(db.rows[id].rental);
    var vehicle := db.vehicles[v];
    assert VehicleOk(vehicle, db.clock);
    if vehicle.model.Some? {
      PlayRunsOutExactlyWhen(vehicle, mode, db.clock);
      PlayedEndsExactlyWhen(db, id, mode, PlayVehicle(vehicle, mode, db.clock).value, reconciled);
    } else if vehicle.begins.Some? {
      FirstPlayRunsNothingOut(vehicle, mode, db.clock);
      PlayedEndsExactlyWhen(db, id, mode, PlayVehicle(vehicle, mode, db.clock).value, reconciled);
    }
  }

  lemma {:induction false} PlayedEndsExactlyWhen(db: Db, id: nat, mode: Mode, play: Play, reconciled: Db)
    requires Inv(db) && id in db.rows && Riding(db.rows[id].rental) && mode == ModeOfRide(db.rows[id].rental)
    requires LiveOn(db, db.rows[id].rental.vehicle) == Some(id) && db.rows[id].rental.vehicle in db.vehicles
    requires db.vehicles[db.rows[id].rental.vehicle].begins.Some?
    requires PlayVehicle(db.vehicles[db.rows[id].rental.vehicle], mode, db.clock) == Ok(play)
    requires ReconciledTarget(db, id) == Ok(reconciled)
    ensures id in reconciled.rows && (!Live(reconciled.rows[id].rental) <==> play.ranOut.Some?)
    ensures Live(reconciled.rows[id].rental) ==> Bare(reconciled.rows[id]) == Bare(db.rows[id])
  {
    if play.ranOut.Some? {
      RunOutEnds(db, id, mode, play);
    }
  }

  // ---------- start, pause and resume ----------

  /** A rental a command applies to, and which cannot be moved along: the mode it leaves has lasted no time, or what it
      has taken cannot be priced. */
  predicate CannotMove(row: Row, action: Action, fit: bool, moment: int) {
    && (match action
        case Start => row.rental.stage == Reserved && moment < row.rental.expiresAt && fit
        case Pause => row.rental.stage == Active
        case Resume => row.rental.stage == Stage.Paused)
    && ((row.rental.modeStartedAt.Some? && moment <= row.rental.modeStartedAt.value) || Price(row, moment).Err?)
  }

  lemma {:induction false} OnwardFailsExactlyWhen(db: Db, action: Action, id: nat, fit: bool)
    requires Inv(db) && id in db.rows
    ensures RideOnward(db, action, id, fit).Err? <==> CannotMove(db.rows[id], action, fit, db.clock)
  {
    assert RowIn(db, id);
    var row := db.rows[id];
    if Overdue(row.rental, db.clock) {
      EndReservationIsKept(db, id);
    } else if row.rental.stage == StageBefore(action) {
      MoveRowExactlyWhen(id, row, action, db.clock);
      Failures.ChangingAlongFails(db, action, id);
    }
  }

  lemma {:induction false} BareMovesAlike(a: Row, b: Row, action: Action, fit: bool, moment: int)
    requires Bare(a) == Bare(b)
    ensures CannotMove(a, action, fit, moment) == CannotMove(b, action, fit, moment)
  {
    PricingIsBare(a, moment);
    PricingIsBare(b, moment);
  }

  /** A start, a pause or a resume is rolled back exactly when the vehicle of the rental cannot be brought to its
      moment, or the rental did not run out by then, is what the command applies to, and cannot be moved along. */
  lemma {:induction false} RideFailsExactlyWhen(db: Db, action: Action, caller: nat, id: nat, fit: bool)
    requires Inv(db)
    ensures RideWithin(db, action, caller, id, fit).Err? <==>
              && RentalOf(db, caller, id)
              && (TargetBreaks(db, id) || (!RunsOutNow(db, id) && CannotMove(db.rows[id], action, fit, db.clock)))
  {
    if RentalOf(db, caller, id) {
      TargetFailsExactlyWhen(db, id);
      if ReconciledTarget(db, id).Ok? {
        var reconciled := ReconciledTarget(db, id).value;
        TargetIsKept(db, id);
        RideIsOnward(db, action, caller, id, fit, reconciled);
        OnwardFailsExactlyWhen(reconciled, action, id, fit);
        TargetMovesAlike(db, id, reconciled, action, fit);
      }
    }
  }

  lemma {:induction false} TargetMovesAlike(db: Db, id: nat, reconciled: Db, action: Action, fit: bool)
    requires Inv(db) && id in db.rows && ReconciledTarget(db, id) == Ok(reconciled)
    ensures id in reconciled.rows && reconciled.clock == db.clock
    ensures CannotMove(reconciled.rows[id], action, fit, db.clock) <==>
            !RunsOutNow(db, id) && CannotMove(db.rows[id], action, fit, db.clock)
  {
    assert RowIn(db, id);
    TargetIsKept(db, id);
    if Riding(db.rows[id].rental) {
      RideEndsExactlyWhen(db, id, reconciled);
      if Live(reconciled.rows[id].rental) {
        BareMovesAlike(db.rows[id], reconciled.rows[id], action, fit, db.clock);
      } else {
        RideGoesOnOrRanOut(db, id, reconciled);
      }
    } else {
      IdleTargetStands(db, id);
    }
  }

  // ---------- finish ----------

  /** A ride that cannot be ended at a moment: its mode has lasted no time, or what it took cannot be priced. */
  predicate CannotFinish(row: Row, moment: int) {
    Riding(row.rental) && (moment <= row.rental.modeStartedAt.value || Price(row, moment).Err?)
  }

  lemma {:induction false} FinishOnwardFailsExactlyWhen(db: Db, id: nat, landing: Option<RefusalKind>)
    requires Inv(db) && id in db.rows
    ensures FinishOnward(db, id, landing).Err? <==> landing.None? && CannotFinish(db.rows[id], db.clock)
  {
    assert RowIn(db, id);
    if Riding(db.rows[id].rental) && landing.None? {
      EndRowExactlyWhen(id, db.rows[id], db.clock, Ending(UserFinished, db.clock, None));
      EndedRideIsChanged(db, id, Ending(UserFinished, db.clock, None));
      if EndRide(db, id, Ending(UserFinished, db.clock, None)).Ok? {
        FinishingStores(db, id);
      }
    }
  }

  /** A finish is rolled back exactly when the vehicle of the rental cannot be brought to its moment, or the ride did
      not run out by then, may be left where it stands, and cannot be ended; a repeated one never for its own sake. */
  lemma {:induction false} FinishFailsExactlyWhen(db: Db, caller: nat, id: nat, landing: Option<RefusalKind>)
    requires Inv(db)
    ensures FinishWithin(db, caller, id, landing).Err? <==>
              && RentalOf(db, caller, id)
              && (TargetBreaks(db, id)
                  || (!RunsOutNow(db, id) && landing.None? && CannotFinish(db.rows[id], db.clock)))
  {
    if RentalOf(db, caller, id) {
      TargetFailsExactlyWhen(db, id);
      if ReconciledTarget(db, id).Ok? {
        var reconciled := ReconciledTarget(db, id).value;
        TargetIsKept(db, id);
        FinishIsOnward(db, caller, id, landing, reconciled);
        FinishOnwardFailsExactlyWhen(reconciled, id, landing);
        TargetFinishesAlike(db, id, reconciled);
      }
    }
  }

  lemma {:induction false} TargetFinishesAlike(db: Db, id: nat, reconciled: Db)
    requires Inv(db) && id in db.rows && ReconciledTarget(db, id) == Ok(reconciled)
    ensures id in reconciled.rows && reconciled.clock == db.clock
    ensures CannotFinish(reconciled.rows[id], db.clock) <==> !RunsOutNow(db, id) && CannotFinish(db.rows[id], db.clock)
  {
    assert RowIn(db, id);
    TargetIsKept(db, id);
    if Riding(db.rows[id].rental) {
      RideEndsExactlyWhen(db, id, reconciled);
      if Live(reconciled.rows[id].rental) {
        PricingIsBare(db.rows[id], db.clock);
        PricingIsBare(reconciled.rows[id], db.clock);
      } else {
        RideGoesOnOrRanOut(db, id, reconciled);
      }
    } else {
      IdleTargetStands(db, id);
    }
  }

  // ---------- what is current ----------

  /** A ride whose account cannot be told about it. */
  ghost predicate CannotBeShown(db: Db, id: nat)
    requires id in db.rows
  {
    && Riding(db.rows[id].rental)
    && (TargetBreaks(db, id) || (!RunsOutNow(db, id) && Price(db.rows[id], db.clock).Err?))
  }

  lemma {:induction false} OnwardIsShownExactlyWhen(db: Db, caller: nat)
    requires Inv(db)
    ensures CurrentOnward(db, caller).Err? <==>
            exists id :: HoldsAccount(db, id, caller) && Riding(db.rows[id].rental) && Price(db.rows[id], db.clock).Err?
  {
    ReleasedShowsTheHolder(db, caller);
    if LiveOf(db, caller).Some? {
      TheRiderIsFound(db, LiveOf(db, caller).value);
    }
    forall id: nat | HoldsAccount(db, id, caller)
      ensures LiveOf(db, caller) == Some(id)
    {
      TheRiderIsFound(db, id);
    }
  }

  /** A ride that was brought to the moment is told about exactly when it has run out or can be priced. */
  lemma {:induction false} RideIsShownExactlyWhen(db: Db, caller: nat, id: nat, reconciled: Db)
    requires Inv(db) && HoldsAccount(db, id, caller) && Riding(db.rows[id].rental)
    requires ReconciledTarget(db, id) == Ok(reconciled)
    ensures CurrentOnward(reconciled, caller).Err? <==> !RunsOutNow(db, id) && Price(db.rows[id], db.clock).Err?
  {
    TargetIsKept(db, id);
    RideEndsExactlyWhen(db, id, reconciled);
    OnwardIsShownExactlyWhen(reconciled, caller);
    if Live(reconciled.rows[id].rental) {
      PricingIsBare(db.rows[id], db.clock);
      PricingIsBare(reconciled.rows[id], db.clock);
      StillHeldByOne(db, reconciled, caller, id);
    } else {
      NobodyHoldsItAfterwards(db, reconciled, caller, id);
    }
  }

  lemma {:induction false} StillHeldByOne(before: Db, after: Db, caller: nat, id: nat)
    requires Inv(after) && HoldsAccount(before, id, caller) && id in after.rows && Live(after.rows[id].rental)
    requires Bare(after.rows[id]) == Bare(before.rows[id])
    ensures HoldsAccount(after, id, caller) && after.rows[id].rental == before.rows[id].rental
    ensures forall other :: HoldsAccount(after, other, caller) ==> other == id
  {
    assert Bare(after.rows[id]).rental == Bare(before.rows[id]).rental;
    forall other: nat | HoldsAccount(after, other, caller)
      ensures other == id
    {
      HoldersAreOne(after, other, id);
    }
  }

  /** The read of what is current fails exactly when the account is in a ride whose vehicle cannot be brought to the
      moment, or which did not run out by then and cannot be priced. */
  lemma {:induction false} CurrentFailsExactlyWhen(db: Db, caller: nat)
    requires Inv(db)
    ensures CurrentWithin(db, caller).Err? <==> exists id :: HoldsAccount(db, id, caller) && CannotBeShown(db, id)
  {
    ReleasedShowsTheHolder(db, caller);
    var (released, held) := LiveAt(db, LiveOf(db, caller)).value;
    CurrentIs(db, caller, released, held);
    forall id: nat | HoldsAccount(db, id, caller) && Riding(db.rows[id].rental)
      ensures held == Some(id) && released == db
    {
      TheRiderIsFound(db, id);
    }
    if held.Some? && Riding(released.rows[held.value].rental) {
      TargetFailsExactlyWhen(db, held.value);
      if ReconciledTarget(db, held.value).Ok? {
        RideIsShownExactlyWhen(db, caller, held.value, ReconciledTarget(db, held.value).value);
      }
    }
  }
}
