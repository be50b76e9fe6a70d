/** Every transaction keeps what holds of the tables and rewrites no history. */
module Keeping {
  import opened Wrappers
  import opened Energy
  import opened Invoices
  import opened Rentals
  import opened RowSteps
  import opened Windows
  import opened Fleet
  import opened Operations
  import opened Invariants

  /** What a committed transaction leaves. */
  ghost predicate Kept(before: Db, after: Db) {
    Inv(after) && after.clock == before.clock && Evolved(before, after)
  }

  lemma {:induction false} KeptTwice(a: Db, b: Db, c: Db)
    requires Kept(a, b) && Kept(b, c)
    ensures Kept(a, c)
  {
    EvolvedTwice(a, b, c);
  }

  lemma {:induction false} KeptAsIs(db: Db)
    requires Inv(db)
    ensures Kept(db, db)
  {
  }

  lemma {:induction false} ChangedIsKept(db: Db, id: nat, row: Row, v: nat, vehicle: Vehicle)
    requires Inv(db) && id in db.rows && v in db.vehicles && row.rental.vehicle == v
    requires Continues(db.rows[id], row) && Evolves(db.rows[id], row)
    requires RowOk(id, row, db.clock) && LedgerOk(row) && HeldOk(row, vehicle) && VehicleOk(vehicle, db.clock)
    requires Live(db.rows[id].rental) || vehicle == db.vehicles[v]
    ensures Kept(db, WithBoth(db, id, row, v, vehicle))
  {
    ChangedIsInv(db, id, row, v, vehicle);
    var after := WithBoth(db, id, row, v, vehicle);
    forall other | other in db.rows
      ensures other in after.rows && Evolves(db.rows[other], after.rows[other])
    {
      EvolvesFromItself(db.rows[other]);
    }
  }

  lemma {:induction false} EvolvesFromItself(row: Row)
    ensures Evolves(row, row)
  {
  }

  // ---------- reservations released ----------

  lemma {:induction false} ReleasedIsKept(db: Db, id: nat, ending: Stage, at: int)
    requires Inv(db) && id in db.rows && db.rows[id].rental.stage == Reserved
    requires (ending == Cancelled && at == db.clock && !Overdue(db.rows[id].rental, db.clock))
             || (ending == Expired && at == db.rows[id].rental.expiresAt && Overdue(db.rows[id].rental, db.clock))
    ensures var changed := Changed(db, id, EndReservationAs(db.rows[id], ending, at).0, false);
            && changed.Ok? && Kept(db, changed.value)
            && changed.value.rows[id].rental.stage == ending
  {
    assert RowIn(db, id);
    var row := EndReservationAs(db.rows[id], ending, at).0;
    var v := row.rental.vehicle;
    ReleasedRowIsOk(id, db.rows[id], ending, at, db.clock);
    ChangedIsKept(db, id, row, v, Announced(db.vehicles[v], false));
  }

  /** An overdue reservation is always released, at its own deadline. */
  lemma {:induction false} EndReservationIsKept(db: Db, id: nat)
    requires Inv(db) && id in db.rows && Overdue(db.rows[id].rental, db.clock)
    ensures var released := EndReservation(db, id);
            && released.Ok? && Kept(db, released.value)
            && released.value.rows[id].rental.stage == Expired
            && released.value.rows[id].rental.endedAt == Some(db.rows[id].rental.expiresAt)
  {
    ReleasedIsKept(db, id, Expired, db.rows[id].rental.expiresAt);
  }

  lemma {:induction false} LiveAtIsKept(db: Db, found: Option<nat>)
    requires Inv(db) && (found.Some? ==> found.value in db.rows)
    ensures var r := LiveAt(db, found);
            && r.Ok? && Kept(db, r.value.0)
            && (r.value.1.Some? ==> r.value == (db, found) && !Overdue(db.rows[found.value].rental, db.clock))
  {
    KeptAsIs(db);
    if found.Some? && Overdue(db.rows[found.value].rental, db.clock) {
      EndReservationIsKept(db, found.value);
    }
  }

  // ---------- the model meets a moment ----------

  /** The sum of driving grows with the moment while the ride drives, and not while it stands. */
  lemma {:induction false} OpenTimeGrows(row: Row, mode: Mode, clock: int, at: int, later: int)
    requires InProgress(row, mode, clock) && (mode == Driving || mode == Mode.Paused)
    requires row.rental.modeStartedAt.value <= at <= later
    ensures TimeIn(row.segments, Driving, later) ==
            TimeIn(row.segments, Driving, at) + (if mode == Driving then later - at else 0)
  {
    CoverIsSettled(ButLast(row.segments), row.rental.startedAt.value, row.rental.modeStartedAt.value, Driving,
                   at, later);
  }

  /** What the vehicle does is what the ride holding it does, or nothing when the command named another. */
  predicate ModeFits(row: Row, mode: Mode) {
    mode == Free || (Riding(row.rental) && mode == if row.rental.stage == Active then Driving else Mode.Paused)
  }

  lemma {:induction false} CreditedBalances(id: nat, row: Row, vehicle: Vehicle, mode: Mode, play: Play, clock: int)
    requires RowOk(id, row, clock) && Riding(row.rental) && HeldOk(row, vehicle) && VehicleOk(vehicle, clock)
    requires vehicle.begins.Some? && WholeMoment(clock) && PlayVehicle(vehicle, mode, clock) == Ok(play)
    requires ModeFits(row, mode)
    ensures var credited := Credited(row, mode, play, clock);
            && credited == row.(drove := credited.drove, missed := credited.missed)
            && credited.drove >= 0 && credited.missed >= 0
            && row.rental.modeStartedAt.value <= play.until
            && credited.drove + credited.missed == TimeIn(row.segments, Driving, play.until)
  {
    var riding := if row.rental.stage == Active then Driving else Mode.Paused;
    if vehicle.model.None? {
      FirstPlayBegins(vehicle, mode, clock);
      OpenTimeIsNatural(row, riding, clock, clock);
    } else {
      LaterPlayMovesOn(vehicle, mode, clock);
      OpenTimeGrows(row, riding, clock, play.from, play.until);
    }
  }

  lemma {:induction false} OpenTimeIsNatural(row: Row, mode: Mode, clock: int, at: int)
    requires InProgress(row, mode, clock) && row.rental.modeStartedAt.value <= at
    ensures TimeIn(row.segments, Driving, at) >= 0
  {
    CoverAddsUp(ButLast(row.segments), row.rental.startedAt.value, row.rental.modeStartedAt.value, at);
  }

  /** Without a run-out, the row and the vehicle are as they must be again. */
  lemma {:induction false} CreditedIsOk(id: nat, row: Row, vehicle: Vehicle, mode: Mode, play: Play, clock: int)
    requires RowOk(id, row, clock) && Live(row.rental) && HeldOk(row, vehicle) && VehicleOk(vehicle, clock)
    requires vehicle.begins.Some? && WholeMoment(clock) && PlayVehicle(vehicle, mode, clock) == Ok(play)
    requires ModeFits(row, mode) && play.ranOut.None?
    ensures var credited := Credited(row, mode, play, clock);
            && RowOk(id, credited, clock) && HeldOk(credited, play.vehicle) && VehicleOk(play.vehicle, clock)
            && Continues(row, credited) && Evolves(row, credited) && LedgerOk(credited)
            && credited.rental == row.rental
  {
    if Riding(row.rental) {
      CreditedBalances(id, row, vehicle, mode, play, clock);
    }
    if vehicle.model.None? {
      FirstPlayBegins(vehicle, mode, clock);
    } else {
      LaterPlayMovesOn(vehicle, mode, clock);
    }
  }

  // ---------- rides ended ----------

  lemma {:induction false} ClosingKeepsClosed(segments: seq<Segment>, at: int)
    ensures forall i :: 0 <= i < |segments| && segments[i].to.Some? ==> Closed(segments, at)[i] == segments[i]
    decreases |segments|
  {
    if segments != [] {
      ClosingKeepsClosed(ButLast(segments), at);
      assert segments == ButLast(segments) + [Last(segments)];
    }
  }

  /** Ending a ride rewrites nothing of its history. */
  lemma {:induction false} EndingEvolves(row: Row, ended: Row, ending: Ending)
    requires Live(row.rental) && EndsAs(row, ended, ending)
    ensures Continues(row, ended) && Evolves(row, ended)
  {
    ClosingKeepsClosed(row.segments, ending.endedAt);
  }

  /** A ride its sources ran out of ends at the first whole microsecond after, never later than the moment it
      was noticed, and its vehicle is out of service. */
  lemma {:induction false} RunOutIsOk(id: nat, row: Row, vehicle: Vehicle, mode: Mode, play: Play, clock: int)
    requires RowOk(id, row, clock) && Riding(row.rental) && HeldOk(row, vehicle) && VehicleOk(vehicle, clock)
    requires vehicle.begins.Some? && WholeMoment(clock) && PlayVehicle(vehicle, mode, clock) == Ok(play)
    requires ModeFits(row, mode) && play.ranOut.Some?
    requires EndRow(id, Credited(row, mode, play, clock), clock, DepletedAt(play)).Ok?
    ensures var ended := EndRow(id, Credited(row, mode, play, clock), clock, DepletedAt(play)).value;
            && RowOk(id, ended, clock) && LedgerOk(ended) && EndsAs(row, ended, DepletedAt(play))
            && VehicleOk(Announced(play.vehicle, true), clock)
            && play.vehicle.model.Some?
  {
    CreditedBalances(id, row, vehicle, mode, play, clock);
    RunOutVehicle(vehicle, mode, play, clock);
    var credited := Credited(row, mode, play, clock);
    EndedRowIsOk(id, credited, clock, DepletedAt(play));
    RunOutBalances(id, row, credited, play, clock);
  }

  lemma {:induction false} RunOutVehicle(vehicle: Vehicle, mode: Mode, play: Play, clock: int)
    requires VehicleOk(vehicle, clock) && vehicle.begins.Some? && WholeMoment(clock)
    requires PlayVehicle(vehicle, mode, clock) == Ok(play) && play.ranOut.Some?
    ensures VehicleOk(Announced(play.vehicle, true), clock) && play.vehicle.model.Some?
    ensures play.ranOut == Some(play.until) && DepletedAt(play).endedAt <= clock && EndingOk(DepletedAt(play))
  {
    RunOutIsALaterPlay(vehicle, mode, play, clock);
    LaterPlayMovesOn(vehicle, mode, clock);
    CarriedForwardInTime(play.until, clock);
  }

  /** Carried forward to a whole microsecond, a moment is no later than any whole one after it. */
  lemma {:induction false} CarriedForwardInTime(moment: int, clock: int)
    requires moment <= clock && WholeMoment(clock)
    ensures WholeMicrosecondFirstAfter(moment) <= clock
  {
  }

  /** The play that begins a model runs nothing out. */
  lemma {:induction false} RunOutIsALaterPlay(vehicle: Vehicle, mode: Mode, play: Play, clock: int)
    requires VehicleOk(vehicle, clock) && vehicle.begins.Some? && WholeMoment(clock)
    requires PlayVehicle(vehicle, mode, clock) == Ok(play) && play.ranOut.Some?
    ensures vehicle.model.Some?
  {
    if vehicle.model.None? {
      FirstPlayBegins(vehicle, mode, clock);
    }
  }

  lemma {:induction false} RunOutBalances(id: nat, row: Row, credited: Row, play: Play, clock: int)
    requires RowOk(id, row, clock) && Riding(row.rental) && row.rental.modeStartedAt.value <= play.until
    requires credited == row.(drove := credited.drove, missed := credited.missed) && play.ranOut == Some(play.until)
    requires credited.drove + credited.missed == TimeIn(row.segments, Driving, play.until)
    requires RowOk(id, credited, clock) && DepletedAt(play).endedAt <= clock && EndingOk(DepletedAt(play))
    requires EndRow(id, credited, clock, DepletedAt(play)).Ok?
    ensures LedgerOk(EndRow(id, credited, clock, DepletedAt(play)).value)
  {
    EndedRowIsOk(id, credited, clock, DepletedAt(play));
    OpenTimeGrows(row, if row.rental.stage == Active then Driving else Mode.Paused, clock, play.until,
                  DepletedAt(play).endedAt);
  }

  // ---------- one vehicle reconciled ----------

  /** The rental a command hands to a reconciliation, as the tables hold it. */
  ghost predicate HeldFits(db: Db, v: nat, held: Option<Held>) {
    held.Some? ==>
      && held.value.id in db.rows && db.rows[held.value.id].rental == held.value.rental
      && held.value.rental.vehicle == v
  }

  /** What a reconciliation leaves: nothing of another vehicle is touched, and the rental it was handed is either
      as it stood, with its model at the moment, or ended because its sources ran out. */
  ghost predicate Reconciled(before: Db, after: Db, v: nat, held: Option<Held>) {
    && after.rows.Keys == before.rows.Keys && after.vehicles.Keys == before.vehicles.Keys
    && (forall id :: id in before.rows ==> after.rows[id].rental.vehicle == before.rows[id].rental.vehicle)
    && (forall id :: id in before.rows && before.rows[id].rental.vehicle != v ==> after.rows[id] == before.rows[id])
    && (forall w :: w in before.vehicles && w != v ==> after.vehicles[w] == before.vehicles[w])
    && (held.Some? && held.value.id in after.rows && Live(after.rows[held.value.id].rental) ==>
          && after.rows[held.value.id].rental == held.value.rental
          && (v in after.vehicles && after.vehicles[v].model.Some? ==>
                after.vehicles[v].model.value.processedAt == after.clock))
    && (held.Some? && held.value.id in after.rows && !Live(after.rows[held.value.id].rental)
        && Live(held.value.rental) ==>
          after.rows[held.value.id].rental.reason == Some(EnergyDepleted))
    && (held.Some? && !Live(held.value.rental) && held.value.id in after.rows ==>
          after.rows[held.value.id].rental == held.value.rental)
  }

  lemma {:induction false} IdlePlayIsOk(vehicle: Vehicle, mode: Mode, clock: int)
    requires VehicleOk(vehicle, clock) && vehicle.begins.Some? && WholeMoment(clock) && !Spends(mode)
    requires PlayVehicle(vehicle, mode, clock).Ok?
    ensures var play := PlayVehicle(vehicle, mode, clock).value;
            && play.ranOut.None? && VehicleOk(play.vehicle, clock)
            && play.vehicle == vehicle.(model := play.vehicle.model)
            && play.vehicle.model.Some? && play.vehicle.model.value.processedAt == clock
  {
    if vehicle.model.None? {
      FirstPlayBegins(vehicle, mode, clock);
    } else {
      LaterPlayMovesOn(vehicle, mode, clock);
    }
  }

  lemma {:induction false} IdleReconcileIsKept(db: Db, v: nat, held: Option<Held>)
    requires Inv(db) && HeldFits(db, v, held) && LiveOn(db, v).None?
    requires Reconcile(db, v, held).Ok?
    ensures Kept(db, Reconcile(db, v, held).value) && Reconciled(db, Reconcile(db, v, held).value, v, held)
  {
    if held.Some? {
      assert !HoldsVehicle(db, held.value.id, v);
      assert RowIn(db, held.value.id);
    }
    if v in db.vehicles && db.vehicles[v].begins.Some? {
      var vehicle := db.vehicles[v];
      assert VehicleOk(vehicle, db.clock) && !Spends(ModeOf(held));
      IdlePlayIsOk(vehicle, ModeOf(held), db.clock);
      IdleVehicleChangedIsInv(db, v, PlayVehicle(vehicle, ModeOf(held), db.clock).value.vehicle);
    }
    forall id | id in db.rows
      ensures Evolves(db.rows[id], db.rows[id])
    {
      EvolvesFromItself(db.rows[id]);
    }
  }

  /** The window was charged and the ride goes on. */
  lemma {:induction false} PlayedThroughIsKept(db: Db, v: nat, held: Option<Held>, id: nat, play: Play)
    requires Inv(db) && HeldFits(db, v, held) && LiveOn(db, v) == Some(id)
    requires v in db.vehicles && db.vehicles[v].begins.Some?
    requires PlayVehicle(db.vehicles[v], ModeOf(held), db.clock) == Ok(play) && play.ranOut.None?
    ensures Kept(db, Booked(db, v, ModeOf(held), play))
    ensures Reconciled(db, Booked(db, v, ModeOf(held), play), v, held)
  {
    assert RowIn(db, id);
    HandedIsTheRider(db, v, held, id);
    var row, vehicle, mode := db.rows[id], db.vehicles[v], ModeOf(held);
    if vehicle.model.None? {
      FirstPlayBegins(vehicle, mode, db.clock);
    } else {
      LaterPlayMovesOn(vehicle, mode, db.clock);
    }
    CreditedIsOk(id, row, vehicle, mode, play, db.clock);
    ChangedIsKept(db, id, Credited(row, mode, play, db.clock), v, play.vehicle);
    OneChangeIsReconciled(db, v, held, id, Credited(row, mode, play, db.clock), play.vehicle);
  }

  /** One row and its vehicle changed is a reconciliation of the rental that holds it. */
  lemma {:induction false} OneChangeIsReconciled(db: Db, v: nat, held: Option<Held>, id: nat, row: Row,
                                                 vehicle: Vehicle)
    requires HeldFits(db, v, held) && id in db.rows && v in db.vehicles
    requires db.rows[id].rental.vehicle == v == row.rental.vehicle
    requires held.Some? && Live(held.value.rental) ==> held.value.id == id
    requires held.Some? && !Live(held.value.rental) ==> held.value.id != id
    requires Live(row.rental) ==> row.rental == db.rows[id].rental
    requires Live(row.rental) && vehicle.model.Some? ==> vehicle.model.value.processedAt == db.clock
    requires !Live(row.rental) ==> row.rental.reason == Some(EnergyDepleted)
    ensures Reconciled(db, WithBoth(db, id, row, v, vehicle), v, held)
  {
  }

  /** The sources ran out and the ride ends. */
  lemma {:induction false} PlayedOutIsKept(db: Db, v: nat, held: Option<Held>, id: nat, play: Play)
    requires Inv(db) && HeldFits(db, v, held) && LiveOn(db, v) == Some(id) && held.Some? && held.value.id == id
    requires v in db.vehicles && db.vehicles[v].begins.Some? && Riding(held.value.rental)
    requires PlayVehicle(db.vehicles[v], ModeOf(held), db.clock) == Ok(play) && play.ranOut.Some?
    requires EndRide(Booked(db, v, ModeOf(held), play), id, DepletedAt(play)).Ok?
    ensures var after := EndRide(Booked(db, v, ModeOf(held), play), id, DepletedAt(play)).value;
            Kept(db, after) && Reconciled(db, after, v, held)
  {
    assert RowIn(db, id);
    HandedIsTheRider(db, v, held, id);
    var row, vehicle, mode := db.rows[id], db.vehicles[v], ModeOf(held);
    RunOutIsOk(id, row, vehicle, mode, play, db.clock);
    var ended := EndRow(id, Credited(row, mode, play, db.clock), db.clock, DepletedAt(play)).value;
    EndingEvolves(row, ended, DepletedAt(play));
    RunOutIsOneChange(db, v, id, mode, play);
    ChangedIsKept(db, id, ended, v, Announced(play.vehicle, true));
    OneChangeIsReconciled(db, v, held, id, ended, Announced(play.vehicle, true));
  }

  lemma {:induction false} RunOutIsOneChange(db: Db, v: nat, id: nat, mode: Mode, play: Play)
    requires LiveOn(db, v) == Some(id) && play.ranOut.Some? && play.vehicle.model.Some?
    requires EndRow(id, Credited(db.rows[id], mode, play, db.clock), db.clock, DepletedAt(play)).Ok?
    requires var ended := EndRow(id, Credited(db.rows[id], mode, play, db.clock), db.clock, DepletedAt(play)).value;
             ended.rental.vehicle == v
    ensures EndRide(Booked(db, v, mode, play), id, DepletedAt(play)) ==
            Ok(WithBoth(db, id,
                        EndRow(id, Credited(db.rows[id], mode, play, db.clock), db.clock, DepletedAt(play)).value,
                        v, Announced(play.vehicle, true)))
  {
    var credited := Credited(db.rows[id], mode, play, db.clock);
    var ended, out := EndRow(id, credited, db.clock, DepletedAt(play)).value, Announced(play.vehicle, true);
    assert db.rows[id := credited][id := ended] == db.rows[id := ended];
    assert db.vehicles[v := play.vehicle][v := out] == db.vehicles[v := out];
  }

  lemma {:induction false} RiddenReconcileIsKept(db: Db, v: nat, held: Option<Held>, id: nat)
    requires Inv(db) && HeldFits(db, v, held) && LiveOn(db, v) == Some(id)
    requires Reconcile(db, v, held).Ok?
    ensures Kept(db, Reconcile(db, v, held).value) && Reconciled(db, Reconcile(db, v, held).value, v, held)
  {
    assert RowIn(db, id);
    HandedIsTheRider(db, v, held, id);
    if v in db.vehicles && db.vehicles[v].begins.Some? {
      var play := PlayVehicle(db.vehicles[v], ModeOf(held), db.clock).value;
      if play.ranOut.None? {
        PlayedThroughIsKept(db, v, held, id, play);
      } else {
        RunOutTakesARider(db.vehicles[v], ModeOf(held), play, db.clock);
        PlayedOutIsKept(db, v, held, id, play);
      }
    } else {
      assert VehicleOk(db.vehicles[v], db.clock);
      KeptAsIs(db);
    }
  }

  lemma {:induction false} RunOutTakesARider(vehicle: Vehicle, mode: Mode, play: Play, clock: int)
    requires VehicleOk(vehicle, clock) && vehicle.begins.Some? && WholeMoment(clock)
    requires PlayVehicle(vehicle, mode, clock) == Ok(play) && play.ranOut.Some?
    ensures mode != Free
  {
    if vehicle.model.None? {
      FirstPlayBegins(vehicle, mode, clock);
    } else {
      LaterPlayMovesOn(vehicle, mode, clock);
    }
  }

  /** A rental a command names that still holds the vehicle is the one that does. */
  lemma {:induction false} HandedIsTheRider(db: Db, v: nat, held: Option<Held>, id: nat)
    requires Inv(db) && HeldFits(db, v, held) && LiveOn(db, v) == Some(id)
    ensures ModeFits(db.rows[id], ModeOf(held))
    ensures held.Some? && Live(held.value.rental) ==> held.value.id == id
    ensures held.Some? && !Live(held.value.rental) ==> ModeOf(held) == Free && !Riding(held.value.rental)
    ensures ModeOf(held) != Free ==> Riding(held.value.rental) && Riding(db.rows[id].rental)
  {
    assert RowIn(db, id);
    if held.Some? {
      assert RowIn(db, held.value.id);
      if Live(held.value.rental) {
        HoldersAreOne(db, held.value.id, id);
      }
    }
  }

  lemma {:induction false} ReconcileIsKept(db: Db, v: nat, held: Option<Held>)
    requires Inv(db) && HeldFits(db, v, held) && Reconcile(db, v, held).Ok?
    ensures Kept(db, Reconcile(db, v, held).value) && Reconciled(db, Reconcile(db, v, held).value, v, held)
  {
    match LiveOn(db, v)
    case None => IdleReconcileIsKept(db, v, held);
    case Some(id) => RiddenReconcileIsKept(db, v, held, id);
  }
}
