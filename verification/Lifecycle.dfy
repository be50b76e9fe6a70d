/** Every command, read, tick and sweep keeps the invariants of the tables. */
module Lifecycle {
  import opened Wrappers
  import opened Energy
  import opened Invoices
  import opened Rentals
  import opened RowSteps
  import opened Fleet
  import opened Operations
  import opened Invariants
  import opened Keeping
  import Billing

  // ---------- start, pause and resume ----------

  lemma {:induction false} MovingEvolves(row: Row, moved: Row, action: Action, moment: int)
    requires Live(row.rental) && row.invoice.None? && MovesAs(row, moved, action, moment)
    requires row.rental.startedAt.Some? ==> action != Start
    ensures Continues(row, moved) && Evolves(row, moved)
  {
    ClosingKeepsClosed(row.segments, moment);
  }

  /** The model of the vehicle, if it has one, stands at the moment of the command. */
  ghost predicate AtTheMoment(db: Db, v: nat) {
    v in db.vehicles && (db.vehicles[v].model.Some? ==> db.vehicles[v].model.value.processedAt == db.clock)
  }

  lemma {:induction false} MoveIsKept(db: Db, id: nat, action: Action)
    requires Inv(db) && id in db.rows && Live(db.rows[id].rental) && !Overdue(db.rows[id].rental, db.clock)
    requires AtTheMoment(db, db.rows[id].rental.vehicle)
    requires MoveRow(db.rows[id], action, db.clock).Ok?
    ensures var changed := Changed(db, id, MoveRow(db.rows[id], action, db.clock).value, false);
            && changed.Ok? && Kept(db, changed.value)
            && changed.value.rows[id].rental.stage == StageAfter(action)
  {
    assert RowIn(db, id);
    var row, v := db.rows[id], db.rows[id].rental.vehicle;
    MovedRowIsOk(id, row, action, db.clock);
    assert VehicleOk(db.vehicles[v], db.clock);
    var moved := MoveRow(row, action, db.clock).value;
    MovingEvolves(row, moved, action, db.clock);
    StandingBalances(db, id, v);
    ChangedIsKept(db, id, moved, v, Announced(db.vehicles[v], false));
  }

  /** At the moment of a command everything a ride was driven for is charged or missed. */
  lemma {:induction false} StandingBalances(db: Db, id: nat, v: nat)
    requires Inv(db) && id in db.rows && Live(db.rows[id].rental)
    requires db.rows[id].rental.vehicle == v && AtTheMoment(db, v)
    ensures db.vehicles[v].model.Some? ==>
              && !db.vehicles[v].model.value.depleted
              && db.rows[id].drove + db.rows[id].missed == TimeIn(db.rows[id].segments, Driving, db.clock)
    ensures db.vehicles[v].model.None? ==> db.rows[id].drove == 0
  {
    assert RowIn(db, id) && VehicleOk(db.vehicles[v], db.clock);
  }

  lemma {:induction false} RideIsKept(db: Db, action: Action, caller: nat, id: nat, fit: bool)
    requires Inv(db) && RideWithin(db, action, caller, id, fit).Ok?
    ensures Kept(db, RideWithin(db, action, caller, id, fit).value.0)
  {
    if !RentalOf(db, caller, id) {
      KeptAsIs(db);
    } else {
      TargetIsKept(db, id);
      var reconciled := ReconciledTarget(db, id).value;
      ReconciledStands(db, reconciled, id);
      RideOnwardIsKept(reconciled, action, id, fit);
      KeptTwice(db, reconciled, RideOnward(reconciled, action, id, fit).value.0);
    }
  }

  lemma {:induction false} TargetIsKept(db: Db, id: nat)
    requires Inv(db) && id in db.rows && ReconciledTarget(db, id).Ok?
    ensures var reconciled := ReconciledTarget(db, id).value;
            && Kept(db, reconciled) && id in reconciled.rows
            && Reconciled(db, reconciled, db.rows[id].rental.vehicle, Some(Held(id, db.rows[id].rental)))
  {
    assert RowIn(db, id);
    ReconcileIsKept(db, db.rows[id].rental.vehicle, Some(Held(id, db.rows[id].rental)));
  }

  lemma {:induction false} RideOnwardIsKept(db: Db, action: Action, id: nat, fit: bool)
    requires Inv(db) && id in db.rows && RideOnward(db, action, id, fit).Ok?
    requires Live(db.rows[id].rental) ==> AtTheMoment(db, db.rows[id].rental.vehicle)
    ensures Kept(db, RideOnward(db, action, id, fit).value.0)
  {
    assert RowIn(db, id);
    var target := db.rows[id];
    KeptAsIs(db);
    if Overdue(target.rental, db.clock) {
      EndReservationIsKept(db, id);
    } else if RideRefusal(target.rental, action).None? && (action != Start || fit) {
      MoveIsKept(db, id, action);
    }
  }

  /** The rental a command names, if it is still live, has its vehicle's model at the moment. */
  lemma {:induction false} ReconciledStands(db: Db, reconciled: Db, id: nat)
    requires Inv(db) && id in db.rows && Kept(db, reconciled)
    requires Reconciled(db, reconciled, db.rows[id].rental.vehicle, Some(Held(id, db.rows[id].rental)))
    ensures id in reconciled.rows && RowIn(reconciled, id)
    ensures Live(reconciled.rows[id].rental) ==> AtTheMoment(reconciled, reconciled.rows[id].rental.vehicle)
  {
    assert RowIn(db, id) && RowIn(reconciled, id);
  }

  // ---------- finish ----------

  lemma {:induction false} FinishedRowIsOk(id: nat, row: Row, modelled: bool, clock: int)
    requires RowOk(id, row, clock) && Riding(row.rental)
    requires if modelled then row.drove + row.missed == TimeIn(row.segments, Driving, clock) else row.drove == 0
    requires EndRow(id, row, clock, Ending(UserFinished, clock, None)).Ok?
    ensures var ended := Accounted(EndRow(id, row, clock, Ending(UserFinished, clock, None)).value, modelled);
            && RowOk(id, ended, clock) && LedgerOk(ended) && EndsAs(row, ended, Ending(UserFinished, clock, None))
  {
    EndedRowIsOk(id, row, clock, Ending(UserFinished, clock, None));
    OpenTimeIsNatural(row, if row.rental.stage == Active then Driving else Mode.Paused, clock, clock);
  }

  lemma {:induction false} FinishingIsKept(db: Db, id: nat)
    requires Inv(db) && id in db.rows && Riding(db.rows[id].rental) && AtTheMoment(db, db.rows[id].rental.vehicle)
    requires EndRide(db, id, Ending(UserFinished, db.clock, None)).Ok?
    ensures Kept(db, EndRide(db, id, Ending(UserFinished, db.clock, None)).value)
  {
    assert RowIn(db, id);
    var row, v := db.rows[id], db.rows[id].rental.vehicle;
    StandingBalances(db, id, v);
    var modelled := Modelled(db, v);
    FinishedRowIsOk(id, row, modelled, db.clock);
    var ended := Accounted(EndRow(id, row, db.clock, Ending(UserFinished, db.clock, None)).value, modelled);
    EndingEvolves(row, ended, Ending(UserFinished, db.clock, None));
    assert VehicleOk(db.vehicles[v], db.clock);
    ChangedIsKept(db, id, ended, v, Announced(db.vehicles[v], false));
  }

  /** What a finish that ends the ride stores. */
  lemma {:induction false} FinishingStores(db: Db, id: nat)
    requires Inv(db) && id in db.rows && Riding(db.rows[id].rental)
    requires EndRide(db, id, Ending(UserFinished, db.clock, None)).Ok?
    ensures var after := EndRide(db, id, Ending(UserFinished, db.clock, None)).value;
            && id in after.rows && EndsAs(db.rows[id], after.rows[id], Ending(UserFinished, db.clock, None))
  {
    assert RowIn(db, id);
    EndedRowIsOk(id, db.rows[id], db.clock, Ending(UserFinished, db.clock, None));
  }

  lemma {:induction false} FinishIsKept(db: Db, caller: nat, id: nat, landing: Option<RefusalKind>)
    requires Inv(db) && FinishWithin(db, caller, id, landing).Ok?
    ensures Kept(db, FinishWithin(db, caller, id, landing).value.0)
  {
    if !RentalOf(db, caller, id) {
      KeptAsIs(db);
    } else {
      TargetIsKept(db, id);
      var reconciled := ReconciledTarget(db, id).value;
      ReconciledStands(db, reconciled, id);
      FinishOnwardIsKept(reconciled, id, landing);
      KeptTwice(db, reconciled, FinishOnward(reconciled, id, landing).value.0);
    }
  }

  lemma {:induction false} FinishOnwardIsKept(db: Db, id: nat, landing: Option<RefusalKind>)
    requires Inv(db) && id in db.rows && FinishOnward(db, id, landing).Ok?
    requires Live(db.rows[id].rental) ==> AtTheMoment(db, db.rows[id].rental.vehicle)
    ensures Kept(db, FinishOnward(db, id, landing).value.0)
  {
    assert RowIn(db, id);
    if Riding(db.rows[id].rental) && landing.None? {
      FinishingIsKept(db, id);
    } else {
      KeptAsIs(db);
    }
  }

  // ---------- reservations ----------

  lemma {:induction false} CancelIsKept(db: Db, caller: nat, id: nat)
    requires Inv(db)
    ensures CancelWithin(db, caller, id).Ok? && Kept(db, CancelWithin(db, caller, id).value.0)
  {
    KeptAsIs(db);
    if RentalOf(db, caller, id) && db.rows[id].rental.stage == Reserved {
      if Overdue(db.rows[id].rental, db.clock) {
        EndReservationIsKept(db, id);
      } else {
        ReleasedIsKept(db, id, Cancelled, db.clock);
      }
    }
  }

  lemma {:induction false} ExpireIsKept(db: Db, id: nat)
    requires Inv(db)
    ensures ExpireWithin(db, id).Ok? && Kept(db, ExpireWithin(db, id).value.0)
  {
    KeptAsIs(db);
    if id in db.rows && Overdue(db.rows[id].rental, db.clock) {
      EndReservationIsKept(db, id);
    }
  }

  lemma {:induction false} ReserveIsKept(db: Db, caller: nat, v: nat, id: nat, zone: nat, rates: Billing.Rates,
                                         available: bool)
    requires Inv(db)
    ensures ReserveWithin(db, caller, v, id, zone, rates, available).Ok?
    ensures Kept(db, ReserveWithin(db, caller, v, id, zone, rates, available).value.0)
  {
    ReleaseOverdueIsKept(db, caller, v);
    var (released, held) := ReleaseOverdue(db, caller, v).value;
    KeptAsIs(released);
    if !AccountRefuses(released, caller, held) && v in released.vehicles && LiveOn(released, v).None?
       && !released.vehicles[v].serviceRequired && available {
      CreationIsKept(released, id, caller, v, zone, rates);
      KeptTwice(db, released, CreateReservation(released, caller, v, id, zone, rates).value.0);
    }
  }

  lemma {:induction false} ReleaseOverdueIsKept(db: Db, caller: nat, v: nat)
    requires Inv(db)
    ensures ReleaseOverdue(db, caller, v).Ok? && Kept(db, ReleaseOverdue(db, caller, v).value.0)
  {
    LiveAtIsKept(db, LiveOf(db, caller));
    var (first, held) := LiveAt(db, LiveOf(db, caller)).value;
    ReleaseHolderIsKept(first, v);
    var released := LiveAt(first, LiveOn(first, v)).value.0;
    KeptTwice(db, first, released);
    assert ReleaseOverdue(db, caller, v) == Ok((released, held));
  }

  lemma {:induction false} ReleaseHolderIsKept(db: Db, v: nat)
    requires Inv(db)
    ensures LiveAt(db, LiveOn(db, v)).Ok? && Kept(db, LiveAt(db, LiveOn(db, v)).value.0)
  {
    LiveAtIsKept(db, LiveOn(db, v));
  }

  lemma {:induction false} CreationIsKept(db: Db, id: nat, user: nat, v: nat, zone: nat, rates: Billing.Rates)
    requires Inv(db) && v in db.vehicles && !db.vehicles[v].serviceRequired
    requires !AccountOwes(db, user) && !DaySpent(db, user)
    ensures CreateReservation(db, user, v, id, zone, rates).Ok?
    ensures Kept(db, CreateReservation(db, user, v, id, zone, rates).value.0)
  {
    KeptAsIs(db);
    if id !in db.rows && LiveOn(db, v).None? && LiveOf(db, user).None? {
      ReservedIsKept(db, id, user, v, zone, rates);
    }
  }

  lemma {:induction false} ReservedIsKept(db: Db, id: nat, user: nat, v: nat, zone: nat, rates: Billing.Rates)
    requires Inv(db) && id !in db.rows && v in db.vehicles && !db.vehicles[v].serviceRequired
    requires !AccountOwes(db, user) && !DaySpent(db, user) && LiveOn(db, v).None? && LiveOf(db, user).None?
    ensures var changed := Changed(db, id, ReservedRow(user, v, zone, rates, db.clock), false);
            changed.Ok? && Kept(db, changed.value)
  {
    ReservedIsInv(db, id, user, v, zone, rates);
    KeptAsIs(db);
  }

  // ---------- reads and ticks ----------

  lemma {:induction false} CurrentIsKept(db: Db, caller: nat)
    requires Inv(db) && CurrentWithin(db, caller).Ok?
    ensures Kept(db, CurrentWithin(db, caller).value.0)
  {
    LiveAtIsKept(db, LiveOf(db, caller));
    var (released, held) := LiveAt(db, LiveOf(db, caller)).value;
    CurrentIs(db, caller, released, held);
    if held.Some? && Riding(released.rows[held.value].rental) {
      CurrentTargetIsKept(db, released, held.value, caller);
    }
  }

  /** The read ends where it released, or goes on with the ride it found. */
  lemma {:induction false} CurrentIs(db: Db, caller: nat, released: Db, held: Option<nat>)
    requires LiveAt(db, LiveOf(db, caller)) == Ok((released, held)) && (held.Some? ==> held.value in released.rows)
    ensures CurrentWithin(db, caller) ==
            if held.None? || !Riding(released.rows[held.value].rental) then Ok((released, Showing(held)))
            else match ReconciledTarget(released, held.value)
                 case Ok(reconciled) => CurrentOnward(reconciled, caller)
                 case Err(error) => Err(error)
  {
  }

  lemma {:induction false} CurrentTargetIsKept(db: Db, released: Db, held: nat, caller: nat)
    requires Kept(db, released) && held in released.rows && ReconciledTarget(released, held).Ok?
    requires CurrentOnward(ReconciledTarget(released, held).value, caller).Ok?
    ensures Kept(db, CurrentOnward(ReconciledTarget(released, held).value, caller).value.0)
  {
    TargetIsKept(released, held);
    var reconciled := ReconciledTarget(released, held).value;
    CurrentOnwardIsKept(reconciled, caller);
    KeptTwice(db, released, reconciled);
    KeptTwice(db, reconciled, CurrentOnward(reconciled, caller).value.0);
  }

  lemma {:induction false} CurrentOnwardIsKept(db: Db, caller: nat)
    requires Inv(db) && CurrentOnward(db, caller).Ok?
    ensures Kept(db, CurrentOnward(db, caller).value.0)
  {
    LiveAtIsKept(db, LiveOf(db, caller));
  }

  predicate NoRepeats(vs: seq<nat>) {
    forall i, j :: 0 <= i < j < |vs| ==> vs[i] != vs[j]
  }

  /** Nothing of the vehicles still to come has changed since the holders were read. */
  ghost predicate AsRead(db: Db, read: Db, vs: seq<nat>) {
    && db.rows.Keys == read.rows.Keys
    && (forall id :: id in read.rows ==> db.rows[id].rental.vehicle == read.rows[id].rental.vehicle)
    && (forall id :: id in read.rows && read.rows[id].rental.vehicle in vs ==> db.rows[id] == read.rows[id])
  }

  lemma {:induction false} FleetIsKept(db: Db, read: Db, vs: seq<nat>)
    requires Inv(db) && NoRepeats(vs) && AsRead(db, read, vs)
    requires ReconcileFleet(db, read, vs).Ok?
    ensures Kept(db, ReconcileFleet(db, read, vs).value.0)
    decreases |vs|
  {
    KeptAsIs(db);
    if vs != [] {
      var held := HolderOf(read, vs[0]);
      ReconcileIsKept(db, vs[0], held);
      var moved := Reconcile(db, vs[0], held).value;
      LaterVehiclesAsRead(db, moved, read, vs, held);
      FleetIsKept(moved, read, vs[1..]);
      KeptTwice(db, moved, ReconcileFleet(moved, read, vs[1..]).value.0);
    }
  }

  lemma {:induction false} LaterVehiclesAsRead(db: Db, moved: Db, read: Db, vs: seq<nat>, held: Option<Held>)
    requires vs != [] && NoRepeats(vs) && AsRead(db, read, vs) && Reconciled(db, moved, vs[0], held)
    ensures NoRepeats(vs[1..]) && AsRead(moved, read, vs[1..])
  {
    forall id | id in read.rows && read.rows[id].rental.vehicle in vs[1..]
      ensures moved.rows[id] == read.rows[id]
    {
      var i :| 0 <= i < |vs[1..]| && vs[1..][i] == read.rows[id].rental.vehicle;
      assert vs[i + 1] == read.rows[id].rental.vehicle;
    }
  }

  lemma {:induction false} TickIsKept(db: Db, vs: seq<nat>)
    requires Inv(db) && NoRepeats(vs) && TickWithin(db, vs).Ok?
    ensures Kept(db, TickWithin(db, vs).value.0)
  {
    FleetIsKept(db, db, vs);
  }

  // ---------- payments ----------

  lemma {:induction false} SettlingIsKept(db: Db, id: nat, from: PaymentStatus, outcome: Outcome)
    requires Inv(db) && id in db.rows && db.rows[id].invoice.Some?
    requires from != Settled && (from == Failed ==> outcome.status == Settled) && outcome.moment == db.clock
    requires SettleRow(db, id, from, outcome).Ok?
    ensures Kept(db, SettleRow(db, id, from, outcome).value.0)
  {
    assert RowIn(db, id);
    SettledEvolves(id, db.rows[id], from, outcome, db.clock);
    var settled := db.rows[id].(invoice := Some(Settle(db.rows[id].invoice.value, from, outcome).value));
    assert db.vehicles[settled.rental.vehicle := db.vehicles[settled.rental.vehicle]] == db.vehicles;
    assert VehicleOk(db.vehicles[settled.rental.vehicle], db.clock);
    ChangedIsKept(db, id, settled, settled.rental.vehicle, db.vehicles[settled.rental.vehicle]);
  }

  lemma {:induction false} SettledEvolves(id: nat, row: Row, from: PaymentStatus, outcome: Outcome, clock: int)
    requires RowOk(id, row, clock) && LedgerOk(row) && row.invoice.Some?
    requires from != Settled && (from == Failed ==> outcome.status == Settled) && outcome.moment == clock
    requires Settle(row.invoice.value, from, outcome).Ok?
    ensures var settled := row.(invoice := Some(Settle(row.invoice.value, from, outcome).value));
            && !Live(row.rental) && RowOk(id, settled, clock) && LedgerOk(settled)
            && Continues(row, settled) && Evolves(row, settled)
  {
    SettledRowIsOk(id, row, from, outcome, clock);
    SettleKeepsPaymentOk(row.invoice.value, from, outcome);
  }

  lemma {:induction false} AttemptIsKept(db: Db, id: nat, declined: bool)
    requires Inv(db) && AttemptWithin(db, id, declined).Ok?
    ensures Kept(db, AttemptWithin(db, id, declined).value.0)
  {
    KeptAsIs(db);
    if id in db.rows && db.rows[id].invoice.Some? && db.rows[id].invoice.value.payment.status == Pending {
      SettlingIsKept(db, id, Pending, if declined then Declined(db.clock) else Paid(db.clock));
    }
  }

  lemma {:induction false} PayIsKept(db: Db, caller: nat, id: nat)
    requires Inv(db) && PayWithin(db, caller, id).Ok?
    ensures Kept(db, PayWithin(db, caller, id).value.0)
  {
    KeptAsIs(db);
    if id in db.rows && db.rows[id].invoice.Some? && db.rows[id].invoice.value.payment.status == Failed
       && db.rows[id].invoice.value.user == caller {
      SettlingIsKept(db, id, Failed, Paid(db.clock));
    }
  }
}
