/** When a tick of the whole fleet fails: one vehicle that cannot be brought to its moment rolls back all of them
    (backend/internal/rentals/tick.go). */
module Ticks {
  import opened Wrappers
  import opened Energy
  import opened Burning
  import opened Windows
  import opened Rentals
  import opened RowSteps
  import opened Journeys
  import opened Splitting
  import opened Fleet
  import opened Operations
  import opened Invariants
  import opened Keeping
  import opened Lifecycle
  import opened Runs

  /** The window from the state to a moment uses up everything the vehicle carries. */
  ghost predicate UsedUpBy(m: Model, mode: Mode, moment: int)
    requires ValidSources(m.sources)
  {
    !m.depleted && m.processedAt < moment && AllExhausted(Charge(m.sources, mode, moment - m.processedAt))
  }

  /** The first whole microsecond at which it is: the run-out a ride ends with. */
  ghost function EndsAt(m: Model, mode: Mode, moment: int): int
    requires ValidSources(m.sources) && m.processedAt < moment
  {
    WholeMicrosecondFirstAfter(m.processedAt + Min(moment - m.processedAt, AllotmentOf(m.sources, mode)))
  }

  function ModeOfRide(r: Rental): Mode {
    if r.stage == Active then Driving else Mode.Paused
  }

  /** A ride whose vehicle has run out, and whose ending the tables refuse: its mode would have lasted no time, or
      what it took cannot be priced. */
  ghost predicate CannotEnd(row: Row, vehicle: Vehicle, moment: int) {
    && Riding(row.rental) && vehicle.model.Some?
    && var (m, mode) := (vehicle.model.value, ModeOfRide(row.rental));
       && ValidSources(m.sources) && UsedUpBy(m, mode, moment)
       && (EndsAt(m, mode, moment) <= row.rental.modeStartedAt.value || Price(row, EndsAt(m, mode, moment)).Err?)
  }

  /** A vehicle the tick cannot bring to the moment: its reading begins no journey, or its ride cannot be ended. */
  ghost predicate Breaks(db: Db, v: nat) {
    && v in db.vehicles && db.vehicles[v].begins.Some?
    && ((db.vehicles[v].model.None? && !StateUsable(db.vehicles[v].begins.value))
        || exists id :: HoldsVehicle(db, id, v) && CannotEnd(db.rows[id], db.vehicles[v], db.clock))
  }

  lemma {:induction false} WindowRunsOutExactlyWhen(m: Model, mode: Mode, moment: int)
    requires ModelOk(m, moment) && m.processedAt < moment && Spends(mode)
    ensures var r := Journey(m, [Span(mode, m.processedAt, moment)], moment);
            && r.Ok?
            && (r.value.0.depletedBy.Some? <==> UsedUpBy(m, mode, moment))
            && (r.value.0.depletedBy.Some? ==>
                  WholeMicrosecondFirstAfter(r.value.0.depletedBy.value) == EndsAt(m, mode, moment))
  {
    if !m.depleted {
      BurnOfOneSpan(m.sources, Span(mode, m.processedAt, moment));
    }
  }

  lemma {:induction false} PlayRunsOutExactlyWhen(vehicle: Vehicle, mode: Mode, moment: int)
    requires VehicleOk(vehicle, moment) && vehicle.begins.Some? && WholeMoment(moment) && vehicle.model.Some?
    requires Spends(mode)
    ensures PlayVehicle(vehicle, mode, moment).Ok?
    ensures var (m, play) := (vehicle.model.value, PlayVehicle(vehicle, mode, moment).value);
            && (play.ranOut.Some? <==> UsedUpBy(m, mode, moment))
            && (play.ranOut.Some? ==> DepletedAt(play).endedAt == EndsAt(m, mode, moment))
  {
    if vehicle.model.value.processedAt < moment {
      WindowRunsOutExactlyWhen(vehicle.model.value, mode, moment);
    }
  }

  /** Ending the ride of a vehicle that ran out. */
  lemma {:induction false} RunOutEndsExactlyWhen(db: Db, v: nat, id: nat, play: Play)
    requires Inv(db) && LiveOn(db, v) == Some(id) && Riding(db.rows[id].rental)
    requires v in db.vehicles && db.vehicles[v].begins.Some?
    requires PlayVehicle(db.vehicles[v], ModeOfRide(db.rows[id].rental), db.clock) == Ok(play) && play.ranOut.Some?
    ensures var (row, at) := (db.rows[id], DepletedAt(play).endedAt);
            EndRide(Booked(db, v, ModeOfRide(row.rental), play), id, DepletedAt(play)).Ok? <==>
            row.rental.modeStartedAt.value < at && Price(row, at).Ok?
  {
    assert RowIn(db, id) && VehicleOk(db.vehicles[v], db.clock);
    var row, vehicle, mode := db.rows[id], db.vehicles[v], ModeOfRide(db.rows[id].rental);
    var credited := Credited(row, mode, play, db.clock);
    RunOutVehicle(vehicle, mode, play, db.clock);
    CreditedBalances(id, row, vehicle, mode, play, db.clock);
    EndRowExactlyWhen(id, credited, db.clock, DepletedAt(play));
    assert Price(credited, DepletedAt(play).endedAt) == Price(row, DepletedAt(play).endedAt);
    EndedRideIsChanged(Booked(db, v, mode, play), id, DepletedAt(play));
  }

  lemma {:induction false} EndedRideIsChanged(db: Db, id: nat, ending: Ending)
    requires id in db.rows && db.rows[id].rental.vehicle in db.vehicles
    ensures EndRide(db, id, ending).Ok? <==> EndRow(id, db.rows[id], db.clock, ending).Ok?
  {
  }

  lemma {:induction false} RiddenFailsExactlyWhen(db: Db, v: nat, id: nat)
    requires Inv(db) && LiveOn(db, v) == Some(id) && Riding(db.rows[id].rental)
    requires v in db.vehicles && db.vehicles[v].begins.Some? && db.vehicles[v].model.Some?
    ensures Reconcile(db, v, HolderOf(db, v)).Err? <==> CannotEnd(db.rows[id], db.vehicles[v], db.clock)
  {
    var vehicle, mode := db.vehicles[v], ModeOfRide(db.rows[id].rental);
    assert VehicleOk(vehicle, db.clock);
    assert ModeOf(HolderOf(db, v)) == mode;
    PlayRunsOutExactlyWhen(vehicle, mode, db.clock);
    var play := PlayVehicle(vehicle, mode, db.clock).value;
    if play.ranOut.Some? {
      RunOutEndsExactlyWhen(db, v, id, play);
    }
  }

  /** Bringing one vehicle to the moment, for the rental that holds it, fails exactly when the vehicle breaks. */
  lemma {:induction false} ReconcileFailsExactlyWhen(db: Db, v: nat)
    requires Inv(db)
    ensures Reconcile(db, v, HolderOf(db, v)).Err? <==> Breaks(db, v)
  {
    if v in db.vehicles && db.vehicles[v].begins.Some? {
      var vehicle, held := db.vehicles[v], HolderOf(db, v);
      assert VehicleOk(vehicle, db.clock);
      PlayFailsExactlyWhen(vehicle, ModeOf(held), db.clock);
      if held.Some? {
        OnlyTheHolderBreaks(db, v, held.value.id);
      }
      if vehicle.model.None? {
        FirstPlayRunsNothingOut(vehicle, ModeOf(held), db.clock);
      } else if held.Some? && Riding(held.value.rental) {
        RiddenFailsExactlyWhen(db, v, held.value.id);
      }
    }
  }

  lemma {:induction false} FirstPlayRunsNothingOut(vehicle: Vehicle, mode: Mode, moment: int)
    requires VehicleOk(vehicle, moment) && vehicle.begins.Some? && WholeMoment(moment) && vehicle.model.None?
    ensures PlayVehicle(vehicle, mode, moment).Ok? ==> PlayVehicle(vehicle, mode, moment).value.ranOut.None?
  {
    if PlayVehicle(vehicle, mode, moment).Ok? {
      FirstPlayBegins(vehicle, mode, moment);
    }
  }

  lemma {:induction false} OnlyTheHolderBreaks(db: Db, v: nat, id: nat)
    requires Inv(db) && LiveOn(db, v) == Some(id) && v in db.vehicles
    ensures (exists other :: HoldsVehicle(db, other, v) && CannotEnd(db.rows[other], db.vehicles[v], db.clock)) <==>
            CannotEnd(db.rows[id], db.vehicles[v], db.clock)
  {
    assert HoldsVehicle(db, id, v);
    forall other | HoldsVehicle(db, other, v)
      ensures other == id
    {
      HoldersAreOne(db, other, id);
    }
  }

  /** What one reconciliation leaves is, for every other vehicle, what it found. */
  lemma {:induction false} OthersBreakAlike(db: Db, after: Db, v: nat, held: Option<Held>, w: nat)
    requires Reconciled(db, after, v, held) && after.clock == db.clock && w != v
    ensures Breaks(after, w) <==> Breaks(db, w)
  {
    forall id
      ensures HoldsVehicle(after, id, w) <==> HoldsVehicle(db, id, w)
      ensures HoldsVehicle(db, id, w) ==> after.rows[id] == db.rows[id]
    {
      assert id in db.rows && db.rows[id].rental.vehicle != v ==> after.rows[id] == db.rows[id];
    }
  }

  /** The holder read before the tick moved anything is still the holder. */
  lemma {:induction false} HolderIsAsRead(db: Db, read: Db, vs: seq<nat>, v: nat)
    requires Inv(db) && AsRead(db, read, vs) && v in vs
    ensures HolderOf(read, v) == HolderOf(db, v)
  {
    forall id
      ensures HoldsVehicle(read, id, v) <==> HoldsVehicle(db, id, v)
    {
    }
    if LiveOn(read, v).Some? {
      HoldersAreOne(db, LiveOn(read, v).value, LiveOn(db, v).value);
    }
  }

  lemma {:induction false} FleetFailsExactlyWhen(db: Db, read: Db, vs: seq<nat>)
    requires Inv(db) && NoRepeats(vs) && AsRead(db, read, vs)
    ensures ReconcileFleet(db, read, vs).Err? <==> exists v :: v in vs && Breaks(db, v)
    decreases |vs|
  {
    if vs != [] {
      var first, held := vs[0], HolderOf(read, vs[0]);
      HolderIsAsRead(db, read, vs, first);
      ReconcileFailsExactlyWhen(db, first);
      if Reconcile(db, first, held).Ok? {
        var moved := Reconcile(db, first, held).value;
        ReconcileIsKept(db, first, held);
        LaterVehiclesAsRead(db, moved, read, vs, held);
        FleetFailsExactlyWhen(moved, read, vs[1..]);
        LaterBreakAlike(db, moved, vs, held);
      }
    }
  }

  lemma {:induction false} LaterBreakAlike(db: Db, moved: Db, vs: seq<nat>, held: Option<Held>)
    requires vs != [] && NoRepeats(vs) && Reconciled(db, moved, vs[0], held) && moved.clock == db.clock
    requires !Breaks(db, vs[0])
    ensures (exists v :: v in vs[1..] && Breaks(moved, v)) <==> (exists v :: v in vs && Breaks(db, v))
  {
    forall v | v in vs[1..]
      ensures v in vs && (Breaks(moved, v) <==> Breaks(db, v))
    {
      var i :| 0 <= i < |vs[1..]| && vs[1..][i] == v;
      assert vs[i + 1] == v;
      OthersBreakAlike(db, moved, vs[0], held, v);
    }
    forall v | v in vs && v != vs[0]
      ensures v in vs[1..]
    {
      var i :| 0 <= i < |vs| && vs[i] == v;
      assert vs[1..][i - 1] == v;
    }
  }

  /** In a reachable state a tick fails, and moves no vehicle at all, exactly when one of the vehicles it visits
      breaks; which one, in which order and what the others do makes no difference. */
  lemma {:induction false} TickFailsExactlyWhen(db: Db, timed: Timed)
    requires Reachable(db) && Timely(db.clock, [timed]) && timed.step.Tick?
    ensures var now := db.(clock := timed.moment);
            Perform(now, timed.step).Err? <==> exists v :: v in timed.step.vehicles && Breaks(now, v)
    ensures Perform(db.(clock := timed.moment), timed.step).Err? ==> Commit(db, timed) == db
  {
    ReachableIsInv(db);
    assert [timed][0] == timed;
    LaterIsInv(db, timed.moment);
    var now := db.(clock := timed.moment);
    FleetFailsExactlyWhen(now, now, timed.step.vehicles);
  }
}
