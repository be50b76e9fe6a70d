/** Runs from an installation into the states in which the code does otherwise than its documentation promises: each
    is a history the service can have. */
module Occasions {
  import opened Wrappers
  import opened Energy
  import opened Storing
  import opened Rentals
  import opened RowSteps
  import opened Fleet
  import opened Operations
  import opened Invariants
  import opened Lifecycle
  import opened Runs
  import opened Discovery
  import opened Courses
  import opened Plans
  import opened Outcomes
  import Billing
  import Journeys

  const FREE_OF_CHARGE := Billing.Rates(0, 0)

  /** A reading of a vehicle with one full battery. */
  const FULL := Journeys.Model(true, [Source(Battery, 1, 0)], 0, 0, false, false, 0)

  /** Nothing but the clock moves when a vehicle nobody knows is confirmed. */
  function Pass(moment: int): Timed {
    Timed(moment, Observe(0, FULL))
  }

  lemma {:induction false} RunOfMore(db: Db, timed: Timed, rest: seq<Timed>)
    ensures Run(db, [timed] + rest) == Run(Commit(db, timed), rest)
  {
    assert ([timed] + rest)[1..] == rest;
  }

  lemma {:induction false} TimelyMore(clock: int, timed: Timed, rest: seq<Timed>)
    requires Timely(timed.moment, rest) && WholeMoment(timed.moment) && clock <= timed.moment
    requires timed.step.Tick? ==> NoRepeats(timed.step.vehicles)
    ensures Timely(clock, [timed] + rest)
  {
  }

  lemma {:induction false} CommitNow(db: Db, step: Step)
    requires Perform(db, step).Ok?
    ensures Commit(db, Timed(db.clock, step)) == Perform(db, step).value.0
  {
    assert db.(clock := db.clock) == db;
  }

  /** Waiting moves the clock. */
  lemma {:induction false} Passing(db: Db, moment: int)
    requires 0 !in db.vehicles
    ensures Run(db, [Pass(moment)]) == db.(clock := moment)
    ensures db.clock <= moment && WholeMoment(moment) ==> Timely(db.clock, [Pass(moment)])
  {
    assert [Pass(moment)][1..] == [];
  }

  lemma {:induction false} IsReached(vehicles: map<nat, Vehicle>, steps: seq<Timed>)
    requires Fresh(vehicles) && Timely(0, steps)
    ensures Reachable(Run(Installed(vehicles, 0), steps))
  {
    assert WholeMoment(0);
  }

  // ---------- an overdue reservation elsewhere ----------

  /** A reservation of the account 7 that was made at moment nothing. */
  ghost predicate Reserved7(db: Db) {
    && HoldsAccount(db, 10, 7) && HoldsVehicle(db, 10, 1) && db.rows.Keys == {10}
    && db.rows[10].rental.stage == Reserved && db.rows[10].rental.expiresAt == RESERVATION_LIFETIME
  }

  lemma {:induction false} FirstReservation(db: Db)
    requires Inv(db) && db.rows == map[] && db.clock == 0 && 1 in db.vehicles && !db.vehicles[1].serviceRequired
    ensures var r := ReserveWithin(db, 7, 1, 10, 0, FREE_OF_CHARGE, true);
            && r.Ok? && Inv(r.value.0) && Reserved7(r.value.0) && OnlyAnnounced(db, r.value.0) && r.value.0.clock == 0
  {
    ReserveSucceedsExactlyWhen(db, 7, 1, 10, 0, FREE_OF_CHARGE, true);
    ReserveIsKept(db, 7, 1, 10, 0, FREE_OF_CHARGE, true);
    assert MayReserve(db, 7, 1, true);
  }

  /** An account can hold an overdue reservation of a vehicle other than the one it asks for: it reserves, and nothing
      looks at the reservation for a quarter of an hour. */
  lemma {:induction false} OverdueElsewhereHappens() returns (db: Db)
    ensures Reachable(db)
    ensures Omitted(db, Reserve(7, 2, 11, 0, FREE_OF_CHARGE, true), db.clock) == Some(1)
    ensures Omitted(db, Notifications(7), db.clock) == Some(1)
  {
    var vehicle := Vehicle(1, false, None, None);
    var vehicles: map<nat, Vehicle> := map[1 := vehicle, 2 := vehicle];
    var start := Installed(vehicles, 0);
    var reserve := Reserve(7, 1, 10, 0, FREE_OF_CHARGE, true);
    var later := [Pass(RESERVATION_LIFETIME)];
    InstalledIsInv(vehicles, 0);
    FirstReservation(start);
    CommitNow(start, reserve);
    var reserved := Commit(start, Timed(0, reserve));
    Passing(reserved, RESERVATION_LIFETIME);
    RunOfMore(start, Timed(0, reserve), later);
    TimelyMore(0, Timed(0, reserve), later);
    db := Run(start, [Timed(0, reserve)] + later);
    IsReached(vehicles, [Timed(0, reserve)] + later);
    HeldElsewhere(db);
  }

  lemma {:induction false} HeldElsewhere(db: Db)
    requires Reachable(db) && Reserved7(db) && db.clock == RESERVATION_LIFETIME
    ensures Omitted(db, Reserve(7, 2, 11, 0, FREE_OF_CHARGE, true), db.clock) == Some(1)
    ensures Omitted(db, Notifications(7), db.clock) == Some(1)
  {
    ReachableIsInv(db);
    TheRiderIsFound(db, 10);
  }

  // ---------- a command about an old rental ----------

  /** Looked at for the first time, a vehicle nobody holds begins where its reading says. */
  lemma {:induction false} TickBegins(db: Db)
    requires db == Installed(map[1 := Vehicle(1, false, Some(FULL), None)], 0)
    ensures var r := TickWithin(db, [1]);
            && r.Ok? && r.value.0 == db.(vehicles := map[1 := Vehicle(1, false, Some(FULL), Some(FULL))])
  {
    assert FULL.sources[0].Valid() && ByName(FULL.sources[1..]) == [];
    assert ByName(FULL.sources) == FULL.sources;
    assert Stored(FULL) == FULL;
    assert LiveOn(db, 1) == None && HolderOf(db, 1) == None;
    assert [1][1..] == [];
    var played := Vehicle(1, false, Some(FULL), Some(FULL));
    assert db.vehicles[1 := played] == map[1 := played];
  }

  /** The vehicle stands ready, with what it held at first. */
  ghost predicate Ready(db: Db) {
    && Inv(db) && db.clock == 0 && db.vehicles.Keys == {1}
    && !db.vehicles[1].serviceRequired && db.vehicles[1].model == Some(FULL)
  }

  /** An account gave the vehicle back at once. */
  lemma {:induction false} ReservedAndCancelled(db: Db)
    requires Ready(db) && db.rows == map[]
    ensures var first := ReserveWithin(db, 7, 1, 10, 0, FREE_OF_CHARGE, true);
            && first.Ok? && first.value.0.clock == 0
            && var second := CancelWithin(first.value.0, 7, 10);
               && second.Ok? && Ready(second.value.0) && second.value.0.rows.Keys == {10}
               && second.value.0.rows[10].rental.user == 7 && second.value.0.rows[10].rental.vehicle == 1
               && second.value.0.rows[10].rental.endedAt.Some? && second.value.0.rows[10].invoice.None?
  {
    FirstReservation(db);
    var reserved := ReserveWithin(db, 7, 1, 10, 0, FREE_OF_CHARGE, true).value.0;
    CancelsExactlyBeforeTheDeadline(reserved, 7, 10);
    CancelIsKept(reserved, 7, 10);
    var after := CancelWithin(reserved, 7, 10).value.0;
    assert RowIn(after, 10) && Evolves(reserved.rows[10], after.rows[10]);
  }

  /** The next account holds it. */
  ghost predicate Granted(db: Db) {
    && Ready(db) && RentalOf(db, 7, 10) && db.rows[10].rental.vehicle == 1
    && HoldsAccount(db, 11, 8) && HoldsVehicle(db, 11, 1) && db.rows[11].rental.stage == Reserved
    && db.rows[11].rental.expiresAt == RESERVATION_LIFETIME && db.rows[11].rental.rates == FREE_OF_CHARGE
  }

  lemma {:induction false} GrantedAtOnce(db: Db)
    requires Ready(db) && db.rows.Keys == {10} && db.rows[10].rental.user == 7 && db.rows[10].rental.vehicle == 1
    requires db.rows[10].rental.endedAt.Some? && db.rows[10].invoice.None?
    ensures Granted(Commit(db, Timed(0, Reserve(8, 1, 11, 0, FREE_OF_CHARGE, true))))
  {
    var reserve := Reserve(8, 1, 11, 0, FREE_OF_CHARGE, true);
    ReservedByTheNext(db);
    assert Perform(db, reserve) == ReserveWithin(db, 8, 1, 11, 0, FREE_OF_CHARGE, true);
    CommitNow(db, reserve);
  }

  /** The next account reserves it. */
  lemma {:induction false} ReservedByTheNext(db: Db)
    requires Ready(db) && db.rows.Keys == {10} && db.rows[10].rental.user == 7 && db.rows[10].rental.vehicle == 1
    requires db.rows[10].rental.endedAt.Some? && db.rows[10].invoice.None?
    ensures var r := ReserveWithin(db, 8, 1, 11, 0, FREE_OF_CHARGE, true);
            r.Ok? && Granted(r.value.0)
  {
    assert MayReserve(db, 8, 1, true);
    ReserveSucceedsExactlyWhen(db, 8, 1, 11, 0, FREE_OF_CHARGE, true);
    ReserveIsKept(db, 8, 1, 11, 0, FREE_OF_CHARGE, true);
    var after := ReserveWithin(db, 8, 1, 11, 0, FREE_OF_CHARGE, true).value.0;
    assert Evolves(db.rows[10], after.rows[10]);
  }

  /** And starts at once. */
  lemma {:induction false} StartedByTheNext(db: Db)
    requires Granted(db)
    ensures var r := RideWithin(db, Start, 8, 11, true);
            && r.Ok? && r.value.0.clock == 0 && Inv(r.value.0) && 11 in r.value.0.rows
            && Awaits(r.value.0, 11, Fate(Bare(r.value.0.rows[11]), FULL.sources, 0))
            && RentalOf(r.value.0, 7, 10) && r.value.0.rows[10].rental.vehicle == 1
            && r.value.0.rows[11].rental.vehicle == 1
            && r.value.0.rows[11].rental.stage == Active && r.value.0.vehicles.Keys == {1}
            && r.value.0.vehicles[1].model.value.processedAt == 0
  {
    StartIsMade(db);
    StartsExactlyWhen(db, 8, 11, true);
    RideIsKept(db, Start, 8, 11, true);
    assert !FULL.sources[0].Exhausted();
    StartSetsTheCourse(db, 8, 11, true);
    RideWritesWithinItsPlan(db, Start, 8, 11, true);
    var after := RideWithin(db, Start, 8, 11, true).value.0;
    assert Evolves(db.rows[10], after.rows[10]) && Evolves(db.rows[11], after.rows[11]);
    assert VehicleOk(after.vehicles[1], 0);
  }

  lemma {:induction false} StartIsMade(db: Db)
    requires Ready(db) && HoldsAccount(db, 11, 8) && HoldsVehicle(db, 11, 1) && db.rows[11].rental.stage == Reserved
    requires db.rows[11].rental.expiresAt == RESERVATION_LIFETIME && db.rows[11].rental.rates == FREE_OF_CHARGE
    ensures RideWithin(db, Start, 8, 11, true).Ok?
  {
    assert RowIn(db, 11) && VehicleOk(db.vehicles[1], 0);
    LaterPlayMovesOn(db.vehicles[1], Free, 0);
    IdleTargetStands(db, 11);
    TargetIsKept(db, 11);
    var reconciled := ReconciledTarget(db, 11).value;
    assert RowIn(reconciled, 11);
    StartOnwardIsMade(reconciled);
  }

  lemma {:induction false} StartOnwardIsMade(db: Db)
    requires 11 in db.rows && RowIn(db, 11) && db.clock == 0 && db.rows[11].rental.stage == Reserved
    requires db.rows[11].rental.expiresAt == RESERVATION_LIFETIME && db.rows[11].rental.rates == FREE_OF_CHARGE
    ensures RideOnward(db, Start, 11, true).Ok?
  {
    MoveRowExactlyWhen(11, db.rows[11], Start, 0);
    Billing.ComputeIsExact(FREE_OF_CHARGE, 0, 0);
    MovedRowIsOk(11, db.rows[11], Start, 0);
  }

  /** The ride that has set off, and the driving since. */
  ghost predicate SetOff(riding: Db) {
    && riding.clock == 0 && riding.vehicles.Keys == {1} && 11 in riding.rows && riding.rows[11].rental.stage == Active
    && Awaits(riding, 11, Fate(Bare(riding.rows[11]), FULL.sources, 0))
    && RentalOf(riding, 7, 10) && riding.rows[10].rental.vehicle == 1 == riding.rows[11].rental.vehicle
    && riding.vehicles[1].model.Some? && riding.vehicles[1].model.value.processedAt == 0
  }

  /** A ride can be under way on a vehicle while an earlier rental of it is named by a command, with driving that has
      not been charged yet. */
  lemma {:induction false} StaleCommandHappens() returns (db: Db, fate: Fate)
    ensures Reachable(db) && Awaits(db, 11, fate) && !Pausing(fate)
    ensures NamesAnother(db, Step.Finish(7, 10, None), 11) && Unplayed(db, 11) > 0
  {
    var vehicles: map<nat, Vehicle> := map[1 := Vehicle(1, false, Some(FULL), None)];
    var start := Installed(vehicles, 0);
    InstalledIsInv(vehicles, 0);
    TickBegins(start);
    TickIsKept(start, [1]);
    CommitNow(start, Tick([1]));
    var riding, steps := FromReadyToRiding(Commit(start, Timed(0, Tick([1]))));
    RunOfMore(start, Timed(0, Tick([1])), steps);
    TimelyMore(0, Timed(0, Tick([1])), steps);
    db := Run(start, [Timed(0, Tick([1]))] + steps);
    IsReached(vehicles, [Timed(0, Tick([1]))] + steps);
    fate := Fate(Bare(db.rows[11]), FULL.sources, 0);
  }

  lemma {:induction false} FromReadyToRiding(db: Db) returns (riding: Db, steps: seq<Timed>)
    requires Ready(db) && db.rows == map[]
    ensures Timely(0, steps) && SetOff(riding) && Run(db, steps) == riding.(clock := 1_000)
  {
    ReservedAndCancelled(db);
    CommitNow(db, Reserve(7, 1, 10, 0, FREE_OF_CHARGE, true));
    var b := Commit(db, Timed(0, Reserve(7, 1, 10, 0, FREE_OF_CHARGE, true)));
    CommitNow(b, Cancel(7, 10));
    var c := Commit(b, Timed(0, Cancel(7, 10)));
    var rest: seq<Timed>;
    riding, rest := FromCancelledToRiding(c);
    RunOfMore(b, Timed(0, Cancel(7, 10)), rest);
    TimelyMore(0, Timed(0, Cancel(7, 10)), rest);
    var more := [Timed(0, Cancel(7, 10))] + rest;
    RunOfMore(db, Timed(0, Reserve(7, 1, 10, 0, FREE_OF_CHARGE, true)), more);
    TimelyMore(0, Timed(0, Reserve(7, 1, 10, 0, FREE_OF_CHARGE, true)), more);
    steps := [Timed(0, Reserve(7, 1, 10, 0, FREE_OF_CHARGE, true))] + more;
  }

  lemma {:induction false} FromCancelledToRiding(db: Db) returns (riding: Db, steps: seq<Timed>)
    requires Ready(db) && db.rows.Keys == {10} && db.rows[10].rental.user == 7 && db.rows[10].rental.vehicle == 1
    requires db.rows[10].rental.endedAt.Some? && db.rows[10].invoice.None?
    ensures Timely(0, steps) && SetOff(riding) && Run(db, steps) == riding.(clock := 1_000)
  {
    var reserve := Reserve(8, 1, 11, 0, FREE_OF_CHARGE, true);
    GrantedAtOnce(db);
    var rest: seq<Timed>;
    riding, rest := FromReservedToRiding(Commit(db, Timed(0, reserve)));
    RunOfMore(db, Timed(0, reserve), rest);
    TimelyMore(0, Timed(0, reserve), rest);
    steps := [Timed(0, reserve)] + rest;
  }

  lemma {:induction false} FromReservedToRiding(db: Db) returns (riding: Db, steps: seq<Timed>)
    requires Granted(db)
    ensures Timely(0, steps) && SetOff(riding) && Run(db, steps) == riding.(clock := 1_000)
  {
    var start, later := Ride(Start, 8, 11, true), [Pass(1_000)];
    StartedByTheNext(db);
    CommitNow(db, start);
    riding := Commit(db, Timed(0, start));
    Passing(riding, 1_000);
    RunOfMore(db, Timed(0, start), later);
    TimelyMore(0, Timed(0, start), later);
    steps := [Timed(0, start)] + later;
  }
}
