/** What each command achieves, and exactly when, in terms of the tables it was asked on. */
module Outcomes {
  import opened Wrappers
  import opened Energy
  import opened Invoices
  import opened Rentals
  import opened RowSteps
  import opened Operations
  import opened Invariants
  import opened Keeping
  import opened Lifecycle
  import opened Discovery
  import Billing
  import Failures

  // ---------- reserve ----------

  /** A row as it was, or the overdue reservation it was, ended at its own deadline. */
  predicate ReleasedAtMost(a: Row, b: Row, clock: int) {
    b == a
    || (Overdue(a.rental, clock)
        && b == a.(rental := b.rental)
        && b.rental == a.rental.(stage := Expired, version := a.rental.version + 1, endedAt := Some(a.rental.expiresAt),
                                 modeStartedAt := None))
  }

  /** No vehicle is anything but announced anew. */
  ghost predicate OnlyAnnounced(before: Db, after: Db) {
    && after.vehicles.Keys == before.vehicles.Keys
    && (forall v :: v in before.vehicles ==>
          after.vehicles[v] == before.vehicles[v].(version := after.vehicles[v].version))
  }

  /** Some overdue reservations were released, and nothing else that a command judges has changed. */
  ghost predicate OnlyReleased(before: Db, after: Db) {
    && after.clock == before.clock && after.rows.Keys == before.rows.Keys && OnlyAnnounced(before, after)
    && (forall id :: id in before.rows ==> ReleasedAtMost(before.rows[id], after.rows[id], before.clock))
  }

  lemma {:induction false} NothingReleased(db: Db)
    ensures OnlyReleased(db, db)
  {
  }

  lemma {:induction false} LiveAtReleases(db: Db, found: Option<nat>)
    requires Inv(db) && (found.Some? ==> found.value in db.rows)
    ensures var r := LiveAt(db, found);
            && r.Ok? && OnlyReleased(db, r.value.0) && Inv(r.value.0)
            && (r.value.1.Some? <==> found.Some? && !Overdue(db.rows[found.value].rental, db.clock))
            && (found.Some? && Overdue(db.rows[found.value].rental, db.clock) ==>
                  !Live(r.value.0.rows[found.value].rental))
  {
    if found.Some? && Overdue(db.rows[found.value].rental, db.clock) {
      EndReservationIsKept(db, found.value);
      EndingReleases(db, found.value);
      var released := EndReservation(db, found.value).value;
      assert LiveAt(db, found) == Ok((released, None)) && !Live(released.rows[found.value].rental);
    } else {
      NothingReleased(db);
    }
  }

  lemma {:induction false} EndingReleases(db: Db, id: nat)
    requires Inv(db) && id in db.rows && Overdue(db.rows[id].rental, db.clock)
    ensures var r := EndReservation(db, id);
            && r.Ok? && OnlyReleased(db, r.value) && r.value.rows[id].rental.stage == Expired
            && r.value.rows[id].rental.endedAt == Some(db.rows[id].rental.expiresAt)
  {
    assert RowIn(db, id);
    ReplacingReleases(db, id, EndReservationAs(db.rows[id], Expired, db.rows[id].rental.expiresAt).0);
  }

  lemma {:induction false} ReplacingReleases(db: Db, id: nat, row: Row)
    requires id in db.rows && row.rental.vehicle in db.vehicles && ReleasedAtMost(db.rows[id], row, db.clock)
    ensures Changed(db, id, row, false).Ok? && OnlyReleased(db, Changed(db, id, row, false).value)
  {
  }

  lemma {:induction false} ReleasedTwice(a: Db, b: Db, c: Db)
    requires OnlyReleased(a, b) && OnlyReleased(b, c)
    ensures OnlyReleased(a, c)
  {
  }

  /** Whoever holds the account, or the vehicle, holds it by an overdue reservation. */
  ghost predicate AccountIsFree(db: Db, caller: nat) {
    forall id :: HoldsAccount(db, id, caller) ==> Overdue(db.rows[id].rental, db.clock)
  }

  ghost predicate VehicleIsFree(db: Db, v: nat) {
    forall id :: HoldsVehicle(db, id, v) ==> Overdue(db.rows[id].rental, db.clock)
  }

  /** One is free after a release exactly when it was free before it. */
  lemma {:induction false} FreeAfterReleases(before: Db, after: Db, caller: nat, v: nat)
    requires OnlyReleased(before, after)
    ensures AccountIsFree(after, caller) <==> AccountIsFree(before, caller)
    ensures VehicleIsFree(after, v) <==> VehicleIsFree(before, v)
    ensures AccountOwes(after, caller) <==> AccountOwes(before, caller)
    ensures DaySpent(after, caller) <==> DaySpent(before, caller)
  {
    forall id | id in before.rows
      ensures HoldsAccount(after, id, caller) && !Overdue(after.rows[id].rental, after.clock) <==>
              HoldsAccount(before, id, caller) && !Overdue(before.rows[id].rental, before.clock)
      ensures HoldsVehicle(after, id, v) && !Overdue(after.rows[id].rental, after.clock) <==>
              HoldsVehicle(before, id, v) && !Overdue(before.rows[id].rental, before.clock)
      ensures Owes(after.rows[id]) <==> Owes(before.rows[id])
      ensures after.rows[id].rental.user == before.rows[id].rental.user
      ensures after.rows[id].rental.reservedAt == before.rows[id].rental.reservedAt
    {
      assert ReleasedAtMost(before.rows[id], after.rows[id], before.clock);
    }
  }

  lemma {:induction false} FreeByTheHolder(db: Db, caller: nat, v: nat)
    requires Inv(db)
    ensures AccountIsFree(db, caller) <==>
            LiveOf(db, caller).None? || Overdue(db.rows[LiveOf(db, caller).value].rental, db.clock)
    ensures VehicleIsFree(db, v) <==> LiveOn(db, v).None? || Overdue(db.rows[LiveOn(db, v).value].rental, db.clock)
  {
    forall id: nat | HoldsAccount(db, id, caller) ensures LiveOf(db, caller) == Some(id) {
      TheRiderIsFound(db, id);
    }
    forall id: nat | HoldsVehicle(db, id, v) ensures LiveOn(db, v) == Some(id) {
      TheRiderIsFound(db, id);
    }
  }

  /** Releasing the holder of an account, when it is overdue, leaves nobody; and of a vehicle likewise. */
  lemma {:induction false} AccountIsReleased(db: Db, caller: nat, after: Db)
    requires Inv(db) && LiveAt(db, LiveOf(db, caller)).Ok? && after == LiveAt(db, LiveOf(db, caller)).value.0
    ensures LiveOf(after, caller).None? <==> AccountIsFree(db, caller)
    ensures LiveAt(db, LiveOf(db, caller)).value.1.None? <==> AccountIsFree(db, caller)
  {
    var held := LiveOf(db, caller);
    LiveAtReleases(db, held);
    FreeByTheHolder(db, caller, 0);
    FreeAfterReleases(db, after, caller, 0);
    if LiveOf(after, caller).Some? {
      var now := LiveOf(after, caller).value;
      assert ReleasedAtMost(db.rows[now], after.rows[now], db.clock);
      TheRiderIsFound(db, now);
    }
  }

  lemma {:induction false} VehicleIsReleased(db: Db, v: nat, after: Db)
    requires Inv(db) && LiveAt(db, LiveOn(db, v)).Ok? && after == LiveAt(db, LiveOn(db, v)).value.0
    ensures LiveOn(after, v).None? <==> VehicleIsFree(db, v)
  {
    var held := LiveOn(db, v);
    LiveAtReleases(db, held);
    FreeByTheHolder(db, 0, v);
    FreeAfterReleases(db, after, 0, v);
    if LiveOn(after, v).Some? {
      HeldAsBefore(db, after, v);
    }
  }

  lemma {:induction false} HeldAsBefore(db: Db, after: Db, v: nat)
    requires Inv(db) && OnlyReleased(db, after) && LiveOn(after, v).Some?
    ensures LiveOn(db, v) == LiveOn(after, v)
  {
    var now := LiveOn(after, v).value;
    assert ReleasedAtMost(db.rows[now], after.rows[now], db.clock);
    TheRiderIsFound(db, now);
  }

  /** A release of others brings no holder to an account, and takes none that is not overdue. */
  lemma {:induction false} StillHeldAsBefore(before: Db, after: Db, caller: nat)
    requires Inv(before) && OnlyReleased(before, after)
    requires LiveOf(before, caller).None? <==> AccountIsFree(before, caller)
    ensures LiveOf(after, caller).None? <==> AccountIsFree(before, caller)
  {
    FreeAfterReleases(before, after, caller, 0);
    if LiveOf(before, caller).None? && LiveOf(after, caller).Some? {
      var now := LiveOf(after, caller).value;
      assert ReleasedAtMost(before.rows[now], after.rows[now], before.clock);
      assert HoldsAccount(before, now, caller);
    }
  }

  lemma {:induction false} ReleaseOverdueReleases(db: Db, caller: nat, v: nat)
    requires Inv(db)
    ensures var r := ReleaseOverdue(db, caller, v);
            && r.Ok? && Inv(r.value.0) && OnlyReleased(db, r.value.0)
            && (r.value.1.None? <==> AccountIsFree(db, caller))
            && (LiveOf(r.value.0, caller).None? <==> AccountIsFree(db, caller))
            && (LiveOn(r.value.0, v).None? <==> VehicleIsFree(db, v))
  {
    LiveAtIsKept(db, LiveOf(db, caller));
    var (first, held) := LiveAt(db, LiveOf(db, caller)).value;
    FirstReleaseReleases(db, caller, first, held);
    LiveAtReleases(first, LiveOn(first, v));
    var released := LiveAt(first, LiveOn(first, v)).value.0;
    SecondReleaseReleases(db, first, released, caller, v);
    ReleaseOverdueIs(db, caller, v, first, held, released);
  }

  lemma {:induction false} FirstReleaseReleases(db: Db, caller: nat, first: Db, held: Option<nat>)
    requires Inv(db) && LiveAt(db, LiveOf(db, caller)) == Ok((first, held))
    ensures Inv(first) && OnlyReleased(db, first)
    ensures held.None? <==> AccountIsFree(db, caller)
    ensures LiveOf(first, caller).None? <==> AccountIsFree(db, caller)
  {
    LiveAtReleases(db, LiveOf(db, caller));
    AccountIsReleased(db, caller, first);
  }

  lemma {:induction false} ReleaseOverdueIs(db: Db, caller: nat, v: nat, first: Db, held: Option<nat>, released: Db)
    requires LiveAt(db, LiveOf(db, caller)) == Ok((first, held))
    requires LiveAt(first, LiveOn(first, v)).Ok? && LiveAt(first, LiveOn(first, v)).value.0 == released
    ensures ReleaseOverdue(db, caller, v) == Ok((released, held))
  {
  }

  lemma {:induction false} SecondReleaseReleases(db: Db, first: Db, released: Db, caller: nat, v: nat)
    requires OnlyReleased(db, first) && Inv(first) && (LiveOf(first, caller).None? <==> AccountIsFree(db, caller))
    requires LiveAt(first, LiveOn(first, v)).Ok? && released == LiveAt(first, LiveOn(first, v)).value.0
    requires OnlyReleased(first, released)
    ensures OnlyReleased(db, released)
    ensures LiveOf(released, caller).None? <==> AccountIsFree(db, caller)
    ensures LiveOn(released, v).None? <==> VehicleIsFree(db, v)
  {
    FreeAfterReleases(db, first, caller, v);
    VehicleIsReleased(first, v, released);
    StillHeldAsBefore(first, released, caller);
    ReleasedTwice(db, first, released);
  }

  /** Whether the account has reserved since the last midnight of the service timezone. */
  ghost predicate SpentToday(db: Db, user: nat) {
    exists id :: id in db.rows && db.rows[id].rental.user == user
                 && !MidnightBetween(db.rows[id].rental.reservedAt, db.clock)
  }

  lemma {:induction false} TheDayIsSpent(db: Db, user: nat)
    requires Inv(db)
    ensures DaySpent(db, user) <==> SpentToday(db, user)
  {
    forall id | id in db.rows
      ensures ServiceDay(db.rows[id].rental.reservedAt) == ServiceDay(db.clock) <==>
              !MidnightBetween(db.rows[id].rental.reservedAt, db.clock)
    {
      assert RowIn(db, id);
      ServiceDaysEndAtMidnight(db.rows[id].rental.reservedAt, db.clock);
    }
  }

  /** The vehicle is there, in service, offered and held by nobody whose time is not over. */
  ghost predicate CanBeReserved(db: Db, v: nat, available: bool) {
    v in db.vehicles && !db.vehicles[v].serviceRequired && available && VehicleIsFree(db, v)
  }

  /** What a reservation is granted on: the account owes nothing, has not reserved today and holds nothing that is
      not overdue, and the vehicle can be reserved. */
  ghost predicate MayReserve(db: Db, caller: nat, v: nat, available: bool) {
    && !AccountOwes(db, caller) && !SpentToday(db, caller) && AccountIsFree(db, caller)
    && CanBeReserved(db, v, available)
  }

  /** A reservation is granted exactly when it may be, for fifteen minutes from its moment, and the account and the
      vehicle are then held by it; a refused one adds nothing, and names what the account did before what it holds and
      that before the vehicle. */
  lemma {:induction false} ReserveSucceedsExactlyWhen(db: Db, caller: nat, v: nat, id: nat, zone: nat,
                                                      rates: Billing.Rates, available: bool)
    requires Inv(db) && id !in db.rows
    ensures var r := ReserveWithin(db, caller, v, id, zone, rates, available);
            && r.Ok? && OnlyAnnounced(db, r.value.0)
            && (r.value.1 == Reserving(id) <==> MayReserve(db, caller, v, available))
            && (MayReserve(db, caller, v, available) ==>
                  && r.value.0.rows.Keys == db.rows.Keys + {id}
                  && HoldsAccount(r.value.0, id, caller) && HoldsVehicle(r.value.0, id, v)
                  && var rental := r.value.0.rows[id].rental;
                     && rental.stage == Reserved && rental.rates == rates && rental.zone == zone
                     && rental.reservedAt == db.clock && rental.expiresAt == db.clock + 900_000_000_000)
            && (!MayReserve(db, caller, v, available) ==>
                  && OnlyReleased(db, r.value.0)
                  && r.value.1 == Refusing(if AccountOwes(db, caller) then OutstandingInvoice
                                           else if SpentToday(db, caller) then DailyLimitReached
                                           else if !AccountIsFree(db, caller) then ActiveRentalExists
                                           else VehicleUnavailable))
  {
    ReleaseOverdueReleases(db, caller, v);
    var (released, held) := ReleaseOverdue(db, caller, v).value;
    FreeAfterReleases(db, released, caller, v);
    TheDayIsSpent(db, caller);
    if MayReserve(db, caller, v, available) {
      CreatesWhenFree(released, caller, v, id, zone, rates);
    } else {
      assert AccountRefuses(released, caller, held) || v !in released.vehicles || LiveOn(released, v).Some?
             || released.vehicles[v].serviceRequired || !available;
    }
  }

  lemma {:induction false} CreatesWhenFree(db: Db, caller: nat, v: nat, id: nat, zone: nat, rates: Billing.Rates)
    requires id !in db.rows
    requires LiveOf(db, caller).None? && LiveOn(db, v).None? && v in db.vehicles
    ensures var r := CreateReservation(db, caller, v, id, zone, rates);
            && r.Ok? && r.value.1 == Reserving(id) && OnlyAnnounced(db, r.value.0)
            && r.value.0.rows == db.rows[id := ReservedRow(caller, v, zone, rates, db.clock)]
  {
  }

  // ---------- start, pause ----------

  /** Bringing a vehicle to the moment leaves a rental nobody rides as it is. */
  lemma {:induction false} IdleTargetStands(db: Db, id: nat)
    requires Inv(db) && id in db.rows && !Riding(db.rows[id].rental) && ReconciledTarget(db, id).Ok?
    ensures var reconciled := ReconciledTarget(db, id).value;
            id in reconciled.rows && reconciled.rows[id] == db.rows[id] && reconciled.clock == db.clock
  {
  }

  /** A ride that has just set off. */
  predicate SetsOff(row: Row, moment: int) {
    && row.rental.stage == Active && row.rental.startedAt == row.rental.modeStartedAt == Some(moment)
    && row.segments == [Segment(Driving, moment, None)]
  }

  /** A start sets off exactly a reservation of the caller whose time is not over, on a vehicle that is fit; an
      overdue one it finds is ended at its deadline instead. */
  lemma {:induction false} StartsExactlyWhen(db: Db, caller: nat, id: nat, fit: bool)
    requires Inv(db) && RideWithin(db, Start, caller, id, fit).Ok?
    ensures var (after, answer) := RideWithin(db, Start, caller, id, fit).value;
            && (answer == Moving(id) <==> RentalOf(db, caller, id) && db.rows[id].rental.stage == Reserved
                                          && db.clock < db.rows[id].rental.expiresAt && fit)
            && (answer == Moving(id) ==> id in after.rows && SetsOff(after.rows[id], db.clock))
            && (RentalOf(db, caller, id) && Overdue(db.rows[id].rental, db.clock) ==>
                  && answer == Refusing(ReservationExpired)
                  && id in after.rows && after.rows[id].rental.stage == Expired
                  && after.rows[id].rental.endedAt == Some(db.rows[id].rental.expiresAt))
  {
    if RentalOf(db, caller, id) {
      var reconciled := ReconciledTarget(db, id).value;
      StartMeetsTheReservation(db, reconciled, id);
      if db.rows[id].rental.stage == Reserved {
        StartsOnward(reconciled, id, fit);
      } else {
        OnlyReservationsStart(reconciled, id, fit);
      }
    }
  }

  /** What a start judges is the reservation as it was, or no reservation at all. */
  lemma {:induction false} StartMeetsTheReservation(db: Db, reconciled: Db, id: nat)
    requires Inv(db) && id in db.rows && ReconciledTarget(db, id) == Ok(reconciled)
    ensures Inv(reconciled) && id in reconciled.rows && reconciled.clock == db.clock
    ensures db.rows[id].rental.stage == Reserved ==> reconciled.rows[id] == db.rows[id]
    ensures db.rows[id].rental.stage != Reserved ==> reconciled.rows[id].rental.stage != Reserved
  {
    assert RowIn(db, id);
    TargetIsKept(db, id);
    if db.rows[id].rental.stage == Reserved {
      IdleTargetStands(db, id);
    } else {
      NeverReservedAgain(db, reconciled, id);
    }
  }

  lemma {:induction false} OnlyReservationsStart(db: Db, id: nat, fit: bool)
    requires id in db.rows && db.rows[id].rental.stage != Reserved
    ensures RideOnward(db, Start, id, fit).Ok? && RideOnward(db, Start, id, fit).value.1.Refusing?
  {
  }

  lemma {:induction false} StartsOnward(db: Db, id: nat, fit: bool)
    requires Inv(db) && id in db.rows && db.rows[id].rental.stage == Reserved && RideOnward(db, Start, id, fit).Ok?
    ensures var (after, answer) := RideOnward(db, Start, id, fit).value;
            if Overdue(db.rows[id].rental, db.clock) then
              && answer == Refusing(ReservationExpired) && id in after.rows && after.rows[id].rental.stage == Expired
              && after.rows[id].rental.endedAt == Some(db.rows[id].rental.expiresAt)
            else if !fit then answer == Refusing(VehicleUnavailable)
            else answer == Moving(id) && id in after.rows && SetsOff(after.rows[id], db.clock)
  {
    assert RowIn(db, id);
    if Overdue(db.rows[id].rental, db.clock) {
      EndReservationIsKept(db, id);
    } else if fit {
      MovedRowIsOk(id, db.rows[id], Start, db.clock);
      assert Closed(db.rows[id].segments, db.clock) == [];
    }
  }

  /** No reconciliation brings a ride, or a rental that is over, back to a reservation. */
  lemma {:induction false} NeverReservedAgain(db: Db, reconciled: Db, id: nat)
    requires Inv(db) && id in db.rows && db.rows[id].rental.stage != Reserved && Kept(db, reconciled)
    requires Reconciled(db, reconciled, db.rows[id].rental.vehicle, Some(Held(id, db.rows[id].rental)))
    ensures id in reconciled.rows && reconciled.rows[id].rental.stage != Reserved
  {
    assert RowIn(db, id) && RowIn(reconciled, id);
    assert Evolves(db.rows[id], reconciled.rows[id]);
  }

  /** A ride whose mode has just changed: what was open is closed, and the next mode is open, at one instant. */
  predicate Changes(segments: seq<Segment>, row: Row, action: Action, moment: int) {
    && row.rental.stage == (if action == Pause then Stage.Paused else Active)
    && row.rental.modeStartedAt == Some(moment)
    && row.segments ==
       Closed(segments, moment) + [Segment(if action == Pause then Mode.Paused else Driving, moment, None)]
  }

  /** A pause stops a moving ride, and a resume moves one that pauses shortly, exactly when it comes before the
      run-out; at that moment or later the ride ends as its sources did and the command is refused. */
  lemma {:induction false} ModeChangesExactlyBeforeTheRunOut(db: Db, action: Action, caller: nat, id: nat, fit: bool,
                                                             fate: Fate)
    requires Inv(db) && Awaits(db, id, fate) && ShortPause(fate, db.clock) && db.rows[id].rental.user == caller
    requires action != Start && db.rows[id].rental.stage == StageBefore(action)
    requires RideWithin(db, action, caller, id, fit).Ok?
    ensures var (after, answer) := RideWithin(db, action, caller, id, fit).value;
            && id in after.rows
            && (answer == Moving(id) <==> db.clock < RunsOutAt(fate))
            && (db.clock < RunsOutAt(fate) ==> Changes(fate.row.segments, after.rows[id], action, db.clock))
            && (RunsOutAt(fate) <= db.clock ==> answer == Refusing(RentalCompleted) && MetItsFate(after, id, fate))
  {
    TargetIsKept(db, id);
    ReconcilingDiscovers(db, id, fate);
    var reconciled := ReconciledTarget(db, id).value;
    if db.clock < RunsOutAt(fate) {
      ModeChangesOnward(reconciled, action, id, fit);
    } else {
      OverIsRefused(reconciled, action, id, fit);
    }
  }

  lemma {:induction false} OverIsRefused(db: Db, action: Action, id: nat, fit: bool)
    requires id in db.rows && db.rows[id].rental.stage == Completed
    ensures RideOnward(db, action, id, fit) == Ok((db, Refusing(RentalCompleted)))
  {
  }

  lemma {:induction false} ModeChangesOnward(db: Db, action: Action, id: nat, fit: bool)
    requires Inv(db) && id in db.rows && action != Start && db.rows[id].rental.stage == StageBefore(action)
    requires RideOnward(db, action, id, fit).Ok?
    ensures var (after, answer) := RideOnward(db, action, id, fit).value;
            answer == Moving(id) && id in after.rows && Changes(db.rows[id].segments, after.rows[id], action, db.clock)
  {
    assert RowIn(db, id);
    MovedRowIsOk(id, db.rows[id], action, db.clock);
  }

  // ---------- cancel, expire ----------

  /** One reservation is given back at a moment, and no other rental has changed. */
  predicate Given(before: Db, after: Db, id: nat, stage: Stage, at: int) {
    && id in before.rows && id in after.rows && after.rows == before.rows[id := after.rows[id]]
    && after.rows[id] == before.rows[id].(rental := before.rows[id].rental.(
         stage := stage, version := before.rows[id].rental.version + 1, endedAt := Some(at), modeStartedAt := None))
  }

  /** A cancellation ends exactly a reservation of the caller before its deadline, now; one at or past its deadline
      is ended there as expired; anything else is left untouched and refused for what it is. */
  lemma {:induction false} CancelsExactlyBeforeTheDeadline(db: Db, caller: nat, id: nat)
    requires Inv(db)
    ensures var r := CancelWithin(db, caller, id);
            && r.Ok? && OnlyAnnounced(db, r.value.0)
            && (!RentalOf(db, caller, id) ==> r.value == (db, Refusing(RentalNotFound)))
            && (RentalOf(db, caller, id) ==>
                  var rental := db.rows[id].rental;
                  match rental.stage
                  case Reserved =>
                    if db.clock < rental.expiresAt then
                      r.value.1 == Releasing(id) && Given(db, r.value.0, id, Cancelled, db.clock)
                    else
                      r.value.1 == Refusing(ReservationExpired) && Given(db, r.value.0, id, Expired, rental.expiresAt)
                  case Expired => r.value == (db, Refusing(ReservationExpired))
                  case Completed => r.value == (db, Refusing(RentalCompleted))
                  case _ => r.value == (db, Refusing(InvalidRentalState)))
  {
    if RentalOf(db, caller, id) {
      assert RowIn(db, id);
      if db.rows[id].rental.stage == Reserved {
        var (stage, at) :=
          if Overdue(db.rows[id].rental, db.clock) then (Expired, db.rows[id].rental.expiresAt)
          else (Cancelled, db.clock);
        ReplacingAnnounces(db, id, EndReservationAs(db.rows[id], stage, at).0);
      }
    }
  }

  lemma {:induction false} ReplacingAnnounces(db: Db, id: nat, row: Row)
    requires id in db.rows && row.rental.vehicle in db.vehicles
    ensures var r := Changed(db, id, row, false);
            && r.Ok? && OnlyAnnounced(db, r.value)
            && r.value.rows == db.rows[id := row] && r.value.rows.Keys == db.rows.Keys
  {
  }

  /** A step of the sweep moves exactly a reservation that is overdue under its locks, to its own deadline. */
  lemma {:induction false} ExpiresExactlyWhenOverdue(db: Db, id: nat)
    requires Inv(db)
    ensures var r := ExpireWithin(db, id);
            && r.Ok?
            && (r.value.1 == Releasing(id) <==> id in db.rows && Overdue(db.rows[id].rental, db.clock))
            && (r.value.1 != Releasing(id) ==> r.value.0 == db)
            && (r.value.1 == Releasing(id) ==>
                  && id in r.value.0.rows && r.value.0.rows[id].rental.stage == Expired
                  && r.value.0.rows[id].rental.endedAt == Some(db.rows[id].rental.expiresAt)
                  && OnlyReleased(db, r.value.0))
  {
    if id in db.rows && Overdue(db.rows[id].rental, db.clock) {
      EndReservationIsKept(db, id);
      EndingReleases(db, id);
    }
  }

  // ---------- payments ----------

  /** The invoice once its payment was made, and once it was refused. */
  function PaidUp(invoice: Invoice, moment: int): Invoice {
    invoice.(payment := invoice.payment.(
      status := Settled, version := invoice.payment.version + 1, updatedAt := moment,
      paidAt := Some(moment), failedAt := None, failureCode := None,
      passed := invoice.payment.passed + [Settled]))
  }

  function TurnedDown(invoice: Invoice, moment: int): Invoice {
    invoice.(payment := invoice.payment.(
      status := Failed, version := invoice.payment.version + 1, updatedAt := moment,
      paidAt := None, failedAt := Some(moment), failureCode := Some("declined"),
      passed := invoice.payment.passed + [Failed]))
  }

  /** Nothing but the invoice of one ride is another. */
  predicate InvoiceReplaced(before: Db, after: Db, id: nat, invoice: Invoice) {
    id in before.rows && after == before.(rows := before.rows[id := before.rows[id].(invoice := Some(invoice))])
  }

  /** The service tries exactly a payment that waits, and settles it as it was decided; anything else it leaves as it
      is, and it never fails. */
  lemma {:induction false} AttemptsExactlyWhatWaits(db: Db, id: nat, declined: bool)
    requires Inv(db)
    ensures var r := AttemptWithin(db, id, declined);
            && r.Ok?
            && if id in db.rows && db.rows[id].invoice.Some? && db.rows[id].invoice.value.payment.status == Pending then
                 var invoice := db.rows[id].invoice.value;
                 InvoiceReplaced(db, r.value.0, id, if declined then TurnedDown(invoice, db.clock)
                                                    else PaidUp(invoice, db.clock))
               else r.value.0 == db
  {
    if id in db.rows && db.rows[id].invoice.Some? && db.rows[id].invoice.value.payment.status == Pending {
      Failures.SettlingNeverFails(db, id, Pending, if declined then Declined(db.clock) else Paid(db.clock));
    }
  }

  /** A person pays exactly an invoice of the own account whose payment was refused, and is shown it paid; one that is
      paid already is shown as it is, one that waits is being paid, and one of another account is answered like a ride
      that has none. */
  lemma {:induction false} PaymentsMoveExactlyWhen(db: Db, caller: nat, id: nat)
    requires Inv(db)
    ensures !RentalOf(db, caller, id) || db.rows[id].rental.stage != Completed ==>
              PayWithin(db, caller, id) == Ok((db, Refusing(InvoiceNotFound)))
    ensures RentalOf(db, caller, id) && db.rows[id].rental.stage == Completed ==>
              var r := PayWithin(db, caller, id);
              && r.Ok? && db.rows[id].invoice.Some?
              && var invoice := db.rows[id].invoice.value;
                 match invoice.payment.status
                 case Pending => r.value == (db, Refusing(PaymentInProgress))
                 case Settled => r.value == (db, Paying(invoice))
                 case Failed =>
                   && r.value.1 == Paying(PaidUp(invoice, db.clock))
                   && InvoiceReplaced(db, r.value.0, id, PaidUp(invoice, db.clock))
  {
    if id in db.rows {
      assert RowIn(db, id);
      if db.rows[id].invoice.Some? && db.rows[id].invoice.value.payment.status == Failed {
        Failures.SettlingNeverFails(db, id, Failed, Paid(db.clock));
      }
    }
  }
}
