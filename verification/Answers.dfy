/** What each command answers, in terms of the tables it leaves
    (backend/internal/rentals/current.go, finish.go, ride.go, tick.go). */
module Answers {
  import opened Wrappers
  import opened Invoices
  import opened Rentals
  import opened RowSteps
  import opened Operations
  import opened Invariants
  import opened Keeping
  import opened Lifecycle
  import opened Discovery
  import opened Outcomes
  import Ticks

  // ---------- what is current ----------

  /** The answer names the one rental that holds the account in these tables, if one does, and none is overdue. */
  ghost predicate ShowsTheHolder(db: Db, caller: nat, answer: Answer) {
    && answer.Showing? && (answer.current.Some? ==> HoldsAccount(db, answer.current.value, caller))
    && (forall id :: HoldsAccount(db, id, caller) ==>
          answer.current == Some(id) && !Overdue(db.rows[id].rental, db.clock))
  }

  lemma {:induction false} OneHolderIsShown(db: Db, caller: nat, id: nat)
    requires Inv(db) && HoldsAccount(db, id, caller) && !Overdue(db.rows[id].rental, db.clock)
    ensures ShowsTheHolder(db, caller, Showing(Some(id)))
  {
    forall other: nat | HoldsAccount(db, other, caller)
      ensures other == id
    {
      HoldersAreOne(db, other, id);
    }
  }

  /** Releasing what is overdue leaves the holder that is answered, or none. */
  lemma {:induction false} ReleasedShowsTheHolder(db: Db, caller: nat)
    requires Inv(db)
    ensures var r := LiveAt(db, LiveOf(db, caller));
            && r.Ok? && Inv(r.value.0) && ShowsTheHolder(r.value.0, caller, Showing(r.value.1))
            && r.value.0.clock == db.clock && (r.value.1.Some? ==> r.value.0 == db)
  {
    LiveAtIsKept(db, LiveOf(db, caller));
    var (left, now) := LiveAt(db, LiveOf(db, caller)).value;
    if now.Some? {
      OneHolderIsShown(db, caller, now.value);
    } else {
      AccountIsReleased(db, caller, left);
      assert LiveOf(left, caller).None?;
    }
  }

  lemma {:induction false} OnwardShowsTheHolder(db: Db, caller: nat)
    requires Inv(db) && CurrentOnward(db, caller).Ok?
    ensures ShowsTheHolder(CurrentOnward(db, caller).value.0, caller, CurrentOnward(db, caller).value.1)
  {
    ReleasedShowsTheHolder(db, caller);
  }

  /** The read of what is current answers exactly the rental that holds the account in the tables it leaves, and
      nothing exactly when none does; it leaves none that is overdue. */
  lemma {:induction false} CurrentShowsTheHolder(db: Db, caller: nat)
    requires Inv(db) && CurrentWithin(db, caller).Ok?
    ensures ShowsTheHolder(CurrentWithin(db, caller).value.0, caller, CurrentWithin(db, caller).value.1)
  {
    ReleasedShowsTheHolder(db, caller);
    var (released, held) := LiveAt(db, LiveOf(db, caller)).value;
    CurrentIs(db, caller, released, held);
    if held.Some? && Riding(released.rows[held.value].rental) {
      TargetIsKept(released, held.value);
      OnwardShowsTheHolder(ReconciledTarget(released, held.value).value, caller);
    }
  }

  lemma {:induction false} CurrentAddsNoRental(db: Db, caller: nat)
    requires Inv(db) && CurrentWithin(db, caller).Ok?
    ensures CurrentWithin(db, caller).value.0.rows.Keys == db.rows.Keys
  {
    LiveAtReleases(db, LiveOf(db, caller));
    var (released, held) := LiveAt(db, LiveOf(db, caller)).value;
    CurrentIs(db, caller, released, held);
    if held.Some? && Riding(released.rows[held.value].rental) {
      TargetIsKept(released, held.value);
      OnwardAddsNoRental(ReconciledTarget(released, held.value).value, caller);
    }
  }

  lemma {:induction false} OnwardAddsNoRental(db: Db, caller: nat)
    requires Inv(db) && CurrentOnward(db, caller).Ok?
    ensures CurrentOnward(db, caller).value.0.rows.Keys == db.rows.Keys
  {
    LiveAtReleases(db, LiveOf(db, caller));
  }

  /** Whoever held an account and holds it no more leaves it to nobody, when no rental was added. */
  lemma {:induction false} NobodyHoldsItAfterwards(before: Db, after: Db, caller: nat, id: nat)
    requires Inv(before) && Evolved(before, after) && after.rows.Keys == before.rows.Keys
    requires HoldsAccount(before, id, caller) && id in after.rows && !Live(after.rows[id].rental)
    ensures forall other :: !HoldsAccount(after, other, caller)
  {
    forall other: nat | HoldsAccount(after, other, caller)
      ensures false
    {
      assert Evolves(before.rows[other], after.rows[other]);
      HoldersAreOne(before, other, id);
    }
  }

  /** An account in the middle of its ride is shown it exactly until its sources run out, and nothing from then on. */
  lemma {:induction false} RidesAreShownUntilTheRunOut(db: Db, caller: nat, id: nat, fate: Fate)
    requires Inv(db) && Awaits(db, id, fate) && ShortPause(fate, db.clock) && db.rows[id].rental.user == caller
    requires CurrentWithin(db, caller).Ok?
    ensures CurrentWithin(db, caller).value.1 == Showing(if db.clock < RunsOutAt(fate) then Some(id) else None)
  {
    CurrentShowsTheHolder(db, caller);
    CurrentFindsItsFate(db, caller, id, fate);
    if RunsOutAt(fate) <= db.clock {
      OverIsHeldByNobody(db, caller, id, fate);
    }
  }

  lemma {:induction false} CurrentFindsItsFate(db: Db, caller: nat, id: nat, fate: Fate)
    requires Inv(db) && Awaits(db, id, fate) && ShortPause(fate, db.clock) && db.rows[id].rental.user == caller
    requires CurrentWithin(db, caller).Ok?
    ensures db.clock < RunsOutAt(fate) ==> HoldsAccount(CurrentWithin(db, caller).value.0, id, caller)
    ensures RunsOutAt(fate) <= db.clock ==> MetItsFate(CurrentWithin(db, caller).value.0, id, fate)
  {
    assert RowIn(db, id);
    CurrentFollows(db, caller, id, fate);
    if db.clock < RunsOutAt(fate) {
      StillRidingIsHeld(db, CurrentWithin(db, caller).value.0, caller, id, fate);
    }
  }

  lemma {:induction false} StillRidingIsHeld(before: Db, after: Db, caller: nat, id: nat, fate: Fate)
    requires Awaits(before, id, fate) && Awaits(after, id, fate) && before.rows[id].rental.user == caller
    requires Live(before.rows[id].rental)
    ensures HoldsAccount(after, id, caller)
  {
    assert Bare(before.rows[id]) == Bare(after.rows[id]);
  }

  lemma {:induction false} OverIsHeldByNobody(db: Db, caller: nat, id: nat, fate: Fate)
    requires Inv(db) && Awaits(db, id, fate) && db.rows[id].rental.user == caller && CurrentWithin(db, caller).Ok?
    requires MetItsFate(CurrentWithin(db, caller).value.0, id, fate)
    ensures forall other :: !HoldsAccount(CurrentWithin(db, caller).value.0, other, caller)
  {
    assert RowIn(db, id);
    CurrentIsKept(db, caller);
    CurrentAddsNoRental(db, caller);
    NobodyHoldsItAfterwards(db, CurrentWithin(db, caller).value.0, caller, id);
  }

  /** A reservation is shown exactly until its deadline. */
  lemma {:induction false} ReservationsAreShownUntilTheDeadline(db: Db, caller: nat, id: nat)
    requires Inv(db) && RentalOf(db, caller, id) && db.rows[id].rental.stage == Reserved
    ensures var r := CurrentWithin(db, caller);
            && r.Ok?
            && r.value.1 == Showing(if db.clock < db.rows[id].rental.expiresAt then Some(id) else None)
            && (db.rows[id].rental.expiresAt <= db.clock ==>
                  && id in r.value.0.rows && r.value.0.rows[id].rental.stage == Expired
                  && r.value.0.rows[id].rental.endedAt == Some(db.rows[id].rental.expiresAt))
  {
    assert RowIn(db, id);
    TheRiderIsFound(db, id);
    LiveAtIsKept(db, Some(id));
    if Overdue(db.rows[id].rental, db.clock) {
      EndReservationIsKept(db, id);
    }
    var (released, held) := LiveAt(db, Some(id)).value;
    CurrentIs(db, caller, released, held);
  }

  // ---------- ride commands ----------

  /** A ride brought to its moment goes on as it was, or its sources have run out. */
  lemma {:induction false} RideGoesOnOrRanOut(db: Db, id: nat, reconciled: Db)
    requires Inv(db) && id in db.rows && Riding(db.rows[id].rental) && ReconciledTarget(db, id) == Ok(reconciled)
    ensures Inv(reconciled) && reconciled.clock == db.clock && id in reconciled.rows
    ensures if Live(reconciled.rows[id].rental) then reconciled.rows[id].rental == db.rows[id].rental
            else RanOut(reconciled.rows[id])
  {
    assert RowIn(db, id);
    TargetIsKept(db, id);
    GoesOnOrRanOut(db, id, reconciled);
  }

  lemma {:induction false} GoesOnOrRanOut(before: Db, id: nat, after: Db)
    requires Inv(after) && id in before.rows && id in after.rows && Live(before.rows[id].rental)
    requires Reconciled(before, after, before.rows[id].rental.vehicle, Some(Held(id, before.rows[id].rental)))
    ensures if Live(after.rows[id].rental) then after.rows[id].rental == before.rows[id].rental
            else RanOut(after.rows[id])
  {
    assert RowIn(after, id);
  }

  predicate RanOut(row: Row) {
    row.rental.stage == Completed && row.rental.reason == Some(EnergyDepleted) && row.invoice.Some?
  }

  /** Which command moves a ride in which stage. */
  predicate Moves(action: Action, stage: Stage) {
    (action == Pause && stage == Active) || (action == Resume && stage == Stage.Paused)
  }

  /** What a ride command says of the ride it found, whatever it says: a ride that is over refuses it for how it ended,
      before anything the command asks for. */
  lemma {:induction false} RidesAnswerForTheirStage(db: Db, action: Action, caller: nat, id: nat, fit: bool)
    requires Inv(db) && RideWithin(db, action, caller, id, fit).Ok?
    ensures var (after, answer) := RideWithin(db, action, caller, id, fit).value;
            && (!RentalOf(db, caller, id) ==> after == db && answer == Refusing(RentalNotFound))
            && (RentalOf(db, caller, id) ==>
                  && id in after.rows
                  && var (before, now) := (db.rows[id], after.rows[id]);
                     match before.rental.stage
                     case Reserved =>
                       answer == if before.rental.expiresAt <= db.clock then Refusing(ReservationExpired)
                                 else if action != Start then Refusing(InvalidRentalState)
                                 else if fit then Moving(id)
                                 else Refusing(VehicleUnavailable)
                     case Active | Paused =>
                       if !Live(now.rental) then answer == Refusing(RentalCompleted) && RanOut(now)
                       else if Moves(action, before.rental.stage) then answer == Moving(id)
                       else answer == Refusing(InvalidRentalState) && now.rental == before.rental
                     case Completed => answer == Refusing(RentalCompleted) && now == before
                     case _ => answer == Refusing(ReservationExpired) && now == before)
  {
    if RentalOf(db, caller, id) {
      assert RowIn(db, id);
      var reconciled := ReconciledTarget(db, id).value;
      TargetIsKept(db, id);
      RideIsOnward(db, action, caller, id, fit, reconciled);
      if Riding(db.rows[id].rental) {
        RideGoesOnOrRanOut(db, id, reconciled);
        RidingOnAnswers(reconciled, action, id, fit);
      } else {
        IdleTargetStands(db, id);
        RestingAnswers(reconciled, action, id, fit);
      }
    }
  }

  lemma {:induction false} RidingOnAnswers(db: Db, action: Action, id: nat, fit: bool)
    requires Inv(db) && id in db.rows && RideOnward(db, action, id, fit).Ok?
    requires Riding(db.rows[id].rental) || RanOut(db.rows[id])
    ensures var (after, answer) := RideOnward(db, action, id, fit).value;
            && id in after.rows
            && if RanOut(db.rows[id]) then answer == Refusing(RentalCompleted) && after == db
               else if Moves(action, db.rows[id].rental.stage) then answer == Moving(id) && Live(after.rows[id].rental)
               else answer == Refusing(InvalidRentalState) && after == db
  {
    assert RowIn(db, id);
    if Moves(action, db.rows[id].rental.stage) {
      ModeChangesOnward(db, action, id, fit);
      MovedRowIsOk(id, db.rows[id], action, db.clock);
    }
  }

  lemma {:induction false} RestingAnswers(db: Db, action: Action, id: nat, fit: bool)
    requires Inv(db) && id in db.rows && !Riding(db.rows[id].rental) && RideOnward(db, action, id, fit).Ok?
    ensures var (after, answer) := RideOnward(db, action, id, fit).value;
            && id in after.rows
            && match db.rows[id].rental.stage
               case Reserved =>
                 answer == if db.rows[id].rental.expiresAt <= db.clock then Refusing(ReservationExpired)
                           else if action != Start then Refusing(InvalidRentalState)
                           else if fit then Moving(id)
                           else Refusing(VehicleUnavailable)
               case Completed => answer == Refusing(RentalCompleted) && after == db
               case _ => answer == Refusing(ReservationExpired) && after == db
  {
    assert RowIn(db, id);
  }

  // ---------- finish ----------

  /** What a finish says of the ride it found: the invoice stored with the ending of a ride that is over, whoever ended
      it and however often it is asked, and otherwise why it is not. */
  lemma {:induction false} FinishesAnswerTheStoredEnding(db: Db, caller: nat, id: nat, landing: Option<RefusalKind>)
    requires Inv(db) && FinishWithin(db, caller, id, landing).Ok?
    ensures var (after, answer) := FinishWithin(db, caller, id, landing).value;
            && (!RentalOf(db, caller, id) ==> after == db && answer == Refusing(RentalNotFound))
            && (RentalOf(db, caller, id) ==>
                  && id in after.rows
                  && var (before, now) := (db.rows[id], after.rows[id]);
                     match before.rental.stage
                     case Active | Paused =>
                       if Live(now.rental) then
                         now.rental == before.rental && landing.Some? && answer == Refusing(landing.value)
                       else
                         && now.invoice.Some? && answer == Finished(id, now.invoice.value)
                         && (landing.Some? ==> RanOut(now))
                     case Completed => now == before && now.invoice.Some? && answer == Finished(id, now.invoice.value)
                     case _ => now == before && answer == Refusing(InvalidRentalState))
  {
    if RentalOf(db, caller, id) {
      assert RowIn(db, id);
      var reconciled := ReconciledTarget(db, id).value;
      TargetIsKept(db, id);
      FinishIsOnward(db, caller, id, landing, reconciled);
      if Riding(db.rows[id].rental) {
        RideGoesOnOrRanOut(db, id, reconciled);
      } else {
        IdleTargetStands(db, id);
      }
      FinishingOnAnswers(reconciled, id, landing);
    }
  }

  lemma {:induction false} FinishingOnAnswers(db: Db, id: nat, landing: Option<RefusalKind>)
    requires Inv(db) && id in db.rows && FinishOnward(db, id, landing).Ok?
    ensures var (after, answer) := FinishOnward(db, id, landing).value;
            && id in after.rows
            && if Riding(db.rows[id].rental) then
                 if landing.Some? then after == db && answer == Refusing(landing.value)
                 else
                   && !Live(after.rows[id].rental) && after.rows[id].invoice.Some?
                   && answer == Finished(id, after.rows[id].invoice.value)
               else
                 && after == db
                 && answer == if db.rows[id].rental.stage != Completed then Refusing(InvalidRentalState)
                              else Finished(id, db.rows[id].invoice.value)
  {
    assert RowIn(db, id);
    if Riding(db.rows[id].rental) && landing.None? {
      FinishingStores(db, id);
    }
  }

  // ---------- tick ----------

  /** The rentals that held the vehicles before and are over afterwards, in the order of the vehicles. */
  ghost function EndedOf(before: Db, after: Db, vs: seq<nat>): seq<nat>
    decreases |vs|
  {
    if vs == [] then []
    else
      (match LiveOn(before, vs[0])
       case None => []
       case Some(id) => if id in after.rows && !Live(after.rows[id].rental) then [id] else [])
      + EndedOf(before, after, vs[1..])
  }

  lemma {:induction false} SameHoldersEndAlike(a: Db, b: Db, after: Db, vs: seq<nat>)
    requires forall v :: v in vs ==> LiveOn(a, v) == LiveOn(b, v)
    ensures EndedOf(a, after, vs) == EndedOf(b, after, vs)
    decreases |vs|
  {
    if vs != [] {
      SameHoldersEndAlike(a, b, after, vs[1..]);
    }
  }

  /** A reconciliation leaves who holds any other vehicle. */
  lemma {:induction false} OthersAreHeldAlike(db: Db, moved: Db, v: nat, held: Option<Held>, w: nat)
    requires Inv(db) && Inv(moved) && Reconciled(db, moved, v, held) && w != v
    ensures LiveOn(db, w) == LiveOn(moved, w)
  {
    forall id: nat
      ensures HoldsVehicle(db, id, w) <==> HoldsVehicle(moved, id, w)
    {
      assert id in db.rows && db.rows[id].rental.vehicle != v ==> moved.rows[id] == db.rows[id];
    }
    if LiveOn(db, w).Some? {
      HoldersAreOne(db, LiveOn(db, w).value, LiveOn(moved, w).value);
    }
  }

  /** What a walk over the fleet leaves of the tables it found. */
  ghost predicate OnlyVisited(before: Db, after: Db, vs: seq<nat>) {
    && after.rows.Keys == before.rows.Keys
    && (forall id :: id in before.rows && before.rows[id].rental.vehicle !in vs ==> after.rows[id] == before.rows[id])
    && (forall id :: id in before.rows && Live(before.rows[id].rental) && !Live(after.rows[id].rental) ==>
          after.rows[id].rental.reason == Some(EnergyDepleted))
  }

  lemma {:induction false} FleetNamesItsEndings(db: Db, read: Db, vs: seq<nat>)
    requires Inv(db) && NoRepeats(vs) && AsRead(db, read, vs) && ReconcileFleet(db, read, vs).Ok?
    ensures var (after, completed) := ReconcileFleet(db, read, vs).value;
            completed == EndedOf(db, after, vs) && OnlyVisited(db, after, vs)
    decreases |vs|
  {
    if vs != [] {
      var held, later := HolderOf(read, vs[0]), vs[1..];
      FleetTurn(db, read, vs);
      var moved := Reconcile(db, vs[0], held).value;
      ReconcileIsKept(db, vs[0], held);
      FleetNamesItsEndings(moved, read, later);
      Ticks.HolderIsAsRead(db, read, vs, vs[0]);
      var (after, rest) := ReconcileFleet(moved, read, later).value;
      forall w | w in later
        ensures LiveOn(db, w) == LiveOn(moved, w)
      {
        LaterIsAnother(vs, w);
        OthersAreHeldAlike(db, moved, vs[0], held, w);
      }
      SameHoldersEndAlike(db, moved, after, later);
      FirstIsVisited(db, moved, after, vs, held);
    }
  }

  lemma {:induction false} LaterIsAnother(vs: seq<nat>, w: nat)
    requires vs != [] && NoRepeats(vs) && w in vs[1..]
    ensures w != vs[0] && w in vs
  {
    var i :| 0 <= i < |vs[1..]| && vs[1..][i] == w;
    assert vs[i + 1] == w;
  }

  lemma {:induction false} FirstIsVisited(db: Db, moved: Db, after: Db, vs: seq<nat>, held: Option<Held>)
    requires vs != [] && NoRepeats(vs) && Reconciled(db, moved, vs[0], held) && OnlyVisited(moved, after, vs[1..])
    requires Inv(db) && held == HolderOf(db, vs[0])
    ensures OnlyVisited(db, after, vs)
    ensures forall id :: id in moved.rows && moved.rows[id].rental.vehicle == vs[0] ==> after.rows[id] == moved.rows[id]
  {
    if vs[0] in vs[1..] {
      LaterIsAnother(vs, vs[0]);
    }
    forall v | v in vs[1..]
      ensures v in vs
    {
      LaterIsAnother(vs, v);
    }
    FirstRanOut(db, moved, vs[0], held);
  }

  lemma {:induction false} FirstRanOut(db: Db, moved: Db, v: nat, held: Option<Held>)
    requires Inv(db) && Reconciled(db, moved, v, held) && held == HolderOf(db, v)
    ensures forall id :: id in db.rows && Live(db.rows[id].rental) && !Live(moved.rows[id].rental) ==>
              moved.rows[id].rental.reason == Some(EnergyDepleted)
  {
    forall id: nat | id in db.rows && Live(db.rows[id].rental) && !Live(moved.rows[id].rental)
      ensures moved.rows[id].rental.reason == Some(EnergyDepleted)
    {
      TheRiderIsFound(db, id);
    }
  }

  lemma {:induction false} EndedAreNamed(before: Db, after: Db, vs: seq<nat>, id: nat)
    requires Inv(before) && after.rows.Keys == before.rows.Keys
    ensures id in EndedOf(before, after, vs) <==>
              && id in before.rows && before.rows[id].rental.vehicle in vs
              && Live(before.rows[id].rental) && !Live(after.rows[id].rental)
    decreases |vs|
  {
    if vs != [] {
      EndedAreNamed(before, after, vs[1..], id);
      if id in before.rows && Live(before.rows[id].rental) {
        TheRiderIsFound(before, id);
      }
    }
  }

  /** A tick names exactly the rentals it ended, each of which its sources ended, in the order of the fleet. */
  lemma {:induction false} TicksNameWhatTheyEnd(db: Db, vs: seq<nat>)
    requires Inv(db) && NoRepeats(vs) && TickWithin(db, vs).Ok?
    ensures var (after, answer) := TickWithin(db, vs).value;
            && answer == Ticking(EndedOf(db, after, vs)) && after.rows.Keys == db.rows.Keys
            && (forall id :: id in answer.completed <==>
                  id in db.rows && Live(db.rows[id].rental) && !Live(after.rows[id].rental))
            && (forall id :: id in answer.completed ==> RanOut(after.rows[id]))
  {
    TickIsTheWalk(db, vs);
    FleetNamesItsEndings(db, db, vs);
    TickIsKept(db, vs);
    var (after, answer) := TickWithin(db, vs).value;
    forall id: nat
      ensures id in answer.completed <==> id in db.rows && Live(db.rows[id].rental) && !Live(after.rows[id].rental)
      ensures id in answer.completed ==> RanOut(after.rows[id])
    {
      EndingIsNamed(db, after, vs, id);
    }
  }

  lemma {:induction false} TickIsTheWalk(db: Db, vs: seq<nat>)
    requires TickWithin(db, vs).Ok?
    ensures ReconcileFleet(db, db, vs).Ok?
    ensures var (after, completed) := ReconcileFleet(db, db, vs).value;
            TickWithin(db, vs) == Ok((after, Ticking(completed)))
  {
  }

  lemma {:induction false} EndingIsNamed(before: Db, after: Db, vs: seq<nat>, id: nat)
    requires Inv(before) && Inv(after) && OnlyVisited(before, after, vs)
    ensures id in EndedOf(before, after, vs) <==>
              id in before.rows && Live(before.rows[id].rental) && !Live(after.rows[id].rental)
    ensures id in EndedOf(before, after, vs) ==> RanOut(after.rows[id])
  {
    EndedAreNamed(before, after, vs, id);
    if id in EndedOf(before, after, vs) {
      assert RowIn(after, id);
    }
  }
}
