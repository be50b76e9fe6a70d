/** The ending a ride owes when its sources run out is decided by its model alone: whatever discovers it, and
    whenever, stores the same ending (backend/internal/rentals/model.go, tick.go, current.go, finish.go). */
module Discovery {
  import opened Wrappers
  import opened Energy
  import opened Shares
  import opened Burning
  import opened Windows
  import opened Invoices
  import opened Rentals
  import opened RowSteps
  import opened Journeys
  import opened Splitting
  import opened Fleet
  import opened Operations
  import opened Invariants
  import opened Keeping
  import opened Lifecycle
  import opened Runs
  import Billing

  /** What of a ride its ending is decided by: its stored row, and the sources its vehicle held at some moment of
      the ride since when they were only spent by it. */
  datatype Fate = Fate(row: Row, sources: seq<Source>, at: int)

  /** When driving on from there leaves nothing. */
  ghost function RunsOutAt(fate: Fate): int {
    fate.at + if ValidSources(fate.sources) then Sum(Needs(fate.sources)) else 0
  }

  /** What driving from there leaves by a moment. */
  ghost function DrivenTo(fate: Fate, moment: int): (ss: seq<Source>)
    requires ValidSources(fate.sources) && fate.at <= moment
    ensures ValidSources(ss)
  {
    NeedsShrinkByTheWindow(fate.sources, moment - fate.at);
    Charge(fate.sources, Driving, moment - fate.at)
  }

  predicate Pausing(fate: Fate) {
    fate.row.rental.stage == Stage.Paused && fate.row.rental.modeStartedAt.Some?
  }

  /** A pause that is still shorter than the need of the source that was in use when it began. */
  ghost predicate ShortPause(fate: Fate, moment: int) {
    Pausing(fate) && ValidSources(fate.sources) ==>
      var start := fate.row.rental.modeStartedAt.value;
      fate.at <= start && moment < start + NeedInUse(DrivenTo(fate, start))
  }

  /** The state of the vehicle is what the ride made of those sources. */
  ghost predicate Tracks(m: Model, fate: Fate) {
    && ValidSources(fate.sources) && !m.depleted && fate.at <= m.processedAt < RunsOutAt(fate)
    && m.sources == DrivenTo(fate, m.processedAt)
    && ShortPause(fate, m.processedAt)
  }

  /** A ride that moves, or pauses shortly, on a vehicle with a state, and will run out as its fate says. */
  ghost predicate Awaits(db: Db, id: nat, fate: Fate) {
    && id in db.rows && Riding(db.rows[id].rental) && Bare(db.rows[id]) == fate.row
    && Modelled(db, db.rows[id].rental.vehicle)
    && Tracks(db.vehicles[db.rows[id].rental.vehicle].model.value, fate)
  }

  /** The ending its fate decides: at the first whole microsecond after the run-out, with every source the
      vehicle carries, and with the segments closed there. */
  ghost predicate MetItsFate(db: Db, id: nat, fate: Fate) {
    var at := WholeMicrosecondFirstAfter(RunsOutAt(fate));
    && id in db.rows
    && db.rows[id].rental == fate.row.rental.(
         stage := Completed, version := fate.row.rental.version + 1, endedAt := Some(at), modeStartedAt := None,
         reason := Some(EnergyDepleted), exhausted := Some(KindsOf(fate.sources)))
    && db.rows[id].segments == Closed(fate.row.segments, at)
  }

  /** The fate of a moving ride, read off the state of its vehicle. */
  ghost function FateOf(db: Db, id: nat): Fate
    requires id in db.rows && Modelled(db, db.rows[id].rental.vehicle)
  {
    var m := db.vehicles[db.rows[id].rental.vehicle].model.value;
    Fate(Bare(db.rows[id]), m.sources, m.processedAt)
  }

  /** In every reachable state a moving ride on a vehicle with a state has a fate exactly when something is left in
      one of its sources, and then one only. */
  lemma {:induction false} MovingRidesAwaitOneFate(db: Db, id: nat, fate: Fate)
    requires Reachable(db) && id in db.rows && db.rows[id].rental.stage == Active
    requires Modelled(db, db.rows[id].rental.vehicle)
    ensures Awaits(db, id, FateOf(db, id)) <==>
            !AllExhausted(db.vehicles[db.rows[id].rental.vehicle].model.value.sources)
    ensures Awaits(db, id, fate) ==>
              && fate.row == FateOf(db, id).row && RunsOutAt(fate) == RunsOutAt(FateOf(db, id))
              && KindsOf(fate.sources) == KindsOf(FateOf(db, id).sources)
  {
    ReachableIsInv(db);
    SomethingLeftIsAFate(db, id);
    if Awaits(db, id, fate) {
      FatesAgree(db.vehicles[db.rows[id].rental.vehicle].model.value, fate, FateOf(db, id));
    }
  }

  lemma {:induction false} SomethingLeftIsAFate(db: Db, id: nat)
    requires Inv(db) && id in db.rows && db.rows[id].rental.stage == Active && Modelled(db, db.rows[id].rental.vehicle)
    ensures Awaits(db, id, FateOf(db, id)) <==>
            !AllExhausted(db.vehicles[db.rows[id].rental.vehicle].model.value.sources)
  {
    assert RowIn(db, id);
    var m := db.vehicles[db.rows[id].rental.vehicle].model.value;
    assert VehicleOk(db.vehicles[db.rows[id].rental.vehicle], db.clock);
    NothingLeftWhenExhausted(m.sources);
    NothingInNoTime(m.sources, Driving);
  }

  lemma {:induction false} FatesAgree(m: Model, fate: Fate, read: Fate)
    requires Tracks(m, fate) && read.sources == m.sources && read.at == m.processedAt
    ensures RunsOutAt(fate) == RunsOutAt(read) && KindsOf(fate.sources) == KindsOf(read.sources)
  {
    NeedsShrinkByTheWindow(fate.sources, m.processedAt - fate.at);
    DrivingKeepsKinds(fate, m.processedAt);
  }

  lemma {:induction false} NothingLeftWhenExhausted(ss: seq<Source>)
    requires ValidSources(ss)
    ensures Sum(Needs(ss)) == 0 <==> AllExhausted(ss)
  {
    NeedsShrinkByTheWindow(ss, 0);
    NothingInNoTime(ss, Driving);
  }

  // ---------- one window against the prediction ----------

  lemma {:induction false} NeedsShrinkByTheWindow(ss: seq<Source>, w: nat)
    requires ValidSources(ss)
    ensures ValidSources(Charge(ss, Driving, w))
    ensures Sum(Needs(Charge(ss, Driving, w))) == Max(0, Sum(Needs(ss)) - w)
    ensures AllExhausted(Charge(ss, Driving, w)) <==> Sum(Needs(ss)) <= w
  {
    DrivingCutsAreSafeOf(ss, w);
    AfterSafeCut(ss, Driving, w);
    DrivingAllotsTheNeeds(Needs(ss));
    DrivingAllotsTheNeeds(Needs(Charge(ss, Driving, w)));
  }

  lemma {:induction false} DrivingKeepsKinds(fate: Fate, moment: int)
    requires ValidSources(fate.sources) && fate.at <= moment
    ensures KindsOf(DrivenTo(fate, moment)) == KindsOf(fate.sources)
  {
    NeedsOfBurnt(fate.sources, SharesOf(Needs(fate.sources), Slack(Driving), moment - fate.at));
  }

  /** A moment has something left exactly when it comes before the run-out. */
  lemma {:induction false} LeftBeforeTheRunOut(fate: Fate, moment: int)
    requires ValidSources(fate.sources) && fate.at <= moment
    ensures Sum(Needs(DrivenTo(fate, moment))) == Max(0, RunsOutAt(fate) - moment)
    ensures AllExhausted(DrivenTo(fate, moment)) <==> RunsOutAt(fate) <= moment
    ensures NeedInUse(DrivenTo(fate, moment)) > 0 <==> moment < RunsOutAt(fate)
    ensures moment < RunsOutAt(fate) ==> moment + NeedInUse(DrivenTo(fate, moment)) <= RunsOutAt(fate)
  {
    NeedsShrinkByTheWindow(fate.sources, moment - fate.at);
    FirstNeedIsPartOfAll(Needs(DrivenTo(fate, moment)));
  }

  /** Driving on from a moment is driving through it. */
  lemma {:induction false} DrivenOn(fate: Fate, from: int, moment: int)
    requires ValidSources(fate.sources) && fate.at <= from <= moment
    ensures Charge(DrivenTo(fate, from), Driving, moment - from) == DrivenTo(fate, moment)
  {
    if from == moment {
      NothingInNoTime(DrivenTo(fate, from), Driving);
    } else {
      DrivingCutsAreSafeOf(fate.sources, from - fate.at);
      CutChargesAgreeExactlyWhenSafe(fate.sources, Driving, from - fate.at, moment - from);
    }
  }

  /** A short pause spends exactly what driving on would, and ends before the run-out. */
  lemma {:induction false} PausedOn(fate: Fate, from: int, moment: int)
    requires ValidSources(fate.sources) && Pausing(fate) && ShortPause(fate, moment)
    requires fate.row.rental.modeStartedAt.value <= from <= moment
    requires fate.row.rental.modeStartedAt.value < RunsOutAt(fate)
    ensures Charge(DrivenTo(fate, from), Mode.Paused, moment - from) == DrivenTo(fate, moment)
    ensures moment < RunsOutAt(fate)
  {
    var start := fate.row.rental.modeStartedAt.value;
    DrivenOn(fate, start, from);
    StillNeeded(DrivenTo(fate, start), from - start, moment - from);
    DrivenOn(fate, from, moment);
    LeftBeforeTheRunOut(fate, start);
  }

  /** Within what the source in use needs, going on paused costs what going on driving does. */
  lemma {:induction false} StillNeeded(ss: seq<Source>, before: nat, w: nat)
    requires ValidSources(ss) && before + w < NeedInUse(ss)
    ensures ValidSources(Charge(ss, Driving, before))
    ensures Charge(Charge(ss, Driving, before), Mode.Paused, w) == Charge(Charge(ss, Driving, before), Driving, w)
  {
    NeedsOfBurnt(ss, SharesOf(Needs(ss), Slack(Driving), before));
    NeedInUseShrinks(ss, before);
    PausedCostsWhatDrivingCosts(Charge(ss, Driving, before), w);
  }

  /** The mode a ride is in between two readings of it. */
  function ModeIn(fate: Fate): Mode {
    if Pausing(fate) then Mode.Paused else Driving
  }

  /** A window of the ride's own mode spends what its fate says, unless it is a pause that grew too long. */
  lemma {:induction false} SpentAsFated(m: Model, fate: Fate, moment: int)
    requires Tracks(m, fate) && m.processedAt <= moment && ShortPause(fate, moment)
    requires Pausing(fate) ==> fate.row.rental.modeStartedAt.value <= m.processedAt
    ensures Charge(m.sources, ModeIn(fate), moment - m.processedAt) == DrivenTo(fate, moment)
    ensures Pausing(fate) ==> moment < RunsOutAt(fate)
  {
    if Pausing(fate) {
      PausedOn(fate, m.processedAt, moment);
    } else {
      DrivenOn(fate, m.processedAt, moment);
    }
  }

  /** What one window of a mode that spends leaves of a state that was not depleted. */
  lemma {:induction false} WindowLeaves(m: Model, mode: Mode, moment: int)
    requires ModelOk(m, moment) && m.processedAt < moment && !m.depleted && Spends(mode)
    ensures var r := Journey(m, [Span(mode, m.processedAt, moment)], moment);
            && r.Ok?
            && var (motion, advanced) := r.value;
               && advanced.sources == Charge(m.sources, mode, moment - m.processedAt)
               && (motion.depletedBy.Some? <==> AllExhausted(advanced.sources))
               && advanced.depleted == motion.depletedBy.Some?
               && (motion.depletedBy.None? ==> advanced.processedAt == moment)
  {
    BurnOfOneSpan(m.sources, Span(mode, m.processedAt, moment));
  }

  /** Playing the vehicle of a ride to a moment meets its fate, or leaves it as it was. */
  lemma {:induction false} PlayKeepsTheFate(vehicle: Vehicle, fate: Fate, moment: int)
    requires VehicleOk(vehicle, moment) && vehicle.begins.Some? && WholeMoment(moment) && vehicle.model.Some?
    requires Tracks(vehicle.model.value, fate) && ShortPause(fate, moment)
    requires Pausing(fate) ==> fate.row.rental.modeStartedAt.value <= vehicle.model.value.processedAt
    ensures PlayVehicle(vehicle, ModeIn(fate), moment).Ok?
    ensures var play := PlayVehicle(vehicle, ModeIn(fate), moment).value;
            && (RunsOutAt(fate) <= moment ==>
                  play.ranOut == Some(RunsOutAt(fate)) && play.exhausted == KindsOf(fate.sources))
            && (moment < RunsOutAt(fate) ==>
                  && play.ranOut.None? && play.vehicle.model.Some? && play.vehicle.model.value.processedAt == moment
                  && Tracks(play.vehicle.model.value, fate))
  {
    var m, mode := vehicle.model.value, ModeIn(fate);
    LaterPlayMovesOn(vehicle, mode, moment);
    StoredAsIs(m);
    if m.processedAt < moment {
      SpentAsFated(m, fate, moment);
      WindowLeaves(m, mode, moment);
      OneWindow(m, mode, moment);
      ReachedIsStored(Journey(m, [Span(mode, m.processedAt, moment)], moment).value.1, moment);
      LeftBeforeTheRunOut(fate, moment);
      DrivingKeepsKinds(fate, m.processedAt);
      if RunsOutAt(fate) <= moment {
        DrivingRunsOutAtTheSum(m, moment);
        LeftBeforeTheRunOut(fate, m.processedAt);
      }
    }
  }

  // ---------- one reconciliation of the ride ----------

  lemma {:induction false} TheRiderIsFound(db: Db, id: nat)
    requires Inv(db) && id in db.rows && Live(db.rows[id].rental)
    ensures LiveOn(db, db.rows[id].rental.vehicle) == Some(id)
    ensures LiveOf(db, db.rows[id].rental.user) == Some(id)
  {
    var v, user := db.rows[id].rental.vehicle, db.rows[id].rental.user;
    assert HoldsVehicle(db, id, v) && HoldsAccount(db, id, user);
    HoldersAreOne(db, id, LiveOn(db, v).value);
    HoldersAreOne(db, id, LiveOf(db, user).value);
  }

  /** Whatever brings the vehicle of a ride to a moment for that ride finds its fate there, if it has come, and
      otherwise leaves it the same. */
  lemma {:induction false} ReconcilingDiscovers(db: Db, id: nat, fate: Fate)
    requires Inv(db) && Awaits(db, id, fate) && ShortPause(fate, db.clock)
    ensures db.clock < RunsOutAt(fate) ==> ReconciledTarget(db, id).Ok?
    ensures ReconciledTarget(db, id).Ok? ==>
              var after := ReconciledTarget(db, id).value;
              && after.clock == db.clock
              && (RunsOutAt(fate) <= db.clock ==> MetItsFate(after, id, fate))
              && (db.clock < RunsOutAt(fate) ==> Awaits(after, id, fate) && AtTheMoment(after, fate.row.rental.vehicle))
  {
    if db.clock < RunsOutAt(fate) {
      StaysOnItsCourse(db, id, fate);
    } else if ReconciledTarget(db, id).Ok? {
      EndsAsFated(db, id, fate);
    }
  }

  lemma {:induction false} StaysOnItsCourse(db: Db, id: nat, fate: Fate)
    requires Inv(db) && Awaits(db, id, fate) && ShortPause(fate, db.clock) && db.clock < RunsOutAt(fate)
    ensures ReconciledTarget(db, id).Ok?
    ensures var after := ReconciledTarget(db, id).value;
            after.clock == db.clock && Awaits(after, id, fate) && AtTheMoment(after, fate.row.rental.vehicle)
  {
    assert RowIn(db, id) && VehicleOk(db.vehicles[db.rows[id].rental.vehicle], db.clock);
    TheRiderIsFound(db, id);
    PlayKeepsTheFate(db.vehicles[db.rows[id].rental.vehicle], fate, db.clock);
  }

  lemma {:induction false} EndsAsFated(db: Db, id: nat, fate: Fate)
    requires Inv(db) && Awaits(db, id, fate) && ShortPause(fate, db.clock) && RunsOutAt(fate) <= db.clock
    requires ReconciledTarget(db, id).Ok?
    ensures ReconciledTarget(db, id).value.clock == db.clock && MetItsFate(ReconciledTarget(db, id).value, id, fate)
  {
    var play := RunOutIsFound(db, id, fate);
    RunOutEnds(db, id, ModeIn(fate), play);
  }

  lemma {:induction false} RunOutIsFound(db: Db, id: nat, fate: Fate) returns (play: Play)
    requires Inv(db) && Awaits(db, id, fate) && ShortPause(fate, db.clock) && RunsOutAt(fate) <= db.clock
    ensures play.ranOut == Some(RunsOutAt(fate)) && play.exhausted == KindsOf(fate.sources)
    ensures var v := db.rows[id].rental.vehicle;
            && LiveOn(db, v) == Some(id) && db.vehicles[v].begins.Some?
            && PlayVehicle(db.vehicles[v], ModeIn(fate), db.clock) == Ok(play)
            && ReconciledTarget(db, id) == EndRide(Booked(db, v, ModeIn(fate), play), id, DepletedAt(play))
    ensures ModeFits(db.rows[id], ModeIn(fate))
  {
    assert RowIn(db, id) && VehicleOk(db.vehicles[db.rows[id].rental.vehicle], db.clock);
    TheRiderIsFound(db, id);
    PlayKeepsTheFate(db.vehicles[db.rows[id].rental.vehicle], fate, db.clock);
    play := PlayVehicle(db.vehicles[db.rows[id].rental.vehicle], ModeIn(fate), db.clock).value;
  }

  lemma {:induction false} RunOutEnds(db: Db, id: nat, mode: Mode, play: Play)
    requires Inv(db) && id in db.rows && Riding(db.rows[id].rental) && ModeFits(db.rows[id], mode)
    requires LiveOn(db, db.rows[id].rental.vehicle) == Some(id) && db.rows[id].rental.vehicle in db.vehicles
    requires db.vehicles[db.rows[id].rental.vehicle].begins.Some?
    requires PlayVehicle(db.vehicles[db.rows[id].rental.vehicle], mode, db.clock) == Ok(play) && play.ranOut.Some?
    requires EndRide(Booked(db, db.rows[id].rental.vehicle, mode, play), id, DepletedAt(play)).Ok?
    ensures var after := EndRide(Booked(db, db.rows[id].rental.vehicle, mode, play), id, DepletedAt(play)).value;
            after.clock == db.clock && id in after.rows && EndsAs(db.rows[id], after.rows[id], DepletedAt(play))
  {
    assert RowIn(db, id) && VehicleOk(db.vehicles[db.rows[id].rental.vehicle], db.clock);
    RunOutIsOk(id, db.rows[id], db.vehicles[db.rows[id].rental.vehicle], mode, play, db.clock);
    RunOutIsOneChange(db, db.rows[id].rental.vehicle, id, mode, play);
  }

  // ---------- one transaction ----------

  /** Nothing of a ride or of its vehicle's state changed. */
  ghost predicate Spared(before: Db, after: Db, id: nat) {
    && id in before.rows && id in after.rows && Bare(after.rows[id]) == Bare(before.rows[id])
    && (before.rows[id].rental.vehicle in before.vehicles ==>
          && before.rows[id].rental.vehicle in after.vehicles
          && after.vehicles[before.rows[id].rental.vehicle].model ==
             before.vehicles[before.rows[id].rental.vehicle].model)
  }

  lemma {:induction false} SparedAwaits(before: Db, after: Db, id: nat, fate: Fate)
    requires Spared(before, after, id)
    ensures Awaits(before, id, fate) ==> Awaits(after, id, fate)
    ensures MetItsFate(before, id, fate) ==> MetItsFate(after, id, fate)
  {
  }

  lemma {:induction false} ChangingAnotherSpares(db: Db, other: nat, row: Row, depleted: bool, id: nat)
    requires id in db.rows && other != id && Changed(db, other, row, depleted).Ok?
    ensures Spared(db, Changed(db, other, row, depleted).value, id)
  {
  }

  lemma {:induction false} ReleasingSpares(db: Db, found: Option<nat>, id: nat)
    requires id in db.rows && db.rows[id].rental.stage != Reserved && (found.Some? ==> found.value in db.rows)
    requires LiveAt(db, found).Ok?
    ensures Spared(db, LiveAt(db, found).value.0, id)
  {
    if found.Some? && Overdue(db.rows[found.value].rental, db.clock) {
      var row := EndReservationAs(db.rows[found.value], Expired, db.rows[found.value].rental.expiresAt).0;
      ChangingAnotherSpares(db, found.value, row, false, id);
    }
  }

  lemma {:induction false} ReconcilingAnotherSpares(db: Db, v: nat, held: Option<Held>, id: nat)
    requires Inv(db) && HeldFits(db, v, held) && Reconcile(db, v, held).Ok?
    requires id in db.rows && db.rows[id].rental.vehicle != v
    ensures Spared(db, Reconcile(db, v, held).value, id)
  {
    ReconcileIsKept(db, v, held);
  }

  /** Whether a transaction brings the vehicle of a ride to its moment for that ride. */
  predicate Meets(db: Db, step: Step, id: nat)
    requires id in db.rows
  {
    match step
    case Ride(_, caller, named, _) => named == id && RentalOf(db, caller, id)
    case Finish(caller, named, _) => named == id && RentalOf(db, caller, id)
    case Current(caller) => RentalOf(db, caller, id)
    case Tick(vs) => db.rows[id].rental.vehicle in vs
    case _ => false
  }

  /** Whether a transaction names another rental of the vehicle a ride is on. The ride holds that vehicle, so
      the rental that is named is over. */
  predicate NamesAnother(db: Db, step: Step, id: nat)
    requires id in db.rows
  {
    match step
    case Ride(_, caller, named, _) =>
      named != id && RentalOf(db, caller, named) && db.rows[named].rental.vehicle == db.rows[id].rental.vehicle
    case Finish(caller, named, _) =>
      named != id && RentalOf(db, caller, named) && db.rows[named].rental.vehicle == db.rows[id].rental.vehicle
    case _ => false
  }

  /** Whether the person riding asks for the ride to move on or to end. */
  predicate IsTurn(fate: Fate, step: Step, id: nat) {
    match step
    case Ride(_, caller, named, _) => caller == fate.row.rental.user && named == id
    case Finish(caller, named, landing) => caller == fate.row.rental.user && named == id && landing.None?
    case _ => false
  }

  /** The ride goes on as it was predicted, or met its fate. */
  ghost predicate Follows(db: Db, after: Db, step: Step, id: nat, fate: Fate)
    requires id in db.rows
  {
    || (Awaits(after, id, fate) && (Meets(db, step, id) ==> db.clock < RunsOutAt(fate)))
    || (MetItsFate(after, id, fate) && RunsOutAt(fate) <= db.clock)
  }

  /** A command that names another rental, of another vehicle, leaves the ride alone. */
  lemma {:induction false} TargetingAnotherSpares(db: Db, named: nat, id: nat, fate: Fate)
    requires Inv(db) && named in db.rows && ReconciledTarget(db, named).Ok?
    requires Awaits(db, id, fate) && db.rows[named].rental.vehicle != db.rows[id].rental.vehicle
    ensures named in ReconciledTarget(db, named).value.rows && Awaits(ReconciledTarget(db, named).value, id, fate)
  {
    TargetIsKept(db, named);
    ReconcilingAnotherSpares(db, db.rows[named].rental.vehicle, Some(Held(named, db.rows[named].rental)), id);
    SparedAwaits(db, ReconciledTarget(db, named).value, id, fate);
  }

  lemma {:induction false} RideFollows(db: Db, action: Action, caller: nat, named: nat, fit: bool, id: nat, fate: Fate)
    requires Inv(db) && Awaits(db, id, fate) && RideWithin(db, action, caller, named, fit).Ok?
    requires ShortPause(fate, db.clock) && !NamesAnother(db, Ride(action, caller, named, fit), id)
    requires IsTurn(fate, Ride(action, caller, named, fit), id) ==> RunsOutAt(fate) <= db.clock
    ensures Follows(db, RideWithin(db, action, caller, named, fit).value.0, Ride(action, caller, named, fit), id, fate)
  {
    if RentalOf(db, caller, named) {
      var reconciled := ReconciledTarget(db, named).value;
      if named == id {
        ReconcilingDiscovers(db, id, fate);
        RidingOnIsRefused(reconciled, action, id, fit);
      } else {
        TargetingAnotherSpares(db, named, id, fate);
        RidingAnotherSpares(reconciled, action, named, fit, id);
        SparedAwaits(reconciled, RideOnward(reconciled, action, named, fit).value.0, id, fate);
      }
    }
  }

  /** A ride that is over does nothing. */
  lemma {:induction false} RidingOnIsRefused(db: Db, action: Action, id: nat, fit: bool)
    requires id in db.rows && db.rows[id].rental.stage == Completed
    ensures RideOnward(db, action, id, fit).Ok? && RideOnward(db, action, id, fit).value.0 == db
  {
  }

  lemma {:induction false} RidingAnotherSpares(db: Db, action: Action, named: nat, fit: bool, id: nat)
    requires named in db.rows && id in db.rows && named != id && RideOnward(db, action, named, fit).Ok?
    ensures Spared(db, RideOnward(db, action, named, fit).value.0, id)
  {
  }

  lemma {:induction false} FinishFollows(db: Db, caller: nat, named: nat, landing: Option<RefusalKind>, id: nat,
                                         fate: Fate)
    requires Inv(db) && Awaits(db, id, fate) && FinishWithin(db, caller, named, landing).Ok?
    requires ShortPause(fate, db.clock) && !NamesAnother(db, Finish(caller, named, landing), id)
    requires IsTurn(fate, Finish(caller, named, landing), id) ==> RunsOutAt(fate) <= db.clock
    ensures Follows(db, FinishWithin(db, caller, named, landing).value.0, Finish(caller, named, landing), id, fate)
  {
    if RentalOf(db, caller, named) {
      var reconciled := ReconciledTarget(db, named).value;
      if named == id {
        ReconcilingDiscovers(db, id, fate);
        FinishingOnChangesNothing(reconciled, id, landing);
      } else {
        TargetingAnotherSpares(db, named, id, fate);
        FinishingAnotherSpares(reconciled, named, landing, id);
        SparedAwaits(reconciled, FinishOnward(reconciled, named, landing).value.0, id, fate);
      }
    }
  }

  /** A finish of a ride that is over answers the ending that is stored, and one that may not land changes nothing. */
  lemma {:induction false} FinishingOnChangesNothing(db: Db, id: nat, landing: Option<RefusalKind>)
    requires id in db.rows && FinishOnward(db, id, landing).Ok?
    requires db.rows[id].rental.stage == Completed || landing.Some?
    ensures FinishOnward(db, id, landing).value.0 == db
  {
  }

  lemma {:induction false} FinishingAnotherSpares(db: Db, named: nat, landing: Option<RefusalKind>, id: nat)
    requires named in db.rows && id in db.rows && named != id && FinishOnward(db, named, landing).Ok?
    ensures Spared(db, FinishOnward(db, named, landing).value.0, id)
  {
  }

  lemma {:induction false} CurrentFollows(db: Db, caller: nat, id: nat, fate: Fate)
    requires Inv(db) && Awaits(db, id, fate) && ShortPause(fate, db.clock) && CurrentWithin(db, caller).Ok?
    ensures Follows(db, CurrentWithin(db, caller).value.0, Current(caller), id, fate)
  {
    FirstReleaseFollows(db, caller, id, fate);
    var (released, held) := LiveAt(db, LiveOf(db, caller)).value;
    CurrentIs(db, caller, released, held);
    if held.Some? && Riding(released.rows[held.value].rental) {
      var reconciled := ReconciledTarget(released, held.value).value;
      CurrentTargetFollows(released, held.value, id, fate);
      CurrentOnwardSpares(reconciled, caller, id, fate);
    }
  }

  lemma {:induction false} CurrentOnwardSpares(db: Db, caller: nat, id: nat, fate: Fate)
    requires id in db.rows && db.rows[id].rental.stage != Reserved && CurrentOnward(db, caller).Ok?
    ensures var after := CurrentOnward(db, caller).value.0;
            && (Awaits(db, id, fate) ==> Awaits(after, id, fate))
            && (MetItsFate(db, id, fate) ==> MetItsFate(after, id, fate))
  {
    ReleasingSpares(db, LiveOf(db, caller), id);
    SparedAwaits(db, CurrentOnward(db, caller).value.0, id, fate);
  }

  lemma {:induction false} FirstReleaseFollows(db: Db, caller: nat, id: nat, fate: Fate)
    requires Inv(db) && Awaits(db, id, fate)
    ensures var r := LiveAt(db, LiveOf(db, caller));
            && r.Ok? && Inv(r.value.0) && r.value.0.clock == db.clock && Awaits(r.value.0, id, fate)
            && (r.value.1.Some? ==> r.value.1.value in r.value.0.rows && Live(r.value.0.rows[r.value.1.value].rental))
            && (RentalOf(db, caller, id) ==> r.value.1 == Some(id))
  {
    TheRiderIsFound(db, id);
    LiveAtIsKept(db, LiveOf(db, caller));
    ReleasingSpares(db, LiveOf(db, caller), id);
    SparedAwaits(db, LiveAt(db, LiveOf(db, caller)).value.0, id, fate);
  }

  lemma {:induction false} CurrentTargetFollows(db: Db, held: nat, id: nat, fate: Fate)
    requires Inv(db) && Awaits(db, id, fate) && ShortPause(fate, db.clock)
    requires held in db.rows && Live(db.rows[held].rental) && ReconciledTarget(db, held).Ok?
    ensures var reconciled := ReconciledTarget(db, held).value;
            if held == id && RunsOutAt(fate) <= db.clock then MetItsFate(reconciled, id, fate)
            else Awaits(reconciled, id, fate)
    ensures ReconciledTarget(db, held).value.clock == db.clock
  {
    TargetIsKept(db, held);
    if held == id {
      ReconcilingDiscovers(db, id, fate);
    } else {
      HoldersDiffer(db, held, id);
      TargetingAnotherSpares(db, held, id, fate);
    }
  }

  lemma {:induction false} HoldersDiffer(db: Db, a: nat, b: nat)
    requires Inv(db) && a in db.rows && b in db.rows && a != b && Live(db.rows[a].rental) && Live(db.rows[b].rental)
    ensures db.rows[a].rental.vehicle != db.rows[b].rental.vehicle
  {
    assert Apart(db.rows[a], db.rows[b]);
  }

  /** A tick meets the ride when it comes to its vehicle, wherever in the fleet that is. */
  lemma {:induction false} FleetFollows(db: Db, read: Db, vs: seq<nat>, id: nat, fate: Fate)
    requires Inv(db) && NoRepeats(vs) && AsRead(db, read, vs) && ReconcileFleet(db, read, vs).Ok?
    requires ShortPause(fate, db.clock)
    requires Awaits(db, id, fate) || (MetItsFate(db, id, fate) && db.rows[id].rental.vehicle !in vs)
    ensures var after := ReconcileFleet(db, read, vs).value.0;
            if MetItsFate(db, id, fate) || (db.rows[id].rental.vehicle in vs && RunsOutAt(fate) <= db.clock)
            then MetItsFate(after, id, fate) else Awaits(after, id, fate)
    decreases |vs|
  {
    if vs != [] {
      var v, later := db.rows[id].rental.vehicle, vs[1..];
      FleetTurn(db, read, vs);
      FirstOfTheFleet(db, read, vs, id, fate);
      assert v in vs <==> v == vs[0] || v in later;
      FleetFollows(Reconcile(db, vs[0], HolderOf(read, vs[0])).value, read, later, id, fate);
    }
  }

  lemma {:induction false} FleetTurn(db: Db, read: Db, vs: seq<nat>)
    requires Inv(db) && NoRepeats(vs) && AsRead(db, read, vs) && ReconcileFleet(db, read, vs).Ok? && vs != []
    ensures var r := Reconcile(db, vs[0], HolderOf(read, vs[0]));
            && r.Ok? && HeldFits(db, vs[0], HolderOf(read, vs[0]))
            && Inv(r.value) && r.value.clock == db.clock
            && NoRepeats(vs[1..]) && AsRead(r.value, read, vs[1..]) && ReconcileFleet(r.value, read, vs[1..]).Ok?
            && ReconcileFleet(db, read, vs).value.0 == ReconcileFleet(r.value, read, vs[1..]).value.0
  {
    var held := HolderOf(read, vs[0]);
    ReconcileIsKept(db, vs[0], held);
    LaterVehiclesAsRead(db, Reconcile(db, vs[0], held).value, read, vs, held);
  }

  lemma {:induction false} FirstOfTheFleet(db: Db, read: Db, vs: seq<nat>, id: nat, fate: Fate)
    requires Inv(db) && vs != [] && NoRepeats(vs) && AsRead(db, read, vs)
    requires Reconcile(db, vs[0], HolderOf(read, vs[0])).Ok? && HeldFits(db, vs[0], HolderOf(read, vs[0]))
    requires ShortPause(fate, db.clock)
    requires Awaits(db, id, fate) || (MetItsFate(db, id, fate) && db.rows[id].rental.vehicle !in vs)
    ensures var moved := Reconcile(db, vs[0], HolderOf(read, vs[0])).value;
            && id in moved.rows && moved.rows[id].rental.vehicle == db.rows[id].rental.vehicle
            && vs[0] !in vs[1..]
            && if MetItsFate(db, id, fate) || (db.rows[id].rental.vehicle == vs[0] && RunsOutAt(fate) <= db.clock)
               then MetItsFate(moved, id, fate) else Awaits(moved, id, fate)
  {
    if db.rows[id].rental.vehicle == vs[0] {
      OwnTurnDiscovers(db, read, vs, id, fate);
    } else {
      AnotherTurnSpares(db, vs[0], HolderOf(read, vs[0]), id, fate);
    }
  }

  lemma {:induction false} OwnTurnDiscovers(db: Db, read: Db, vs: seq<nat>, id: nat, fate: Fate)
    requires Inv(db) && vs != [] && AsRead(db, read, vs) && Awaits(db, id, fate) && ShortPause(fate, db.clock)
    requires db.rows[id].rental.vehicle == vs[0]
    requires Reconcile(db, vs[0], HolderOf(read, vs[0])).Ok? && HeldFits(db, vs[0], HolderOf(read, vs[0]))
    ensures var moved := Reconcile(db, vs[0], HolderOf(read, vs[0])).value;
            && id in moved.rows && moved.rows[id].rental.vehicle == vs[0]
            && if RunsOutAt(fate) <= db.clock then MetItsFate(moved, id, fate) else Awaits(moved, id, fate)
  {
    ReconcileIsKept(db, vs[0], HolderOf(read, vs[0]));
    TheHolderIsRead(db, read, vs, id);
    ReconcilingDiscovers(db, id, fate);
  }

  lemma {:induction false} AnotherTurnSpares(db: Db, v: nat, held: Option<Held>, id: nat, fate: Fate)
    requires Inv(db) && HeldFits(db, v, held) && Reconcile(db, v, held).Ok?
    requires id in db.rows && db.rows[id].rental.vehicle != v
    ensures var moved := Reconcile(db, v, held).value;
            && id in moved.rows && moved.rows[id].rental.vehicle == db.rows[id].rental.vehicle
            && (Awaits(db, id, fate) ==> Awaits(moved, id, fate))
            && (MetItsFate(db, id, fate) ==> MetItsFate(moved, id, fate))
  {
    ReconcilingAnotherSpares(db, v, held, id);
    SparedAwaits(db, Reconcile(db, v, held).value, id, fate);
  }

  /** The holder of a vehicle that was not reached yet is the one that was read for the whole fleet. */
  lemma {:induction false} TheHolderIsRead(db: Db, read: Db, vs: seq<nat>, id: nat)
    requires Inv(db) && vs != [] && AsRead(db, read, vs) && id in db.rows && Live(db.rows[id].rental)
    requires db.rows[id].rental.vehicle == vs[0]
    ensures HolderOf(read, vs[0]) == Some(Held(id, db.rows[id].rental))
  {
    assert read.rows[id] == db.rows[id] && HoldsVehicle(read, id, vs[0]);
    var found := LiveOn(read, vs[0]).value;
    assert db.rows[found] == read.rows[found];
    HoldersAreOne(db, found, id);
  }

  /** A transaction that neither turns the ride before its fate nor names another rental of its vehicle leaves the
      ride as it was predicted, or finds that it has met its fate. */
  lemma {:induction false} StepFollows(db: Db, step: Step, id: nat, fate: Fate)
    requires Inv(db) && Awaits(db, id, fate) && Perform(db, step).Ok? && (step.Tick? ==> NoRepeats(step.vehicles))
    requires ShortPause(fate, db.clock) && !NamesAnother(db, step, id)
    requires IsTurn(fate, step, id) ==> RunsOutAt(fate) <= db.clock
    ensures Follows(db, Perform(db, step).value.0, step, id, fate)
  {
    match step
    case Ride(action, caller, named, fit) => RideFollows(db, action, caller, named, fit, id, fate);
    case Finish(caller, named, landing) => FinishFollows(db, caller, named, landing, id, fate);
    case Current(caller) => CurrentFollows(db, caller, id, fate);
    case Tick(vs) => FleetFollows(db, db, vs, id, fate);
    case Reserve(caller, v, named, zone, rates, available) =>
      ReserveSpares(db, caller, v, named, zone, rates, available, id);
      SparedAwaits(db, Perform(db, step).value.0, id, fate);
    case _ =>
      OtherStepsSpare(db, step, id);
      SparedAwaits(db, Perform(db, step).value.0, id, fate);
  }

  lemma {:induction false} OtherStepsSpare(db: Db, step: Step, id: nat)
    requires Inv(db) && id in db.rows && Riding(db.rows[id].rental) && Perform(db, step).Ok?
    requires step.Cancel? || step.Expire? || step.Attempt? || step.Pay? || step.Observe? || step.Notifications?
    ensures Spared(db, Perform(db, step).value.0, id)
  {
    if step.Attempt? || step.Pay? {
      PaymentsSpare(db, step, id);
    } else {
      ReservationsSpare(db, step, id);
    }
  }

  lemma {:induction false} PaymentsSpare(db: Db, step: Step, id: nat)
    requires Inv(db) && id in db.rows && Riding(db.rows[id].rental) && Perform(db, step).Ok?
    requires step.Attempt? || step.Pay?
    ensures Spared(db, Perform(db, step).value.0, id)
  {
    RidingHasNoInvoice(db, id);
    match step
    case Attempt(other, declined) => AttemptingSpares(db, other, declined, id);
    case Pay(caller, other) => ManualPaymentSpares(db, caller, other, id);
  }

  lemma {:induction false} ReservationsSpare(db: Db, step: Step, id: nat)
    requires Inv(db) && id in db.rows && Riding(db.rows[id].rental) && Perform(db, step).Ok?
    requires step.Cancel? || step.Expire? || step.Observe? || step.Notifications?
    ensures Spared(db, Perform(db, step).value.0, id)
  {
    match step
    case Cancel(caller, other) => CancellingSpares(db, caller, other, id);
    case Expire(other) => ExpiringSpares(db, other, id);
    case Notifications(caller) => NotifyingSpares(db, caller, id);
    case Observe(v, begins) => ObservingSpares(db, v, begins, id);
  }

  lemma {:induction false} ExpiringSpares(db: Db, other: nat, id: nat)
    requires id in db.rows && db.rows[id].rental.stage != Reserved && ExpireWithin(db, other).Ok?
    ensures Spared(db, ExpireWithin(db, other).value.0, id)
  {
    ReleasingSpares(db, if other in db.rows then Some(other) else None, id);
  }

  lemma {:induction false} AttemptingSpares(db: Db, other: nat, declined: bool, id: nat)
    requires id in db.rows && db.rows[id].invoice.None? && AttemptWithin(db, other, declined).Ok?
    ensures Spared(db, AttemptWithin(db, other, declined).value.0, id)
  {
    PayingSpares(db, other, Pending, if declined then Declined(db.clock) else Paid(db.clock), id);
  }

  lemma {:induction false} ManualPaymentSpares(db: Db, caller: nat, other: nat, id: nat)
    requires id in db.rows && db.rows[id].invoice.None? && PayWithin(db, caller, other).Ok?
    ensures Spared(db, PayWithin(db, caller, other).value.0, id)
  {
    PayingSpares(db, other, Failed, Paid(db.clock), id);
  }

  lemma {:induction false} NotifyingSpares(db: Db, caller: nat, id: nat)
    requires Inv(db) && id in db.rows && Riding(db.rows[id].rental) && NotificationsWithin(db, caller).Ok?
    ensures Spared(db, NotificationsWithin(db, caller).value.0, id)
  {
    ReleaseSpares(db, LiveOf(db, caller), id);
  }

  lemma {:induction false} RidingHasNoInvoice(db: Db, id: nat)
    requires Inv(db) && id in db.rows && Riding(db.rows[id].rental)
    ensures db.rows[id].invoice.None?
  {
    assert RowIn(db, id);
  }

  lemma {:induction false} ObservingSpares(db: Db, v: nat, begins: Journeys.Model, id: nat)
    requires id in db.rows
    ensures Spared(db, Observed(db, v, begins), id)
  {
  }

  lemma {:induction false} CancellingSpares(db: Db, caller: nat, other: nat, id: nat)
    requires id in db.rows && Riding(db.rows[id].rental) && CancelWithin(db, caller, other).Ok?
    ensures Spared(db, CancelWithin(db, caller, other).value.0, id)
  {
  }

  lemma {:induction false} PayingSpares(db: Db, other: nat, from: PaymentStatus, outcome: Outcome, id: nat)
    requires id in db.rows && db.rows[id].invoice.None?
    ensures other in db.rows && db.rows[other].invoice.Some? && SettleRow(db, other, from, outcome).Ok? ==>
              Spared(db, SettleRow(db, other, from, outcome).value.0, id)
    ensures Spared(db, db, id)
  {
  }

  lemma {:induction false} ReserveSpares(db: Db, caller: nat, v: nat, named: nat, zone: nat, rates: Billing.Rates,
                                         available: bool, id: nat)
    requires Inv(db) && id in db.rows && Riding(db.rows[id].rental)
    ensures var r := ReserveWithin(db, caller, v, named, zone, rates, available);
            r.Ok? && Spared(db, r.value.0, id)
  {
    ReserveIsKept(db, caller, v, named, zone, rates, available);
    OverdueReleaseSpares(db, caller, v, id);
    CreatingSpares(ReleaseOverdue(db, caller, v).value.0, caller, v, named, zone, rates, id);
  }

  lemma {:induction false} OverdueReleaseSpares(db: Db, caller: nat, v: nat, id: nat)
    requires Inv(db) && id in db.rows && Riding(db.rows[id].rental)
    ensures ReleaseOverdue(db, caller, v).Ok? && Spared(db, ReleaseOverdue(db, caller, v).value.0, id)
  {
    ReleaseSpares(db, LiveOf(db, caller), id);
    var first := LiveAt(db, LiveOf(db, caller)).value.0;
    ReleaseSpares(first, LiveOn(first, v), id);
  }

  lemma {:induction false} ReleaseSpares(db: Db, found: Option<nat>, id: nat)
    requires Inv(db) && id in db.rows && Riding(db.rows[id].rental) && (found.Some? ==> found.value in db.rows)
    ensures LiveAt(db, found).Ok? && Inv(LiveAt(db, found).value.0) && Spared(db, LiveAt(db, found).value.0, id)
  {
    LiveAtIsKept(db, found);
    ReleasingSpares(db, found, id);
  }

  lemma {:induction false} CreatingSpares(db: Db, caller: nat, v: nat, named: nat, zone: nat, rates: Billing.Rates,
                                          id: nat)
    requires id in db.rows
    ensures var r := CreateReservation(db, caller, v, named, zone, rates);
            r.Ok? ==> Spared(db, r.value.0, id)
  {
  }

  // ---------- what the person riding asks for ----------

  /** A ride goes on towards a fate, or it is over and its row is this one. */
  datatype Course = Going(fate: Fate) | Over(row: Row)

  /** What a turn before the run-out makes of a ride: it depends on nothing but the stored row and the moment. */
  function Turned(id: nat, fate: Fate, step: Step, moment: int): Course {
    match step
    case Ride(action, _, _, _) =>
      (match MoveRow(fate.row, action, moment)
       case Ok(row) => Going(fate.(row := row))
       case Err(_) => Going(fate))
    case Finish(_, _, _) =>
      (match EndRow(id, fate.row, moment, Ending(UserFinished, moment, None))
       case Ok(row) => Over(row)
       case Err(_) => Going(fate))
    case _ => Going(fate)
  }

  lemma {:induction false} MovingIsBare(row: Row, action: Action, moment: int)
    ensures MoveRow(row, action, moment).Ok? <==> MoveRow(Bare(row), action, moment).Ok?
    ensures MoveRow(row, action, moment).Ok? ==>
              MoveRow(Bare(row), action, moment).value == Bare(MoveRow(row, action, moment).value)
  {
    if MoveRide(row, action, moment).Ok? {
      var moved := MoveRide(row, action, moment).value;
      assert MoveRide(Bare(row), action, moment) == Ok(Bare(moved));
      ClosingIsBare(moved, moment);
      if BeginSegment(moved, ModeAfter(action), moment).Ok? {
        PricingIsBare(BeginSegment(moved, ModeAfter(action), moment).value, moment);
      }
    }
  }

  lemma {:induction false} EndingIsBare(id: nat, row: Row, moment: int, ending: Ending)
    ensures EndRow(id, row, moment, ending).Ok? <==> EndRow(id, Bare(row), moment, ending).Ok?
    ensures EndRow(id, row, moment, ending).Ok? ==>
              EndRow(id, Bare(row), moment, ending).value == Bare(EndRow(id, row, moment, ending).value)
  {
    CompletingIsBare(row, ending);
    if CompleteRental(row, ending).Ok? {
      var completed := CompleteRental(row, ending).value;
      ClosingIsBare(completed, ending.endedAt);
      if CloseOpenSegment(completed, ending.endedAt).Ok? {
        var closed := CloseOpenSegment(completed, ending.endedAt).value;
        PricingIsBare(closed, ending.endedAt);
        if Price(closed, ending.endedAt).Ok? {
          IssuingIsBare(closed, DraftOf(id, closed.rental, Price(closed, ending.endedAt).value, ending, moment));
        }
      }
    }
  }

  lemma {:induction false} CompletingIsBare(row: Row, ending: Ending)
    ensures CompleteRental(row, ending).Ok? <==> CompleteRental(Bare(row), ending).Ok?
    ensures CompleteRental(row, ending).Ok? ==>
              CompleteRental(Bare(row), ending).value == Bare(CompleteRental(row, ending).value)
  {
  }

  lemma {:induction false} ClosingIsBare(row: Row, at: int)
    ensures CloseOpenSegment(row, at).Ok? <==> CloseOpenSegment(Bare(row), at).Ok?
    ensures CloseOpenSegment(row, at).Ok? ==>
              CloseOpenSegment(Bare(row), at).value == Bare(CloseOpenSegment(row, at).value)
  {
  }

  lemma {:induction false} PricingIsBare(row: Row, at: int)
    ensures Price(Bare(row), at) == Price(row, at)
  {
  }

  lemma {:induction false} IssuingIsBare(row: Row, draft: Draft)
    ensures Issue(row, draft).Ok? <==> Issue(Bare(row), draft).Ok?
    ensures Issue(row, draft).Ok? ==> Issue(Bare(row), draft).value == Bare(Issue(row, draft).value)
    ensures Issue(row, draft).Ok? ==> Owe(Issue(Bare(row), draft).value) == Bare(Owe(Issue(row, draft).value))
  {
  }

  /** A turn before the run-out makes of the stored ride what it makes of its fate, or fails and changes nothing. */
  ghost predicate TurnsAs(r: Transaction, id: nat, fate: Fate, course: Course) {
    match r
    case Err(_) => course == Going(fate)
    case Ok((after, _)) =>
      match course
      case Going(next) => Awaits(after, id, next)
      case Over(row) =>
        id in after.rows && Bare(after.rows[id]) == row && row.rental.stage == Completed && row.invoice.Some?
  }

  lemma {:induction false} TurnFollows(db: Db, step: Step, id: nat, fate: Fate)
    requires Inv(db) && Awaits(db, id, fate) && ShortPause(fate, db.clock) && db.clock < RunsOutAt(fate)
    requires IsTurn(fate, step, id)
    ensures TurnsAs(Perform(db, step), id, fate, Turned(id, fate, step, db.clock))
  {
    ReconcilingDiscovers(db, id, fate);
    TargetIsKept(db, id);
    var reconciled := ReconciledTarget(db, id).value;
    match step
    case Ride(action, caller, _, fit) =>
      RideIsOnward(db, action, caller, id, fit, reconciled);
      RidingOnTurns(reconciled, action, caller, id, fit, fate);
    case Finish(caller, _, _) =>
      FinishIsOnward(db, caller, id, None, reconciled);
      FinishingOnTurns(reconciled, caller, id, fate);
  }

  lemma {:induction false} RideIsOnward(db: Db, action: Action, caller: nat, id: nat, fit: bool, reconciled: Db)
    requires RentalOf(db, caller, id) && ReconciledTarget(db, id) == Ok(reconciled) && id in reconciled.rows
    ensures RideWithin(db, action, caller, id, fit) == RideOnward(reconciled, action, id, fit)
  {
  }

  lemma {:induction false} FinishIsOnward(db: Db, caller: nat, id: nat, landing: Option<RefusalKind>, reconciled: Db)
    requires RentalOf(db, caller, id) && ReconciledTarget(db, id) == Ok(reconciled) && id in reconciled.rows
    ensures FinishWithin(db, caller, id, landing) == FinishOnward(reconciled, id, landing)
  {
  }

  lemma {:induction false} RidingOnTurns(db: Db, action: Action, caller: nat, id: nat, fit: bool, fate: Fate)
    requires Inv(db) && Awaits(db, id, fate) && db.clock < RunsOutAt(fate) && AtTheMoment(db, fate.row.rental.vehicle)
    ensures TurnsAs(RideOnward(db, action, id, fit), id, fate,
                    Turned(id, fate, Ride(action, caller, id, fit), db.clock))
  {
    assert RowIn(db, id);
    MovingIsBare(db.rows[id], action, db.clock);
    if MoveRow(db.rows[id], action, db.clock).Ok? {
      MovedRowIsOk(id, db.rows[id], action, db.clock);
      MovedAwaits(db, id, MoveRow(db.rows[id], action, db.clock).value, action, fate);
    }
  }

  lemma {:induction false} MovedAwaits(db: Db, id: nat, moved: Row, action: Action, fate: Fate)
    requires Inv(db) && Awaits(db, id, fate) && db.clock < RunsOutAt(fate) && AtTheMoment(db, fate.row.rental.vehicle)
    requires MovesAs(db.rows[id], moved, action, db.clock)
    ensures var r := Changed(db, id, moved, false);
            r.Ok? && Awaits(r.value, id, fate.(row := Bare(moved)))
  {
    TurnedTracks(db.vehicles[fate.row.rental.vehicle].model.value, fate, Bare(moved), db.clock);
  }

  /** A mode that begins where its vehicle stands is on the same course, and its pause has yet to last. */
  lemma {:induction false} TurnedTracks(m: Model, fate: Fate, row: Row, moment: int)
    requires Tracks(m, fate) && m.processedAt == moment < RunsOutAt(fate)
    requires row.rental.modeStartedAt == Some(moment)
    ensures Tracks(m, fate.(row := row))
  {
    LeftBeforeTheRunOut(fate, moment);
    RowsDriveAlike(fate, row, moment);
  }

  lemma {:induction false} RowsDriveAlike(fate: Fate, row: Row, moment: int)
    requires ValidSources(fate.sources) && fate.at <= moment
    ensures DrivenTo(fate.(row := row), moment) == DrivenTo(fate, moment)
    ensures RunsOutAt(fate.(row := row)) == RunsOutAt(fate)
  {
  }

  lemma {:induction false} FinishingOnTurns(db: Db, caller: nat, id: nat, fate: Fate)
    requires Inv(db) && Awaits(db, id, fate) && db.clock < RunsOutAt(fate)
    ensures TurnsAs(FinishOnward(db, id, None), id, fate, Turned(id, fate, Finish(caller, id, None), db.clock))
  {
    assert RowIn(db, id);
    var ending := Ending(UserFinished, db.clock, None);
    EndingIsBare(id, db.rows[id], db.clock, ending);
    if EndRow(id, db.rows[id], db.clock, ending).Ok? {
      EndedRowIsOk(id, db.rows[id], db.clock, ending);
    }
  }

  // ---------- a finish against the run-out ----------

  /** A finish ends a ride as the person asked exactly when it comes before the run-out; at the very
      moment of the run-out, or later, the ride ends as its sources did. */
  lemma {:induction false} FinishEndsBeforeTheRunOutOnly(db: Db, caller: nat, id: nat, fate: Fate)
    requires Inv(db) && Awaits(db, id, fate) && db.rows[id].rental.user == caller
    requires ShortPause(fate, db.clock) && FinishWithin(db, caller, id, None).Ok?
    ensures var after := FinishWithin(db, caller, id, None).value.0;
            && id in after.rows && after.rows[id].rental.stage == Completed
            && (after.rows[id].rental.reason == Some(UserFinished) <==> db.clock < RunsOutAt(fate))
            && (db.clock < RunsOutAt(fate) ==>
                  after.rows[id].rental.endedAt == Some(db.clock) && after.rows[id].rental.exhausted.None?)
            && (RunsOutAt(fate) <= db.clock ==> MetItsFate(after, id, fate))
  {
    ReconcilingDiscovers(db, id, fate);
    TargetIsKept(db, id);
    var reconciled := ReconciledTarget(db, id).value;
    FinishIsOnward(db, caller, id, None, reconciled);
    if db.clock < RunsOutAt(fate) {
      FinishingOnStores(reconciled, id);
    } else {
      FinishingOnChangesNothing(reconciled, id, None);
    }
  }

  lemma {:induction false} FinishingOnStores(db: Db, id: nat)
    requires Inv(db) && id in db.rows && Riding(db.rows[id].rental) && FinishOnward(db, id, None).Ok?
    ensures var after := FinishOnward(db, id, None).value.0;
            && id in after.rows && after.rows[id].rental.stage == Completed
            && after.rows[id].rental.reason == Some(UserFinished)
            && after.rows[id].rental.endedAt == Some(db.clock) && after.rows[id].rental.exhausted.None?
  {
    FinishingStores(db, id);
  }

  // ---------- a command about an old rental of the vehicle ----------

  /** The time since the moment the vehicle of a ride accounts for. */
  ghost function Unplayed(db: Db, id: nat): int
    requires id in db.rows && Modelled(db, db.rows[id].rental.vehicle)
  {
    db.clock - db.vehicles[db.rows[id].rental.vehicle].model.value.processedAt
  }

  /** The ride is still on its way and its run-out put off by exactly the time its vehicle was moved past, which the
      history has as missed: it stays where it was exactly when there was no such time. */
  ghost predicate PutOff(before: Db, after: Db, id: nat, fate: Fate) {
    && id in before.rows && id in after.rows && Modelled(before, before.rows[id].rental.vehicle)
    && Unplayed(before, id) >= 0
    && Awaits(after, id, fate.(at := fate.at + Unplayed(before, id)))
    && after.rows[id].missed == before.rows[id].missed + Unplayed(before, id)
    && after.rows[id].drove == before.rows[id].drove
    && (Awaits(after, id, fate) <==> Unplayed(before, id) == 0)
  }

  /** A ride command or a finish that names an old rental of the vehicle moves the model past the driving since
      its moment without charging it, and puts off the run-out of the ride that is moving. */
  lemma {:induction false} StaleCommandMissesDriving(db: Db, step: Step, id: nat, fate: Fate)
    requires Inv(db) && Awaits(db, id, fate) && !Pausing(fate) && NamesAnother(db, step, id) && Perform(db, step).Ok?
    ensures PutOff(db, Perform(db, step).value.0, id, fate)
  {
    assert RowIn(db, step.id);
    HoldersAreApart(db, step.id, id);
    StaleReconcile(db, step.id, id, fate);
    PassedOverIsPutOff(db, id, fate);
    var reconciled := PassedOver(db, id);
    StaleGoesNoFurther(db, step, reconciled);
  }

  lemma {:induction false} StaleGoesNoFurther(db: Db, step: Step, reconciled: Db)
    requires (step.Ride? || step.Finish?) && RentalOf(db, step.caller, step.id)
    requires ReconciledTarget(db, step.id) == Ok(reconciled) && step.id in reconciled.rows
    requires RowOk(step.id, reconciled.rows[step.id], reconciled.clock) && !Live(reconciled.rows[step.id].rental)
    ensures Perform(db, step).Ok? && Perform(db, step).value.0 == reconciled
  {
    OverIsOver(reconciled, step, step.id);
  }

  /** A fate that was put off is the same one only when it was put off by nothing. */
  lemma {:induction false} PutOffByThat(db: Db, id: nat, fate: Fate, window: nat)
    requires Awaits(db, id, fate.(at := fate.at + window))
    ensures Awaits(db, id, fate) <==> window == 0
  {
    var at := db.vehicles[db.rows[id].rental.vehicle].model.value.processedAt;
    LeftBeforeTheRunOut(fate.(at := fate.at + window), at);
    if Awaits(db, id, fate) {
      LeftBeforeTheRunOut(fate, at);
    }
  }

  lemma {:induction false} HoldersAreApart(db: Db, named: nat, id: nat)
    requires Inv(db) && named in db.rows && id in db.rows && named != id && Live(db.rows[id].rental)
    requires db.rows[named].rental.vehicle == db.rows[id].rental.vehicle
    ensures !Live(db.rows[named].rental)
  {
    assert Apart(db.rows[named], db.rows[id]);
  }

  /** The vehicle of a ride played as if nobody used it. */
  ghost function PassedOver(db: Db, id: nat): Db
    requires id in db.rows && Modelled(db, db.rows[id].rental.vehicle)
    requires db.vehicles[db.rows[id].rental.vehicle].begins.Some?
    requires PlayVehicle(db.vehicles[db.rows[id].rental.vehicle], Free, db.clock).Ok?
  {
    var v := db.rows[id].rental.vehicle;
    WithBoth(db, id, db.rows[id].(missed := db.rows[id].missed + Unplayed(db, id)), v,
             PlayVehicle(db.vehicles[v], Free, db.clock).value.vehicle)
  }

  lemma {:induction false} StaleReconcile(db: Db, named: nat, id: nat, fate: Fate)
    requires Inv(db) && Awaits(db, id, fate) && !Pausing(fate)
    requires named in db.rows && named != id && !Live(db.rows[named].rental)
    requires db.rows[named].rental.vehicle == db.rows[id].rental.vehicle
    ensures PlayVehicle(db.vehicles[db.rows[id].rental.vehicle], Free, db.clock).Ok?
    ensures ReconciledTarget(db, named) == Ok(PassedOver(db, id))
  {
    TheRiderIsDriving(db, id, fate);
    OverIsFree(db, named);
    var v := db.rows[id].rental.vehicle;
    var play := PlayVehicle(db.vehicles[v], Free, db.clock).value;
    ReconciledFreely(db, v, Some(Held(named, db.rows[named].rental)), play);
    BookedFreely(db, id, play);
  }

  lemma {:induction false} TheRiderIsDriving(db: Db, id: nat, fate: Fate)
    requires Inv(db) && Awaits(db, id, fate) && !Pausing(fate)
    ensures var v := db.rows[id].rental.vehicle;
            && LiveOn(db, v) == Some(id) && db.rows[id].rental.stage == Active
            && db.vehicles[v].begins.Some? && PlayVehicle(db.vehicles[v], Free, db.clock).Ok?
            && var play := PlayVehicle(db.vehicles[v], Free, db.clock).value;
               !play.first && play.ranOut.None? && play.until == db.clock && play.until - play.from == Unplayed(db, id)
  {
    assert RowIn(db, id);
    TheRiderIsFound(db, id);
    assert VehicleOk(db.vehicles[db.rows[id].rental.vehicle], db.clock);
    FreePlayPassesOver(db.vehicles[db.rows[id].rental.vehicle], fate, db.clock);
  }

  lemma {:induction false} OverIsFree(db: Db, id: nat)
    requires Inv(db) && id in db.rows && !Live(db.rows[id].rental)
    ensures ModeOf(Some(Held(id, db.rows[id].rental))) == Free
  {
    assert RowIn(db, id);
  }

  lemma {:induction false} ReconciledFreely(db: Db, v: nat, held: Option<Held>, play: Play)
    requires held.Some? ==> held.value.id in db.rows
    requires v in db.vehicles && db.vehicles[v].begins.Some? && ModeOf(held) == Free
    requires PlayVehicle(db.vehicles[v], Free, db.clock) == Ok(play) && play.ranOut.None?
    ensures Reconcile(db, v, held) == Ok(Booked(db, v, Free, play))
  {
  }

  lemma {:induction false} BookedFreely(db: Db, id: nat, play: Play)
    requires id in db.rows && LiveOn(db, db.rows[id].rental.vehicle) == Some(id)
    requires db.rows[id].rental.stage == Active && Riding(db.rows[id].rental) && !play.first
    ensures Booked(db, db.rows[id].rental.vehicle, Free, play) ==
            WithBoth(db, id, db.rows[id].(missed := db.rows[id].missed + (play.until - play.from)),
                     db.rows[id].rental.vehicle, play.vehicle)
  {
  }

  lemma {:induction false} PassedOverIsPutOff(db: Db, id: nat, fate: Fate)
    requires Inv(db) && Awaits(db, id, fate) && !Pausing(fate)
    requires PlayVehicle(db.vehicles[db.rows[id].rental.vehicle], Free, db.clock).Ok?
    ensures PutOff(db, PassedOver(db, id), id, fate)
  {
    var vehicle, later := PassedOverTracks(db, id, fate);
    MovedPastIsPutOff(db, id, fate, vehicle, later);
  }

  lemma {:induction false} PassedOverTracks(db: Db, id: nat, fate: Fate) returns (vehicle: Vehicle, later: Fate)
    requires Inv(db) && Awaits(db, id, fate) && !Pausing(fate)
    requires PlayVehicle(db.vehicles[db.rows[id].rental.vehicle], Free, db.clock).Ok?
    ensures vehicle == PlayVehicle(db.vehicles[db.rows[id].rental.vehicle], Free, db.clock).value.vehicle
    ensures vehicle.model.Some? && Unplayed(db, id) >= 0
    ensures later == fate.(at := fate.at + Unplayed(db, id)) && Tracks(vehicle.model.value, later)
  {
    var v := db.rows[id].rental.vehicle;
    assert VehicleOk(db.vehicles[v], db.clock);
    vehicle := PlayedFreely(db.vehicles[v], fate, db.clock);
    later := fate.(at := fate.at + (db.clock - db.vehicles[v].model.value.processedAt));
  }

  lemma {:induction false} PlayedFreely(before: Vehicle, fate: Fate, moment: int) returns (after: Vehicle)
    requires VehicleOk(before, moment) && before.begins.Some? && WholeMoment(moment) && before.model.Some?
    requires Tracks(before.model.value, fate) && !Pausing(fate) && PlayVehicle(before, Free, moment).Ok?
    ensures after == PlayVehicle(before, Free, moment).value.vehicle && after.model.Some?
    ensures before.model.value.processedAt <= moment
    ensures Tracks(after.model.value, fate.(at := fate.at + (moment - before.model.value.processedAt)))
  {
    FreePlayIsWhole(before, moment);
    after := PlayVehicle(before, Free, moment).value.vehicle;
    PassedTracks(before.model.value, after.model.value, fate, moment);
  }

  lemma {:induction false} MovedPastIsPutOff(db: Db, id: nat, fate: Fate, vehicle: Vehicle,
                                             later: Fate)
    requires Awaits(db, id, fate) && Unplayed(db, id) >= 0 && vehicle.model.Some?
    requires later == fate.(at := fate.at + Unplayed(db, id)) && Tracks(vehicle.model.value, later)
    ensures var row := db.rows[id].(missed := db.rows[id].missed + Unplayed(db, id));
            PutOff(db, WithBoth(db, id, row, db.rows[id].rental.vehicle, vehicle), id, fate)
  {
    var row := db.rows[id].(missed := db.rows[id].missed + Unplayed(db, id));
    var after := WithBoth(db, id, row, db.rows[id].rental.vehicle, vehicle);
    assert Awaits(after, id, later);
    PutOffByThat(after, id, fate, Unplayed(db, id));
  }

  /** A window in which nobody uses the vehicle moves its state on and charges nothing. */
  lemma {:induction false} FreePlayPassesOver(vehicle: Vehicle, fate: Fate, moment: int)
    requires VehicleOk(vehicle, moment) && vehicle.begins.Some? && WholeMoment(moment) && vehicle.model.Some?
    requires Tracks(vehicle.model.value, fate) && !Pausing(fate)
    ensures PlayVehicle(vehicle, Free, moment).Ok?
    ensures var play := PlayVehicle(vehicle, Free, moment).value;
            && !play.first && play.ranOut.None? && play.until == moment && play.vehicle.model.Some?
            && play.from == vehicle.model.value.processedAt <= moment
            && Tracks(play.vehicle.model.value, fate.(at := fate.at + (moment - play.from)))
  {
    FreePlayIsWhole(vehicle, moment);
    var play := PlayVehicle(vehicle, Free, moment).value;
    PassedTracks(vehicle.model.value, play.vehicle.model.value, fate, moment);
  }

  lemma {:induction false} FreePlayIsWhole(vehicle: Vehicle, moment: int)
    requires VehicleOk(vehicle, moment) && vehicle.begins.Some? && WholeMoment(moment) && vehicle.model.Some?
    ensures PlayVehicle(vehicle, Free, moment).Ok?
    ensures var play := PlayVehicle(vehicle, Free, moment).value;
            && !play.first && play.from == vehicle.model.value.processedAt <= moment
            && PlayedThrough(vehicle, play, moment)
            && play.vehicle.model.value.sources == vehicle.model.value.sources
  {
    LaterPlayMovesOn(vehicle, Free, moment);
  }

  /** The same sources at a later moment are on the same course, put off by the time between. */
  lemma {:induction false} PassedTracks(m: Model, passed: Model, fate: Fate, moment: int)
    requires Tracks(m, fate) && !Pausing(fate) && m.processedAt <= moment
    requires passed.sources == m.sources && !passed.depleted && passed.processedAt == moment
    ensures Tracks(passed, fate.(at := fate.at + (moment - m.processedAt)))
  {
    DrivenAsLong(fate, m.processedAt, moment);
  }

  lemma {:induction false} DrivenAsLong(fate: Fate, from: int, moment: int)
    requires ValidSources(fate.sources) && fate.at <= from <= moment
    ensures var later := fate.(at := fate.at + (moment - from));
            DrivenTo(later, moment) == DrivenTo(fate, from) && RunsOutAt(later) == RunsOutAt(fate) + (moment - from)
  {
  }

  lemma {:induction false} OverIsOver(db: Db, step: Step, named: nat)
    requires named in db.rows && RowOk(named, db.rows[named], db.clock) && !Live(db.rows[named].rental)
    requires (step.Ride? || step.Finish?) && step.id == named
    ensures step.Ride? ==>
              var r := RideOnward(db, step.action, named, step.fit);
              r.Ok? && r.value.0 == db
    ensures step.Finish? ==>
              var r := FinishOnward(db, named, step.landing);
              r.Ok? && r.value.0 == db
  {
  }
}
