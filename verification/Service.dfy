/** The rental transactions as they run: statement by statement on the stored rows, each proved to do what its
    specification says, and rolled back whole when it fails (backend/internal/rentals). */
module Service {
  import opened Wrappers
  import opened Energy
  import opened Invoices
  import opened Rentals
  import opened Fleet
  import opened Operations
  import opened Invariants
  import opened Keeping
  import opened Lifecycle
  import opened Discovery
  import opened Runs
  import Billing
  import Journeys

  /** What a statement or a step of a transaction does to the tables, against its specification. */
  ghost predicate Did(spec: Result<Db, Failure>, r: Result<(), Failure>, after: Db) {
    if spec.Ok? then r.Ok? && after == spec.value else r == Err(spec.error)
  }

  /** What a whole transaction does and answers, against its specification. */
  ghost predicate Decided(spec: Transaction, r: Result<Answer, Failure>, after: Db) {
    if spec.Ok? then r == Ok(spec.value.1) && after == spec.value.0 else r == Err(spec.error)
  }

  class Tables {
    var rows: map<nat, Row>
    var vehicles: map<nat, Vehicle>
    var moment: int

    ghost function Value(): Db
      reads this
    {
      Db(rows, vehicles, moment)
    }

    constructor (vehicles: map<nat, Vehicle>, moment: int)
      ensures Value() == Installed(vehicles, moment)
    {
      rows := map[];
      this.vehicles := vehicles;
      this.moment := moment;
    }

    // ---------- reads ----------

    method LiveRentalOn(v: nat) returns (found: Option<nat>)
      requires Inv(Value())
      ensures found == LiveOn(Value(), v)
    {
      if id :| id in rows && rows[id].rental.vehicle == v && rows[id].rental.endedAt.None? {
        TheRiderIsFound(Value(), id);
        return Some(id);
      }
      assert forall id :: id in rows ==> !HoldsVehicle(Value(), id, v);
      return None;
    }

    method LiveRentalOf(user: nat) returns (found: Option<nat>)
      requires Inv(Value())
      ensures found == LiveOf(Value(), user)
    {
      if id :| id in rows && rows[id].rental.user == user && rows[id].rental.endedAt.None? {
        TheRiderIsFound(Value(), id);
        return Some(id);
      }
      assert forall id :: id in rows ==> !HoldsAccount(Value(), id, user);
      return None;
    }

    /** The sums of the two modes, added segment by segment. */
    method ModeDurations(id: nat, at: int) returns (driving: int, paused: int)
      requires id in rows
      ensures driving == TimeIn(rows[id].segments, Driving, at)
      ensures paused == TimeIn(rows[id].segments, Mode.Paused, at)
    {
      driving, paused := 0, 0;
      var segments := rows[id].segments;
      var i := 0;
      while i < |segments|
        invariant 0 <= i <= |segments|
        invariant driving == TimeIn(segments[..i], Driving, at)
        invariant paused == TimeIn(segments[..i], Mode.Paused, at)
      {
        var segment := segments[i];
        assert segments[..i + 1] == segments[..i] + [segment] && ButLast(segments[..i + 1]) == segments[..i];
        if segment.from <= at {
          var took := (if segment.to.Some? then segment.to.value else at) - segment.from;
          if segment.mode == Driving {
            driving := driving + took;
          } else if segment.mode == Mode.Paused {
            paused := paused + took;
          }
        }
        i := i + 1;
      }
      assert segments[..|segments|] == segments;
    }

    /** What the ride costs by a moment. */
    method ReadProgress(id: nat, at: int) returns (r: Result<Billing.Charge, Failure>)
      requires id in rows
      ensures r == Price(rows[id], at)
    {
      var driving, paused := ModeDurations(id, at);
      if !Billing.InInt64(driving) || !Billing.InInt64(paused) {
        return Err(DurationUnreadable);
      }
      match Billing.Compute(rows[id].rental.rates, driving, paused) {
        case Ok(charge) => return Ok(charge);
        case Err(refusal) => return Err(Unpriceable(refusal));
      }
    }

    // ---------- statements ----------

    /** Closes whatever is open, one row at a time; a row that would last no time fails the statement. */
    method CloseOpen(id: nat, at: int) returns (r: Result<(), Failure>)
      requires id in rows
      modifies this`rows
      ensures match CloseOpenSegment(old(rows[id]), at)
              case Ok(row) => r.Ok? && rows == old(rows)[id := row]
              case Err(error) => r == Err(error)
    {
      var segments := rows[id].segments;
      var closed: seq<Segment> := [];
      var i := 0;
      while i < |segments|
        invariant 0 <= i <= |segments| && rows == old(rows)
        invariant closed == Closed(segments[..i], at)
        invariant forall j :: 0 <= j < i && segments[j].to.None? ==> segments[j].from < at
      {
        var segment := segments[i];
        assert segments[..i + 1] == segments[..i] + [segment] && ButLast(segments[..i + 1]) == segments[..i];
        if segment.to.None? {
          if segment.from >= at {
            assert !ClosesLater(segments, at);
            return Err(CheckFailed);
          }
          segment := segment.(to := Some(at));
        }
        closed := closed + [segment];
        i := i + 1;
      }
      assert segments[..|segments|] == segments;
      rows := rows[id := rows[id].(segments := closed)];
      return Ok(());
    }

    method Open(id: nat, mode: Mode, at: int) returns (r: Result<(), Failure>)
      requires id in rows
      modifies this`rows
      ensures match OpenSegment(old(rows[id]), mode, at)
              case Ok(row) => r.Ok? && rows == old(rows)[id := row]
              case Err(error) => r == Err(error)
    {
      var row := rows[id];
      if exists i :: 0 <= i < |row.segments| && row.segments[i].to.None? {
        return Err(UniqueViolated);
      }
      rows := rows[id := row.(segments := row.segments + [Segment(mode, at, None)])];
      return Ok(());
    }

    /** The guarded update of a ride command. */
    method Move(id: nat, action: Action) returns (r: Result<(), Failure>)
      requires id in rows
      modifies this`rows
      ensures match MoveRide(old(rows[id]), action, moment)
              case Ok(row) => r.Ok? && rows == old(rows)[id := row]
              case Err(error) => r == Err(error)
    {
      var row := rows[id];
      if row.rental.stage != StageBefore(action) {
        return Err(RentalMoved);
      }
      var rental := row.rental.(stage := StageAfter(action), modeStartedAt := Some(moment));
      if action == Start {
        rental := rental.(startedAt := Some(moment));
      }
      rental := rental.(version := rental.version + 1);
      rows := rows[id := row.(rental := rental)];
      return Ok(());
    }

    /** The guarded update that ends a reservation. */
    method Release(id: nat, ending: Stage, at: int) returns (moved: bool)
      requires id in rows
      modifies this`rows
      ensures moved == EndReservationAs(old(rows[id]), ending, at).1
      ensures rows == old(rows)[id := EndReservationAs(old(rows[id]), ending, at).0]
    {
      var row := rows[id];
      if row.rental.stage != Reserved {
        assert rows[id := row] == rows;
        return false;
      }
      rows := rows[id := row.(rental := row.rental.(
        stage := ending, version := row.rental.version + 1, endedAt := Some(at), modeStartedAt := None))];
      return true;
    }

    /** The guarded update that completes a ride. */
    method Complete(id: nat, ending: Ending) returns (r: Result<(), Failure>)
      requires id in rows
      modifies this`rows
      ensures match CompleteRental(old(rows[id]), ending)
              case Ok(row) => r.Ok? && rows == old(rows)[id := row]
              case Err(error) => r == Err(error)
    {
      var row := rows[id];
      if row.rental.stage != Active && row.rental.stage != Stage.Paused {
        return Err(RentalNotEnded);
      }
      if ending.exhausted == Some([]) {
        return Err(CheckFailed);
      }
      rows := rows[id := row.(rental := row.rental.(
        stage := Completed, version := row.rental.version + 1, endedAt := Some(ending.endedAt), modeStartedAt := None,
        reason := Some(ending.reason), exhausted := ending.exhausted))];
      return Ok(());
    }

    method IssueInvoice(id: nat, draft: Draft) returns (r: Result<(), Failure>)
      requires id in rows
      modifies this`rows
      ensures match Issue(old(rows[id]), draft)
              case Ok(row) => r.Ok? && rows == old(rows)[id := row]
              case Err(error) => r == Err(error)
    {
      if !Acceptable(draft) {
        return Err(DraftUnacceptable);
      }
      if rows[id].invoice.Some? {
        return Err(UniqueViolated);
      }
      rows := rows[id := rows[id].(invoice := Some(Issued(draft)))];
      return Ok(());
    }

    method PublishChange(v: nat, depleted: bool) returns (r: Result<(), Failure>)
      modifies this`vehicles
      ensures r.Ok? <==> v in old(vehicles)
      ensures r.Ok? ==> vehicles == old(vehicles)[v := Announced(old(vehicles[v]), depleted)]
      ensures r.Err? ==> r.error == NoSuchVehicle && vehicles == old(vehicles)
    {
      if v !in vehicles {
        return Err(NoSuchVehicle);
      }
      var vehicle := vehicles[v];
      vehicle := vehicle.(version := vehicle.version + 1);
      if depleted {
        vehicle := vehicle.(serviceRequired := true);
      }
      vehicles := vehicles[v := vehicle];
      return Ok(());
    }

    // ---------- endings ----------

    /** Everything an ending writes under the rental, in the order it is written. */
    method EndStored(id: nat, ending: Ending) returns (r: Result<(), Failure>)
      requires id in rows
      modifies this`rows
      ensures match EndRow(id, old(rows[id]), moment, ending)
              case Ok(row) => r.Ok? && rows == old(rows)[id := row]
              case Err(error) => r == Err(error)
    {
      ghost var before := rows;
      var completed := Complete(id, ending);
      if completed.Err? {
        return completed;
      }
      var closed := CloseOpen(id, ending.endedAt);
      if closed.Err? {
        return closed;
      }
      assert rows == before[id := rows[id]];
      var priced := ReadProgress(id, ending.endedAt);
      if priced.Err? {
        return Err(priced.error);
      }
      r := IssueInvoice(id, DraftOf(id, rows[id].rental, priced.value, ending, moment));
      if r.Err? {
        return r;
      }
      assert rows == before[id := rows[id]];
      OweTasks(id);
      assert rows == before[id := rows[id]];
    }

    /** The attempt at a payment is owed only by an invoice that still waits for one; the letter always. */
    method OweTasks(id: nat)
      requires id in rows && rows[id].invoice.Some?
      modifies this`rows
      ensures rows == old(rows)[id := Owe(old(rows[id]))]
    {
      var tasks := [InvoiceLetter];
      if rows[id].invoice.value.payment.status == Pending {
        tasks := [PaymentAttempt] + tasks;
      }
      assert tasks == TasksOf(rows[id].invoice.value);
      rows := rows[id := rows[id].(owed := rows[id].owed + tasks)];
    }

    /** Closes a ride and writes everything the ending owes. */
    method End(id: nat, ending: Ending) returns (r: Result<(), Failure>)
      requires id in rows
      modifies this`rows, this`vehicles
      ensures Did(EndRide(old(Value()), id, ending), r, Value())
    {
      ghost var before := rows;
      r := EndStored(id, ending);
      if r.Err? {
        return r;
      }
      var v := rows[id].rental.vehicle;
      var ended := Accounted(rows[id], v in vehicles && vehicles[v].model.Some?);
      rows := rows[id := ended];
      assert rows == before[id := ended];
      r := PublishChange(v, ending.reason == EnergyDepleted);
    }

    method EndDue(id: nat) returns (r: Result<(), Failure>)
      requires id in rows
      modifies this`rows, this`vehicles
      ensures Did(EndReservation(old(Value()), id), r, Value())
    {
      var moved := Release(id, Expired, rows[id].rental.expiresAt);
      if !moved {
        return Ok(());
      }
      r := PublishChange(rows[id].rental.vehicle, false);
    }

    /** The rental that holds an account or a vehicle, ended first when its deadline has passed. */
    method ReleaseWhenDue(found: Option<nat>) returns (r: Result<Option<nat>, Failure>)
      requires found.Some? ==> found.value in rows
      modifies this`rows, this`vehicles
      ensures match LiveAt(old(Value()), found)
              case Ok((after, held)) => r == Ok(held) && Value() == after
              case Err(error) => r == Err(error)
    {
      if found.None? || !Overdue(rows[found.value].rental, moment) {
        return Ok(found);
      }
      var released := EndDue(found.value);
      if released.Err? {
        return Err(released.error);
      }
      return Ok(None);
    }

    // ---------- the model meets a moment ----------

    /** Restores the state of a vehicle, or begins one, and plays the window since its moment. */
    method Play(v: nat, mode: Mode) returns (r: Result<Fleet.Play, Failure>)
      requires Inv(Value()) && v in vehicles && vehicles[v].begins.Some?
      ensures r == PlayVehicle(vehicles[v], mode, moment)
    {
      var vehicle := vehicles[v];
      assert VehicleOk(vehicle, moment);
      var restored := Restored(vehicle, moment);
      if restored.Err? {
        return Err(restored.error);
      }
      var before := restored.value;
      if before.processedAt > moment {
        return Err(Unplayable(Journeys.TimeReversed));
      }
      if before.processedAt == moment {
        var saved := Saved(vehicle, mode, before, before, moment);
        return Ok(Fleet.Play(saved, vehicle.model.None?, moment, moment, None, []));
      }
      var state := new Journeys.State(before);
      var played := state.Play([Journeys.Span(mode, before.processedAt, moment)], moment);
      if played.Err? {
        return Err(Unplayable(played.error));
      }
      var motion := played.value.0;
      var advanced := played.value.1.Read();
      return Ok(Fleet.Play(Saved(vehicle, mode, before, advanced, moment), vehicle.model.None?, before.processedAt,
                           advanced.processedAt, motion.depletedBy, ExhaustedBy(motion.holding, advanced.sources)));
    }

    /** Saves what a window reached, and keeps the history of the ride it was played under. */
    method Book(v: nat, mode: Mode, play: Fleet.Play)
      requires Inv(Value())
      modifies this`rows, this`vehicles
      ensures Value() == Booked(old(Value()), v, mode, play)
    {
      var rider := LiveRentalOn(v);
      vehicles := vehicles[v := play.vehicle];
      if rider.Some? {
        rows := rows[rider.value := Credited(rows[rider.value], mode, play, moment)];
      }
    }

    method ReconcileVehicle(v: nat, held: Option<Held>) returns (r: Result<(), Failure>)
      requires Inv(Value()) && (held.Some? ==> held.value.id in rows)
      modifies this`rows, this`vehicles
      ensures Did(Reconcile(old(Value()), v, held), r, Value())
    {
      if v !in vehicles || vehicles[v].begins.None? {
        return Ok(());
      }
      var played := Play(v, ModeOf(held));
      if played.Err? {
        return Err(played.error);
      }
      var play := played.value;
      Book(v, ModeOf(held), play);
      if play.ranOut.None? || held.None? || !Riding(held.value.rental) {
        return Ok(());
      }
      r := End(held.value.id, DepletedAt(play));
    }

    // ---------- commands ----------

    method Expiring(id: nat) returns (r: Result<Answer, Failure>)
      requires id in rows
      modifies this`rows, this`vehicles
      ensures Decided(RecordExpiry(old(Value()), id), r, Value())
    {
      var released := EndDue(id);
      if released.Err? {
        return Err(released.error);
      }
      return Ok(Refusing(ReservationExpired));
    }

    /** The rental a command names, with its vehicle brought to the moment of the command. */
    method ReconcileTarget(id: nat) returns (r: Result<(), Failure>)
      requires Inv(Value()) && id in rows
      modifies this`rows, this`vehicles
      ensures Did(ReconciledTarget(old(Value()), id), r, Value())
    {
      r := ReconcileVehicle(rows[id].rental.vehicle, Some(Held(id, rows[id].rental)));
    }

    method MovePrepared(id: nat, action: Action) returns (r: Result<(), Failure>)
      requires id in rows
      modifies this`rows
      ensures match MoveRow(old(rows[id]), action, moment)
              case Ok(row) => r.Ok? && rows == old(rows)[id := row]
              case Err(error) => r == Err(error)
    {
      ghost var before := rows;
      r := Move(id, action);
      if r.Err? {
        return r;
      }
      r := CloseOpen(id, moment);
      if r.Err? {
        return r;
      }
      assert rows == before[id := rows[id]];
      r := Open(id, ModeAfter(action), moment);
      if r.Err? {
        return r;
      }
      assert rows == before[id := rows[id]];
      var priced := ReadProgress(id, moment);
      if priced.Err? {
        return Err(priced.error);
      }
      return Ok(());
    }

    method RideOn(action: Action, id: nat, fit: bool) returns (r: Result<Answer, Failure>)
      requires id in rows
      modifies this`rows, this`vehicles
      ensures Decided(RideOnward(old(Value()), action, id, fit), r, Value())
    {
      if Overdue(rows[id].rental, moment) {
        r := Expiring(id);
        return r;
      }
      var refusal := RideRefusal(rows[id].rental, action);
      if refusal.Some? {
        return Ok(Refusing(refusal.value));
      }
      if action == Start && !fit {
        return Ok(Refusing(VehicleUnavailable));
      }
      var moved := MovePrepared(id, action);
      if moved.Err? {
        return Err(moved.error);
      }
      var published := PublishChange(rows[id].rental.vehicle, false);
      if published.Err? {
        return Err(published.error);
      }
      return Ok(Moving(id));
    }

    method RideAlong(action: Action, caller: nat, id: nat, fit: bool) returns (r: Result<Answer, Failure>)
      requires Inv(Value())
      modifies this`rows, this`vehicles
      ensures Decided(RideWithin(old(Value()), action, caller, id, fit), r, Value())
    {
      if id !in rows || rows[id].rental.user != caller {
        return Ok(Refusing(RentalNotFound));
      }
      var reconciled := ReconcileTarget(id);
      if reconciled.Err? {
        return Err(reconciled.error);
      }
      TargetIsKept(old(Value()), id);
      r := RideOn(action, id, fit);
    }

    method FinishOn(id: nat, landing: Option<RefusalKind>) returns (r: Result<Answer, Failure>)
      requires id in rows
      modifies this`rows, this`vehicles
      ensures Decided(FinishOnward(old(Value()), id, landing), r, Value())
    {
      var stage := rows[id].rental.stage;
      if stage == Completed {
        if rows[id].invoice.None? {
          return Err(InvoiceMissing);
        }
        return Ok(Finished(id, rows[id].invoice.value));
      }
      if stage != Active && stage != Stage.Paused {
        return Ok(Refusing(InvalidRentalState));
      }
      if landing.Some? {
        return Ok(Refusing(landing.value));
      }
      var ended := End(id, Ending(UserFinished, moment, None));
      if ended.Err? {
        return Err(ended.error);
      }
      if id !in rows || rows[id].invoice.None? {
        return Err(InvoiceMissing);
      }
      return Ok(Finished(id, rows[id].invoice.value));
    }

    method Finish(caller: nat, id: nat, landing: Option<RefusalKind>) returns (r: Result<Answer, Failure>)
      requires Inv(Value())
      modifies this`rows, this`vehicles
      ensures Decided(FinishWithin(old(Value()), caller, id, landing), r, Value())
    {
      if id !in rows || rows[id].rental.user != caller {
        return Ok(Refusing(RentalNotFound));
      }
      var reconciled := ReconcileTarget(id);
      if reconciled.Err? {
        return Err(reconciled.error);
      }
      TargetIsKept(old(Value()), id);
      r := FinishOn(id, landing);
    }

    method Cancel(caller: nat, id: nat) returns (r: Result<Answer, Failure>)
      modifies this`rows, this`vehicles
      ensures Decided(CancelWithin(old(Value()), caller, id), r, Value())
    {
      if id !in rows || rows[id].rental.user != caller {
        return Ok(Refusing(RentalNotFound));
      }
      match rows[id].rental.stage {
        case Reserved =>
          if Overdue(rows[id].rental, moment) {
            r := Expiring(id);
            return r;
          }
          var _ := Release(id, Cancelled, moment);
          var published := PublishChange(rows[id].rental.vehicle, false);
          if published.Err? {
            return Err(published.error);
          }
          return Ok(Releasing(id));
        case Expired => return Ok(Refusing(ReservationExpired));
        case Completed => return Ok(Refusing(RentalCompleted));
        case _ => return Ok(Refusing(InvalidRentalState));
      }
    }

    method ReleaseBoth(caller: nat, v: nat) returns (r: Result<Option<nat>, Failure>)
      requires Inv(Value())
      modifies this`rows, this`vehicles
      ensures match ReleaseOverdue(old(Value()), caller, v)
              case Ok((after, held)) => r == Ok(held) && Value() == after
              case Err(error) => r == Err(error)
    {
      var mine := LiveRentalOf(caller);
      var held := ReleaseWhenDue(mine);
      if held.Err? {
        return held;
      }
      LiveAtIsKept(old(Value()), mine);
      var taken := LiveRentalOn(v);
      var released := ReleaseWhenDue(taken);
      if released.Err? {
        return released;
      }
      return held;
    }

    method Reserve(caller: nat, v: nat, id: nat, zone: nat, rates: Billing.Rates, available: bool)
      returns (r: Result<Answer, Failure>)
      requires Inv(Value())
      modifies this`rows, this`vehicles
      ensures Decided(ReserveWithin(old(Value()), caller, v, id, zone, rates, available), r, Value())
    {
      var held := ReleaseBoth(caller, v);
      match held {
        case Err(error) => return Err(error);
        case Ok(_) =>
      }
      ReleaseOverdueIsKept(old(Value()), caller, v);
      var refusal := JudgeAccount(caller, held.value);
      if refusal.Some? {
        return Ok(Refusing(refusal.value));
      }
      var taken := LiveRentalOn(v);
      if v !in vehicles || taken.Some? || vehicles[v].serviceRequired || !available {
        return Ok(Refusing(VehicleUnavailable));
      }
      r := Create(caller, v, id, zone, rates);
    }

    /** The rules of the account, in the order useful to the caller. */
    method JudgeAccount(caller: nat, held: Option<nat>) returns (refusal: Option<RefusalKind>)
      ensures refusal ==
              if AccountRefuses(Value(), caller, held) then Some(AccountRefusal(Value(), caller, held)) else None
    {
      if exists other :: other in rows && rows[other].rental.user == caller && Owes(rows[other]) {
        return Some(OutstandingInvoice);
      }
      if exists other :: other in rows && rows[other].rental.user == caller
                         && ServiceDay(rows[other].rental.reservedAt) == ServiceDay(moment) {
        return Some(DailyLimitReached);
      }
      if held.Some? {
        return Some(ActiveRentalExists);
      }
      return None;
    }

    /** Writes the reservation, or names the live rental that kept the row out. */
    method Create(caller: nat, v: nat, id: nat, zone: nat, rates: Billing.Rates) returns (r: Result<Answer, Failure>)
      requires Inv(Value())
      modifies this`rows, this`vehicles
      ensures Decided(CreateReservation(old(Value()), caller, v, id, zone, rates), r, Value())
    {
      var mine := LiveRentalOf(caller);
      if mine.Some? {
        return Ok(Refusing(ActiveRentalExists));
      }
      var taken := LiveRentalOn(v);
      if id in rows || taken.Some? {
        return Ok(Refusing(VehicleUnavailable));
      }
      rows := rows[id := ReservedRow(caller, v, zone, rates, moment)];
      var published := PublishChange(v, false);
      if published.Err? {
        return Err(published.error);
      }
      return Ok(Reserving(id));
    }

    method CurrentOn(caller: nat) returns (r: Result<Answer, Failure>)
      requires Inv(Value())
      modifies this`rows, this`vehicles
      ensures Decided(CurrentOnward(old(Value()), caller), r, Value())
    {
      var mine := LiveRentalOf(caller);
      var now := ReleaseWhenDue(mine);
      match now {
        case Err(error) => return Err(error);
        case Ok(_) =>
      }
      LiveAtIsKept(old(Value()), mine);
      if now.value.Some? && Riding(rows[now.value.value].rental) {
        var priced := ReadProgress(now.value.value, moment);
        if priced.Err? {
          return Err(priced.error);
        }
      }
      return Ok(Showing(now.value));
    }

    method Current(caller: nat) returns (r: Result<Answer, Failure>)
      requires Inv(Value())
      modifies this`rows, this`vehicles
      ensures Decided(CurrentWithin(old(Value()), caller), r, Value())
    {
      var mine := LiveRentalOf(caller);
      var held := ReleaseWhenDue(mine);
      match held {
        case Err(error) => return Err(error);
        case Ok(_) =>
      }
      LiveAtIsKept(old(Value()), mine);
      if held.value.None? || !Riding(rows[held.value.value].rental) {
        return Ok(Showing(held.value));
      }
      ghost var released := Value();
      var reconciled := ReconcileTarget(held.value.value);
      if reconciled.Err? {
        return Err(reconciled.error);
      }
      TargetIsKept(released, held.value.value);
      r := CurrentOn(caller);
    }

    /** Releases what is overdue before the read of notifications. */
    method ReadNotifications(caller: nat) returns (r: Result<Answer, Failure>)
      requires Inv(Value())
      modifies this`rows, this`vehicles
      ensures Decided(NotificationsWithin(old(Value()), caller), r, Value())
    {
      var found := LiveRentalOf(caller);
      var released := ReleaseWhenDue(found);
      match released {
        case Err(error) => return Err(error);
        case Ok(_) => return Ok(Nothing);
      }
    }

    method ExpireOne(id: nat) returns (r: Result<Answer, Failure>)
      modifies this`rows, this`vehicles
      ensures Decided(ExpireWithin(old(Value()), id), r, Value())
    {
      if id !in rows || !Overdue(rows[id].rental, moment) {
        return Ok(Nothing);
      }
      var released := EndDue(id);
      if released.Err? {
        return Err(released.error);
      }
      return Ok(Releasing(id));
    }

    method Settle(id: nat, from: PaymentStatus, outcome: Outcome) returns (r: Result<Answer, Failure>)
      requires id in rows && rows[id].invoice.Some?
      modifies this`rows
      ensures Decided(SettleRow(old(Value()), id, from, outcome), r, Value())
    {
      var settled := Invoices.Settle(rows[id].invoice.value, from, outcome);
      if settled.Err? {
        return Err(Unsettled(settled.error));
      }
      rows := rows[id := rows[id].(invoice := Some(settled.value))];
      return Ok(Paying(settled.value));
    }

    method Attempt(id: nat, declined: bool) returns (r: Result<Answer, Failure>)
      modifies this`rows
      ensures Decided(AttemptWithin(old(Value()), id, declined), r, Value())
    {
      if id !in rows || rows[id].invoice.None? || rows[id].invoice.value.payment.status != Pending {
        return Ok(Nothing);
      }
      r := Settle(id, Pending, if declined then Declined(moment) else Paid(moment));
    }

    method Pay(caller: nat, id: nat) returns (r: Result<Answer, Failure>)
      modifies this`rows
      ensures Decided(PayWithin(old(Value()), caller, id), r, Value())
    {
      if id !in rows || rows[id].invoice.None? || rows[id].invoice.value.user != caller {
        return Ok(Refusing(InvoiceNotFound));
      }
      match rows[id].invoice.value.payment.status {
        case Pending => return Ok(Refusing(PaymentInProgress));
        case Settled => return Ok(Paying(rows[id].invoice.value));
        case Failed => r := Settle(id, Failed, Paid(moment));
      }
    }

    // ---------- the whole fleet ----------

    /** The holders of the fleet, read once before anything is moved. */
    method ReadHolders(vs: seq<nat>) returns (held: seq<Option<Held>>)
      requires Inv(Value())
      ensures |held| == |vs|
      ensures forall i :: 0 <= i < |vs| ==> held[i] == HolderOf(Value(), vs[i])
    {
      held := [];
      var i := 0;
      while i < |vs|
        invariant 0 <= i == |held| <= |vs|
        invariant forall j :: 0 <= j < i ==> held[j] == HolderOf(Value(), vs[j])
      {
        var found := LiveRentalOn(vs[i]);
        held := held + [if found.Some? then Some(Held(found.value, rows[found.value].rental)) else None];
        i := i + 1;
      }
    }

    /** Advances every vehicle to the moment, in the order the fleet is read, and names the rides that ran out. */
    method TickFleet(vs: seq<nat>) returns (r: Result<Answer, Failure>)
      requires Inv(Value()) && NoRepeats(vs)
      modifies this`rows, this`vehicles
      ensures Decided(TickWithin(old(Value()), vs), r, Value())
    {
      ghost var read := Value();
      ghost var whole, rest := ReconcileFleet(read, read, vs), ReconcileFleet(read, read, vs);
      var held := ReadHolders(vs);
      var completed: seq<nat> := [];
      var i := 0;
      assert vs[0..] == vs;
      OnwardFromNothing(whole);
      while i < |vs|
        invariant 0 <= i <= |vs| && Inv(Value()) && NoRepeats(vs[i..]) && AsRead(Value(), read, vs[i..])
        invariant rest == ReconcileFleet(Value(), read, vs[i..])
        invariant whole == Onward(completed, rest)
      {
        ghost var before := Value();
        assert vs[i..][0] == vs[i] && vs[i..][1..] == vs[i + 1..];
        if held[i].Some? && held[i].value.id !in rows {
          return Err(RentalMoved);
        }
        var reconciled := ReconcileVehicle(vs[i], held[i]);
        if reconciled.Err? {
          return Err(reconciled.error);
        }
        ReconcileIsKept(before, vs[i], held[i]);
        LaterVehiclesAsRead(before, Value(), read, vs[i..], held[i]);
        var ended: seq<nat> := [];
        if held[i].Some? && !Live(rows[held[i].value.id].rental) && held[i].value.rental.endedAt.None? {
          ended := [held[i].value.id];
        }
        rest := ReconcileFleet(Value(), read, vs[i + 1..]);
        NextOfTheFleet(before, Value(), read, vs[i..], held[i], ended);
        OnwardInOrder(completed, ended, rest);
        completed := completed + ended;
        i := i + 1;
      }
      assert vs[|vs|..] == [];
      assert completed + [] == completed;
      return Ok(Ticking(completed));
    }

    // ---------- one transaction, and many ----------

    method Decide(step: Step) returns (r: Result<Answer, Failure>)
      requires Inv(Value()) && (step.Tick? ==> NoRepeats(step.vehicles))
      modifies this`rows, this`vehicles
      ensures Decided(Perform(old(Value()), step), r, Value())
    {
      match step {
        case Ride(action, caller, id, fit) => r := RideAlong(action, caller, id, fit);
        case Finish(caller, id, landing) => r := Finish(caller, id, landing);
        case Cancel(caller, id) => r := Cancel(caller, id);
        case Expire(id) => r := ExpireOne(id);
        case Reserve(caller, v, id, zone, rates, available) => r := Reserve(caller, v, id, zone, rates, available);
        case Current(caller) => r := Current(caller);
        case Notifications(caller) => r := ReadNotifications(caller);
        case Tick(vs) => r := TickFleet(vs);
        case Attempt(id, declined) => r := Attempt(id, declined);
        case Pay(caller, id) => r := Pay(caller, id);
        case Observe(v, begins) =>
          if v in vehicles {
            vehicles := vehicles[v := vehicles[v].(begins := Some(begins))];
          }
          r := Ok(Nothing);
      }
    }

    /** Fixes the moment, decides, and takes everything back when the decision failed. */
    method Transact(timed: Timed) returns (r: Result<Answer, Failure>)
      requires Inv(Value()) && Timely(moment, [timed])
      modifies this
      ensures Value() == Commit(old(Value()), timed) && Inv(Value())
      ensures r.Ok? <==> Perform(old(Value()).(clock := timed.moment), timed.step).Ok?
      ensures r.Ok? ==> r.value == Perform(old(Value()).(clock := timed.moment), timed.step).value.1
    {
      var savedRows, savedVehicles, savedMoment := rows, vehicles, moment;
      assert [timed][0] == timed;
      CommitIsKept(Value(), timed);
      LaterIsInv(Value(), timed.moment);
      moment := timed.moment;
      r := Decide(timed.step);
      if r.Err? {
        rows, vehicles, moment := savedRows, savedVehicles, savedMoment;
      }
    }

    /** A pass over the reservations that were found due: each is judged again in a transaction of its own, at the
        moment that one fixes, and the pass counts those it moved itself. */
    method SweepDue(due: seq<nat>, moments: seq<int>) returns (moved: nat)
      requires Inv(Value()) && |moments| == |due| && Timely(moment, Sweep(due, moments))
      modifies this
      ensures Value() == Run(old(Value()), Sweep(due, moments)) && Inv(Value())
      ensures moved == Released(old(Value()), due, moments)
    {
      moved := 0;
      var i := 0;
      while i < |due|
        invariant 0 <= i <= |due| && Inv(Value()) && Timely(moment, Sweep(due[i..], moments[i..]))
        invariant Run(Value(), Sweep(due[i..], moments[i..])) == Run(old(Value()), Sweep(due, moments))
        invariant moved + Released(Value(), due[i..], moments[i..]) == Released(old(Value()), due, moments)
      {
        ghost var steps := Sweep(due[i..], moments[i..]);
        assert due[i..][1..] == due[i + 1..] && moments[i..][1..] == moments[i + 1..];
        assert steps[0] == Timed(moments[i], Expire(due[i])) && steps[1..] == Sweep(due[i + 1..], moments[i + 1..]);
        assert Timely(moment, [steps[0]]);
        CommitIsKept(Value(), steps[0]);
        var r := Transact(Timed(moments[i], Expire(due[i])));
        assert Timely(moment, steps[1..]);
        if r.Ok? && r.value.Releasing? {
          moved := moved + 1;
        }
        i := i + 1;
      }
    }
  }

  /** The transactions of one pass. */
  function Sweep(due: seq<nat>, moments: seq<int>): (steps: seq<Timed>)
    requires |moments| == |due|
    ensures |steps| == |due|
  {
    if due == [] then [] else [Timed(moments[0], Expire(due[0]))] + Sweep(due[1..], moments[1..])
  }

  /** How many of the reservations a pass found due it ended itself. */
  ghost function Released(db: Db, due: seq<nat>, moments: seq<int>): nat
    requires |moments| == |due|
    decreases |due|
  {
    if due == [] then 0
    else
      var answered := Perform(db.(clock := moments[0]), Expire(due[0]));
      (if answered.Ok? && answered.value.1.Releasing? then 1 else 0) +
      Released(Commit(db, Timed(moments[0], Expire(due[0]))), due[1..], moments[1..])
  }

  /** The rides completed before the vehicles that are left. */
  ghost function Onward(completed: seq<nat>, rest: Result<(Db, seq<nat>), Failure>): Result<(Db, seq<nat>), Failure> {
    match rest
    case Err(error) => Err(error)
    case Ok((db, more)) => Ok((db, completed + more))
  }

  lemma {:induction false} OnwardFromNothing(rest: Result<(Db, seq<nat>), Failure>)
    ensures Onward([], rest) == rest
  {
    if rest.Ok? {
      assert [] + rest.value.1 == rest.value.1;
    }
  }

  lemma {:induction false} OnwardInOrder(a: seq<nat>, b: seq<nat>, rest: Result<(Db, seq<nat>), Failure>)
    ensures Onward(a, Onward(b, rest)) == Onward(a + b, rest)
  {
    if rest.Ok? {
      assert a + (b + rest.value.1) == (a + b) + rest.value.1;
    }
  }

  lemma {:induction false} NextOfTheFleet(db: Db, moved: Db, read: Db, vs: seq<nat>, held: Option<Held>,
                                          ended: seq<nat>)
    requires vs != [] && held == HolderOf(read, vs[0]) && (held.Some? ==> held.value.id in db.rows)
    requires Reconcile(db, vs[0], held) == Ok(moved)
    requires held.Some? ==> held.value.id in moved.rows && db.rows[held.value.id].rental == held.value.rental
    requires ended == if held.Some? && Live(held.value.rental) && !Live(moved.rows[held.value.id].rental)
                      then [held.value.id] else []
    ensures ReconcileFleet(db, read, vs) == Onward(ended, ReconcileFleet(moved, read, vs[1..]))
  {
    var rest := ReconcileFleet(moved, read, vs[1..]);
    if rest.Ok? {
      assert ReconcileFleet(db, read, vs) == Ok((rest.value.0, ended + rest.value.1));
    }
  }
}
