/** Whole runs around one ride: what its turns make of it, and that nothing else that happens meanwhile decides how
    it ends (backend/internal/rentals/model.go, tick.go, current.go, ride.go, finish.go, ending.go). */
module Courses {
  import opened Wrappers
  import opened Energy
  import opened Burning
  import opened Invoices
  import opened Rentals
  import opened RowSteps
  import opened Fleet
  import opened Operations
  import opened Invariants
  import opened Lifecycle
  import opened Runs
  import opened Discovery
  import Billing

  // ---------- the turns of a run ----------

  ghost predicate TurnsInTime(id: nat, fate: Fate, timed: Timed) {
    IsTurn(fate, timed.step, id) && timed.moment < RunsOutAt(fate)
  }

  /** What one step of a run makes of a ride that goes on. */
  ghost function AfterStep(id: nat, fate: Fate, timed: Timed): Course {
    if TurnsInTime(id, fate, timed) then Turned(id, fate, timed.step, timed.moment) else Going(fate)
  }

  ghost function Steered(id: nat, course: Course, steps: seq<Timed>): Course
    decreases |steps|
  {
    if steps == [] || course.Over? then course else Steered(id, AfterStep(id, course.fate, steps[0]), steps[1..])
  }

  /** The starts, pauses, resumes and finishes the person riding asks for before the run-out, with their moments. */
  ghost function Turns(id: nat, fate: Fate, steps: seq<Timed>): seq<Timed>
    decreases |steps|
  {
    if steps == [] then []
    else (if TurnsInTime(id, fate, steps[0]) then [steps[0]] else []) + Turns(id, fate, steps[1..])
  }

  /** Turning changes neither who rides nor what the vehicle runs on. */
  ghost predicate SameRide(a: Fate, b: Fate) {
    a.row.rental.user == b.row.rental.user && a.sources == b.sources && a.at == b.at
  }

  lemma {:induction false} TurningIsTheSameRide(id: nat, fate: Fate, timed: Timed)
    ensures AfterStep(id, fate, timed).Going? ==> SameRide(fate, AfterStep(id, fate, timed).fate)
  {
  }

  lemma {:induction false} SameRideSameTurns(id: nat, a: Fate, b: Fate, steps: seq<Timed>)
    requires SameRide(a, b)
    ensures Turns(id, a, steps) == Turns(id, b, steps)
    decreases |steps|
  {
    if steps != [] {
      SameRideSameTurns(id, a, b, steps[1..]);
    }
  }

  /** The turns of a run decide the course of the ride alone. */
  lemma {:induction false} TurnsDecideTheCourse(id: nat, fate: Fate, steps: seq<Timed>)
    ensures Steered(id, Going(fate), steps) == Steered(id, Going(fate), Turns(id, fate, steps))
    decreases |steps|
  {
    if steps != [] {
      var rest, later := steps[1..], Turns(id, fate, steps[1..]);
      var course := AfterStep(id, fate, steps[0]);
      TurningIsTheSameRide(id, fate, steps[0]);
      if course.Going? {
        SameRideSameTurns(id, fate, course.fate, rest);
        TurnsDecideTheCourse(id, course.fate, rest);
      }
      if TurnsInTime(id, fate, steps[0]) {
        assert ([steps[0]] + later)[1..] == later;
      } else {
        assert [] + later == later;
      }
    }
  }

  /** After the run-out nothing turns the ride any more. */
  lemma {:induction false} NothingTurnsLate(id: nat, fate: Fate, steps: seq<Timed>)
    requires forall i :: 0 <= i < |steps| ==> RunsOutAt(fate) <= steps[i].moment
    ensures Steered(id, Going(fate), steps) == Going(fate)
    decreases |steps|
  {
    if steps != [] {
      NothingTurnsLate(id, fate, steps[1..]);
    }
  }

  // ---------- what a run must leave alone ----------

  /** Whatever happens during a pause happens before it has lasted as long as the need of the source that was in
      use when it began. */
  ghost predicate ShortPauses(id: nat, course: Course, steps: seq<Timed>)
    decreases |steps|
  {
    steps == [] || course.Over?
    || (ShortPause(course.fate, steps[0].moment) && ShortPauses(id, AfterStep(id, course.fate, steps[0]), steps[1..]))
  }

  /** No command names an old rental of the vehicle. */
  ghost predicate Undisturbed(db: Db, steps: seq<Timed>, id: nat)
    decreases |steps|
  {
    steps == []
    || ((id in db.rows ==> !NamesAnother(db.(clock := steps[0].moment), steps[0].step, id))
        && Undisturbed(Commit(db, steps[0]), steps[1..], id))
  }

  // ---------- where a run leaves the ride ----------

  /** The row a ride was ended with, whatever became of its payment. */
  predicate Settled(db: Db, id: nat, row: Row) {
    && id in db.rows && db.rows[id].rental == row.rental && db.rows[id].segments == row.segments
    && db.rows[id].invoice.Some? && row.invoice.Some?
    && db.rows[id].invoice.value == row.invoice.value.(payment := db.rows[id].invoice.value.payment)
  }

  ghost predicate Stands(db: Db, id: nat, course: Course) {
    match course
    case Going(fate) => Awaits(db, id, fate) || MetItsFate(db, id, fate)
    case Over(row) => row.rental.stage == Completed && Settled(db, id, row)
  }

  /** What is over stays as it ended. */
  lemma {:induction false} OverStays(before: Db, after: Db, id: nat, course: Course)
    requires Evolved(before, after) && Inv(before) && Stands(before, id, course)
    requires id in before.rows && before.rows[id].rental.stage == Completed
    ensures Stands(after, id, course)
  {
    assert RowIn(before, id) && Evolves(before.rows[id], after.rows[id]);
  }

  /** One step of a run takes the ride where its course says, or finds that it has met its fate. */
  lemma {:induction false} StepStands(db: Db, timed: Timed, id: nat, fate: Fate)
    requires Inv(db) && Timely(db.clock, [timed]) && Awaits(db, id, fate) && ShortPause(fate, timed.moment)
    requires !NamesAnother(db.(clock := timed.moment), timed.step, id)
    ensures var next, course := Commit(db, timed), AfterStep(id, fate, timed);
            || (course.Going? && Awaits(next, id, course.fate))
            || (course == Going(fate) && MetItsFate(next, id, fate) && RunsOutAt(fate) <= timed.moment)
            || (course.Over? && Stands(next, id, course))
  {
    assert [timed][0] == timed;
    LaterIsInv(db, timed.moment);
    var now := db.(clock := timed.moment);
    if TurnsInTime(id, fate, timed) {
      TurnFollows(now, timed.step, id, fate);
    } else if Perform(now, timed.step).Ok? {
      StepFollows(now, timed.step, id, fate);
    }
  }

  /** Over any run the ride is where its course says: on its way to its fate, or ended there, or ended by the person
      who rode it. The rest of the run says when its ending was found, and nothing of what it is. */
  lemma {:induction false} RunFollows(db: Db, steps: seq<Timed>, id: nat, fate: Fate)
    requires Inv(db) && Timely(db.clock, steps) && Awaits(db, id, fate)
    requires Undisturbed(db, steps, id) && ShortPauses(id, Going(fate), steps)
    ensures Stands(Run(db, steps), id, Steered(id, Going(fate), steps))
    decreases |steps|
  {
    if steps != [] {
      var next, course, rest := Commit(db, steps[0]), AfterStep(id, fate, steps[0]), steps[1..];
      FirstIsTimely(db, steps);
      StepStands(db, steps[0], id, fate);
      if course.Going? && Awaits(next, id, course.fate) {
        RunFollows(next, rest, id, course.fate);
      } else {
        if course.Going? {
          NothingTurnsLate(id, fate, rest);
        }
        RunIsKept(next, rest);
        OverStays(next, Run(next, rest), id, course);
      }
    }
  }

  lemma {:induction false} FirstIsTimely(db: Db, steps: seq<Timed>)
    requires Inv(db) && steps != [] && Timely(db.clock, steps)
    ensures Timely(db.clock, [steps[0]])
    ensures Inv(Commit(db, steps[0])) && Timely(Commit(db, steps[0]).clock, steps[1..])
    ensures forall i :: 0 <= i < |steps[1..]| ==> steps[0].moment <= steps[1..][i].moment
  {
    var first := [steps[0]];
    assert first[0] == steps[0] && Timely(db.clock, first);
    CommitIsKept(db, steps[0]);
  }

  // ---------- two runs ----------

  /** The billing of the segments of a ride closed where its sources ran out. */
  function FatedCharge(fate: Fate, at: int): Result<Billing.Charge, Billing.Refusal> {
    var segments := Closed(fate.row.segments, at);
    Billing.Compute(fate.row.rental.rates, TimeIn(segments, Driving, at), TimeIn(segments, Mode.Paused, at))
  }

  /** The invoice of a ride that met its fate is the one its fate decides. */
  lemma {:induction false} FateDecidesTheInvoice(db: Db, id: nat, fate: Fate)
    requires Inv(db) && MetItsFate(db, id, fate)
    ensures var row := db.rows[id];
            var priced := FatedCharge(fate, WholeMicrosecondFirstAfter(RunsOutAt(fate)));
            && row.invoice.Some? && priced.Ok?
            && row.invoice.value.driving == DrivingLine(priced.value)
            && row.invoice.value.paused == PausedLine(priced.value)
            && row.invoice.value.total == priced.value.total
            && row.invoice.value.reason == EnergyDepleted && row.invoice.value.exhausted == Some(KindsOf(fate.sources))
  {
    assert RowIn(db, id);
  }

  /** The same ending: the same stored rental, segments and bill, whenever the bill was issued and however it was
      paid. */
  predicate SameEnding(x: Row, y: Row) {
    && x.rental == y.rental && x.segments == y.segments && x.invoice.Some? && y.invoice.Some?
    && x.invoice.value.driving == y.invoice.value.driving && x.invoice.value.paused == y.invoice.value.paused
    && x.invoice.value.total == y.invoice.value.total
    && x.invoice.value.reason == y.invoice.value.reason && x.invoice.value.exhausted == y.invoice.value.exhausted
  }

  /** Two runs in which the person riding asks for the same at the same moments, with any other ticks, reads,
      refused finishes and commands about other rentals between, store the same ending: the same moment, reason and
      exhausted list, the same segments, and the same lines and total. */
  lemma {:induction false} DiscoveriesAgree(db: Db, a: seq<Timed>, other: Db, b: seq<Timed>, id: nat, fate: Fate)
    requires Inv(db) && Awaits(db, id, fate) && Timely(db.clock, a)
    requires Inv(other) && Awaits(other, id, fate) && Timely(other.clock, b)
    requires Undisturbed(db, a, id) && ShortPauses(id, Going(fate), a)
    requires Undisturbed(other, b, id) && ShortPauses(id, Going(fate), b)
    requires Turns(id, fate, a) == Turns(id, fate, b)
    requires id in Run(db, a).rows && !Live(Run(db, a).rows[id].rental)
    requires id in Run(other, b).rows && !Live(Run(other, b).rows[id].rental)
    ensures SameEnding(Run(db, a).rows[id], Run(other, b).rows[id])
  {
    TurnsDecideTheCourse(id, fate, a);
    TurnsDecideTheCourse(id, fate, b);
    var course := Steered(id, Going(fate), a);
    RunFollows(db, a, id, fate);
    RunFollows(other, b, id, fate);
    RunIsKept(db, a);
    RunIsKept(other, b);
    if course.Going? {
      EndedAsFated(Run(db, a), id, course.fate);
      EndedAsFated(Run(other, b), id, course.fate);
    }
  }

  lemma {:induction false} EndedAsFated(db: Db, id: nat, fate: Fate)
    requires Inv(db) && id in db.rows && !Live(db.rows[id].rental)
    requires Awaits(db, id, fate) || MetItsFate(db, id, fate)
    ensures MetItsFate(db, id, fate)
    ensures var row := db.rows[id];
            var priced := FatedCharge(fate, WholeMicrosecondFirstAfter(RunsOutAt(fate)));
            && row.invoice.Some? && priced.Ok?
            && row.invoice.value.driving == DrivingLine(priced.value)
            && row.invoice.value.paused == PausedLine(priced.value)
            && row.invoice.value.total == priced.value.total
            && row.invoice.value.reason == EnergyDepleted && row.invoice.value.exhausted == Some(KindsOf(fate.sources))
  {
    assert RowIn(db, id);
    FateDecidesTheInvoice(db, id, fate);
  }

  /** A vehicle that waits to be ridden is moved on, and holds what it held. */
  lemma {:induction false} WaitingHolds(db: Db, id: nat)
    requires Inv(db) && id in db.rows && db.rows[id].rental.stage == Reserved && ReconciledTarget(db, id).Ok?
    requires Modelled(db, db.rows[id].rental.vehicle)
    ensures var (v, after) := (db.rows[id].rental.vehicle, ReconciledTarget(db, id).value);
            && after.clock == db.clock && id in after.rows && after.rows[id] == db.rows[id]
            && Modelled(after, v) && !after.vehicles[v].model.value.depleted
            && after.vehicles[v].model.value.sources == db.vehicles[v].model.value.sources
            && after.vehicles[v].model.value.processedAt == db.clock
  {
    assert RowIn(db, id);
    TheRiderIsFound(db, id);
    var v := db.rows[id].rental.vehicle;
    assert VehicleOk(db.vehicles[v], db.clock);
    FreePlayIsWhole(db.vehicles[v], db.clock);
    var play := PlayVehicle(db.vehicles[v], Free, db.clock).value;
    ReconciledFreely(db, v, Some(Held(id, db.rows[id].rental)), play);
    assert Booked(db, v, Free, play) == WithBoth(db, id, db.rows[id], v, play.vehicle);
  }

  /** A ride that has just been moved along on such a vehicle is at the beginning of its course. */
  lemma {:induction false} SetOffAwaits(db: Db, id: nat, moved: Row)
    requires id in db.rows && Modelled(db, db.rows[id].rental.vehicle) && MovesAs(db.rows[id], moved, Start, db.clock)
    requires var m := db.vehicles[db.rows[id].rental.vehicle].model.value;
             ValidSources(m.sources) && !AllExhausted(m.sources) && !m.depleted && m.processedAt == db.clock
    ensures var r := Changed(db, id, moved, false);
            && r.Ok? && id in r.value.rows && r.value.rows[id] == moved
            && var sources := db.vehicles[db.rows[id].rental.vehicle].model.value.sources;
               Awaits(r.value, id, Fate(Bare(moved), sources, db.clock))
  {
    var sources := db.vehicles[db.rows[id].rental.vehicle].model.value.sources;
    NothingLeftWhenExhausted(sources);
    NothingInNoTime(sources, Driving);
  }

  /** A start puts the ride on a course: its fate is read off the sources its vehicle had while it waited, whenever
      it was last looked at. */
  lemma {:induction false} StartSetsTheCourse(db: Db, caller: nat, id: nat, fit: bool)
    requires Inv(db) && RideWithin(db, Start, caller, id, fit).Ok?
    requires RideWithin(db, Start, caller, id, fit).value.1 == Moving(id)
    requires id in db.rows && db.rows[id].rental.stage == Reserved && Modelled(db, db.rows[id].rental.vehicle)
    ensures var after := RideWithin(db, Start, caller, id, fit).value.0;
            var m := db.vehicles[db.rows[id].rental.vehicle].model.value;
            && id in after.rows && ValidSources(m.sources)
            && (!AllExhausted(m.sources) ==> Awaits(after, id, Fate(Bare(after.rows[id]), m.sources, db.clock)))
  {
    assert VehicleOk(db.vehicles[db.rows[id].rental.vehicle], db.clock);
    WaitingHolds(db, id);
    TargetIsKept(db, id);
    StartOnwardSetsOff(ReconciledTarget(db, id).value, id, fit);
  }

  /** A ride that starts on a vehicle whose sources are full awaits its run-out an hour later for each of them. */
  lemma {:induction false} FullVehiclesRunOutAfterAnHourEach(db: Db, caller: nat, id: nat, fit: bool)
    requires Inv(db) && RideWithin(db, Start, caller, id, fit).Ok?
    requires RideWithin(db, Start, caller, id, fit).value.1 == Moving(id)
    requires id in db.rows && db.rows[id].rental.stage == Reserved && Modelled(db, db.rows[id].rental.vehicle)
    requires forall s :: s in db.vehicles[db.rows[id].rental.vehicle].model.value.sources ==> s.charged == 0
    ensures var after := RideWithin(db, Start, caller, id, fit).value.0;
            var sources := db.vehicles[db.rows[id].rental.vehicle].model.value.sources;
            && id in after.rows && sources != []
            && var fate := Fate(Bare(after.rows[id]), sources, db.clock);
               Awaits(after, id, fate) && RunsOutAt(fate) == db.clock + |sources| * 3_600_000_000_000
  {
    assert VehicleOk(db.vehicles[db.rows[id].rental.vehicle], db.clock);
    StartSetsTheCourse(db, caller, id, fit);
    FullSourcesNeedAnHourEach(db.vehicles[db.rows[id].rental.vehicle].model.value.sources);
    NothingLeftWhenExhausted(db.vehicles[db.rows[id].rental.vehicle].model.value.sources);
  }

  lemma {:induction false} StartOnwardSetsOff(db: Db, id: nat, fit: bool)
    requires Inv(db) && id in db.rows && db.rows[id].rental.stage == Reserved
    requires Modelled(db, db.rows[id].rental.vehicle)
    requires RideOnward(db, Start, id, fit).Ok? && RideOnward(db, Start, id, fit).value.1 == Moving(id)
    requires var m := db.vehicles[db.rows[id].rental.vehicle].model.value;
             ValidSources(m.sources) && !m.depleted && m.processedAt == db.clock
    ensures var after := RideOnward(db, Start, id, fit).value.0;
            var m := db.vehicles[db.rows[id].rental.vehicle].model.value;
            && id in after.rows
            && (!AllExhausted(m.sources) ==> Awaits(after, id, Fate(Bare(after.rows[id]), m.sources, db.clock)))
  {
    assert RowIn(db, id);
    MovedRowIsOk(id, db.rows[id], Start, db.clock);
    var moved := MoveRow(db.rows[id], Start, db.clock).value;
    if !AllExhausted(db.vehicles[db.rows[id].rental.vehicle].model.value.sources) {
      SetOffAwaits(db, id, moved);
    }
  }
}
