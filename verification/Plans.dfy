/** Which rows each rental transaction plans to lock and which it writes
    (backend/internal/rentals: the participants functions of command.go, ride.go, finish.go, cancel.go, tick.go,
    current.go, reserve.go, notifications.go and paymentattempt.go). The row a reservation adds is not there to
    be locked, and the history kept beside a row is not a row. */
module Plans {
  import opened Wrappers
  import opened Energy
  import opened Invoices
  import opened Rentals
  import opened Fleet
  import opened Operations
  import opened Invariants
  import opened Keeping
  import opened Lifecycle
  import opened Discovery
  import opened Runs
  import Billing

  datatype Plan = Plan(users: set<nat>, vehicles: set<nat>, rentals: set<nat>)

  function Nothing(caller: nat): Plan {
    Plan({caller}, {}, {})
  }

  /** The caller, and the rental it names with its vehicle when there is such a rental of its own. */
  function RidePlan(db: Db, caller: nat, id: nat): Plan {
    if !RentalOf(db, caller, id) then Nothing(caller) else Plan({caller}, {db.rows[id].rental.vehicle}, {id})
  }

  function Only(found: Option<nat>): set<nat> {
    if found.Some? then {found.value} else {}
  }

  function Owners(db: Db, found: Option<nat>): set<nat>
    requires found.Some? ==> found.value in db.rows
  {
    if found.Some? then {db.rows[found.value].rental.user} else {}
  }

  ghost function CancelPlan(db: Db, caller: nat, id: nat): Plan {
    if !RentalOf(db, caller, id) then Nothing(caller)
    else
      var v := db.rows[id].rental.vehicle;
      var taken := LiveOn(db, v);
      Plan({caller} + Owners(db, taken), {v},
           {id} + Only(LiveOf(db, caller)) + Only(taken))
  }

  function SweepPlan(db: Db, id: nat): Plan {
    if id !in db.rows then Plan({}, {}, {})
    else Plan({db.rows[id].rental.user}, {db.rows[id].rental.vehicle}, {id})
  }

  ghost function CurrentPlan(db: Db, caller: nat): Plan {
    var held := LiveOf(db, caller);
    if held.None? then Nothing(caller) else Plan({caller}, {db.rows[held.value].rental.vehicle}, {held.value})
  }

  /** The whole fleet, every rental that holds a vehicle and the accounts of those. */
  function TickPlan(db: Db, vs: seq<nat>): Plan {
    Plan(set id | id in db.rows && Live(db.rows[id].rental) :: db.rows[id].rental.user,
         set v | v in vs,
         set id | id in db.rows && Live(db.rows[id].rental))
  }

  function PaymentPlan(db: Db, id: nat): Plan {
    if id !in db.rows || db.rows[id].invoice.None? then Plan({}, {}, {}) else Plan({db.rows[id].rental.user}, {}, {id})
  }

  ghost function ReservePlan(db: Db, caller: nat, v: nat): Plan {
    var taken := LiveOn(db, v);
    Plan({caller} + Owners(db, taken), {v},
         Only(LiveOf(db, caller)) + Only(taken))
  }

  ghost function NotificationPlan(db: Db, caller: nat): Plan {
    Plan({caller}, {}, Only(LiveOf(db, caller)))
  }

  // ---------- what is written ----------

  /** Every stored rental and every vehicle that changed is in the plan, and a rental that was added is of an account
      and a vehicle in the plan, reserved at the moment. */
  ghost predicate WritesWithin(before: Db, after: Db, plan: Plan) {
    && after.clock == before.clock
    && (forall id :: id in before.rows ==> id in after.rows && SameTerms(before.rows[id].rental, after.rows[id].rental))
    && (forall id :: id in before.rows && id !in plan.rentals ==> Bare(after.rows[id]) == Bare(before.rows[id]))
    && (forall id :: id in after.rows && id !in before.rows ==> AddedWithin(after.rows[id].rental, plan, before.clock))
    && after.vehicles.Keys == before.vehicles.Keys
    && (forall v :: v in before.vehicles && v !in plan.vehicles ==> after.vehicles[v] == before.vehicles[v])
  }

  /** What a rental was made under. */
  predicate SameTerms(a: Rental, b: Rental) {
    b.user == a.user && b.vehicle == a.vehicle && b.reservedAt == a.reservedAt && b.expiresAt == a.expiresAt
  }

  predicate AddedWithin(r: Rental, plan: Plan, moment: int) {
    r.user in plan.users && r.vehicle in plan.vehicles && r.reservedAt == moment
  }

  lemma {:induction false} WritesTwice(a: Db, b: Db, c: Db, plan: Plan)
    requires WritesWithin(a, b, plan) && WritesWithin(b, c, plan)
    ensures WritesWithin(a, c, plan)
  {
  }

  lemma {:induction false} ChangedWrites(db: Db, id: nat, row: Row, depleted: bool, plan: Plan)
    requires Changed(db, id, row, depleted).Ok?
    requires id in db.rows && id in plan.rentals && row.rental.vehicle in plan.vehicles
    requires SameTerms(db.rows[id].rental, row.rental)
    ensures WritesWithin(db, Changed(db, id, row, depleted).value, plan)
  {
  }

  /** A reconciliation writes the vehicle and, if it ends one, the rental it was handed: of any other rental it
      keeps the history alone. */
  lemma {:induction false} ReconcileWrites(db: Db, v: nat, held: Option<Held>, plan: Plan)
    requires Inv(db) && HeldFits(db, v, held) && Reconcile(db, v, held).Ok?
    requires v in plan.vehicles && (held.Some? ==> held.value.id in plan.rentals)
    ensures WritesWithin(db, Reconcile(db, v, held).value, plan)
  {
    if v in db.vehicles && db.vehicles[v].begins.Some? {
      var play := PlayVehicle(db.vehicles[v], ModeOf(held), db.clock).value;
      var booked := Booked(db, v, ModeOf(held), play);
      BookingWrites(db, v, ModeOf(held), play, plan);
      if !(play.ranOut.None? || held.None? || !Riding(held.value.rental)) {
        var id := held.value.id;
        assert booked.rows[id].rental.vehicle == v;
        EndWrites(booked, id, DepletedAt(play), plan);
        WritesTwice(db, booked, EndRide(booked, id, DepletedAt(play)).value, plan);
      }
    }
  }

  lemma {:induction false} BookingWrites(db: Db, v: nat, mode: Mode, play: Play, plan: Plan)
    requires v in db.vehicles && v in plan.vehicles
    ensures WritesWithin(db, Booked(db, v, mode, play), plan)
    ensures forall id :: id in db.rows ==> Booked(db, v, mode, play).rows[id].rental == db.rows[id].rental
  {
  }

  lemma {:induction false} EndWrites(db: Db, id: nat, ending: Ending, plan: Plan)
    requires id in db.rows && EndRide(db, id, ending).Ok?
    requires id in plan.rentals && db.rows[id].rental.vehicle in plan.vehicles
    ensures WritesWithin(db, EndRide(db, id, ending).value, plan)
  {
    var ended := EndRow(id, db.rows[id], db.clock, ending).value;
    ChangedWrites(db, id, Accounted(ended, Modelled(db, ended.rental.vehicle)), ending.reason == EnergyDepleted, plan);
  }

  lemma {:induction false} ReleaseWrites(db: Db, found: Option<nat>, plan: Plan)
    requires (found.Some? ==> found.value in db.rows) && LiveAt(db, found).Ok?
    requires found.Some? && Overdue(db.rows[found.value].rental, db.clock) ==>
               found.value in plan.rentals && db.rows[found.value].rental.vehicle in plan.vehicles
    ensures WritesWithin(db, LiveAt(db, found).value.0, plan)
  {
    if found.Some? && Overdue(db.rows[found.value].rental, db.clock) {
      EndReservationWrites(db, found.value, plan);
    }
  }

  lemma {:induction false} TargetWrites(db: Db, id: nat, plan: Plan)
    requires Inv(db) && id in db.rows && ReconciledTarget(db, id).Ok?
    requires id in plan.rentals && db.rows[id].rental.vehicle in plan.vehicles
    ensures WritesWithin(db, ReconciledTarget(db, id).value, plan)
    ensures id in ReconciledTarget(db, id).value.rows
    ensures ReconciledTarget(db, id).value.rows[id].rental.vehicle == db.rows[id].rental.vehicle
  {
    TargetIsKept(db, id);
    ReconcileWrites(db, db.rows[id].rental.vehicle, Some(Held(id, db.rows[id].rental)), plan);
  }

  /** Start, pause and resume write within their plan. */
  lemma {:induction false} RideWritesWithinItsPlan(db: Db, action: Action, caller: nat, id: nat, fit: bool)
    requires Inv(db) && RideWithin(db, action, caller, id, fit).Ok?
    ensures WritesWithin(db, RideWithin(db, action, caller, id, fit).value.0, RidePlan(db, caller, id))
  {
    if RentalOf(db, caller, id) {
      TargetWrites(db, id, RidePlan(db, caller, id));
      var reconciled := ReconciledTarget(db, id).value;
      RideOnwardWrites(reconciled, action, id, fit, RidePlan(db, caller, id));
      WritesTwice(db, reconciled, RideOnward(reconciled, action, id, fit).value.0, RidePlan(db, caller, id));
    }
  }

  lemma {:induction false} RideOnwardWrites(db: Db, action: Action, id: nat, fit: bool, plan: Plan)
    requires id in db.rows && RideOnward(db, action, id, fit).Ok?
    requires id in plan.rentals && db.rows[id].rental.vehicle in plan.vehicles
    ensures WritesWithin(db, RideOnward(db, action, id, fit).value.0, plan)
  {
    if Overdue(db.rows[id].rental, db.clock) {
      EndReservationWrites(db, id, plan);
    } else if RideRefusal(db.rows[id].rental, action).None? && (action != Start || fit) {
      ChangedWrites(db, id, MoveRow(db.rows[id], action, db.clock).value, false, plan);
    }
  }

  /** So does a finish. */
  lemma {:induction false} FinishWritesWithinItsPlan(db: Db, caller: nat, id: nat, landing: Option<RefusalKind>)
    requires Inv(db) && FinishWithin(db, caller, id, landing).Ok?
    ensures WritesWithin(db, FinishWithin(db, caller, id, landing).value.0, RidePlan(db, caller, id))
  {
    if RentalOf(db, caller, id) {
      TargetWrites(db, id, RidePlan(db, caller, id));
      var reconciled := ReconciledTarget(db, id).value;
      FinishOnwardWrites(reconciled, id, landing, RidePlan(db, caller, id));
      WritesTwice(db, reconciled, FinishOnward(reconciled, id, landing).value.0, RidePlan(db, caller, id));
    }
  }

  lemma {:induction false} FinishOnwardWrites(db: Db, id: nat, landing: Option<RefusalKind>, plan: Plan)
    requires id in db.rows && FinishOnward(db, id, landing).Ok?
    requires id in plan.rentals && db.rows[id].rental.vehicle in plan.vehicles
    ensures WritesWithin(db, FinishOnward(db, id, landing).value.0, plan)
  {
    if EndRide(db, id, Ending(UserFinished, db.clock, None)).Ok? {
      EndWrites(db, id, Ending(UserFinished, db.clock, None), plan);
    }
  }

  /** So do a cancellation, an expiry found by the sweep and a payment. */
  lemma {:induction false} CancelWritesWithinItsPlan(db: Db, caller: nat, id: nat)
    requires CancelWithin(db, caller, id).Ok?
    ensures WritesWithin(db, CancelWithin(db, caller, id).value.0, CancelPlan(db, caller, id))
  {
    if RentalOf(db, caller, id) && db.rows[id].rental.stage == Reserved {
      var row, plan := db.rows[id], CancelPlan(db, caller, id);
      if Overdue(row.rental, db.clock) {
        EndReservationWrites(db, id, plan);
      } else {
        ChangedWrites(db, id, EndReservationAs(row, Cancelled, db.clock).0, false, plan);
      }
    }
  }

  lemma {:induction false} EndReservationWrites(db: Db, id: nat, plan: Plan)
    requires id in db.rows && EndReservation(db, id).Ok?
    requires id in plan.rentals && db.rows[id].rental.vehicle in plan.vehicles
    ensures WritesWithin(db, EndReservation(db, id).value, plan)
  {
    var (released, moved) := EndReservationAs(db.rows[id], Expired, db.rows[id].rental.expiresAt);
    if moved {
      ChangedWrites(db, id, released, false, plan);
    }
  }

  lemma {:induction false} SweepWritesWithinItsPlan(db: Db, id: nat)
    requires ExpireWithin(db, id).Ok?
    ensures WritesWithin(db, ExpireWithin(db, id).value.0, SweepPlan(db, id))
  {
  }

  lemma {:induction false} PaymentWritesWithinItsPlan(db: Db, caller: nat, id: nat, declined: bool)
    ensures AttemptWithin(db, id, declined).Ok? ==>
              WritesWithin(db, AttemptWithin(db, id, declined).value.0, PaymentPlan(db, id))
    ensures PayWithin(db, caller, id).Ok? ==> WritesWithin(db, PayWithin(db, caller, id).value.0, PaymentPlan(db, id))
  {
    if id in db.rows && db.rows[id].invoice.Some? {
      SettlingWrites(db, id, Pending, if declined then Declined(db.clock) else Paid(db.clock), PaymentPlan(db, id));
      SettlingWrites(db, id, Failed, Paid(db.clock), PaymentPlan(db, id));
    }
  }

  lemma {:induction false} SettlingWrites(db: Db, id: nat, from: PaymentStatus, outcome: Outcome, plan: Plan)
    requires id in db.rows && db.rows[id].invoice.Some? && id in plan.rentals
    ensures SettleRow(db, id, from, outcome).Ok? ==> WritesWithin(db, SettleRow(db, id, from, outcome).value.0, plan)
  {
  }

  /** So does the read of what is current. */
  lemma {:induction false} CurrentWritesWithinItsPlan(db: Db, caller: nat)
    requires Inv(db) && CurrentWithin(db, caller).Ok?
    ensures WritesWithin(db, CurrentWithin(db, caller).value.0, CurrentPlan(db, caller))
  {
    var plan, found := CurrentPlan(db, caller), LiveOf(db, caller);
    if found.Some? && Riding(db.rows[found.value].rental) {
      assert LiveAt(db, found) == Ok((db, found));
      CurrentIs(db, caller, db, found);
      CurrentRideWrites(db, caller, found.value, CurrentWithin(db, caller).value.0, plan);
    } else {
      FirstReleaseWrites(db, found, plan);
      var (released, held) := LiveAt(db, found).value;
      NothingRidden(db, found, released, held);
      CurrentIs(db, caller, released, held);
    }
  }

  lemma {:induction false} NothingRidden(db: Db, found: Option<nat>, released: Db, held: Option<nat>)
    requires found.Some? ==> found.value in db.rows && !Riding(db.rows[found.value].rental)
    requires LiveAt(db, found) == Ok((released, held))
    ensures held.Some? ==> held.value in released.rows && !Riding(released.rows[held.value].rental)
  {
  }

  lemma {:induction false} CurrentRideWrites(db: Db, caller: nat, held: nat, after: Db, plan: Plan)
    requires Inv(db) && held in db.rows && Riding(db.rows[held].rental) && db.rows[held].rental.user == caller
    requires held in plan.rentals && db.rows[held].rental.vehicle in plan.vehicles
    requires ReconciledTarget(db, held).Ok? && CurrentOnward(ReconciledTarget(db, held).value, caller).Ok?
    requires after == CurrentOnward(ReconciledTarget(db, held).value, caller).value.0
    ensures WritesWithin(db, after, plan)
  {
    var reconciled := ReconciledTarget(db, held).value;
    TargetWrites(db, held, plan);
    TargetIsKept(db, held);
    NothingIsDueAfter(db, reconciled, caller, held);
    CurrentOnwardWrites(reconciled, caller, plan);
    WritesTwice(db, reconciled, after, plan);
  }

  lemma {:induction false} CurrentOnwardWrites(db: Db, caller: nat, plan: Plan)
    requires CurrentOnward(db, caller).Ok?
    requires LiveOf(db, caller).Some? ==> !Overdue(db.rows[LiveOf(db, caller).value].rental, db.clock)
    ensures WritesWithin(db, CurrentOnward(db, caller).value.0, plan)
  {
  }

  /** The account of a ride holds no reservation, so the second look of the read releases nothing. */
  lemma {:induction false} NothingIsDueAfter(db: Db, reconciled: Db, caller: nat, held: nat)
    requires Inv(db) && held in db.rows && Riding(db.rows[held].rental) && db.rows[held].rental.user == caller
    requires ReconciledTarget(db, held) == Ok(reconciled) && Kept(db, reconciled)
    ensures var now := LiveOf(reconciled, caller);
            now.Some? ==> !Overdue(reconciled.rows[now.value].rental, reconciled.clock)
  {
    assert RowIn(db, held);
    TargetIsKept(db, held);
    var now := LiveOf(reconciled, caller);
    if now.Some? {
      assert RowIn(reconciled, now.value);
      assert Evolves(db.rows[now.value], reconciled.rows[now.value]);
      HoldersAreOne(db, held, now.value);
      assert Evolves(db.rows[held], reconciled.rows[held]);
    }
  }

  /** So does a tick, which plans the whole fleet. */
  lemma {:induction false} FleetWrites(db: Db, read: Db, vs: seq<nat>, plan: Plan)
    requires Inv(db) && NoRepeats(vs) && AsRead(db, read, vs) && ReconcileFleet(db, read, vs).Ok?
    requires (forall v :: v in vs ==> v in plan.vehicles)
    requires forall id :: id in read.rows && Live(read.rows[id].rental) ==> id in plan.rentals
    ensures WritesWithin(db, ReconcileFleet(db, read, vs).value.0, plan)
    decreases |vs|
  {
    if vs != [] {
      var held := HolderOf(read, vs[0]);
      var moved := Reconcile(db, vs[0], held).value;
      ReconcileWrites(db, vs[0], held, plan);
      ReconcileIsKept(db, vs[0], held);
      LaterVehiclesAsRead(db, moved, read, vs, held);
      FleetWrites(moved, read, vs[1..], plan);
      WritesTwice(db, moved, ReconcileFleet(moved, read, vs[1..]).value.0, plan);
    }
  }

  lemma {:induction false} TickWritesWithinItsPlan(db: Db, vs: seq<nat>)
    requires Inv(db) && NoRepeats(vs) && TickWithin(db, vs).Ok?
    ensures WritesWithin(db, TickWithin(db, vs).value.0, TickPlan(db, vs))
  {
    FleetWrites(db, db, vs, TickPlan(db, vs));
  }

  // ---------- the two plans that leave a vehicle out ----------

  /** The vehicle of an overdue reservation the caller holds, when its plan leaves that vehicle out. */
  ghost function Omitted(db: Db, step: Step, moment: int): Option<nat> {
    match step
    case Reserve(caller, v, _, _, _, _) =>
      var held := LiveOf(db, caller);
      if held.Some? && Overdue(db.rows[held.value].rental, moment) && db.rows[held.value].rental.vehicle != v then
        Some(db.rows[held.value].rental.vehicle)
      else None
    case Notifications(caller) =>
      var held := LiveOf(db, caller);
      if held.Some? && Overdue(db.rows[held.value].rental, moment) then Some(db.rows[held.value].rental.vehicle)
      else None
    case _ => None
  }

  function With(plan: Plan, omitted: Option<nat>): Plan {
    plan.(vehicles := plan.vehicles + Only(omitted))
  }

  /** With that vehicle a reservation writes within its plan. */
  lemma {:induction false} ReserveWrites(db: Db, caller: nat, v: nat, id: nat, zone: nat, rates: Billing.Rates,
                                         available: bool)
    requires Inv(db)
    ensures var r := ReserveWithin(db, caller, v, id, zone, rates, available);
            var omitted := Omitted(db, Reserve(caller, v, id, zone, rates, available), db.clock);
            r.Ok? && WritesWithin(db, r.value.0, With(ReservePlan(db, caller, v), omitted))
  {
    ReserveIsKept(db, caller, v, id, zone, rates, available);
    var plan := With(ReservePlan(db, caller, v), Omitted(db, Reserve(caller, v, id, zone, rates, available), db.clock));
    ReleaseOverdueWrites(db, caller, v, plan);
    var released := ReleaseOverdue(db, caller, v).value.0;
    AfterReleaseOnlyTheVehicle(released, caller, v, id, zone, rates, plan);
    WritesTwice(db, released, ReserveWithin(db, caller, v, id, zone, rates, available).value.0, plan);
  }

  lemma {:induction false} ReleaseOverdueWrites(db: Db, caller: nat, v: nat, plan: Plan)
    requires Inv(db) && v in plan.vehicles
    requires Only(LiveOf(db, caller)) <= plan.rentals && Only(LiveOn(db, v)) <= plan.rentals
    requires var held := LiveOf(db, caller);
             held.Some? && Overdue(db.rows[held.value].rental, db.clock) ==>
               db.rows[held.value].rental.vehicle in plan.vehicles
    ensures ReleaseOverdue(db, caller, v).Ok? && WritesWithin(db, ReleaseOverdue(db, caller, v).value.0, plan)
  {
    FirstReleaseWrites(db, LiveOf(db, caller), plan);
    var first := LiveAt(db, LiveOf(db, caller)).value.0;
    ReleaseHolderWrites(db, first, v, plan);
    WritesTwice(db, first, LiveAt(first, LiveOn(first, v)).value.0, plan);
  }

  lemma {:induction false} FirstReleaseWrites(db: Db, found: Option<nat>, plan: Plan)
    requires Inv(db) && (found.Some? ==> found.value in db.rows) && Only(found) <= plan.rentals
    requires found.Some? && Overdue(db.rows[found.value].rental, db.clock) ==>
               db.rows[found.value].rental.vehicle in plan.vehicles
    ensures var r := LiveAt(db, found);
            && r.Ok? && Kept(db, r.value.0) && r.value.0.rows.Keys == db.rows.Keys && WritesWithin(db, r.value.0, plan)
  {
    LiveAtIsKept(db, found);
    ReleaseKeepsKeys(db, found);
    ReleaseWrites(db, found, plan);
  }

  lemma {:induction false} ReleaseKeepsKeys(db: Db, found: Option<nat>)
    requires (found.Some? ==> found.value in db.rows) && LiveAt(db, found).Ok?
    ensures LiveAt(db, found).value.0.rows.Keys == db.rows.Keys
  {
  }

  lemma {:induction false} AfterReleaseOnlyTheVehicle(db: Db, caller: nat, v: nat, id: nat, zone: nat,
                                                      rates: Billing.Rates, plan: Plan)
    requires v in plan.vehicles && caller in plan.users
    ensures var r := CreateReservation(db, caller, v, id, zone, rates);
            r.Ok? ==>
              && WritesWithin(db, r.value.0, plan)
              && forall w :: w in db.vehicles && w != v ==> r.value.0.vehicles[w] == db.vehicles[w]
    ensures WritesWithin(db, db, plan)
  {
  }

  lemma {:induction false} ReleaseHolderWrites(db: Db, first: Db, v: nat, plan: Plan)
    requires Inv(db) && Kept(db, first) && first.rows.Keys == db.rows.Keys
    requires v in plan.vehicles && Only(LiveOn(db, v)) <= plan.rentals
    ensures var r := LiveAt(first, LiveOn(first, v));
            r.Ok? && WritesWithin(first, r.value.0, plan)
  {
    var taken := LiveOn(first, v);
    LiveAtIsKept(first, taken);
    if taken.Some? {
      TakenWasThere(db, first, taken.value, v);
    }
    ReleaseWrites(first, taken, plan);
  }

  /** Releasing one reservation brings no new holder to a vehicle. */
  lemma {:induction false} TakenWasThere(db: Db, first: Db, taken: nat, v: nat)
    requires Inv(db) && Kept(db, first) && first.rows.Keys == db.rows.Keys && HoldsVehicle(first, taken, v)
    ensures LiveOn(db, v) == Some(taken)
  {
    assert Evolves(db.rows[taken], first.rows[taken]);
    TheRiderIsFound(db, taken);
  }

  /** Whatever follows, the omitted vehicle was announced anew by the release. */
  lemma {:induction false} TheOmittedIsWritten(db: Db, caller: nat, v: nat, w: nat)
    requires Inv(db) && ReleaseOverdue(db, caller, v).Ok? && w != v
    requires var held := LiveOf(db, caller);
             held.Some? && Overdue(db.rows[held.value].rental, db.clock) && db.rows[held.value].rental.vehicle == w
    ensures var released := ReleaseOverdue(db, caller, v).value.0;
            w in db.vehicles && w in released.vehicles && released.vehicles[w].version > db.vehicles[w].version
  {
    var held := LiveOf(db, caller);
    assert RowIn(db, held.value);
    LiveAtIsKept(db, held);
    var first := LiveAt(db, held).value.0;
    LiveAtIsKept(first, LiveOn(first, v));
    ReleaseSparesOthers(first, LiveOn(first, v), v, w);
  }

  lemma {:induction false} ReleaseSparesOthers(db: Db, found: Option<nat>, v: nat, w: nat)
    requires found.Some? ==> HoldsVehicle(db, found.value, v)
    requires LiveAt(db, found).Ok? && w != v && w in db.vehicles
    ensures w in LiveAt(db, found).value.0.vehicles && LiveAt(db, found).value.0.vehicles[w] == db.vehicles[w]
  {
  }

  /** A reservation writes within its plan exactly when the caller holds no overdue reservation of another
      vehicle: that one is released, and its vehicle, which the plan leaves out, is changed with it. */
  lemma {:induction false} ReserveWritesWithinItsPlanExactlyWhen(
    db: Db, caller: nat, v: nat, id: nat, zone: nat, rates: Billing.Rates, available: bool)
    requires Inv(db)
    ensures var r := ReserveWithin(db, caller, v, id, zone, rates, available);
            && r.Ok?
            && (WritesWithin(db, r.value.0, ReservePlan(db, caller, v)) <==>
                  Omitted(db, Reserve(caller, v, id, zone, rates, available), db.clock).None?)
  {
    ReserveWrites(db, caller, v, id, zone, rates, available);
    var omitted := Omitted(db, Reserve(caller, v, id, zone, rates, available), db.clock);
    if omitted.Some? {
      ReserveWritesTheOmitted(db, caller, v, id, zone, rates, available, omitted.value);
    } else {
      assert With(ReservePlan(db, caller, v), omitted) == ReservePlan(db, caller, v);
    }
  }

  lemma {:induction false} ReserveWritesTheOmitted(
    db: Db, caller: nat, v: nat, id: nat, zone: nat, rates: Billing.Rates, available: bool, w: nat)
    requires Inv(db) && ReserveWithin(db, caller, v, id, zone, rates, available).Ok?
    requires Omitted(db, Reserve(caller, v, id, zone, rates, available), db.clock) == Some(w)
    ensures var after := ReserveWithin(db, caller, v, id, zone, rates, available).value.0;
            !WritesWithin(db, after, ReservePlan(db, caller, v))
  {
    ReleaseOverdueIsKept(db, caller, v);
    TheOmittedIsWritten(db, caller, v, w);
    ReserveSparesOthers(db, caller, v, id, zone, rates, available, w);
    VersionIsWritten(db, ReserveWithin(db, caller, v, id, zone, rates, available).value.0,
                     ReservePlan(db, caller, v), w);
  }

  lemma {:induction false} VersionIsWritten(db: Db, after: Db, plan: Plan, w: nat)
    requires w in db.vehicles && w in after.vehicles && after.vehicles[w].version > db.vehicles[w].version
    requires w !in plan.vehicles
    ensures !WritesWithin(db, after, plan)
  {
  }

  lemma {:induction false} ReserveSparesOthers(
    db: Db, caller: nat, v: nat, id: nat, zone: nat, rates: Billing.Rates, available: bool, w: nat)
    requires ReserveWithin(db, caller, v, id, zone, rates, available).Ok? && w != v
    ensures ReleaseOverdue(db, caller, v).Ok?
    ensures var released := ReleaseOverdue(db, caller, v).value.0;
            var after := ReserveWithin(db, caller, v, id, zone, rates, available).value.0;
            w in released.vehicles ==> w in after.vehicles && after.vehicles[w] == released.vehicles[w]
  {
    var released := ReleaseOverdue(db, caller, v).value.0;
    if w in released.vehicles {
      CreationSparesOthers(released, caller, v, id, zone, rates, w);
    }
  }

  lemma {:induction false} CreationSparesOthers(db: Db, caller: nat, v: nat, id: nat, zone: nat, rates: Billing.Rates,
                                                w: nat)
    requires w != v && w in db.vehicles
    ensures var r := CreateReservation(db, caller, v, id, zone, rates);
            r.Ok? ==> w in r.value.0.vehicles && r.value.0.vehicles[w] == db.vehicles[w]
  {
  }

  /** The notification read writes within its plan exactly when the caller holds no overdue reservation: its plan
      names no vehicle at all. */
  lemma {:induction false} NotificationReadWritesWithinItsPlanExactlyWhen(db: Db, caller: nat)
    requires Inv(db)
    ensures var r := NotificationsWithin(db, caller);
            var omitted := Omitted(db, Notifications(caller), db.clock);
            && r.Ok? && WritesWithin(db, r.value.0, With(NotificationPlan(db, caller), omitted))
            && (WritesWithin(db, r.value.0, NotificationPlan(db, caller)) <==> omitted.None?)
  {
    var held, omitted := LiveOf(db, caller), Omitted(db, Notifications(caller), db.clock);
    LiveAtIsKept(db, held);
    var released := LiveAt(db, held).value.0;
    assert NotificationsWithin(db, caller) == Ok((released, Answer.Nothing));
    ReleaseWrites(db, held, With(NotificationPlan(db, caller), omitted));
    if omitted.Some? {
      OmittedByNotifications(db, caller, released);
    } else {
      ReleaseWrites(db, held, NotificationPlan(db, caller));
    }
  }

  lemma {:induction false} OmittedByNotifications(db: Db, caller: nat, released: Db)
    requires Inv(db) && Omitted(db, Notifications(caller), db.clock).Some?
    requires LiveAt(db, LiveOf(db, caller)).Ok? && LiveAt(db, LiveOf(db, caller)).value.0 == released
    ensures !WritesWithin(db, released, NotificationPlan(db, caller))
  {
    var held := LiveOf(db, caller);
    assert RowIn(db, held.value);
    ReleaseRaises(db, held.value);
  }

  lemma {:induction false} ReleaseRaises(db: Db, id: nat)
    requires id in db.rows && Overdue(db.rows[id].rental, db.clock) && LiveAt(db, Some(id)).Ok?
    ensures var (v, released) := (db.rows[id].rental.vehicle, LiveAt(db, Some(id)).value.0);
            v in db.vehicles && v in released.vehicles && released.vehicles[v].version > db.vehicles[v].version
  {
  }

  // ---------- every transaction ----------

  ghost function PlanOf(db: Db, step: Step): Plan {
    match step
    case Ride(_, caller, id, _) => RidePlan(db, caller, id)
    case Finish(caller, id, _) => RidePlan(db, caller, id)
    case Cancel(caller, id) => CancelPlan(db, caller, id)
    case Expire(id) => SweepPlan(db, id)
    case Reserve(caller, v, _, _, _, _) => ReservePlan(db, caller, v)
    case Current(caller) => CurrentPlan(db, caller)
    case Notifications(caller) => NotificationPlan(db, caller)
    case Tick(vs) => TickPlan(db, vs)
    case Attempt(id, _) => PaymentPlan(db, id)
    case Pay(_, id) => PaymentPlan(db, id)
    case Observe(v, _) => Plan({}, {v}, {})
  }

  /** The account a step acts for, and the rental and the vehicle it names. */
  predicate ActsFor(step: Step, user: nat) {
    match step
    case Expire(_) => false
    case Tick(_) => false
    case Attempt(_, _) => false
    case Pay(_, _) => false
    case Observe(_, _) => false
    case _ => step.caller == user
  }

  predicate NamesRental(step: Step, id: nat) {
    (step.Ride? || step.Finish? || step.Cancel? || step.Expire? || step.Attempt? || step.Pay?) && step.id == id
  }

  predicate NamesVehicle(step: Step, v: nat) {
    (step.Reserve? || step.Observe?) && step.vehicle == v
  }

  ghost predicate ReachesNoFurther(db: Db, step: Step, plan: Plan) {
    && |plan.users| <= 2 && |plan.vehicles| <= 1 && |plan.rentals| <= 3
    && (forall user :: user in plan.users ==>
          ActsFor(step, user) || exists id :: id in plan.rentals && RentalOf(db, user, id))
    && (forall v :: v in plan.vehicles ==>
          NamesVehicle(step, v)
          || exists id :: id in plan.rentals && id in db.rows && db.rows[id].rental.vehicle == v)
    && (forall id :: id in plan.rentals ==>
          && id in db.rows
          && (|| NamesRental(step, id)
              || (&& Live(db.rows[id].rental)
                  && (ActsFor(step, db.rows[id].rental.user) || db.rows[id].rental.vehicle in plan.vehicles))))
  }

  /** No plan but a tick's reaches further than it has to: its accounts are the one that acts and the owners of its
      rentals, two at most; its one vehicle is the one that is named or of a rental in it; and its rentals, three at
      most, are the one that is named and those that hold the account or the vehicle. */
  lemma {:induction false} PlansReachNoFurther(db: Db, step: Step)
    requires !step.Tick?
    ensures ReachesNoFurther(db, step, PlanOf(db, step))
  {
    match step
    case Ride(_, caller, id, _) => NamedReachesNoFurther(db, step, caller, id);
    case Finish(caller, id, _) => NamedReachesNoFurther(db, step, caller, id);
    case Cancel(caller, id) => CancelReachesNoFurther(db, caller, id);
    case Expire(id) => OwnedReachesNoFurther(db, step, id);
    case Reserve(caller, v, _, _, _, _) => ReserveReachesNoFurther(db, step, caller, v);
    case Current(caller) => HeldReachesNoFurther(db, step, caller);
    case Notifications(caller) => HeldReachesNoFurther(db, step, caller);
    case Attempt(id, _) => OwnedReachesNoFurther(db, step, id);
    case Pay(_, id) => OwnedReachesNoFurther(db, step, id);
    case Observe(_, _) =>
  }

  /** A tick plans its fleet, exactly the rentals that hold a vehicle, and exactly their accounts. */
  lemma {:induction false} TicksReachTheirFleet(db: Db, vs: seq<nat>)
    ensures var plan := PlanOf(db, Tick(vs));
            && (forall v :: v in plan.vehicles <==> v in vs)
            && (forall id :: id in plan.rentals <==> id in db.rows && Live(db.rows[id].rental))
            && (forall user :: user in plan.users <==> LiveOf(db, user).Some?)
  {
    forall user: nat
      ensures user in TickPlan(db, vs).users <==> LiveOf(db, user).Some?
    {
      if user in TickPlan(db, vs).users {
        var id :| id in db.rows && Live(db.rows[id].rental) && db.rows[id].rental.user == user;
        assert HoldsAccount(db, id, user);
      }
    }
  }

  lemma {:induction false} NamedReachesNoFurther(db: Db, step: Step, caller: nat, id: nat)
    requires ActsFor(step, caller) && NamesRental(step, id)
    ensures ReachesNoFurther(db, step, RidePlan(db, caller, id))
  {
  }

  lemma {:induction false} OwnedReachesNoFurther(db: Db, step: Step, id: nat)
    requires NamesRental(step, id)
    ensures ReachesNoFurther(db, step, SweepPlan(db, id)) && ReachesNoFurther(db, step, PaymentPlan(db, id))
  {
    assert id in db.rows ==> RentalOf(db, db.rows[id].rental.user, id);
  }

  lemma {:induction false} HeldReachesNoFurther(db: Db, step: Step, caller: nat)
    requires ActsFor(step, caller)
    ensures ReachesNoFurther(db, step, CurrentPlan(db, caller))
    ensures ReachesNoFurther(db, step, NotificationPlan(db, caller))
  {
  }

  lemma {:induction false} FewTogether(a: set<nat>, b: set<nat>)
    ensures |a + b| <= |a| + |b|
  {
  }

  lemma {:induction false} CancelReachesNoFurther(db: Db, caller: nat, id: nat)
    ensures ReachesNoFurther(db, Cancel(caller, id), CancelPlan(db, caller, id))
  {
    if RentalOf(db, caller, id) {
      var held, v := Only(LiveOf(db, caller)), db.rows[id].rental.vehicle;
      FewTogether({id}, held);
      TakenReachesNoFurther(db, Cancel(caller, id), caller, v, {id} + held, CancelPlan(db, caller, id));
    }
  }

  lemma {:induction false} ReserveReachesNoFurther(db: Db, step: Step, caller: nat, v: nat)
    requires ActsFor(step, caller) && NamesVehicle(step, v)
    ensures ReachesNoFurther(db, step, ReservePlan(db, caller, v))
  {
    TakenReachesNoFurther(db, step, caller, v, Only(LiveOf(db, caller)), ReservePlan(db, caller, v));
  }

  /** A plan of some rentals of the one that acts, or named, and of whoever holds a vehicle. */
  lemma {:induction false} TakenReachesNoFurther(db: Db, step: Step, caller: nat, v: nat, own: set<nat>, plan: Plan)
    requires ActsFor(step, caller) && |own| <= 2
    requires forall id :: id in own ==>
               id in db.rows
               && (NamesRental(step, id) || (Live(db.rows[id].rental) && ActsFor(step, db.rows[id].rental.user)))
    requires NamesVehicle(step, v) || exists id :: id in own && db.rows[id].rental.vehicle == v
    requires plan.vehicles == {v} && plan.rentals == own + Only(LiveOn(db, v))
    requires plan.users == {caller} + Owners(db, LiveOn(db, v))
    ensures ReachesNoFurther(db, step, plan)
  {
    FewTogether({caller}, Owners(db, LiveOn(db, v)));
    FewTogether(own, Only(LiveOn(db, v)));
  }

  /** Every transaction writes within its plan and the vehicle that was omitted. */
  lemma {:induction false} EveryTransactionWritesWithin(db: Db, step: Step)
    requires Inv(db) && (step.Tick? ==> NoRepeats(step.vehicles)) && Perform(db, step).Ok?
    ensures WritesWithin(db, Perform(db, step).value.0, With(PlanOf(db, step), Omitted(db, step, db.clock)))
  {
    var plan := PlanOf(db, step);
    assert Omitted(db, step, db.clock).None? ==> With(plan, Omitted(db, step, db.clock)) == plan;
    match step
    case Ride(action, caller, id, fit) => RideWritesWithinItsPlan(db, action, caller, id, fit);
    case Finish(caller, id, landing) => FinishWritesWithinItsPlan(db, caller, id, landing);
    case Cancel(caller, id) => CancelWritesWithinItsPlan(db, caller, id);
    case Expire(id) => SweepWritesWithinItsPlan(db, id);
    case Reserve(caller, v, id, zone, rates, available) => ReserveWrites(db, caller, v, id, zone, rates, available);
    case Current(caller) => CurrentWritesWithinItsPlan(db, caller);
    case Notifications(caller) => NotificationReadWritesWithinItsPlanExactlyWhen(db, caller);
    case Tick(vs) => TickWritesWithinItsPlan(db, vs);
    case Attempt(id, declined) => PaymentWritesWithinItsPlan(db, 0, id, declined);
    case Pay(caller, id) => PaymentWritesWithinItsPlan(db, caller, id, false);
    case Observe(v, begins) =>
  }
}
