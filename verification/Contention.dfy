/** The service's own transactions waiting for each other's rows: what each plans to lock, what a reservation and the
    read of notifications lock beyond their plan, and when that can leave transactions waiting for each other
    (backend/internal/rentals/command.go, reserve.go, notifications.go, tick.go, expiry.go). */
module Contention {
  import opened Wrappers
  import opened Rentals
  import opened Operations
  import opened Invariants
  import opened Runs
  import opened Plans
  import Lifecycle
  import Locking

  // ---------- from a plan to its locks ----------

  function Inserted(id: nat, list: seq<nat>): seq<nat> {
    if list == [] || id <= list[0] then [id] + list else [list[0]] + Inserted(id, list[1..])
  }

  lemma {:induction false} InsertedStaysSorted(id: nat, list: seq<nat>)
    requires Locking.Sorted(list)
    ensures Locking.Sorted(Inserted(id, list))
    ensures forall x :: x in Inserted(id, list) <==> x == id || x in list
    ensures list != [] ==> Inserted(id, list)[0] == id || Inserted(id, list)[0] == list[0]
    decreases |list|
  {
    if list != [] && id > list[0] {
      InsertedStaysSorted(id, list[1..]);
      var rest := Inserted(id, list[1..]);
      assert forall x :: x in list <==> x == list[0] || x in list[1..];
      assert forall i :: 0 <= i < |rest| ==> rest[i] in rest;
    }
  }

  /** Identifiers in the order the library sorts them. */
  ghost function SortedList(ids: set<nat>): (list: seq<nat>)
    ensures Locking.Sorted(list)
    ensures forall x :: x in list <==> x in ids
    decreases |ids|
  {
    if ids == {} then []
    else
      var id :| id in ids;
      InsertedStaysSorted(id, SortedList(ids - {id}));
      Inserted(id, SortedList(ids - {id}))
  }

  ghost function Ascending(ids: set<nat>): (list: seq<nat>)
    ensures Locking.Rising(list)
    ensures forall x :: x in list <==> x in ids
  {
    Locking.WithoutRepeatsRises(SortedList(ids));
    Locking.WithoutRepeats(SortedList(ids))
  }

  ghost function ParticipantsOf(plan: Plan): Locking.Participants {
    Locking.Participants(Ascending(plan.users), Ascending(plan.vehicles), Ascending(plan.rentals))
  }

  predicate InPlan(plan: Plan, r: Locking.Row) {
    match r
    case User(id) => id in plan.users
    case Vehicle(id) => id in plan.vehicles
    case Rental(id) => id in plan.rentals
  }

  /** The locks of a plan, in the order they are taken: every row of the plan, in the one order all transactions
      share. */
  ghost function LocksOf(plan: Plan): (rows: seq<Locking.Row>)
    ensures Locking.Ordered(rows)
    ensures forall r :: r in rows <==> InPlan(plan, r)
  {
    Locking.PlannedLocksAreOrdered(ParticipantsOf(plan));
    LocksAreTheRows(plan);
    Locking.Locks(ParticipantsOf(plan))
  }

  lemma {:induction false} LocksAreTheRows(plan: Plan)
    ensures forall r :: r in Locking.Locks(ParticipantsOf(plan)) <==> InPlan(plan, r)
  {
    forall r ensures r in Locking.Locks(ParticipantsOf(plan)) <==> InPlan(plan, r) {
      RowIsLocked(ParticipantsOf(plan), r);
    }
  }

  lemma {:induction false} RowIsLocked(p: Locking.Participants, r: Locking.Row)
    ensures r in Locking.Locks(p) <==>
            match r
            case User(id) => id in p.users
            case Vehicle(id) => id in p.vehicles
            case Rental(id) => id in p.rentals
  {
    match r
    case User(id) =>
      if id in p.users {
        var i :| 0 <= i < |p.users| && p.users[i] == id;
        assert Locking.Locks(p)[i] == r;
      }
    case Vehicle(id) =>
      if id in p.vehicles {
        var i :| 0 <= i < |p.vehicles| && p.vehicles[i] == id;
        assert Locking.Locks(p)[|p.users| + i] == r;
      }
    case Rental(id) =>
      if id in p.rentals {
        var i :| 0 <= i < |p.rentals| && p.rentals[i] == id;
        assert Locking.Locks(p)[|p.users| + |p.vehicles| + i] == r;
      }
  }

  /** Comparing the two lists is comparing the two plans. */
  lemma {:induction false} SameListsSamePlan(a: Plan, b: Plan)
    ensures ParticipantsOf(a) == ParticipantsOf(b) <==> a == b
  {
    if ParticipantsOf(a) == ParticipantsOf(b) {
      assert forall x :: x in a.users <==> x in Ascending(a.users);
      assert forall x :: x in b.users <==> x in Ascending(b.users);
      assert forall x :: x in a.vehicles <==> x in Ascending(a.vehicles);
      assert forall x :: x in b.vehicles <==> x in Ascending(b.vehicles);
      assert forall x :: x in a.rentals <==> x in Ascending(a.rentals);
      assert forall x :: x in b.rentals <==> x in Ascending(b.rentals);
      assert a.users == b.users && a.vehicles == b.vehicles && a.rentals == b.rentals;
    }
  }

  // ---------- transactions under way ----------

  /** One transaction under way: what it is for, the tables its plan was read from, and the plan; and, once the locks
      of the plan were taken and the plan was found unchanged, the moment it acts on and the vehicle that the plan
      leaves out and it will write. */
  datatype Session = Session(step: Step, begun: Db, planned: Plan, moment: Option<int>, omitted: Option<nat>)

  datatype World = World(db: Db, fleet: seq<nat>, sessions: map<nat, Session>, txs: map<nat, Locking.Tx>)

  datatype Event =
    | Begin(t: nat, step: Step)
    | Take(t: nat)
    | Confirm(t: nat, moment: int)
    | Done(t: nat, after: Db)
    | Leave(t: nat)
    | Elsewhere(after: Db)

  /** Terms a rental keeps, and that it stays over once it is. */
  ghost predicate Later(before: Db, after: Db) {
    && before.clock <= after.clock
    && (forall id :: id in before.rows ==>
          && id in after.rows && SameTerms(before.rows[id].rental, after.rows[id].rental)
          && (!Live(before.rows[id].rental) ==> !Live(after.rows[id].rental)))
  }

  /** What the database decides by itself: an account and a vehicle are held by one rental each. */
  ghost predicate OneHolder(db: Db) {
    forall a, b :: a in db.rows && b in db.rows && a != b && Live(db.rows[a].rental) && Live(db.rows[b].rental) ==>
      && db.rows[a].rental.user != db.rows[b].rental.user
      && db.rows[a].rental.vehicle != db.rows[b].rental.vehicle
  }

  ghost predicate Dated(db: Db) {
    forall id :: id in db.rows ==> db.rows[id].rental.expiresAt == db.rows[id].rental.reservedAt + RESERVATION_LIFETIME
  }

  /** All that is asked of what a transaction leaves: it writes the rows it holds. */
  ghost predicate Effect(before: Db, after: Db, plan: Plan) {
    WritesWithin(before, after, plan) && Later(before, after) && OneHolder(after) && Dated(after)
  }

  function LateRow(omitted: Option<nat>): seq<Locking.Row> {
    if omitted.Some? then [Locking.Vehicle(omitted.value)] else []
  }

  /** The fleet a tick plans: the vehicles that have a reading. */
  ghost predicate Simulated(db: Db, fleet: seq<nat>) {
    forall v :: v in fleet <==> v in db.vehicles && db.vehicles[v].begins.Some?
  }

  /** The rows found again under the locks are the planned ones: the lists are compared, as they are locked. */
  ghost predicate SameRows(db: Db, s: Session) {
    ParticipantsOf(PlanOf(db, s.step)) == ParticipantsOf(s.planned)
  }

  ghost predicate Enabled(w: World, e: Event) {
    match e
    case Begin(t, step) =>
      && t !in w.txs && t !in w.sessions && !step.Observe?
      && (step.Tick? ==> step.vehicles == w.fleet && Simulated(w.db, w.fleet))
    case Take(t) => Locking.Enabled(w.txs, Locking.Step.Take(t))
    case Confirm(t, moment) =>
      && t in w.txs && t in w.sessions && w.sessions[t].moment.None?
      && w.txs[t].taken == |w.txs[t].plan| && w.db.clock <= moment
    case Done(t, after) =>
      && t in w.txs && t in w.sessions && w.sessions[t].moment.Some? && w.txs[t].taken == |w.txs[t].plan|
      && Effect(w.db.(clock := w.sessions[t].moment.value), after, With(w.sessions[t].planned, w.sessions[t].omitted))
    case Leave(t) => t in w.txs
    case Elsewhere(after) => after.rows == w.db.rows && w.db.clock <= after.clock
  }

  function Without(w: World, t: nat): World {
    w.(sessions := w.sessions - {t}, txs := w.txs - {t})
  }

  ghost function Next(w: World, e: Event): World
    requires Enabled(w, e)
  {
    match e
    case Begin(t, step) =>
      w.(sessions := w.sessions[t := Session(step, w.db, PlanOf(w.db, step), None, None)],
         txs := w.txs[t := Locking.Tx(LocksOf(PlanOf(w.db, step)), 0)])
    case Take(t) => w.(txs := Locking.Next(w.txs, Locking.Step.Take(t)))
    case Confirm(t, moment) =>
      var s := w.sessions[t];
      if !SameRows(w.db, s) then Without(w, t)
      else
        var omitted := Omitted(w.db, s.step, moment);
        w.(db := w.db.(clock := moment),
           sessions := w.sessions[t := s.(moment := Some(moment), omitted := omitted)],
           txs := w.txs[t := w.txs[t].(plan := w.txs[t].plan + LateRow(omitted))])
    case Done(t, after) => Without(w, t).(db := after.(clock := w.db.clock))
    case Leave(t) => Without(w, t)
    case Elsewhere(after) => w.(db := after)
  }

  ghost predicate Possible(w: World, events: seq<Event>)
    decreases |events|, 0
  {
    events == []
    || (Possible(w, events[..|events| - 1]) && Enabled(After(w, events[..|events| - 1]), events[|events| - 1]))
  }

  ghost function After(w: World, events: seq<Event>): World
    requires Possible(w, events)
    decreases |events|, 1
  {
    if events == [] then w else Next(After(w, events[..|events| - 1]), events[|events| - 1])
  }

  function Idle(db: Db, fleet: seq<nat>): World {
    World(db, fleet, map[], map[])
  }

  /** The service's transactions have no other effect than that. */
  lemma {:induction false} TransactionsHaveTheirEffect(db: Db, step: Step)
    requires Inv(db) && (step.Tick? ==> Lifecycle.NoRepeats(step.vehicles)) && Perform(db, step).Ok?
    ensures Effect(db, Perform(db, step).value.0, With(PlanOf(db, step), Omitted(db, step, db.clock)))
  {
    EveryTransactionWritesWithin(db, step);
    PerformIsKept(db, step);
    var after := Perform(db, step).value.0;
    forall id | id in db.rows ensures !Live(db.rows[id].rental) ==> !Live(after.rows[id].rental) {
      assert Evolves(db.rows[id], after.rows[id]);
    }
    InvMeansOneHolder(after);
  }

  lemma {:induction false} InvMeansOneHolder(db: Db)
    requires Inv(db)
    ensures OneHolder(db) && Dated(db)
  {
    forall a, b | a in db.rows && b in db.rows && a != b && Live(db.rows[a].rental) && Live(db.rows[b].rental)
      ensures db.rows[a].rental.user != db.rows[b].rental.user && db.rows[a].rental.vehicle != db.rows[b].rental.vehicle
    {
      assert Apart(db.rows[a], db.rows[b]);
    }
    forall id | id in db.rows
      ensures db.rows[id].rental.expiresAt == db.rows[id].rental.reservedAt + RESERVATION_LIFETIME
    {
      assert RowIn(db, id);
    }
  }

  // ---------- what is always so ----------

  /** A plan that names a rental names the account it belongs to. */
  lemma {:induction false} PlansNameTheOwners(db: Db, step: Step, id: nat)
    requires id in PlanOf(db, step).rentals
    ensures id in db.rows && db.rows[id].rental.user in PlanOf(db, step).users
  {
  }

  /** Only a tick plans more than one vehicle. */
  lemma {:induction false} OneVehicleButForTicks(db: Db, step: Step, a: nat, b: nat)
    requires !step.Tick? && a in PlanOf(db, step).vehicles && b in PlanOf(db, step).vehicles
    ensures a == b
  {
  }

  /** What a session locks is its plan in order and, once it acts, the omitted vehicle behind all of it. */
  ghost predicate LocksFit(s: Session, tx: Locking.Tx) {
    && tx.taken <= |tx.plan|
    && tx.plan == LocksOf(s.planned) + (if s.moment.Some? then LateRow(s.omitted) else [])
    && (s.moment.Some? ==> |LocksOf(s.planned)| <= tx.taken)
  }

  /** While it acts, a reservation or a read of notifications would find what it found. */
  ghost predicate StillFound(db: Db, s: Session) {
    s.moment.Some? ==>
      && s.begun.clock <= s.moment.value <= db.clock
      && (if s.step.Reserve? || s.step.Notifications? then
            PlanOf(db, s.step) == s.planned && Omitted(db, s.step, s.moment.value) == s.omitted
          else s.omitted.None?)
  }

  ghost predicate SessionOk(db: Db, fleet: seq<nat>, s: Session) {
    && s.planned == PlanOf(s.begun, s.step) && Later(s.begun, db) && StillFound(db, s)
    && !s.step.Observe? && (s.step.Tick? ==> s.step.vehicles == fleet)
  }

  ghost predicate HeldOnce(txs: map<nat, Locking.Tx>) {
    forall a, b, r :: a in txs && b in txs && a != b && Locking.Holds(txs[a], r) ==> !Locking.Holds(txs[b], r)
  }

  ghost predicate WorldOk(w: World) {
    && w.sessions.Keys == w.txs.Keys && OneHolder(w.db) && Dated(w.db) && HeldOnce(w.txs)
    && (forall t :: t in w.sessions ==> SessionOk(w.db, w.fleet, w.sessions[t]) && LocksFit(w.sessions[t], w.txs[t]))
  }

  /** A transaction that acts holds every row of its plan. */
  lemma {:induction false} ActingHoldsItsPlan(s: Session, tx: Locking.Tx, r: Locking.Row)
    requires LocksFit(s, tx) && s.moment.Some? && InPlan(s.planned, r)
    ensures Locking.Holds(tx, r)
  {
    var rows := LocksOf(s.planned);
    assert r in rows;
    var i :| 0 <= i < |rows| && rows[i] == r;
    assert tx.plan[i] == r;
  }

  /** One that is about to leave the tables changed holds the omitted vehicle too. */
  lemma {:induction false} FinishingHoldsAll(s: Session, tx: Locking.Tx, r: Locking.Row)
    requires LocksFit(s, tx) && s.moment.Some? && tx.taken == |tx.plan| && InPlan(With(s.planned, s.omitted), r)
    ensures Locking.Holds(tx, r)
  {
    if InPlan(s.planned, r) {
      ActingHoldsItsPlan(s, tx, r);
    } else {
      assert tx.plan[|tx.plan| - 1] == r;
    }
  }

  // ---------- every event keeps it ----------

  lemma {:induction false} LaterTwice(a: Db, b: Db, c: Db)
    requires Later(a, b) && Later(b, c)
    ensures Later(a, c)
  {
  }

  /** The holder of an account is the same after a transaction that holds neither that account nor that rental. */
  lemma {:induction false} AccountHolderStays(before: Db, after: Db, plan: Plan, caller: nat)
    requires Effect(before, after, plan) && OneHolder(before) && caller !in plan.users
    requires LiveOf(before, caller).Some? ==> LiveOf(before, caller).value !in plan.rentals
    ensures LiveOf(after, caller) == LiveOf(before, caller)
    ensures LiveOf(before, caller).Some? ==>
              after.rows[LiveOf(before, caller).value].rental == before.rows[LiveOf(before, caller).value].rental
  {
    var was, now := LiveOf(before, caller), LiveOf(after, caller);
    if was.Some? {
      assert Bare(after.rows[was.value]) == Bare(before.rows[was.value]);
      assert HoldsAccount(after, was.value, caller);
    }
    if now.Some? && now.value in before.rows {
      assert SameTerms(before.rows[now.value].rental, after.rows[now.value].rental);
      assert HoldsAccount(before, now.value, caller);
    }
  }

  lemma {:induction false} VehicleHolderStays(before: Db, after: Db, plan: Plan, v: nat)
    requires Effect(before, after, plan) && OneHolder(before) && v !in plan.vehicles
    requires LiveOn(before, v).Some? ==> LiveOn(before, v).value !in plan.rentals
    ensures LiveOn(after, v) == LiveOn(before, v)
    ensures LiveOn(before, v).Some? ==>
              after.rows[LiveOn(before, v).value].rental == before.rows[LiveOn(before, v).value].rental
  {
    var was, now := LiveOn(before, v), LiveOn(after, v);
    if was.Some? {
      assert Bare(after.rows[was.value]) == Bare(before.rows[was.value]);
      assert HoldsVehicle(after, was.value, v);
    }
    if now.Some? && now.value in before.rows {
      assert SameTerms(before.rows[now.value].rental, after.rows[now.value].rental);
      assert HoldsVehicle(before, now.value, v);
    }
  }

  /** What a reservation or a read of notifications found stays so while others, holding other rows, finish. */
  lemma {:induction false} FoundStaysFound(before: Db, after: Db, plan: Plan, step: Step, moment: int)
    requires Effect(before, after, plan) && OneHolder(before) && (step.Reserve? || step.Notifications?)
    requires forall r :: InPlan(PlanOf(before, step), r) ==> !InPlan(plan, r)
    ensures PlanOf(after, step) == PlanOf(before, step)
    ensures Omitted(after, step, moment) == Omitted(before, step, moment)
  {
    var own := PlanOf(before, step);
    assert InPlan(own, Locking.User(step.caller));
    assert LiveOf(before, step.caller).Some? ==> InPlan(own, Locking.Rental(LiveOf(before, step.caller).value));
    AccountHolderStays(before, after, plan, step.caller);
    if step.Reserve? {
      assert InPlan(own, Locking.Vehicle(step.vehicle));
      assert LiveOn(before, step.vehicle).Some? ==> InPlan(own, Locking.Rental(LiveOn(before, step.vehicle).value));
      VehicleHolderStays(before, after, plan, step.vehicle);
    }
  }

  /** Neither the clock nor what is not a rental decides who holds what. */
  lemma {:induction false} FoundByTheRentals(db: Db, other: Db, step: Step, moment: int)
    requires OneHolder(db) && other.rows == db.rows && (step.Reserve? || step.Notifications?)
    ensures PlanOf(other, step) == PlanOf(db, step)
    ensures Omitted(other, step, moment) == Omitted(db, step, moment)
  {
    var was, now := LiveOf(db, step.caller), LiveOf(other, step.caller);
    assert was.Some? ==> HoldsAccount(other, was.value, step.caller);
    assert now.Some? ==> HoldsAccount(db, now.value, step.caller);
    if step.Reserve? {
      var held, holds := LiveOn(db, step.vehicle), LiveOn(other, step.vehicle);
      assert held.Some? ==> HoldsVehicle(other, held.value, step.vehicle);
      assert holds.Some? ==> HoldsVehicle(db, holds.value, step.vehicle);
    }
  }

  lemma {:induction false} BeginningKeeps(w: World, t: nat, step: Step)
    requires WorldOk(w) && Enabled(w, Begin(t, step))
    ensures WorldOk(Next(w, Begin(t, step)))
  {
    BeginningHoldsOnce(w.txs, t, LocksOf(PlanOf(w.db, step)));
    BegunSession(w.db, w.fleet, step);
    OneMoreKeeps(w, t, Session(step, w.db, PlanOf(w.db, step), None, None), Locking.Tx(LocksOf(PlanOf(w.db, step)), 0));
  }

  lemma {:induction false} OneMoreKeeps(w: World, t: nat, s: Session, tx: Locking.Tx)
    requires WorldOk(w) && SessionOk(w.db, w.fleet, s) && LocksFit(s, tx) && HeldOnce(w.txs[t := tx])
    ensures WorldOk(w.(sessions := w.sessions[t := s], txs := w.txs[t := tx]))
  {
  }

  lemma {:induction false} BegunSession(db: Db, fleet: seq<nat>, step: Step)
    requires !step.Observe? && (step.Tick? ==> step.vehicles == fleet)
    ensures var s := Session(step, db, PlanOf(db, step), None, None);
            SessionOk(db, fleet, s) && LocksFit(s, Locking.Tx(LocksOf(PlanOf(db, step)), 0))
  {
    var rows := LocksOf(PlanOf(db, step));
    assert rows + [] == rows;
  }

  lemma {:induction false} BeginningHoldsOnce(txs: map<nat, Locking.Tx>, t: nat, plan: seq<Locking.Row>)
    requires HeldOnce(txs) && t !in txs
    ensures HeldOnce(txs[t := Locking.Tx(plan, 0)])
  {
    var next := txs[t := Locking.Tx(plan, 0)];
    forall a, b, r | a in next && b in next && a != b && Locking.Holds(next[a], r)
      ensures !Locking.Holds(next[b], r)
    {
      assert a != t && next[a] == txs[a];
      assert b != t ==> next[b] == txs[b];
    }
  }

  lemma {:induction false} TakingKeeps(w: World, t: nat)
    requires WorldOk(w) && Enabled(w, Take(t))
    ensures WorldOk(Next(w, Take(t)))
  {
    TakingHoldsOnce(w.txs, t);
    var after := Next(w, Take(t));
    forall u | u in after.sessions
      ensures SessionOk(after.db, after.fleet, after.sessions[u]) && LocksFit(after.sessions[u], after.txs[u])
    {
      assert LocksFit(w.sessions[u], w.txs[u]);
    }
  }

  lemma {:induction false} TakingHoldsOnce(txs: map<nat, Locking.Tx>, t: nat)
    requires HeldOnce(txs) && Locking.Enabled(txs, Locking.Step.Take(t))
    ensures HeldOnce(Locking.Next(txs, Locking.Step.Take(t)))
  {
    var after := Locking.Next(txs, Locking.Step.Take(t));
    forall a, b, r | a in after && b in after && a != b && Locking.Holds(after[a], r)
      ensures !Locking.Holds(after[b], r)
    {
      if a == t || b == t {
        var other := if a == t then b else a;
        assert after[other] == txs[other] && !Locking.Blocks(txs, other, t);
        assert Locking.Holds(after[t], r) ==> Locking.Holds(txs[t], r) || Locking.Wants(txs[t], r);
      }
    }
  }

  lemma {:induction false} LeavingKeeps(w: World, t: nat)
    requires WorldOk(w) && t in w.txs
    ensures WorldOk(Without(w, t))
  {
  }

  lemma {:induction false} ConfirmingKeeps(w: World, t: nat, moment: int)
    requires WorldOk(w) && Enabled(w, Confirm(t, moment))
    ensures WorldOk(Next(w, Confirm(t, moment)))
  {
    var next, s := Next(w, Confirm(t, moment)), w.sessions[t];
    SameListsSamePlan(PlanOf(w.db, s.step), s.planned);
    if PlanOf(w.db, s.step) != s.planned {
      LeavingKeeps(w, t);
    } else {
      forall u | u in next.sessions ensures SessionOk(next.db, w.fleet, next.sessions[u]) {
        ClockKeepsSession(w.db, next.db, w.fleet, w.sessions[u]);
        if u == t {
          ConfirmedIsFound(w.db, next.db, s, moment);
        }
      }
      var omitted := Omitted(w.db, s.step, moment);
      ExtendingHoldsOnce(w.txs, t, LateRow(omitted));
      ConfirmedFits(s, w.txs[t], moment, omitted);
      forall u | u in next.sessions ensures LocksFit(next.sessions[u], next.txs[u]) {
        assert u != t ==> next.sessions[u] == w.sessions[u] && next.txs[u] == w.txs[u];
      }
    }
  }

  lemma {:induction false} ConfirmedFits(s: Session, tx: Locking.Tx, moment: int, omitted: Option<nat>)
    requires LocksFit(s, tx) && s.moment.None? && tx.taken == |tx.plan|
    ensures LocksFit(s.(moment := Some(moment), omitted := omitted), tx.(plan := tx.plan + LateRow(omitted)))
  {
    assert LocksOf(s.planned) + [] == LocksOf(s.planned);
  }

  /** What a session found, it finds at a later time. */
  lemma {:induction false} ClockKeepsSession(db: Db, other: Db, fleet: seq<nat>, s: Session)
    requires SessionOk(db, fleet, s) && OneHolder(db) && other.rows == db.rows && db.clock <= other.clock
    ensures SessionOk(other, fleet, s)
  {
    if s.moment.Some? && (s.step.Reserve? || s.step.Notifications?) {
      FoundByTheRentals(db, other, s.step, s.moment.value);
    }
  }

  lemma {:induction false} ConfirmedIsFound(db: Db, other: Db, s: Session, moment: int)
    requires OneHolder(db) && Later(s.begun, db) && PlanOf(db, s.step) == s.planned && db.clock <= moment
    requires other == db.(clock := moment)
    ensures StillFound(other, s.(moment := Some(moment), omitted := Omitted(db, s.step, moment)))
  {
    if s.step.Reserve? || s.step.Notifications? {
      FoundByTheRentals(db, other, s.step, moment);
    }
  }

  /** What is yet to be locked is not held. */
  lemma {:induction false} ExtendingHoldsOnce(txs: map<nat, Locking.Tx>, t: nat, more: seq<Locking.Row>)
    requires HeldOnce(txs) && t in txs && txs[t].taken <= |txs[t].plan|
    ensures HeldOnce(txs[t := txs[t].(plan := txs[t].plan + more)])
  {
    var after := txs[t := txs[t].(plan := txs[t].plan + more)];
    forall a, r | a in after ensures Locking.Holds(after[a], r) <==> Locking.Holds(txs[a], r) {
      if Locking.Holds(txs[a], r) {
        var i :| 0 <= i < txs[a].taken && i < |txs[a].plan| && txs[a].plan[i] == r;
        assert after[a].plan[i] == r;
      }
    }
  }

  lemma {:induction false} ElsewhereKeeps(w: World, after: Db)
    requires WorldOk(w) && Enabled(w, Elsewhere(after))
    ensures WorldOk(Next(w, Elsewhere(after)))
  {
    forall u | u in w.sessions ensures SessionOk(after, w.fleet, w.sessions[u]) {
      ClockKeepsSession(w.db, after, w.fleet, w.sessions[u]);
    }
  }

  /** A transaction that finishes leaves what the others found, for they hold their own rows. */
  lemma {:induction false} FinishingKeeps(w: World, t: nat, after: Db)
    requires WorldOk(w) && Enabled(w, Done(t, after))
    ensures WorldOk(Next(w, Done(t, after)))
  {
    var next := Next(w, Done(t, after));
    forall u | u in next.sessions ensures SessionOk(next.db, w.fleet, w.sessions[u]) {
      OtherSessionStays(w, t, after, u);
    }
    LeavingKeeps(w, t);
  }

  lemma {:induction false} OtherSessionStays(w: World, t: nat, after: Db, u: nat)
    requires WorldOk(w) && Enabled(w, Done(t, after)) && u in w.sessions && u != t
    ensures SessionOk(after.(clock := w.db.clock), w.fleet, w.sessions[u])
  {
    var s, mine, next := w.sessions[u], w.sessions[t], after.(clock := w.db.clock);
    LaterTwice(s.begun, w.db, next);
    if s.moment.Some? && (s.step.Reserve? || s.step.Notifications?) {
      HoldingsAreApart(w, t, u);
      OtherFindsTheSame(w.db, mine, after, s, next);
    }
  }

  lemma {:induction false} OtherFindsTheSame(db: Db, mine: Session, after: Db, s: Session, next: Db)
    requires OneHolder(db) && mine.moment.Some? && next.rows == after.rows
    requires Effect(db.(clock := mine.moment.value), after, With(mine.planned, mine.omitted))
    requires StillFound(db, s) && s.moment.Some? && (s.step.Reserve? || s.step.Notifications?)
    requires forall r :: InPlan(s.planned, r) ==> !InPlan(With(mine.planned, mine.omitted), r)
    ensures PlanOf(next, s.step) == s.planned && Omitted(next, s.step, s.moment.value) == s.omitted
  {
    var before := db.(clock := mine.moment.value);
    FoundByTheRentals(db, before, s.step, s.moment.value);
    FoundStaysFound(before, after, With(mine.planned, mine.omitted), s.step, s.moment.value);
    FoundByTheRentals(after, next, s.step, s.moment.value);
  }

  lemma {:induction false} HoldingsAreApart(w: World, t: nat, u: nat)
    requires WorldOk(w) && t in w.sessions && u in w.sessions && u != t
    requires w.sessions[t].moment.Some? && w.txs[t].taken == |w.txs[t].plan| && w.sessions[u].moment.Some?
    ensures forall r :: InPlan(w.sessions[u].planned, r) ==>
              !InPlan(With(w.sessions[t].planned, w.sessions[t].omitted), r)
  {
    forall r | InPlan(w.sessions[u].planned, r) ensures !InPlan(With(w.sessions[t].planned, w.sessions[t].omitted), r) {
      ActingHoldsItsPlan(w.sessions[u], w.txs[u], r);
      if InPlan(With(w.sessions[t].planned, w.sessions[t].omitted), r) {
        FinishingHoldsAll(w.sessions[t], w.txs[t], r);
      }
    }
  }

  lemma {:induction false} EventKeeps(w: World, e: Event)
    requires WorldOk(w) && Enabled(w, e)
    ensures WorldOk(Next(w, e))
  {
    match e
    case Begin(t, step) => BeginningKeeps(w, t, step);
    case Take(t) => TakingKeeps(w, t);
    case Confirm(t, moment) => ConfirmingKeeps(w, t, moment);
    case Done(t, after) => FinishingKeeps(w, t, after);
    case Leave(t) => LeavingKeeps(w, t);
    case Elsewhere(after) => ElsewhereKeeps(w, after);
  }

  lemma {:induction false} RunKeeps(w: World, events: seq<Event>)
    requires WorldOk(w) && Possible(w, events)
    ensures WorldOk(After(w, events))
    decreases |events|
  {
    if events != [] {
      var before := events[..|events| - 1];
      RunKeeps(w, before);
      EventKeeps(After(w, before), events[|events| - 1]);
    }
  }
}
