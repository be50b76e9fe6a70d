/** When the service's own transactions can wait for each other for good
    (backend/internal/rentals/command.go, reserve.go, tick.go, notifications.go). */
module Waiting {
  import opened Wrappers
  import opened Rentals
  import opened Operations
  import opened Runs
  import opened Plans
  import opened Contention
  import Locking

  // ---------- what an order says ----------

  /** In an ordered list a row that is not behind another is found up to it. */
  lemma {:induction false} FoundUpTo(rows: seq<Locking.Row>, i: nat, r: Locking.Row)
    requires Locking.Ordered(rows) && i < |rows| && r in rows && !Locking.Less(rows[i], r)
    ensures exists j :: 0 <= j <= i && rows[j] == r
  {
    var j :| 0 <= j < |rows| && rows[j] == r;
  }

  lemma {:induction false} NoAccountAfter(rows: seq<Locking.Row>, i: nat, j: nat)
    requires Locking.Ordered(rows) && i < j < |rows|
    ensures rows[i].Vehicle? ==> !rows[j].User? && (rows[j].Vehicle? ==> rows[i].id < rows[j].id)
  {
    assert Locking.Less(rows[i], rows[j]);
  }

  // ---------- one session ----------

  ghost predicate Wanting(tx: Locking.Tx) {
    tx.taken < |tx.plan|
  }

  function Wanted(tx: Locking.Tx): Locking.Row
    requires tx.taken < |tx.plan|
  {
    tx.plan[tx.taken]
  }

  /** What a session holds or wants before it acts, and what it holds when it does, is a row of its plan. */
  lemma {:induction false} RowsOfThePlan(s: Session, tx: Locking.Tx, i: nat)
    requires LocksFit(s, tx) && i < |tx.plan|
    ensures i < |LocksOf(s.planned)| ==> tx.plan[i] == LocksOf(s.planned)[i] && InPlan(s.planned, tx.plan[i])
    ensures i >= |LocksOf(s.planned)| ==> s.moment.Some? && s.omitted == Some(tx.plan[i].id) && tx.plan[i].Vehicle?
    ensures s.moment.None? || tx.plan[i].Rental? || tx.plan[i].User? ==> i < |LocksOf(s.planned)|
  {
    var rows := LocksOf(s.planned);
    if i < |rows| {
      assert tx.plan[i] == rows[i] && rows[i] in rows;
    }
  }

  /** Accounts are locked first: whoever holds or wants a row of another group holds every account of its plan. */
  lemma {:induction false} AccountsComeFirst(s: Session, tx: Locking.Tx, i: nat, user: nat)
    requires LocksFit(s, tx) && user in s.planned.users && i < |tx.plan| && i <= tx.taken && !tx.plan[i].User?
    ensures Locking.Holds(tx, Locking.User(user))
  {
    var rows, r := LocksOf(s.planned), Locking.User(user);
    assert InPlan(s.planned, r) && r in rows;
    RowsOfThePlan(s, tx, i);
    var j: nat;
    if i < |rows| {
      FoundUpTo(rows, i, r);
      j :| 0 <= j <= i && rows[j] == r;
    } else {
      j :| 0 <= j < |rows| && rows[j] == r;
    }
    assert tx.plan[j] == r;
  }

  lemma {:induction false} HeldAt(tx: Locking.Tx, r: Locking.Row) returns (i: nat)
    requires Locking.Holds(tx, r)
    ensures i < tx.taken && i < |tx.plan| && tx.plan[i] == r
  {
    i :| 0 <= i < tx.taken && i < |tx.plan| && tx.plan[i] == r;
  }

  /** Whoever comes to a rental holds the account it belongs to already. */
  lemma {:induction false} RentalAfterItsAccount(w: World, t: nat, i: nat, id: nat)
    requires WorldOk(w) && t in w.sessions && i < |w.txs[t].plan| && i <= w.txs[t].taken
    requires w.txs[t].plan[i] == Locking.Rental(id)
    ensures id in w.db.rows && Locking.Holds(w.txs[t], Locking.User(w.db.rows[id].rental.user))
  {
    var s := w.sessions[t];
    RowsOfThePlan(s, w.txs[t], i);
    PlansNameTheOwners(s.begun, s.step, id);
    assert SameTerms(s.begun.rows[id].rental, w.db.rows[id].rental);
    AccountsComeFirst(s, w.txs[t], i, w.db.rows[id].rental.user);
  }

  /** So nobody waits for a rental. */
  lemma {:induction false} RentalsAreNotContended(w: World, holder: nat, t: nat)
    requires WorldOk(w) && holder in w.txs && t in w.txs && Wanting(w.txs[t]) && Wanted(w.txs[t]).Rental?
    ensures !Locking.Blocks(w.txs, holder, t)
  {
    if Locking.Blocks(w.txs, holder, t) {
      var id := Wanted(w.txs[t]).id;
      RentalAfterItsAccount(w, t, w.txs[t].taken, id);
      var i := HeldAt(w.txs[holder], Locking.Rental(id));
      RentalAfterItsAccount(w, holder, i, id);
    }
  }

  /** One that holds a vehicle and is blocked waits for a vehicle. */
  lemma {:induction false} HoldersWaitForVehicles(w: World, holder: nat, t: nat, v: nat)
    requires WorldOk(w) && holder in w.txs && t in w.txs && Locking.Holds(w.txs[t], Locking.Vehicle(v))
    requires Locking.Blocks(w.txs, holder, t)
    ensures Wanting(w.txs[t]) && Wanted(w.txs[t]).Vehicle?
  {
    var s, tx := w.sessions[t], w.txs[t];
    if Wanted(tx).Rental? {
      RentalsAreNotContended(w, holder, t);
    }
    var i := HeldAt(tx, Locking.Vehicle(v));
    RowsOfThePlan(s, tx, i);
    RowsOfThePlan(s, tx, tx.taken);
    if tx.taken < |LocksOf(s.planned)| {
      NoAccountAfter(LocksOf(s.planned), i, tx.taken);
    }
  }

  /** One that holds a vehicle and waits for another before it acts is a tick. */
  lemma {:induction false} TwoVehiclesMakeATick(w: World, t: nat, v: nat)
    requires WorldOk(w) && t in w.sessions && w.sessions[t].moment.None?
    requires Locking.Holds(w.txs[t], Locking.Vehicle(v)) && Wanting(w.txs[t]) && Wanted(w.txs[t]).Vehicle?
    ensures w.sessions[t].step.Tick?
  {
    var s, tx := w.sessions[t], w.txs[t];
    var i := HeldAt(tx, Locking.Vehicle(v));
    RowsOfThePlan(s, tx, i);
    RowsOfThePlan(s, tx, tx.taken);
    NoAccountAfter(LocksOf(s.planned), i, tx.taken);
    if !s.step.Tick? {
      OneVehicleButForTicks(s.begun, s.step, v, Wanted(tx).id);
    }
  }

  // ---------- ticks ----------

  lemma {:induction false} TickPlansTheFleet(db: Db, vs: seq<nat>)
    ensures forall v :: v in PlanOf(db, Tick(vs)).vehicles <==> v in vs
  {
  }

  lemma {:induction false} TickPlansTheHolders(db: Db, step: Step, id: nat)
    requires step.Tick? && id in db.rows && Live(db.rows[id].rental)
    ensures db.rows[id].rental.user in PlanOf(db, step).users
  {
  }

  /** Of the fleet a tick holds every vehicle up to one it holds. */
  lemma {:induction false} TicksHoldFromTheFirst(s: Session, tx: Locking.Tx, i: nat, v: nat)
    requires LocksFit(s, tx) && v in s.planned.vehicles
    requires i < |tx.plan| && i < tx.taken && i < |LocksOf(s.planned)| && tx.plan[i].Vehicle? && v <= tx.plan[i].id
    ensures Locking.Holds(tx, Locking.Vehicle(v))
  {
    var rows := LocksOf(s.planned);
    assert InPlan(s.planned, Locking.Vehicle(v));
    FoundUpTo(rows, i, Locking.Vehicle(v));
    var j :| 0 <= j <= i && rows[j] == Locking.Vehicle(v);
    assert tx.plan[j] == rows[j];
  }

  /** What a tick holds is of the fleet. */
  lemma {:induction false} TickHolds(w: World, t: nat, v: nat) returns (i: nat)
    requires WorldOk(w) && t in w.sessions && w.sessions[t].step.Tick? && Locking.Holds(w.txs[t], Locking.Vehicle(v))
    ensures v in w.fleet && i < |w.txs[t].plan| && i < w.txs[t].taken && w.txs[t].plan[i] == Locking.Vehicle(v)
    ensures i < |LocksOf(w.sessions[t].planned)|
    ensures forall x :: x in w.sessions[t].planned.vehicles <==> x in w.fleet
  {
    var s, tx := w.sessions[t], w.txs[t];
    i := HeldAt(tx, Locking.Vehicle(v));
    RowsOfThePlan(s, tx, i);
    assert s.step == Tick(w.fleet);
    TickPlansTheFleet(s.begun, w.fleet);
  }

  /** Two ticks never both hold vehicles. */
  lemma {:induction false} OneTickHoldsVehicles(w: World, a: nat, b: nat, v: nat, x: nat)
    requires WorldOk(w) && a in w.sessions && b in w.sessions && w.sessions[a].step.Tick? && w.sessions[b].step.Tick?
    requires Locking.Holds(w.txs[a], Locking.Vehicle(v)) && Locking.Holds(w.txs[b], Locking.Vehicle(x))
    ensures a == b
  {
    var i := TickHolds(w, a, v);
    var j := TickHolds(w, b, x);
    if v <= x {
      TicksHoldFromTheFirst(w.sessions[b], w.txs[b], j, v);
    } else {
      TicksHoldFromTheFirst(w.sessions[a], w.txs[a], i, x);
    }
  }

  // ---------- waiting late ----------

  /** It acts already and waits for the vehicle its plan left out. */
  ghost predicate WaitsLate(w: World, t: nat) {
    t in w.sessions && t in w.txs && w.sessions[t].moment.Some? && Wanting(w.txs[t])
  }

  ghost function LateOnes(w: World, among: set<nat>): set<nat> {
    set t | t in among && WaitsLate(w, t)
  }

  /** The account that waits late, the rental of it that is overdue, and the vehicle of that rental. */
  ghost predicate Late(w: World, t: nat, caller: nat, id: nat, v: nat) {
    && WaitsLate(w, t) && Wanted(w.txs[t]) == Locking.Vehicle(v) && Locking.Holds(w.txs[t], Locking.User(caller))
    && HoldsAccount(w.db, id, caller) && HoldsVehicle(w.db, id, v)
    && Overdue(w.db.rows[id].rental, w.sessions[t].moment.value)
  }

  lemma {:induction false} OmittedIsOverdue(db: Db, s: Session) returns (caller: nat, id: nat, v: nat)
    requires StillFound(db, s) && s.moment.Some? && s.omitted.Some?
    ensures (s.step.Reserve? || s.step.Notifications?) && s.step.caller == caller && s.omitted == Some(v)
    ensures caller in s.planned.users && HoldsAccount(db, id, caller) && HoldsVehicle(db, id, v)
    ensures Overdue(db.rows[id].rental, s.moment.value)
  {
    caller := s.step.caller;
    id, v := LiveOf(db, caller).value, s.omitted.value;
  }

  lemma {:induction false} LateWaiter(w: World, t: nat) returns (caller: nat, id: nat, v: nat)
    requires WorldOk(w) && WaitsLate(w, t)
    ensures Late(w, t, caller, id, v)
    ensures w.sessions[t].step.Reserve? || w.sessions[t].step.Notifications?
  {
    var s, tx := w.sessions[t], w.txs[t];
    RowsOfThePlan(s, tx, tx.taken);
    caller, id, v := OmittedIsOverdue(w.db, s);
    ActingHoldsItsPlan(s, tx, Locking.User(caller));
  }

  /** What one that waits late holds of vehicles is the one it reserves. */
  lemma {:induction false} PlannedVehicleOfOneThatWaitsLate(w: World, t: nat, v: nat)
    requires WorldOk(w) && WaitsLate(w, t) && Locking.Holds(w.txs[t], Locking.Vehicle(v))
    ensures w.sessions[t].step.Reserve? && w.sessions[t].step.vehicle == v
  {
    var s, tx := w.sessions[t], w.txs[t];
    var i := HeldAt(tx, Locking.Vehicle(v));
    RowsOfThePlan(s, tx, i);
    var _, _, _ := LateWaiter(w, t);
    ReservedIsTheOneVehicle(s.begun, s.step, v);
  }

  lemma {:induction false} ReservedIsTheOneVehicle(db: Db, step: Step, v: nat)
    requires (step.Reserve? || step.Notifications?) && v in PlanOf(db, step).vehicles
    ensures step.Reserve? && step.vehicle == v
  {
  }

  /** It has met whoever holds that vehicle, and holds that account. */
  lemma {:induction false} TheHolderIsPlanned(w: World, t: nat, v: nat, id: nat, caller: nat)
    requires WorldOk(w) && WaitsLate(w, t) && w.sessions[t].step.Reserve? && w.sessions[t].step.vehicle == v
    requires HoldsVehicle(w.db, id, v) && HoldsAccount(w.db, id, caller)
    ensures Locking.Holds(w.txs[t], Locking.User(caller))
  {
    assert LiveOn(w.db, v) == Some(id);
    assert StillFound(w.db, w.sessions[t]);
    assert InPlan(w.sessions[t].planned, Locking.User(caller));
    ActingHoldsItsPlan(w.sessions[t], w.txs[t], Locking.User(caller));
  }

  /** So the holder of an omitted vehicle does not wait late itself. */
  lemma {:induction false} HolderIsNotLate(w: World, t: nat, holder: nat, caller: nat, id: nat, v: nat)
    requires WorldOk(w) && Late(w, t, caller, id, v) && holder in w.txs && Locking.Blocks(w.txs, holder, t)
    ensures !WaitsLate(w, holder)
  {
    if WaitsLate(w, holder) {
      PlannedVehicleOfOneThatWaitsLate(w, holder, v);
      TheHolderIsPlanned(w, holder, v, id, caller);
    }
  }

  /** Whoever holds the omitted vehicle and is itself blocked is a tick that has not got its locks yet, and its plan
      was read before the overdue rental was there. */
  lemma {:induction false} HolderIsAnEarlierTick(w: World, t: nat, holder: nat, other: nat, caller: nat, id: nat,
                                                 v: nat)
    requires WorldOk(w) && Late(w, t, caller, id, v) && holder in w.txs && other in w.txs
    requires Locking.Blocks(w.txs, holder, t) && Locking.Blocks(w.txs, other, holder)
    ensures w.sessions[holder].step.Tick? && w.sessions[holder].moment.None?
    ensures Wanting(w.txs[holder]) && Wanted(w.txs[holder]).Vehicle? && Locking.Holds(w.txs[holder], Locking.Vehicle(v))
    ensures id !in w.sessions[holder].begun.rows
  {
    HolderIsNotLate(w, t, holder, caller, id, v);
    HoldersWaitForVehicles(w, other, holder, v);
    assert w.sessions[holder].moment.None?;
    TwoVehiclesMakeATick(w, holder, v);
    NotThereYet(w, t, holder, caller, id, v);
  }

  lemma {:induction false} NotThereYet(w: World, t: nat, tick: nat, caller: nat, id: nat, v: nat)
    requires WorldOk(w) && Late(w, t, caller, id, v) && tick in w.sessions && tick != t && w.sessions[tick].step.Tick?
    requires Wanting(w.txs[tick]) && Wanted(w.txs[tick]).Vehicle?
    ensures id !in w.sessions[tick].begun.rows
  {
    var s := w.sessions[tick];
    if id in s.begun.rows {
      assert Later(s.begun, w.db) && SameTerms(s.begun.rows[id].rental, w.db.rows[id].rental);
      TickPlansTheHolders(s.begun, s.step, id);
      AccountsComeFirst(s, w.txs[tick], w.txs[tick].taken, caller);
    }
  }

  // ---------- when transactions wait for each other for good ----------

  /** Every one of a group waits for another of it. */
  ghost predicate Stuck(w: World, among: set<nat>) {
    among != {} && among <= w.txs.Keys && forall t :: t in among ==> Locking.BlockedBy(w.txs, among, t)
  }

  lemma {:induction false} HolderAmong(w: World, among: set<nat>, t: nat) returns (holder: nat)
    requires Stuck(w, among) && t in among
    ensures holder in among && holder in w.txs && Locking.Blocks(w.txs, holder, t) && Wanting(w.txs[t])
  {
    assert Locking.BlockedBy(w.txs, among, t);
    holder :| holder in among && Locking.Blocks(w.txs, holder, t);
  }

  lemma {:induction false} StuckIsInOrder(w: World, among: set<nat>, t: nat)
    requires WorldOk(w) && Stuck(w, among) && t in among && !WaitsLate(w, t)
    ensures w.txs[t].taken <= |w.txs[t].plan| && Locking.Ordered(w.txs[t].plan)
  {
    var holder := HolderAmong(w, among, t);
    assert w.txs[t].plan == LocksOf(w.sessions[t].planned);
  }

  lemma {:induction false} SomeOfTheGroupGoesOn(txs: map<nat, Locking.Tx>, among: set<nat>)
    requires HeldOnce(txs) && among != {} && among <= txs.Keys
    requires forall t :: t in among ==> txs[t].taken <= |txs[t].plan| && Locking.Ordered(txs[t].plan)
    ensures exists t :: t in among && !Locking.BlockedBy(txs, among, t)
  {
    var group := map t | t in among :: txs[t];
    Locking.SomeoneIsNotBlocked(group, among);
    var t :| t in among && !Locking.BlockedBy(group, among, t);
    forall other | other in among ensures !Locking.Blocks(txs, other, t) {
      assert !Locking.Blocks(group, other, t);
    }
  }

  /** Without one that waits late, one of the group is not blocked by the others. */
  lemma {:induction false} SomeoneWaitsLate(w: World, among: set<nat>)
    requires WorldOk(w) && Stuck(w, among)
    ensures LateOnes(w, among) != {}
  {
    var late := LateOnes(w, among);
    if late == {} {
      forall t | t in among
        ensures w.txs[t].taken <= |w.txs[t].plan| && Locking.Ordered(w.txs[t].plan)
      {
        assert t !in late;
        StuckIsInOrder(w, among, t);
      }
      SomeOfTheGroupGoesOn(w.txs, among);
    }
  }

  /** A tick and a reservation that wait for each other: the tick, which has not got its locks, for the vehicle that
      is reserved; the reservation, which acts, for the vehicle of its caller's overdue reservation. */
  ghost predicate WaitForEachOther(w: World, tick: nat, reservation: nat) {
    && tick in w.txs && reservation in w.txs && tick in w.sessions && reservation in w.sessions
    && w.sessions[tick].step.Tick? && w.sessions[tick].moment.None?
    && w.sessions[reservation].step.Reserve? && w.sessions[reservation].moment.Some?
    && Locking.Blocks(w.txs, tick, reservation) && Locking.Blocks(w.txs, reservation, tick)
  }

  /** In no state is any group of the service's transactions stuck but for one reason: a tick and a reservation of
      it wait for each other, and the tick was planned before the reservation that is now overdue was made. */
  lemma {:induction false} StuckForOneReason(w: World, among: set<nat>)
    returns (tick: nat, reservation: nat, caller: nat, id: nat, v: nat)
    requires WorldOk(w) && Stuck(w, among)
    ensures tick in among && reservation in among && WaitForEachOther(w, tick, reservation)
    ensures Late(w, reservation, caller, id, v) && id !in w.sessions[tick].begun.rows
  {
    SomeoneWaitsLate(w, among);
    var late :| late in LateOnes(w, among);
    caller, id, v := LateWaiter(w, late);
    tick := HolderAmong(w, among, late);
    reservation := HolderAmong(w, among, tick);
    HolderIsAnEarlierTick(w, late, tick, reservation, caller, id, v);
    caller, id, v := TheReservationIsLate(w, among, tick, reservation, v);
  }

  /** Whoever holds the vehicle a tick waits for, and is blocked, is a reservation that waits for that tick. */
  lemma {:induction false} TheReservationIsLate(w: World, among: set<nat>, tick: nat, beyond: nat, v: nat)
    returns (caller: nat, id: nat, x: nat)
    requires WorldOk(w) && Stuck(w, among) && tick in among && beyond in among && Locking.Blocks(w.txs, beyond, tick)
    requires w.sessions[tick].step.Tick? && w.sessions[tick].moment.None?
    requires Wanting(w.txs[tick]) && Wanted(w.txs[tick]).Vehicle? && Locking.Holds(w.txs[tick], Locking.Vehicle(v))
    ensures WaitForEachOther(w, tick, beyond)
    ensures Late(w, beyond, caller, id, x) && id !in w.sessions[tick].begun.rows
  {
    var last := HolderAmong(w, among, beyond);
    var taken := Wanted(w.txs[tick]).id;
    HoldersWaitForVehicles(w, last, beyond, taken);
    if w.sessions[beyond].moment.None? {
      TwoVehiclesMakeATick(w, beyond, taken);
      OneTickHoldsVehicles(w, tick, beyond, v, taken);
    }
    caller, id, x := LateWaiter(w, beyond);
    PlannedVehicleOfOneThatWaitsLate(w, beyond, taken);
    var next := HolderAmong(w, among, last);
    HolderIsAnEarlierTick(w, beyond, last, next, caller, id, x);
    OneTickHoldsVehicles(w, tick, last, v, x);
  }

  /** Transactions wait for each other for good exactly when some tick and some reservation do. */
  lemma {:induction false} DeadlockExactlyWhen(w: World)
    requires WorldOk(w)
    ensures (exists among :: Stuck(w, among)) <==> (exists tick, reservation :: WaitForEachOther(w, tick, reservation))
  {
    if among :| Stuck(w, among) {
      SomePairWaits(w, among);
    }
    forall tick, reservation | WaitForEachOther(w, tick, reservation) ensures Stuck(w, {tick, reservation}) {
      TwoAreStuck(w, tick, reservation);
    }
  }

  lemma {:induction false} SomePairWaits(w: World, among: set<nat>)
    requires WorldOk(w) && Stuck(w, among)
    ensures exists tick, reservation :: WaitForEachOther(w, tick, reservation)
  {
    var tick, reservation, _, _, _ := StuckForOneReason(w, among);
    assert WaitForEachOther(w, tick, reservation);
  }

  lemma {:induction false} TwoAreStuck(w: World, a: nat, b: nat)
    requires a in w.txs && b in w.txs && Locking.Blocks(w.txs, a, b) && Locking.Blocks(w.txs, b, a)
    ensures Stuck(w, {a, b})
  {
    assert Locking.BlockedBy(w.txs, {a, b}, a) && Locking.BlockedBy(w.txs, {a, b}, b);
  }

  // ---------- transactions that omit nothing ----------

  /** A session that acts on a plan that leaves a vehicle out. */
  ghost predicate Omits(w: World, t: nat) {
    t in w.sessions && w.sessions[t].omitted.Some?
  }

  /** Of a group in which nobody omitted a vehicle one is not blocked by the others. */
  lemma {:induction false} WholePlansGoOn(w: World, among: set<nat>)
    requires WorldOk(w) && among != {} && among <= w.txs.Keys && forall t :: t in among ==> !Omits(w, t)
    ensures exists t :: t in among && !Locking.BlockedBy(w.txs, among, t)
  {
    forall t | t in among
      ensures w.txs[t].taken <= |w.txs[t].plan| && Locking.Ordered(w.txs[t].plan)
    {
      assert LocksFit(w.sessions[t], w.txs[t]) && !Omits(w, t);
      WholePlanIsOrdered(w.sessions[t], w.txs[t]);
    }
    SomeOfTheGroupGoesOn(w.txs, among);
  }

  lemma {:induction false} WholePlanIsOrdered(s: Session, tx: Locking.Tx)
    requires LocksFit(s, tx) && s.omitted.None?
    ensures Locking.Ordered(tx.plan)
  {
    assert LocksOf(s.planned) + [] == LocksOf(s.planned);
  }

  /** The guard of the late lock: a session that is about to act will write a vehicle its plan leaves out. It is
      decided by the tables the session finds, before it takes that lock. */
  ghost predicate LeavesOut(w: World, e: Event) {
    && e.Confirm? && e.t in w.sessions && SameRows(w.db, w.sessions[e.t])
    && Omitted(w.db, w.sessions[e.t].step, e.moment).Some?
  }

  ghost predicate NothingLeftOut(w: World, events: seq<Event>)
    requires Possible(w, events)
    decreases |events|
  {
    events == []
    || (NothingLeftOut(w, events[..|events| - 1]) && !LeavesOut(After(w, events[..|events| - 1]), events[|events| - 1]))
  }

  lemma {:induction false} EventOmitsNothing(w: World, e: Event)
    requires Enabled(w, e) && !LeavesOut(w, e) && forall t :: !Omits(w, t)
    ensures forall t :: !Omits(Next(w, e), t)
  {
    forall t
      ensures !Omits(Next(w, e), t)
    {
      assert !Omits(w, t);
    }
  }

  lemma {:induction false} RunOmitsNothing(w: World, events: seq<Event>)
    requires Possible(w, events) && NothingLeftOut(w, events) && forall t :: !Omits(w, t)
    ensures forall t :: !Omits(After(w, events), t)
    decreases |events|
  {
    if events != [] {
      var before := events[..|events| - 1];
      RunOmitsNothing(w, before);
      EventOmitsNothing(After(w, before), events[|events| - 1]);
    }
  }

  /** In a run in which no session acts on a plan that leaves out a vehicle it will write, none of the service's
      transactions are ever stuck, however long they last. */
  lemma {:induction false} WholePlansNeverDeadlock(db: Db, fleet: seq<nat>, events: seq<Event>, among: set<nat>)
    requires OneHolder(db) && Dated(db) && Possible(Idle(db, fleet), events) && NothingLeftOut(Idle(db, fleet), events)
    requires among != {} && among <= After(Idle(db, fleet), events).txs.Keys
    ensures exists t :: t in among && !Locking.BlockedBy(After(Idle(db, fleet), events).txs, among, t)
  {
    var w := After(Idle(db, fleet), events);
    RunKeeps(Idle(db, fleet), events);
    RunOmitsNothing(Idle(db, fleet), events);
    WholePlansGoOn(w, among);
  }

  // ---------- transactions that do not last ----------

  /** How long a tick may take, which is the shorter part, leaves the rest of the life of a reservation to every
      other transaction. */
  predicate Shorter(ticks: int) {
    ticks <= RESERVATION_LIFETIME - ticks
  }

  function Longest(step: Step, ticks: int): int {
    if step.Tick? then ticks else RESERVATION_LIFETIME - ticks
  }

  /** No transaction under way was planned that long ago. */
  ghost predicate Prompt(w: World, ticks: int) {
    forall t :: t in w.sessions ==> w.db.clock < w.sessions[t].begun.clock + Longest(w.sessions[t].step, ticks)
  }

  ghost predicate PromptRun(w: World, events: seq<Event>, ticks: int)
    requires Possible(w, events)
    decreases |events|
  {
    Prompt(After(w, events), ticks) && (events == [] || PromptRun(w, events[..|events| - 1], ticks))
  }

  /** What a transaction has not seen was reserved, before it was planned, for less than others may take. */
  ghost predicate RecentFor(db: Db, begun: Db, ticks: int) {
    forall id :: id in db.rows && id !in begun.rows ==>
      begun.clock < db.rows[id].rental.reservedAt + (RESERVATION_LIFETIME - ticks)
  }

  ghost predicate Recent(w: World, ticks: int) {
    forall t :: t in w.sessions ==> RecentFor(w.db, w.sessions[t].begun, ticks)
  }

  lemma {:induction false} EventKeepsRecent(w: World, e: Event, ticks: int)
    requires WorldOk(w) && Enabled(w, e) && Shorter(ticks) && Prompt(w, ticks) && Recent(w, ticks)
    ensures Recent(Next(w, e), ticks)
  {
    match e
    case Done(t, after) => OthersStayRecent(w, t, after, ticks);
    case Begin(t, step) => BegunIsRecent(w, t, step, ticks);
    case Take(_) =>
    case Leave(_) =>
    case Confirm(t, moment) => ConfirmedIsRecent(w, t, moment, ticks);
    case Elsewhere(after) => LaterIsRecent(w, after, ticks);
  }

  lemma {:induction false} BegunIsRecent(w: World, t: nat, step: Step, ticks: int)
    requires Enabled(w, Begin(t, step)) && Recent(w, ticks)
    ensures Recent(Next(w, Begin(t, step)), ticks)
  {
    assert RecentFor(w.db, w.db, ticks);
  }

  lemma {:induction false} ConfirmedIsRecent(w: World, t: nat, moment: int, ticks: int)
    requires Enabled(w, Confirm(t, moment)) && Recent(w, ticks)
    ensures Recent(Next(w, Confirm(t, moment)), ticks)
  {
    LaterIsRecent(w, w.db.(clock := moment), ticks);
  }

  lemma {:induction false} OthersStayRecent(w: World, doer: nat, after: Db, ticks: int)
    requires WorldOk(w) && Enabled(w, Done(doer, after)) && Shorter(ticks) && Prompt(w, ticks) && Recent(w, ticks)
    ensures forall t :: t in w.sessions && t != doer ==>
              RecentFor(after.(clock := w.db.clock), w.sessions[t].begun, ticks)
  {
    forall t | t in w.sessions && t != doer
      ensures RecentFor(after.(clock := w.db.clock), w.sessions[t].begun, ticks)
    {
      DoneIsRecent(w, doer, after, t, ticks);
    }
  }

  lemma {:induction false} LaterIsRecent(w: World, after: Db, ticks: int)
    requires Recent(w, ticks) && after.rows == w.db.rows
    ensures forall t :: t in w.sessions ==> RecentFor(after, w.sessions[t].begun, ticks)
  {
    forall t | t in w.sessions
      ensures RecentFor(after, w.sessions[t].begun, ticks)
    {
      assert RecentFor(w.db, w.sessions[t].begun, ticks);
    }
  }

  lemma {:induction false} DoneIsRecent(w: World, doer: nat, after: Db, t: nat, ticks: int)
    requires WorldOk(w) && Enabled(w, Done(doer, after)) && Shorter(ticks) && Prompt(w, ticks) && Recent(w, ticks)
    requires t in w.sessions && t != doer
    ensures RecentFor(after.(clock := w.db.clock), w.sessions[t].begun, ticks)
  {
    var begun, mine := w.sessions[t].begun, w.sessions[doer];
    assert Later(begun, w.db) && StillFound(w.db, mine) && RecentFor(w.db, begun, ticks);
    forall id | id in after.rows && id !in begun.rows
      ensures begun.clock < after.rows[id].rental.reservedAt + (RESERVATION_LIFETIME - ticks)
    {
      if id in w.db.rows {
        assert SameTerms(w.db.rows[id].rental, after.rows[id].rental);
      } else {
        assert AddedWithin(after.rows[id].rental, With(mine.planned, mine.omitted), mine.moment.value);
      }
    }
  }

  lemma {:induction false} PromptRunIsRecent(w: World, events: seq<Event>, ticks: int)
    requires WorldOk(w) && Recent(w, ticks) && Shorter(ticks) && Possible(w, events) && PromptRun(w, events, ticks)
    ensures WorldOk(After(w, events)) && Recent(After(w, events), ticks)
    decreases |events|
  {
    RunKeeps(w, events);
    if events != [] {
      var before := events[..|events| - 1];
      PromptRunIsRecent(w, before, ticks);
      EventKeepsRecent(After(w, before), events[|events| - 1], ticks);
    }
  }

  /** Once something is stuck, a tick has waited for its locks too long, or the reservation it did not see was made
      by a transaction that took too long. */
  lemma {:induction false} StuckIsNotPrompt(w: World, among: set<nat>, ticks: int)
    requires WorldOk(w) && Recent(w, ticks) && Stuck(w, among)
    ensures !Prompt(w, ticks)
  {
    var tick, reservation, caller, id, v := StuckForOneReason(w, among);
    assert StillFound(w.db, w.sessions[reservation]) && RecentFor(w.db, w.sessions[tick].begun, ticks);
    assert w.db.rows[id].rental.expiresAt == w.db.rows[id].rental.reservedAt + RESERVATION_LIFETIME;
  }

  /** While no tick takes longer than some part of the life of a reservation and no other transaction longer than
      the rest of it, none of the service's transactions are ever stuck: of any group of them one goes on, whatever
      was left out of a plan. */
  lemma {:induction false} PromptTransactionsNeverDeadlock(db: Db, fleet: seq<nat>, events: seq<Event>, among: set<nat>,
                                                           ticks: int)
    requires OneHolder(db) && Dated(db) && Possible(Idle(db, fleet), events)
    requires Shorter(ticks) && PromptRun(Idle(db, fleet), events, ticks)
    requires among != {} && among <= After(Idle(db, fleet), events).txs.Keys
    ensures exists t :: t in among && !Locking.BlockedBy(After(Idle(db, fleet), events).txs, among, t)
  {
    var w := After(Idle(db, fleet), events);
    PromptRunIsRecent(Idle(db, fleet), events, ticks);
    if Stuck(w, among) {
      StuckIsNotPrompt(w, among, ticks);
    }
  }
}
