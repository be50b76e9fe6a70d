/** A run of the service's transactions into the one state in which they wait for each other for good. */
module Deadlock {
  import opened Wrappers
  import opened Fleet
  import opened Rentals
  import opened Operations
  import opened Invariants
  import opened Runs
  import opened Discovery
  import opened Plans
  import opened Contention
  import opened Waiting
  import opened Occasions
  import Locking

  // ---------- locks of a plan, written out ----------

  lemma {:induction false} OrderedByContents(a: seq<Locking.Row>, b: seq<Locking.Row>)
    requires Locking.Ordered(a) && Locking.Ordered(b) && forall r :: r in a <==> r in b
    ensures a == b
    decreases |a|
  {
    if a == [] {
      SomethingIsIn(b);
    } else if b == [] {
      SomethingIsIn(a);
    } else {
      FirstIsTheSame(a, b);
      forall r ensures r in a[1..] <==> r in b[1..] {
        RestHolds(a, r);
        RestHolds(b, r);
      }
      OrderedByContents(a[1..], b[1..]);
      assert a == [a[0]] + a[1..] && b == [b[0]] + b[1..];
    }
  }

  lemma {:induction false} SomethingIsIn(a: seq<Locking.Row>)
    ensures a == [] || exists r :: r in a
  {
    if a != [] {
      assert a[0] in a;
    }
  }

  lemma {:induction false} FirstIsTheSame(a: seq<Locking.Row>, b: seq<Locking.Row>)
    requires Locking.Ordered(a) && Locking.Ordered(b) && (forall r :: r in a <==> r in b) && a != [] && b != []
    ensures a[0] == b[0]
  {
    assert a[0] in b && b[0] in a;
    var i :| 0 <= i < |b| && b[i] == a[0];
    var j :| 0 <= j < |a| && a[j] == b[0];
  }

  lemma {:induction false} RestHolds(a: seq<Locking.Row>, r: Locking.Row)
    requires Locking.Ordered(a) && a != []
    ensures r in a[1..] <==> r in a && r != a[0]
  {
    assert a == [a[0]] + a[1..];
    forall i | 1 <= i < |a| ensures a[i] != a[0] {
      assert Locking.Less(a[0], a[i]);
    }
  }

  lemma {:induction false} LocksAre(plan: Plan, list: seq<Locking.Row>)
    requires Locking.Ordered(list) && forall r :: r in list <==> InPlan(plan, r)
    ensures LocksOf(plan) == list
  {
    OrderedByContents(LocksOf(plan), list);
  }

  // ---------- one event more ----------

  /** Some run of events leads from one state to another. */
  ghost predicate Leads(w: World, to: World) {
    exists events :: Possible(w, events) && After(w, events) == to
  }

  lemma {:induction false} LeadsToItself(w: World)
    ensures Leads(w, w)
  {
    assert Possible(w, []) && After(w, []) == w;
  }

  lemma {:induction false} LeadsOn(w: World, from: World, e: Event, to: World)
    requires Leads(w, from) && Enabled(from, e) && Next(from, e) == to
    ensures Leads(w, to)
  {
    var events :| Possible(w, events) && After(w, events) == from;
    var more := events + [e];
    assert more[..|more| - 1] == events && more[|more| - 1] == e;
    assert Possible(w, more) && After(w, more) == to;
  }

  /** Nobody else holds anything, so a transaction takes all it planned. */
  lemma {:induction false} TakesAll(w: World, from: World, t: nat, to: World)
    requires Leads(w, from) && t in from.txs && from.txs[t].taken <= |from.txs[t].plan|
    requires forall u :: u in from.txs && u != t ==> from.txs[u].taken == 0
    requires to == from.(txs := from.txs[t := from.txs[t].(taken := |from.txs[t].plan|)])
    ensures Leads(w, to)
    decreases |from.txs[t].plan| - from.txs[t].taken
  {
    if from.txs[t].taken == |from.txs[t].plan| {
      assert from.txs == to.txs;
    } else {
      var next := Next(from, Take(t));
      LeadsOn(w, from, Take(t), next);
      TakesAll(w, next, t, to);
    }
  }

  // ---------- the run ----------

  /** Both vehicles have a reading, so both are of the fleet. */
  const VEHICLES: map<nat, Vehicle> :=
    map[1 := Vehicle(1, false, Some(FULL), None), 2 := Vehicle(1, false, Some(FULL), None)]
  const FLEET: seq<nat> := [1, 2]
  const FIRST: Step := Reserve(7, 1, 10, 0, FREE_OF_CHARGE, true)
  const SECOND: Step := Reserve(7, 2, 11, 0, FREE_OF_CHARGE, true)

  function Installation(): Db {
    Installed(VEHICLES, 0)
  }

  /** The moment the account asks for the second vehicle. */
  const LATER: Option<int> := Some(RESERVATION_LIFETIME)

  function Ticking(): Session {
    Session(Tick(FLEET), Installation(), Plan({}, {1, 2}, {}), None, None)
  }

  /** A tick reads its plan, and waits for its first lock. */
  function TickWaits(db: Db): World {
    World(db, FLEET, map[0 := Ticking()],
          map[0 := Locking.Tx([Locking.Vehicle(1), Locking.Vehicle(2)], 0)])
  }

  function Start(): World {
    Idle(Installation(), FLEET)
  }

  lemma {:induction false} TickIsPlanned()
    ensures PlanOf(Installation(), Tick(FLEET)) == Plan({}, {1, 2}, {})
  {
    assert forall v :: v in FLEET <==> v in {1, 2};
  }

  lemma {:induction false} TickLocks()
    ensures LocksOf(Plan({}, {1, 2}, {})) == [Locking.Vehicle(1), Locking.Vehicle(2)]
  {
    LocksAre(Plan({}, {1, 2}, {}), [Locking.Vehicle(1), Locking.Vehicle(2)]);
  }

  lemma {:induction false} LeadsToThePlan()
    ensures Leads(Start(), TickWaits(Installation()))
  {
    TickIsPlanned();
    TickLocks();
    LeadsToItself(Start());
    LeadsOn(Start(), Start(), Begin(0, Tick(FLEET)), TickWaits(Installation()));
  }

  /** Meanwhile an account reserves the first vehicle, in a transaction of its own. */
  function FirstUnderWay(taken: nat, moment: Option<int>): World {
    World(Installation(), FLEET,
          map[0 := Ticking(), 1 := Session(FIRST, Installation(), Plan({7}, {1}, {}), moment, None)],
          map[0 := Locking.Tx([Locking.Vehicle(1), Locking.Vehicle(2)], 0),
              1 := Locking.Tx([Locking.User(7), Locking.Vehicle(1)], taken)])
  }

  lemma {:induction false} FirstIsPlanned()
    ensures Enabled(TickWaits(Installation()), Begin(1, FIRST))
    ensures Next(TickWaits(Installation()), Begin(1, FIRST)) == FirstUnderWay(0, None)
  {
    var installed := Installation();
    assert LiveOf(installed, 7) == None && LiveOn(installed, 1) == None;
    assert PlanOf(installed, FIRST) == Plan({7}, {1}, {});
    LocksAre(Plan({7}, {1}, {}), [Locking.User(7), Locking.Vehicle(1)]);
  }

  lemma {:induction false} LeadsToTheFirst()
    requires Leads(Start(), TickWaits(Installation()))
    ensures Leads(Start(), FirstUnderWay(0, None))
  {
    FirstIsPlanned();
    LeadsOn(Start(), TickWaits(Installation()), Begin(1, FIRST), FirstUnderWay(0, None));
  }

  lemma {:induction false} FirstIsConfirmed()
    ensures Enabled(FirstUnderWay(2, None), Confirm(1, 0))
    ensures Next(FirstUnderWay(2, None), Confirm(1, 0)) == FirstUnderWay(2, Some(0))
  {
    var installed := Installation();
    assert LiveOf(installed, 7) == None && LiveOn(installed, 1) == None;
    assert PlanOf(installed, FIRST) == Plan({7}, {1}, {}) && Omitted(installed, FIRST, 0).None?;
    assert Installation().(clock := 0) == Installation();
    assert [Locking.User(7), Locking.Vehicle(1)] + [] == [Locking.User(7), Locking.Vehicle(1)];
  }

  lemma {:induction false} LeadsToItsMoment()
    requires Leads(Start(), FirstUnderWay(2, None))
    ensures Leads(Start(), FirstUnderWay(2, Some(0)))
  {
    FirstIsConfirmed();
    LeadsOn(Start(), FirstUnderWay(2, None), Confirm(1, 0), FirstUnderWay(2, Some(0)));
  }

  /** What the transaction leaves: the first vehicle is reserved, and what was written is what it held. */
  lemma {:induction false} FirstIsMade() returns (made: Db)
    ensures made == Commit(Installation(), Timed(0, FIRST))
    ensures Inv(made) && made.clock == 0 && Reserved7(made) && made.vehicles.Keys == {1, 2}
    ensures Effect(Installation(), made, With(Plan({7}, {1}, {}), None))
  {
    var installed := Installation();
    InstalledIsInv(VEHICLES, 0);
    made := FirstIsReserved(installed);
    CommitNow(installed, FIRST);
    FirstPlan();
    TransactionsHaveTheirEffect(installed, FIRST);
  }

  lemma {:induction false} FirstIsReserved(installed: Db) returns (made: Db)
    requires installed == Installation() && Inv(installed)
    ensures Perform(installed, FIRST).Ok? && made == Perform(installed, FIRST).value.0
    ensures Inv(made) && made.clock == 0 && Reserved7(made) && made.vehicles.Keys == {1, 2}
  {
    FirstReservation(installed);
    made := Perform(installed, FIRST).value.0;
  }

  lemma {:induction false} FirstPlan()
    ensures PlanOf(Installation(), FIRST) == Plan({7}, {1}, {}) && Omitted(Installation(), FIRST, 0) == None
    ensures With(Plan({7}, {1}, {}), None) == Plan({7}, {1}, {})
  {
    assert LiveOf(Installation(), 7) == None && LiveOn(Installation(), 1) == None;
  }

  lemma {:induction false} FirstIsDone(made: Db)
    requires made.clock == 0
    requires Effect(Installation(), made, With(Plan({7}, {1}, {}), None))
    ensures Enabled(FirstUnderWay(2, Some(0)), Done(1, made))
    ensures Next(FirstUnderWay(2, Some(0)), Done(1, made)) == TickWaits(made)
  {
    assert Installation().(clock := 0) == Installation();
  }

  lemma {:induction false} LeadsToItsEnd(made: Db)
    requires made.clock == 0
    requires Effect(Installation(), made, With(Plan({7}, {1}, {}), None))
    requires Leads(Start(), FirstUnderWay(2, Some(0)))
    ensures Leads(Start(), TickWaits(made))
  {
    FirstIsDone(made);
    LeadsOn(Start(), FirstUnderWay(2, Some(0)), Done(1, made), TickWaits(made));
  }

  lemma {:induction false} FirstTakesAll()
    requires Leads(Start(), FirstUnderWay(0, None))
    ensures Leads(Start(), FirstUnderWay(2, None))
  {
    var from, to := FirstUnderWay(0, None), FirstUnderWay(2, None);
    FirstTakesTwo(from, to);
    TakesAll(Start(), from, 1, to);
  }

  lemma {:induction false} FirstTakesTwo(from: World, to: World)
    requires from == FirstUnderWay(0, None) && to == FirstUnderWay(2, None)
    ensures 1 in from.txs && from.txs[1].taken == 0 && |from.txs[1].plan| == 2
    ensures forall u :: u in from.txs && u != 1 ==> from.txs[u].taken == 0
    ensures to == from.(txs := from.txs[1 := from.txs[1].(taken := |from.txs[1].plan|)])
  {
    assert to.txs == from.txs[1 := from.txs[1].(taken := 2)];
  }

  lemma {:induction false} LeadsToTheReservation(made: Db)
    requires made.clock == 0
    requires Effect(Installation(), made, With(Plan({7}, {1}, {}), None))
    ensures Leads(Start(), TickWaits(made))
  {
    LeadsToThePlan();
    LeadsToTheFirst();
    FirstTakesAll();
    LeadsToItsMoment();
    LeadsToItsEnd(made);
  }

  /** A quarter of an hour later the account reserves the second vehicle: it releases its overdue reservation first,
      and needs the first vehicle for that. */
  function SecondUnderWay(made: Db, taken: nat, moment: Option<int>, ticked: nat): World {
    World(if moment.Some? then made.(clock := moment.value) else made, FLEET,
          map[0 := Ticking(),
              2 := Session(SECOND, made, Plan({7}, {2}, {10}), moment, if moment.Some? then Some(1) else None)],
          map[0 := Locking.Tx([Locking.Vehicle(1), Locking.Vehicle(2)], ticked),
              2 := Locking.Tx([Locking.User(7), Locking.Vehicle(2), Locking.Rental(10)]
                              + (if moment.Some? then [Locking.Vehicle(1)] else []), taken)])
  }

  lemma {:induction false} HeldByTheFirst(made: Db)
    requires Inv(made) && Reserved7(made)
    ensures PlanOf(made, SECOND) == Plan({7}, {2}, {10})
    ensures Omitted(made, SECOND, RESERVATION_LIFETIME) == Some(1)
  {
    TheRiderIsFound(made, 10);
    assert LiveOn(made, 2) == None;
  }

  lemma {:induction false} SecondIsPlanned(made: Db)
    requires PlanOf(made, SECOND) == Plan({7}, {2}, {10})
    ensures Enabled(TickWaits(made), Begin(2, SECOND))
    ensures Next(TickWaits(made), Begin(2, SECOND)) == SecondUnderWay(made, 0, None, 0)
  {
    var list := [Locking.User(7), Locking.Vehicle(2), Locking.Rental(10)];
    LocksAre(Plan({7}, {2}, {10}), list);
    assert list + [] == list;
  }

  lemma {:induction false} LeadsToTheSecond(made: Db)
    requires PlanOf(made, SECOND) == Plan({7}, {2}, {10})
    requires Leads(Start(), TickWaits(made))
    ensures Leads(Start(), SecondUnderWay(made, 0, None, 0))
  {
    SecondIsPlanned(made);
    LeadsOn(Start(), TickWaits(made), Begin(2, SECOND), SecondUnderWay(made, 0, None, 0));
  }

  lemma {:induction false} SecondIsConfirmed(made: Db)
    requires made.clock == 0 && Omitted(made, SECOND, RESERVATION_LIFETIME) == Some(1)
    requires PlanOf(made, SECOND) == Plan({7}, {2}, {10})
    ensures Enabled(SecondUnderWay(made, 3, None, 0), Confirm(2, RESERVATION_LIFETIME))
    ensures Next(SecondUnderWay(made, 3, None, 0), Confirm(2, RESERVATION_LIFETIME)) ==
            SecondUnderWay(made, 3, LATER, 0)
  {
    var list := [Locking.User(7), Locking.Vehicle(2), Locking.Rental(10)];
    assert list + [] == list;
  }

  lemma {:induction false} LeadsToItsLateRow(made: Db)
    requires made.clock == 0 && Omitted(made, SECOND, RESERVATION_LIFETIME) == Some(1)
    requires PlanOf(made, SECOND) == Plan({7}, {2}, {10})
    requires Leads(Start(), SecondUnderWay(made, 3, None, 0))
    ensures Leads(Start(), SecondUnderWay(made, 3, LATER, 0))
  {
    SecondIsConfirmed(made);
    LeadsOn(Start(), SecondUnderWay(made, 3, None, 0), Confirm(2, RESERVATION_LIFETIME),
            SecondUnderWay(made, 3, LATER, 0));
  }

  lemma {:induction false} SecondTakesThree(from: World, to: World, made: Db)
    requires from == SecondUnderWay(made, 0, None, 0) && to == SecondUnderWay(made, 3, None, 0)
    ensures 2 in from.txs && from.txs[2].taken == 0 && |from.txs[2].plan| == 3
    ensures forall u :: u in from.txs && u != 2 ==> from.txs[u].taken == 0
    ensures to == from.(txs := from.txs[2 := from.txs[2].(taken := |from.txs[2].plan|)])
  {
    assert to.txs == from.txs[2 := from.txs[2].(taken := 3)];
  }

  lemma {:induction false} SecondTakesAll(made: Db)
    requires Leads(Start(), SecondUnderWay(made, 0, None, 0))
    ensures Leads(Start(), SecondUnderWay(made, 3, None, 0))
  {
    var from, to := SecondUnderWay(made, 0, None, 0), SecondUnderWay(made, 3, None, 0);
    SecondTakesThree(from, to, made);
    TakesAll(Start(), from, 2, to);
  }

  /** Now the tick gets its first vehicle, and asks for the second. */
  lemma {:induction false} TickTakesTheFirst(made: Db)
    ensures Enabled(SecondUnderWay(made, 3, LATER, 0), Take(0))
    ensures Next(SecondUnderWay(made, 3, LATER, 0), Take(0)) == SecondUnderWay(made, 3, LATER, 1)
    ensures WaitForEachOther(SecondUnderWay(made, 3, LATER, 1), 0, 2)
  {
    var before, after := SecondUnderWay(made, 3, LATER, 0), SecondUnderWay(made, 3, LATER, 1);
    assert !Locking.Holds(before.txs[2], Locking.Vehicle(1));
    assert after.txs[0].plan[0] == Locking.Vehicle(1) && after.txs[2].plan[1] == Locking.Vehicle(2);
    assert Locking.Holds(after.txs[0], Locking.Vehicle(1)) && Locking.Holds(after.txs[2], Locking.Vehicle(2));
  }

  lemma {:induction false} LeadsToTheTick(made: Db)
    requires Leads(Start(), SecondUnderWay(made, 3, LATER, 0))
    ensures Leads(Start(), SecondUnderWay(made, 3, LATER, 1))
  {
    TickTakesTheFirst(made);
    LeadsOn(Start(), SecondUnderWay(made, 3, LATER, 0), Take(0), SecondUnderWay(made, 3, LATER, 1));
  }

  /** So the one reason there is for transactions to be stuck can arise: a tick waits for its locks from before a
      reservation was made until that reservation is overdue and its account reserves again. */
  lemma {:induction false} DeadlockHappens() returns (w: World)
    ensures Leads(Idle(Installation(), FLEET), w) && WaitForEachOther(w, 0, 2) && Stuck(w, {0, 2})
  {
    var made := FirstIsMade();
    LeadsToTheReservation(made);
    HeldByTheFirst(made);
    LeadsToTheSecond(made);
    SecondTakesAll(made);
    LeadsToItsLateRow(made);
    LeadsToTheTick(made);
    TickTakesTheFirst(made);
    w := SecondUnderWay(made, 3, LATER, 1);
    TwoAreStuck(w, 0, 2);
  }
}
