/** The shared order in which every rental transaction takes its rows, and the bounded restarts of one
    (backend/internal/rentals/command.go, backend/internal/rentals/reserve.go). */
module Locking {
  import opened Wrappers

  /** Accounts before vehicles before rentals. */
  datatype Row = User(id: nat) | Vehicle(id: nat) | Rental(id: nat)

  function Group(r: Row): nat {
    match r
    case User(_) => 0
    case Vehicle(_) => 1
    case Rental(_) => 2
  }

  predicate Less(a: Row, b: Row) {
    Group(a) < Group(b) || (Group(a) == Group(b) && a.id < b.id)
  }

  /** The rows one transaction will touch, worked out before its first lock. */
  datatype Participants = Participants(users: seq<nat>, vehicles: seq<nat>, rentals: seq<nat>)

  predicate Rising(ids: seq<nat>) {
    forall i, j :: 0 <= i < j < |ids| ==> ids[i] < ids[j]
  }

  predicate Ordered(rows: seq<Row>) {
    forall i, j :: 0 <= i < j < |rows| ==> Less(rows[i], rows[j])
  }

  /** The locks in the order they are taken. */
  function Locks(p: Participants): (rows: seq<Row>)
    ensures |rows| == |p.users| + |p.vehicles| + |p.rentals|
  {
    seq(|p.users|, i requires 0 <= i < |p.users| => User(p.users[i])) +
    seq(|p.vehicles|, i requires 0 <= i < |p.vehicles| => Vehicle(p.vehicles[i])) +
    seq(|p.rentals|, i requires 0 <= i < |p.rentals| => Rental(p.rentals[i]))
  }

  lemma {:induction false} PlannedLocksAreOrdered(p: Participants)
    requires Rising(p.users) && Rising(p.vehicles) && Rising(p.rentals)
    ensures Ordered(Locks(p))
  {
  }

  // ---------- the identifiers of a plan ----------

  function WithoutRepeats(ids: seq<nat>): (kept: seq<nat>) {
    if |ids| <= 1 then ids
    else
      var before := WithoutRepeats(ids[..|ids| - 1]);
      if ids[|ids| - 2] == ids[|ids| - 1] then before else before + [ids[|ids| - 1]]
  }

  predicate Sorted(ids: seq<nat>) {
    forall i, j :: 0 <= i < j < |ids| ==> ids[i] <= ids[j]
  }

  /** Of ordered identifiers it keeps every one, once, in a rising order. */
  lemma {:induction false} WithoutRepeatsRises(ids: seq<nat>)
    requires Sorted(ids)
    ensures Rising(WithoutRepeats(ids)) && |WithoutRepeats(ids)| <= |ids|
    ensures forall x :: x in WithoutRepeats(ids) <==> x in ids
    decreases |ids|
  {
    forall x: nat
      ensures x in WithoutRepeats(ids) <==> x in ids
    {
      WithoutRepeatsKeeps(ids, x);
    }
    if |ids| > 1 {
      var before := ids[..|ids| - 1];
      WithoutRepeatsRises(before);
      WithoutRepeatsEndsAlike(before);
      if ids[|ids| - 2] != ids[|ids| - 1] {
        RisesOn(WithoutRepeats(before), ids[|ids| - 1]);
      }
    }
  }

  lemma {:induction false} WithoutRepeatsKeeps(ids: seq<nat>, x: nat)
    ensures x in WithoutRepeats(ids) <==> x in ids
    decreases |ids|
  {
    if |ids| > 1 {
      WithoutRepeatsKeeps(ids[..|ids| - 1], x);
      assert x in ids <==> x in ids[..|ids| - 1] || x == ids[|ids| - 1];
    }
  }

  lemma {:induction false} WithoutRepeatsEndsAlike(ids: seq<nat>)
    requires ids != []
    ensures WithoutRepeats(ids) != [] && WithoutRepeats(ids)[|WithoutRepeats(ids)| - 1] == ids[|ids| - 1]
    decreases |ids|
  {
    if |ids| > 1 {
      WithoutRepeatsEndsAlike(ids[..|ids| - 1]);
    }
  }

  lemma {:induction false} RisesOn(ids: seq<nat>, next: nat)
    requires Rising(ids) && ids != [] && ids[|ids| - 1] < next
    ensures Rising(ids + [next])
  {
    forall i, j | 0 <= i < j < |ids + [next]|
      ensures (ids + [next])[i] < (ids + [next])[j]
    {
      assert i < |ids| - 1 ==> ids[i] < ids[|ids| - 1];
    }
  }

  lemma {:induction false} WithoutRepeatsOneMore(ids: seq<nat>, i: nat)
    requires 0 < i < |ids|
    ensures var before := WithoutRepeats(ids[..i]);
            WithoutRepeats(ids[..i + 1]) == if ids[i - 1] == ids[i] then before else before + [ids[i]]
  {
    assert ids[..i + 1][..i] == ids[..i];
  }

  /** Reuses the array it is given: what is kept is moved to its front. */
  method DropRepeats(a: array<nat>) returns (kept: nat)
    modifies a
    ensures kept <= a.Length
    ensures a[..kept] == WithoutRepeats(old(a[..]))
  {
    ghost var ids := a[..];
    kept := 0;
    var i := 0;
    while i < a.Length
      invariant 0 <= kept <= i <= a.Length
      invariant forall k :: i <= k < a.Length ==> a[k] == ids[k]
      invariant a[..kept] == WithoutRepeats(ids[..i])
      invariant i > 0 ==> kept > 0 && a[kept - 1] == ids[i - 1]
    {
      if i > 0 {
        WithoutRepeatsOneMore(ids, i);
      }
      if kept > 0 && a[kept - 1] == a[i] {
        i := i + 1;
        continue;
      }
      a[kept] := a[i];
      kept := kept + 1;
      i := i + 1;
    }
    assert ids[..a.Length] == ids;
  }

  // ---------- many transactions at once ----------

  /** One transaction: what it will lock, in order, and how much of it it holds. */
  datatype Tx = Tx(plan: seq<Row>, taken: nat)

  predicate Holds(t: Tx, r: Row) {
    exists i :: 0 <= i < t.taken && i < |t.plan| && t.plan[i] == r
  }

  predicate Wants(t: Tx, r: Row) {
    t.taken < |t.plan| && t.plan[t.taken] == r
  }

  predicate Blocks(txs: map<nat, Tx>, holder: nat, waiter: nat)
    requires holder in txs && waiter in txs
  {
    && holder != waiter && txs[waiter].taken < |txs[waiter].plan|
    && Holds(txs[holder], txs[waiter].plan[txs[waiter].taken])
  }

  /** Waiting for a row that one of the given transactions holds. */
  ghost predicate BlockedBy(txs: map<nat, Tx>, among: set<nat>, t: nat)
    requires t in txs && among <= txs.Keys
  {
    exists other :: other in among && Blocks(txs, other, t)
  }

  /** Plans are ordered, and no row is held twice. */
  ghost predicate Consistent(txs: map<nat, Tx>) {
    && (forall t :: t in txs ==> txs[t].taken <= |txs[t].plan| && Ordered(txs[t].plan))
    && (forall a, b, r :: a in txs && b in txs && a != b && Holds(txs[a], r) ==> !Holds(txs[b], r))
  }

  datatype Step = Begin(t: nat, plan: seq<Row>) | Take(t: nat) | Leave(t: nat)

  /** A lock is taken when nobody else holds its row; a transaction leaves when it commits or gives up. */
  ghost predicate Enabled(txs: map<nat, Tx>, s: Step) {
    match s
    case Begin(t, plan) => t !in txs && Ordered(plan)
    case Take(t) => t in txs && txs[t].taken < |txs[t].plan| && !BlockedBy(txs, txs.Keys, t)
    case Leave(t) => t in txs
  }

  ghost function Next(txs: map<nat, Tx>, s: Step): map<nat, Tx>
    requires Enabled(txs, s)
  {
    match s
    case Begin(t, plan) => txs[t := Tx(plan, 0)]
    case Take(t) => txs[t := txs[t].(taken := txs[t].taken + 1)]
    case Leave(t) => map u | u in txs && u != t :: txs[u]
  }

  lemma {:induction false} StepIsConsistent(txs: map<nat, Tx>, s: Step)
    requires Consistent(txs) && Enabled(txs, s)
    ensures Consistent(Next(txs, s))
  {
    var after := Next(txs, s);
    forall a, b, r | a in after && b in after && a != b && Holds(after[a], r)
      ensures !Holds(after[b], r)
    {
      if s.Take? && (a == s.t || b == s.t) {
        var taker, other := s.t, if a == s.t then b else a;
        assert after[other] == txs[other] && !Blocks(txs, other, taker);
        assert Holds(after[taker], r) ==> Holds(txs[taker], r) || Wants(txs[taker], r);
      }
    }
  }

  ghost predicate Runs(txs: map<nat, Tx>, steps: seq<Step>)
    decreases |steps|
  {
    steps == [] || (Enabled(txs, steps[0]) && Runs(Next(txs, steps[0]), steps[1..]))
  }

  ghost function After(txs: map<nat, Tx>, steps: seq<Step>): map<nat, Tx>
    requires Runs(txs, steps)
    decreases |steps|
  {
    if steps == [] then txs else After(Next(txs, steps[0]), steps[1..])
  }

  lemma {:induction false} RunIsConsistent(txs: map<nat, Tx>, steps: seq<Step>)
    requires Consistent(txs) && Runs(txs, steps)
    ensures Consistent(After(txs, steps))
    decreases |steps|
  {
    if steps != [] {
      StepIsConsistent(txs, steps[0]);
      RunIsConsistent(Next(txs, steps[0]), steps[1..]);
    }
  }

  /** Among waiting transactions one waits for a row that is last of those waited for. */
  lemma {:induction false} LastWaiter(txs: map<nat, Tx>, waiting: set<nat>) returns (t: nat)
    requires waiting != {} && waiting <= txs.Keys
    requires forall w :: w in waiting ==> txs[w].taken < |txs[w].plan|
    ensures t in waiting
    ensures forall w :: w in waiting ==> !Less(txs[t].plan[txs[t].taken], txs[w].plan[txs[w].taken])
    decreases |waiting|
  {
    t :| t in waiting;
    if waiting != {t} {
      var other := LastWaiter(txs, waiting - {t});
      if Less(txs[t].plan[txs[t].taken], txs[other].plan[txs[other].taken]) {
        t := other;
      }
    }
  }

  /** In no state that any run of planned transactions reaches does any group of them wait for each other: one of
      the group waits for none of the others. */
  lemma {:induction false} PlannedLockingNeverDeadlocks(steps: seq<Step>, among: set<nat>)
    requires Runs(map[], steps) && among != {} && among <= After(map[], steps).Keys
    ensures exists t :: t in among && !BlockedBy(After(map[], steps), among, t)
  {
    RunIsConsistent(map[], steps);
    SomeoneIsNotBlocked(After(map[], steps), among);
  }

  /** What a transaction still wants comes after everything it holds: who holds the last row waited for waits for
      none. */
  lemma {:induction false} LastHolderIsNotWaiting(txs: map<nat, Tx>, waiting: set<nat>, last: nat, holder: nat)
    requires Consistent(txs) && waiting <= txs.Keys && last in txs && holder in txs && Blocks(txs, holder, last)
    requires forall w :: w in waiting ==>
               txs[w].taken < |txs[w].plan| && !Less(txs[last].plan[txs[last].taken], txs[w].plan[txs[w].taken])
    ensures holder !in waiting
  {
  }

  lemma {:induction false} SomeoneIsNotBlocked(txs: map<nat, Tx>, among: set<nat>)
    requires Consistent(txs) && among != {} && among <= txs.Keys
    ensures exists t :: t in among && !BlockedBy(txs, among, t)
  {
    var waiting := set t | t in among && BlockedBy(txs, among, t);
    if waiting != {} {
      var last := LastWaiter(txs, waiting);
      var holder :| holder in among && Blocks(txs, holder, last);
      LastHolderIsNotWaiting(txs, waiting, last, holder);
    } else {
      var t :| t in among;
      assert t !in waiting;
    }
  }

  // ---------- one transaction started over ----------

  const MAX_ATTEMPTS: nat := 5

  datatype Failure = ParticipantsChanged | DeadlockDetected | SerializationFailure | OtherFailure(reason: string)

  predicate Restartable(f: Failure) {
    !f.OtherFailure?
  }

  /** What one attempt meets at each of its steps: the rows it plans, their locks, the rows it finds again under
      them, its moment, its work and its commit. A step that is not reached says nothing. */
  datatype Attempt<T> = Attempt(
    planned: Result<Participants, Failure>,
    locking: Option<Failure>,
    found: Result<Participants, Failure>,
    moment: Result<int, Failure>,
    work: Result<T, Failure>,
    committing: Option<Failure>)

  /** The locks are held, the rows found under them are the planned ones, and the moment is fixed. */
  predicate Prepared<T>(a: Attempt<T>) {
    a.planned.Ok? && a.locking.None? && a.found == a.planned && a.moment.Ok?
  }

  /** One attempt. It works exactly when it is prepared, and what it worked is stored exactly when it also commits;
      otherwise it is rolled back and answers its first failure. */
  method TryOnce<T>(a: Attempt<T>) returns (r: Result<T, Failure>, worked: bool)
    ensures worked <==> Prepared(a)
    ensures r.Ok? <==> Prepared(a) && a.work.Ok? && a.committing.None?
    ensures r.Ok? ==> r.value == a.work.value
    ensures a.planned.Err? ==> r == Err(a.planned.error)
    ensures a.planned.Ok? && a.locking.Some? ==> r == Err(a.locking.value)
    ensures a.planned.Ok? && a.locking.None? && a.found.Err? ==> r == Err(a.found.error)
    ensures a.planned.Ok? && a.locking.None? && a.found.Ok? && a.found != a.planned ==> r == Err(ParticipantsChanged)
    ensures a.planned.Ok? && a.locking.None? && a.found == a.planned && a.moment.Err? ==> r == Err(a.moment.error)
    ensures Prepared(a) && a.work.Err? ==> r == Err(a.work.error)
    ensures Prepared(a) && a.work.Ok? && a.committing.Some? ==> r == Err(a.committing.value)
  {
    if a.planned.Err? {
      return Err(a.planned.error), false;
    }
    if a.locking.Some? {
      return Err(a.locking.value), false;
    }
    if a.found.Err? {
      return Err(a.found.error), false;
    }
    var same := SameRows(a.planned.value, a.found.value);
    if !same {
      return Err(ParticipantsChanged), false;
    }
    if a.moment.Err? {
      return Err(a.moment.error), false;
    }
    if a.work.Err? {
      return Err(a.work.error), true;
    }
    if a.committing.Some? {
      return Err(a.committing.value), true;
    }
    return Ok(a.work.value), true;
  }

  /** The rows were no longer the planned ones, or the database broke off one of two that were in each other's way. */
  predicate LostARace(f: Failure) {
    f == ParticipantsChanged || f == DeadlockDetected || f == SerializationFailure
  }

  /** An attempt the transaction is started over from. */
  predicate StartsOver<T>(a: Attempt<T>) {
    || (a.planned.Err? && LostARace(a.planned.error))
    || (a.planned.Ok? && a.locking.Some? && LostARace(a.locking.value))
    || (a.planned.Ok? && a.locking.None? && a.found.Err? && LostARace(a.found.error))
    || (a.planned.Ok? && a.locking.None? && a.found.Ok? && a.found != a.planned)
    || (a.planned.Ok? && a.locking.None? && a.found == a.planned && a.moment.Err? && LostARace(a.moment.error))
    || (Prepared(a) && a.work.Err? && LostARace(a.work.error))
    || (Prepared(a) && a.work.Ok? && a.committing.Some? && LostARace(a.committing.value))
  }

  datatype TransactError = Exhausted(last: Failure) | Failed(error: Failure)

  /** Starts over, a bounded number of times, from attempts that lost a race and from no others. Only the last
      attempt can be stored, and it is exactly when the transaction succeeds. */
  method Transact<T>(attempts: seq<Attempt<T>>) returns (r: Result<T, TransactError>, made: nat)
    requires |attempts| >= 5
    ensures 1 <= made <= 5
    ensures forall i :: 0 <= i < made - 1 ==> StartsOver(attempts[i])
    ensures var last := attempts[made - 1];
            && (r.Ok? <==> Prepared(last) && last.work.Ok? && last.committing.None?)
            && (r.Ok? ==> r.value == last.work.value)
            && (r.Err? && r.error.Exhausted? <==> StartsOver(last))
            && (r.Err? && r.error.Exhausted? ==> made == 5)
            && (r.Err? && r.error.Failed? ==> r.error.error.OtherFailure?)
  {
    made := 0;
    var lost := ParticipantsChanged;
    while made < MAX_ATTEMPTS
      invariant made <= MAX_ATTEMPTS
      invariant forall i :: 0 <= i < made ==> StartsOver(attempts[i])
    {
      var ending, _ := TryOnce(attempts[made]);
      made := made + 1;
      if ending.Ok? {
        return Ok(ending.value), made;
      }
      if !Restartable(ending.error) {
        return Err(Failed(ending.error)), made;
      }
      lost := ending.error;
    }
    return Err(Exhausted(lost)), made;
  }

  method SameOrder(left: seq<nat>, right: seq<nat>) returns (same: bool)
    ensures same <==> left == right
  {
    if |left| != |right| {
      return false;
    }
    var i := 0;
    while i < |left|
      invariant 0 <= i <= |left| && left[..i] == right[..i]
    {
      if left[i] != right[i] {
        return false;
      }
      i := i + 1;
    }
    return true;
  }

  method SameRows(a: Participants, b: Participants) returns (same: bool)
    ensures same <==> a == b
  {
    var users := SameOrder(a.users, b.users);
    var vehicles := SameOrder(a.vehicles, b.vehicles);
    var rentals := SameOrder(a.rentals, b.rentals);
    return users && vehicles && rentals;
  }
}
