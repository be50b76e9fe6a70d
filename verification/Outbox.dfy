/** The queue of durable work: tasks held under leases that run out
    (backend/internal/outbox/store.go, backend/internal/outbox/worker.go). */
module Outbox {
  import opened Wrappers

  /** What a task is about. */
  datatype Subject = PaymentOf(rental: nat) | LetterAbout(rental: nat) | Announcement(resource: nat)

  /** What a task asks for; every announced kind is a signal here. */
  datatype Kind = PaymentTask | LetterTask | SignalTask

  function KindOf(subject: Subject): Kind {
    match subject
    case PaymentOf(_) => PaymentTask
    case LetterAbout(_) => LetterTask
    case Announcement(_) => SignalTask
  }

  /** Whether a task is of one of some kinds. */
  predicate Among(subject: Subject, kinds: set<Kind>) {
    || (subject.PaymentOf? && PaymentTask in kinds)
    || (subject.LetterAbout? && LetterTask in kinds)
    || (subject.Announcement? && SignalTask in kinds)
  }

  datatype Lease = Lease(token: nat, expiresAt: int)

  datatype Verdict = Delivered | Refused

  /** History: one claim of a task, and how it was settled, if it was. */
  datatype Claim = Claim(token: nat, at: int, until: int, verdict: Option<Verdict>)

  /** `claims` is history that no statement reads. */
  datatype Task = Task(
    subject: Subject,
    attempts: nat,
    nextAttemptAt: int,
    lease: Option<Lease>,
    completedAt: Option<int>,
    lastError: Option<string>,
    claims: seq<Claim>)

  function Recorded(subject: Subject, now: int): Task {
    Task(subject, 0, now, None, None, None, [])
  }

  predicate Claimable(t: Task, now: int) {
    t.completedAt.None? && t.nextAttemptAt <= now && (t.lease.None? || t.lease.value.expiresAt <= now)
  }

  /** Whether an attempt still owns its task: only then may it settle it. */
  predicate Owns(t: Task, token: nat, now: int) {
    t.lease.Some? && t.lease.value.token == token && t.lease.value.expiresAt > now
  }

  function Claimed(t: Task, token: nat, now: int, lease: nat): Task {
    t.(lease := Some(Lease(token, now + lease)), attempts := t.attempts + 1,
       claims := t.claims + [Claim(token, now, now + lease, None)])
  }

  /** History: the last claim settled. */
  function Settled(claims: seq<Claim>, verdict: Verdict): seq<Claim> {
    if claims == [] then [] else claims[|claims| - 1 := claims[|claims| - 1].(verdict := Some(verdict))]
  }

  function Completed(t: Task, now: int): Task {
    t.(completedAt := Some(now), lease := None, lastError := None, claims := Settled(t.claims, Delivered))
  }

  function Failed(t: Task, error: string, now: int, delay: nat): Task {
    t.(lease := None, lastError := Some(error), nextAttemptAt := now + delay, claims := Settled(t.claims, Refused))
  }

  // ---------- what is always so of a task ----------

  predicate Taken(t: Task) {
    t.claims != []
  }

  function LastClaim(t: Task): Claim
    requires Taken(t)
  {
    t.claims[|t.claims| - 1]
  }

  /** Every claim counted; the lease is the last claim's and that claim is not settled; a task nobody holds was
      settled by its last claim; only the last claim can have delivered it, and that completes it for good. */
  predicate TaskOk(t: Task) {
    && t.attempts == |t.claims|
    && (t.lease.Some? ==>
          Taken(t) && LastClaim(t).verdict.None? && t.lease.value == Lease(LastClaim(t).token, LastClaim(t).until))
    && (t.lease.None? && Taken(t) ==> LastClaim(t).verdict.Some?)
    && (t.completedAt.Some? <==> Taken(t) && LastClaim(t).verdict == Some(Delivered))
    && (forall i :: 0 <= i < |t.claims| - 1 ==> t.claims[i].verdict != Some(Delivered))
    && (forall i :: 0 < i < |t.claims| && t.claims[i - 1].verdict.None? ==> t.claims[i - 1].until <= t.claims[i].at)
  }

  /** How a task may differ from what it was: claims are only added and never forgotten, one that was overtaken or
      settled stays as it was, and a completed task is never claimed again. */
  predicate TaskFollows(a: Task, b: Task) {
    && b.subject == a.subject && a.attempts <= b.attempts && |a.claims| <= |b.claims|
    && (forall i :: 0 <= i < |a.claims| ==>
          && b.claims[i].token == a.claims[i].token && b.claims[i].at == a.claims[i].at
          && b.claims[i].until == a.claims[i].until
          && (i < |a.claims| - 1 || a.claims[i].verdict.Some? ==> b.claims[i] == a.claims[i]))
    && (a.completedAt.Some? ==> b == a)
  }

  lemma {:induction false} ClaimingKeeps(t: Task, token: nat, now: int, lease: nat)
    requires TaskOk(t) && Claimable(t, now)
    ensures TaskOk(Claimed(t, token, now, lease)) && TaskFollows(t, Claimed(t, token, now, lease))
    ensures Claimed(t, token, now, lease).attempts == t.attempts + 1
    ensures LastClaim(Claimed(t, token, now, lease)) == Claim(token, now, now + lease, None)
  {
  }

  lemma {:induction false} SettlingKeeps(t: Task, token: nat, now: int, error: string, delay: nat)
    requires TaskOk(t) && Owns(t, token, now)
    ensures TaskOk(Completed(t, now)) && TaskFollows(t, Completed(t, now))
    ensures TaskOk(Failed(t, error, now, delay)) && TaskFollows(t, Failed(t, error, now, delay))
    ensures LastClaim(t).token == token && now < LastClaim(t).until
    ensures Completed(t, now).completedAt == Some(now) && Completed(t, now).lastError.None?
    ensures forall later :: !Claimable(Completed(t, now), later)
    ensures forall later :: Claimable(Failed(t, error, now, delay), later) <==> now + delay <= later
  {
  }

  lemma {:induction false} TaskFollowsTwice(a: Task, b: Task, c: Task)
    requires TaskFollows(a, b) && TaskFollows(b, c)
    ensures TaskFollows(a, c)
  {
    forall i | 0 <= i < |a.claims|
      ensures c.claims[i].token == a.claims[i].token && c.claims[i].at == a.claims[i].at
      ensures c.claims[i].until == a.claims[i].until
      ensures i < |a.claims| - 1 || a.claims[i].verdict.Some? ==> c.claims[i] == a.claims[i]
    {
      assert b.claims[i].token == a.claims[i].token;
    }
  }

  // ---------- the queue ----------

  /** One statement against the queue, at the moment its own transaction fixed. */
  datatype Statement =
    | Record(id: nat, subject: Subject)
    | Take(id: nat, token: nat, lease: nat)
    | Complete(id: nat, token: nat)
    | Fail(id: nat, token: nat, error: string, delay: nat)
    | Delete(ids: set<nat>)

  /** The queue, with history: `used` are the tokens that were ever drawn and `gone` the tasks deleted. */
  datatype Queue = Queue(tasks: map<nat, Task>, used: set<nat>, gone: map<nat, Task>)

  predicate Allowed(q: Queue, s: Statement, now: int) {
    match s
    case Record(id, _) => id !in q.tasks && id !in q.gone
    case Take(id, token, _) => id in q.tasks && Claimable(q.tasks[id], now) && token !in q.used
    case Delete(ids) => forall id :: id in ids && id in q.tasks ==> q.tasks[id].completedAt.Some?
    case _ => true
  }

  function Applied(q: Queue, s: Statement, now: int): Queue
    requires Allowed(q, s, now)
  {
    match s
    case Record(id, subject) => q.(tasks := q.tasks[id := Recorded(subject, now)])
    case Take(id, token, lease) =>
      q.(tasks := q.tasks[id := Claimed(q.tasks[id], token, now, lease)], used := q.used + {token})
    case Complete(id, token) =>
      if id in q.tasks && Owns(q.tasks[id], token, now) then q.(tasks := q.tasks[id := Completed(q.tasks[id], now)])
      else q
    case Fail(id, token, error, delay) =>
      if id in q.tasks && Owns(q.tasks[id], token, now) then
        q.(tasks := q.tasks[id := Failed(q.tasks[id], error, now, delay)])
      else q
    case Delete(ids) =>
      q.(tasks := map id | id in q.tasks && id !in ids :: q.tasks[id],
         gone := map id | id in q.gone.Keys + (q.tasks.Keys * ids) :: if id in q.gone then q.gone[id] else q.tasks[id])
  }

  /** The queue with the tasks one change records. */
  function WithTasks(q: Queue, recorded: map<nat, Subject>, now: int): Queue {
    q.(tasks := q.tasks + map id | id in recorded :: Recorded(recorded[id], now))
  }

  /** Everything that was ever recorded. */
  predicate Known(q: Queue, id: nat) {
    id in q.tasks || id in q.gone
  }

  function TaskOf(q: Queue, id: nat): Task
    requires Known(q, id)
  {
    if id in q.tasks then q.tasks[id] else q.gone[id]
  }

  ghost predicate QueueOk(q: Queue) {
    && q.tasks.Keys !! q.gone.Keys
    && (forall id :: Known(q, id) ==> TaskOk(TaskOf(q, id)))
    && (forall id :: id in q.gone ==> q.gone[id].completedAt.Some?)
    && (forall id, i :: Known(q, id) && 0 <= i < |TaskOf(q, id).claims| ==> TaskOf(q, id).claims[i].token in q.used)
    && (forall id, i, other, j ::
          (&& Known(q, id) && Known(q, other)
           && 0 <= i < |TaskOf(q, id).claims| && 0 <= j < |TaskOf(q, other).claims|
           && TaskOf(q, id).claims[i].token == TaskOf(q, other).claims[j].token) ==> id == other && i == j)
  }

  ghost predicate QueueFollows(a: Queue, b: Queue) {
    && (forall id :: Known(a, id) ==> Known(b, id) && TaskFollows(TaskOf(a, id), TaskOf(b, id)))
    && a.used <= b.used
  }

  lemma {:induction false} QueueFollowsTwice(a: Queue, b: Queue, c: Queue)
    requires QueueFollows(a, b) && QueueFollows(b, c)
    ensures QueueFollows(a, c)
  {
    forall id | Known(a, id)
      ensures Known(c, id) && TaskFollows(TaskOf(a, id), TaskOf(c, id))
    {
      TaskFollowsTwice(TaskOf(a, id), TaskOf(b, id), TaskOf(c, id));
    }
  }

  /** One task changed and the rest of the queue left alone. */
  lemma {:induction false} OneTaskChanged(q: Queue, id: nat, t: Task, used: set<nat>)
    requires QueueOk(q) && id in q.tasks && TaskOk(t) && TaskFollows(q.tasks[id], t) && q.used <= used
    requires forall i :: 0 <= i < |t.claims| ==>
               t.claims[i].token in used && (i < |q.tasks[id].claims| || t.claims[i].token !in q.used)
    requires |t.claims| <= |q.tasks[id].claims| + 1
    ensures var after := q.(tasks := q.tasks[id := t], used := used);
            QueueOk(after) && QueueFollows(q, after)
  {
    var after := q.(tasks := q.tasks[id := t], used := used);
    var before := q.tasks[id];
    forall x | Known(q, x)
      ensures Known(after, x) && TaskFollows(TaskOf(q, x), TaskOf(after, x))
    {
    }
    forall x, i, y, j | Known(after, x) && Known(after, y) && 0 <= i < |TaskOf(after, x).claims|
                        && 0 <= j < |TaskOf(after, y).claims|
                        && TaskOf(after, x).claims[i].token == TaskOf(after, y).claims[j].token
      ensures x == y && i == j
    {
      assert Known(q, x) && Known(q, y);
      if i < |TaskOf(q, x).claims| && j < |TaskOf(q, y).claims| {
        assert TaskOf(q, x).claims[i].token == TaskOf(q, y).claims[j].token;
      }
    }
  }

  lemma {:induction false} RecordingKeeps(q: Queue, id: nat, subject: Subject, now: int)
    requires QueueOk(q) && !Known(q, id)
    ensures var after := q.(tasks := q.tasks[id := Recorded(subject, now)]);
            && QueueOk(after) && QueueFollows(q, after)
            && after.tasks[id].subject == subject && !Taken(after.tasks[id])
            && (forall later :: Claimable(after.tasks[id], later) <==> now <= later)
  {
    var after := q.(tasks := q.tasks[id := Recorded(subject, now)]);
    forall x | Known(q, x)
      ensures Known(after, x) && TaskOf(after, x) == TaskOf(q, x)
    {
    }
    assert TaskOf(after, id).claims == [];
    forall x | Known(after, x) && x != id
      ensures Known(q, x) && TaskOf(after, x) == TaskOf(q, x)
    {
    }
  }

  lemma {:induction false} DeletingKeeps(q: Queue, ids: set<nat>, now: int)
    requires QueueOk(q) && Allowed(q, Delete(ids), now)
    ensures QueueOk(Applied(q, Delete(ids), now)) && QueueFollows(q, Applied(q, Delete(ids), now))
  {
    var after := Applied(q, Delete(ids), now);
    assert forall id :: Known(after, id) <==> Known(q, id);
    assert forall id :: Known(q, id) ==> TaskOf(after, id) == TaskOf(q, id);
  }

  lemma {:induction false} TakingKeeps(q: Queue, id: nat, token: nat, lease: nat, now: int)
    requires QueueOk(q) && id in q.tasks && Claimable(q.tasks[id], now) && token !in q.used
    ensures var after := q.(tasks := q.tasks[id := Claimed(q.tasks[id], token, now, lease)], used := q.used + {token});
            QueueOk(after) && QueueFollows(q, after)
  {
    assert Known(q, id) && TaskOf(q, id) == q.tasks[id];
    ClaimingKeeps(q.tasks[id], token, now, lease);
    OneTaskChanged(q, id, Claimed(q.tasks[id], token, now, lease), q.used + {token});
  }

  lemma {:induction false} SettledIsKept(q: Queue, id: nat, token: nat, now: int, error: string, delay: nat)
    requires QueueOk(q) && id in q.tasks && Owns(q.tasks[id], token, now)
    ensures var completed := q.(tasks := q.tasks[id := Completed(q.tasks[id], now)]);
            QueueOk(completed) && QueueFollows(q, completed)
    ensures var failed := q.(tasks := q.tasks[id := Failed(q.tasks[id], error, now, delay)]);
            QueueOk(failed) && QueueFollows(q, failed)
  {
    assert Known(q, id) && TaskOf(q, id) == q.tasks[id];
    SettlingKeeps(q.tasks[id], token, now, error, delay);
    OneTaskChanged(q, id, Completed(q.tasks[id], now), q.used);
    OneTaskChanged(q, id, Failed(q.tasks[id], error, now, delay), q.used);
  }

  /** Every statement keeps what holds of the queue. */
  lemma {:induction false} StatementKeeps(q: Queue, s: Statement, now: int)
    requires QueueOk(q) && Allowed(q, s, now)
    ensures QueueOk(Applied(q, s, now)) && QueueFollows(q, Applied(q, s, now))
  {
    match s
    case Record(id, subject) => RecordingKeeps(q, id, subject, now);
    case Take(id, token, lease) => TakingKeeps(q, id, token, lease, now);
    case Complete(id, token) =>
      if id in q.tasks && Owns(q.tasks[id], token, now) {
        SettledIsKept(q, id, token, now, "", 0);
      }
    case Fail(id, token, error, delay) =>
      if id in q.tasks && Owns(q.tasks[id], token, now) {
        SettledIsKept(q, id, token, now, error, delay);
      }
    case Delete(ids) => DeletingKeeps(q, ids, now);
  }

  // ---------- runs ----------

  datatype Timed = Timed(now: int, statement: Statement)

  ghost predicate RunAllowed(q: Queue, steps: seq<Timed>)
    decreases |steps|
  {
    steps == [] ||
    (Allowed(q, steps[0].statement, steps[0].now) &&
     RunAllowed(Applied(q, steps[0].statement, steps[0].now), steps[1..]))
  }

  ghost function RunOf(q: Queue, steps: seq<Timed>): Queue
    requires RunAllowed(q, steps)
    decreases |steps|
  {
    if steps == [] then q else RunOf(Applied(q, steps[0].statement, steps[0].now), steps[1..])
  }

  lemma {:induction false} RunKeeps(q: Queue, steps: seq<Timed>)
    requires QueueOk(q) && RunAllowed(q, steps)
    ensures QueueOk(RunOf(q, steps)) && QueueFollows(q, RunOf(q, steps))
    decreases |steps|
  {
    if steps == [] {
      assert forall id :: Known(q, id) ==> TaskFollows(TaskOf(q, id), TaskOf(q, id));
    } else {
      var next := Applied(q, steps[0].statement, steps[0].now);
      StatementKeeps(q, steps[0].statement, steps[0].now);
      RunKeeps(next, steps[1..]);
      QueueFollowsTwice(q, next, RunOf(next, steps[1..]));
    }
  }

  /** At any moment of any run at most one claim of a task can settle it, and it is the last one that was made. */
  lemma {:induction false} OneClaimCanSettle(q: Queue, steps: seq<Timed>, id: nat, token: nat, now: int)
    requires QueueOk(q) && RunAllowed(q, steps) && id in RunOf(q, steps).tasks
    requires Owns(RunOf(q, steps).tasks[id], token, now)
    ensures var t := RunOf(q, steps).tasks[id];
            && Taken(t) && LastClaim(t).token == token && LastClaim(t).verdict.None? && now < LastClaim(t).until
            && t.completedAt.None?
            && (forall other, later :: Owns(t, other, later) ==> other == token)
            && (forall i :: 0 <= i < |t.claims| - 1 ==> t.claims[i].token != token)
  {
    RunKeeps(q, steps);
    var after := RunOf(q, steps);
    assert Known(after, id) && TaskOf(after, id) == after.tasks[id];
    var t := after.tasks[id];
    forall i | 0 <= i < |t.claims| - 1
      ensures t.claims[i].token != token
    {
      OvertakenDoesNotOwn(after, id, i, now);
    }
  }

  lemma {:induction false} OvertakenDoesNotOwn(q: Queue, id: nat, i: nat, now: int)
    requires QueueOk(q) && id in q.tasks && i < |q.tasks[id].claims| - 1
    ensures !Owns(q.tasks[id], q.tasks[id].claims[i].token, now)
  {
    var t := q.tasks[id];
    assert Known(q, id) && TaskOf(q, id) == t;
    assert TaskOf(q, id).claims[i].token == TaskOf(q, id).claims[|t.claims| - 1].token ==> i == |t.claims| - 1;
  }

  /** A claim that was overtaken changes no row, whatever its worker does and whenever: it settles nothing from
      then on, and what became of it never changes. */
  lemma {:induction false} OvertakenClaimsChangeNothing(q: Queue, steps: seq<Timed>, id: nat, i: nat, now: int,
                                                        error: string, delay: nat)
    requires QueueOk(q) && RunAllowed(q, steps) && id in q.tasks && i < |q.tasks[id].claims| - 1
    ensures var (token, after) := (q.tasks[id].claims[i].token, RunOf(q, steps));
            && Applied(after, Complete(id, token), now) == after
            && Applied(after, Fail(id, token, error, delay), now) == after
            && Known(after, id) && i < |TaskOf(after, id).claims| - 1
            && TaskOf(after, id).claims[i] == q.tasks[id].claims[i]
  {
    RunKeeps(q, steps);
    var after := RunOf(q, steps);
    assert Known(q, id) && TaskOf(q, id) == q.tasks[id] && TaskFollows(TaskOf(q, id), TaskOf(after, id));
    if id in after.tasks {
      OvertakenDoesNotOwn(after, id, i, now);
    }
  }

  /** A completed task is never claimed again and changes no more; a task that was not delivered is never deleted;
      the attempts of a task are its claims. */
  lemma {:induction false} TasksAreDeliveredOnce(q: Queue, steps: seq<Timed>, id: nat)
    requires QueueOk(q) && RunAllowed(q, steps) && id in q.tasks
    ensures var after := RunOf(q, steps);
            && Known(after, id)
            && (q.tasks[id].completedAt.Some? ==> TaskOf(after, id) == q.tasks[id])
            && (TaskOf(after, id).completedAt.None? ==> id in after.tasks)
            && TaskOf(after, id).attempts == |TaskOf(after, id).claims|
            && (forall i, j :: 0 <= i < |TaskOf(after, id).claims| && 0 <= j < |TaskOf(after, id).claims|
                  && TaskOf(after, id).claims[i].verdict == TaskOf(after, id).claims[j].verdict == Some(Delivered)
                  ==> i == j)
  {
    RunKeeps(q, steps);
    assert Known(q, id) && TaskOf(q, id) == q.tasks[id];
    assert TaskOk(TaskOf(RunOf(q, steps), id)) && TaskFollows(TaskOf(q, id), TaskOf(RunOf(q, steps), id));
  }

  /** Whether a statement is the settling of one claim of one task. */
  predicate SettlesClaim(s: Statement, id: nat, token: nat) {
    match s
    case Complete(named, drawn) => named == id && drawn == token
    case Fail(named, drawn, _, _) => named == id && drawn == token
    case _ => false
  }

  /** Nobody may touch the task yet: it is not due, or a lease that has not run out holds it. */
  predicate Rests(t: Task, now: int) {
    t.completedAt.None? && (if t.lease.Some? then now < t.lease.value.expiresAt else now < t.nextAttemptAt)
  }

  lemma {:induction false} RestingTasksStay(q: Queue, steps: seq<Timed>, id: nat)
    requires RunAllowed(q, steps) && id in q.tasks
    requires forall i :: 0 <= i < |steps| ==> Rests(q.tasks[id], steps[i].now)
    requires q.tasks[id].lease.Some? ==>
               forall i :: 0 <= i < |steps| ==> !SettlesClaim(steps[i].statement, id, q.tasks[id].lease.value.token)
    ensures id in RunOf(q, steps).tasks && RunOf(q, steps).tasks[id] == q.tasks[id]
    decreases |steps|
  {
    if steps != [] {
      var next := Applied(q, steps[0].statement, steps[0].now);
      assert Rests(q.tasks[id], steps[0].now);
      assert id in next.tasks && next.tasks[id] == q.tasks[id];
      RestingTasksStay(next, steps[1..], id);
    }
  }

  /** A task that was refused is left alone by every run until its delay is over, and is due again exactly then. */
  lemma {:induction false} RefusedTasksWait(q: Queue, steps: seq<Timed>, id: nat, token: nat, error: string, now: int,
                                            delay: nat)
    requires id in q.tasks && q.tasks[id].completedAt.None? && Owns(q.tasks[id], token, now)
    requires var refused := Applied(q, Fail(id, token, error, delay), now);
             RunAllowed(refused, steps) && forall i :: 0 <= i < |steps| ==> steps[i].now < now + delay
    ensures var after := RunOf(Applied(q, Fail(id, token, error, delay), now), steps);
            && id in after.tasks
            && after.tasks[id].claims == Settled(q.tasks[id].claims, Refused)
            && after.tasks[id].lastError == Some(error)
            && (forall later :: Claimable(after.tasks[id], later) <==> now + delay <= later)
  {
    RestingTasksStay(Applied(q, Fail(id, token, error, delay), now), steps, id);
  }

  /** A claim is its worker's alone for exactly its lease: until then no run touches the task but to settle it for that
      claim, and from then on it may be claimed again. */
  lemma {:induction false} ClaimsLastTheirLease(q: Queue, steps: seq<Timed>, id: nat, token: nat, lease: nat, now: int)
    requires Allowed(q, Take(id, token, lease), now)
    requires var claimed := Applied(q, Take(id, token, lease), now);
             && RunAllowed(claimed, steps)
             && forall i :: 0 <= i < |steps| ==>
                  steps[i].now < now + lease && !SettlesClaim(steps[i].statement, id, token)
    ensures var after := RunOf(Applied(q, Take(id, token, lease), now), steps);
            && id in after.tasks
            && after.tasks[id].attempts == q.tasks[id].attempts + 1
            && after.tasks[id].claims == q.tasks[id].claims + [Claim(token, now, now + lease, None)]
            && (forall later :: Owns(after.tasks[id], token, later) <==> later < now + lease)
            && (forall later :: Claimable(after.tasks[id], later) <==> now + lease <= later)
  {
    RestingTasksStay(Applied(q, Take(id, token, lease), now), steps, id);
  }

  // ---------- the queue as its statements run ----------

  /** The claim order: the task that has waited longest, by its identifier where two waited alike. */
  predicate Earlier(tasks: map<nat, Task>, a: nat, b: nat)
    requires a in tasks && b in tasks
  {
    tasks[a].nextAttemptAt < tasks[b].nextAttemptAt || (tasks[a].nextAttemptAt == tasks[b].nextAttemptAt && a <= b)
  }

  /** The delivered tasks of some kinds that the retention is over for. */
  function Outlived(tasks: map<nat, Task>, kinds: set<Kind>, retention: nat, now: int): (ids: set<nat>) {
    set id | id in tasks && KindOf(tasks[id].subject) in kinds && tasks[id].completedAt.Some? &&
             tasks[id].completedAt.value <= now - retention
  }

  /** As many of them as there are, up to a limit, and none that was delivered before a task left out. */
  ghost predicate OldestOf(tasks: map<nat, Task>, all: set<nat>, limit: nat, picked: set<nat>)
    requires forall id :: id in all ==> id in tasks && tasks[id].completedAt.Some?
  {
    && picked <= all && |picked| <= limit && (|picked| < limit ==> picked == all)
    && (forall id, other :: id in picked && other in all - picked ==>
          tasks[id].completedAt.value <= tasks[other].completedAt.value)
  }

  class Store {
    var tasks: map<nat, Task>
    ghost var used: set<nat>
    ghost var gone: map<nat, Task>

    ghost function Value(): Queue
      reads this
    {
      Queue(tasks, used, gone)
    }

    constructor ()
      ensures Value() == Queue(map[], {}, map[])
    {
      tasks, used, gone := map[], {}, map[];
    }

    /** Records all tasks of one change in one statement, each due at once. */
    method RecordTasks(recorded: map<nat, Subject>, now: int)
      requires forall id :: id in recorded ==> !Known(Value(), id)
      modifies this`tasks
      ensures Value() == WithTasks(old(Value()), recorded, now)
    {
      var stored: map<nat, Task>, left := map[], recorded.Keys;
      while left != {}
        invariant left <= recorded.Keys && stored.Keys == recorded.Keys - left
        invariant forall id :: id in stored ==> stored[id] == Recorded(recorded[id], now)
        decreases left
      {
        var id :| id in left;
        left := left - {id};
        stored := stored[id := Recorded(recorded[id], now)];
      }
      tasks := tasks + stored;
    }

    /** Takes the task that has waited longest of those no live lease holds, passing over the rows that other
        transactions have `locked`: it takes nothing only when every claimable row is one of theirs. */
    method TakeNext(token: nat, now: int, lease: nat, locked: set<nat>) returns (taken: Option<nat>)
      requires token !in used
      modifies this
      ensures taken.None? ==>
                && Value() == old(Value())
                && forall id :: id in tasks && Claimable(tasks[id], now) ==> id in locked
      ensures taken.Some? ==>
                && taken.value !in locked
                && Allowed(old(Value()), Take(taken.value, token, lease), now)
                && Value() == Applied(old(Value()), Take(taken.value, token, lease), now)
                && forall id :: id in old(tasks) && Claimable(old(tasks)[id], now) && id !in locked ==>
                     || old(tasks)[taken.value].nextAttemptAt < old(tasks)[id].nextAttemptAt
                     || (old(tasks)[taken.value].nextAttemptAt == old(tasks)[id].nextAttemptAt && taken.value <= id)
    {
      taken := None;
      var left := tasks.Keys;
      while left != {}
        invariant left <= tasks.Keys && Value() == old(Value())
        invariant taken.Some? ==> taken.value in tasks && taken.value !in locked && Claimable(tasks[taken.value], now)
        invariant forall id :: id in tasks && id !in left && id !in locked && Claimable(tasks[id], now) ==>
                    taken.Some? && Earlier(tasks, taken.value, id)
        decreases left
      {
        var id :| id in left;
        left := left - {id};
        if id !in locked && Claimable(tasks[id], now) && (taken.None? || Earlier(tasks, id, taken.value)) {
          taken := Some(id);
        }
      }
      if taken.Some? {
        tasks := tasks[taken.value := Claimed(tasks[taken.value], token, now, lease)];
        used := used + {token};
      }
    }

    method CompleteTask(id: nat, token: nat, now: int) returns (settled: bool)
      modifies this`tasks
      ensures Value() == Applied(old(Value()), Complete(id, token), now)
      ensures settled == (id in old(tasks) && Owns(old(tasks)[id], token, now))
    {
      if id !in tasks || !Owns(tasks[id], token, now) {
        return false;
      }
      tasks := tasks[id := Completed(tasks[id], now)];
      return true;
    }

    method FailTask(id: nat, token: nat, error: string, now: int, delay: nat) returns (settled: bool)
      modifies this`tasks
      ensures Value() == Applied(old(Value()), Fail(id, token, error, delay), now)
      ensures settled == (id in old(tasks) && Owns(old(tasks)[id], token, now))
    {
      if id !in tasks || !Owns(tasks[id], token, now) {
        return false;
      }
      tasks := tasks[id := Failed(tasks[id], error, now, delay)];
      return true;
    }

    method Oldest(left: set<nat>) returns (oldest: nat)
      requires left != {} && forall id :: id in left ==> id in tasks && tasks[id].completedAt.Some?
      ensures oldest in left
      ensures forall id :: id in left ==> tasks[oldest].completedAt.value <= tasks[id].completedAt.value
    {
      oldest :| oldest in left;
      var rest := left - {oldest};
      while rest != {}
        invariant rest <= left && oldest in left
        invariant forall id :: id in left - rest ==> tasks[oldest].completedAt.value <= tasks[id].completedAt.value
        decreases rest
      {
        var id :| id in rest;
        rest := rest - {id};
        if tasks[id].completedAt.value < tasks[oldest].completedAt.value {
          oldest := id;
        }
      }
    }

    method PickOldest(kinds: set<Kind>, retention: nat, limit: nat, now: int) returns (picked: set<nat>)
      ensures OldestOf(tasks, Outlived(tasks, kinds, retention, now), limit, picked)
    {
      var all := Outlived(tasks, kinds, retention, now);
      picked := {};
      var left := all;
      while |picked| < limit && left != {}
        invariant picked + left == all && picked !! left && |picked| <= limit
        invariant forall id, other :: id in picked && other in left ==>
                    tasks[id].completedAt.value <= tasks[other].completedAt.value
        decreases left
      {
        var oldest := Oldest(left);
        picked, left := picked + {oldest}, left - {oldest};
      }
      assert all - picked == left;
    }

    /** Deletes delivered tasks of the named kinds that are older than the retention, the oldest first. */
    method DeleteCompleted(kinds: set<Kind>, retention: nat, limit: nat, now: int) returns (deleted: set<nat>)
      modifies this
      ensures OldestOf(old(tasks), Outlived(old(tasks), kinds, retention, now), limit, deleted)
      ensures forall id :: id in deleted ==>
                && id in old(tasks) && Among(old(tasks)[id].subject, kinds) && old(tasks)[id].completedAt.Some?
                && old(tasks)[id].completedAt.value + retention <= now
      ensures |deleted| < limit ==>
                forall id :: id in old(tasks) && old(tasks)[id].completedAt.Some? ==>
                  (id in deleted <==> Among(old(tasks)[id].subject, kinds)
                                      && old(tasks)[id].completedAt.value + retention <= now)
      ensures Allowed(old(Value()), Delete(deleted), now) && Value() == Applied(old(Value()), Delete(deleted), now)
    {
      deleted := PickOldest(kinds, retention, limit, now);
      gone := map id | id in gone.Keys + (tasks.Keys * deleted) :: if id in gone then gone[id] else tasks[id];
      tasks := map id | id in tasks && id !in deleted :: tasks[id];
    }
  }

  /** What one delivery ended in. A worker that is stopping settles nothing. */
  datatype Outcome = Succeeded | Broke(error: string) | Stopping

  /** The worker: it counts an attempt only when it settled it. */
  class Worker {
    const store: Store
    var delivered: nat
    var failed: nat

    constructor (store: Store)
      ensures this.store == store && delivered == 0 && failed == 0
    {
      this.store := store;
      delivered, failed := 0, 0;
    }

    method DeliverClaim(id: nat, token: nat, outcome: Outcome, now: int, delay: nat)
      modifies this, store
      ensures store.Value() == match outcome
                               case Succeeded => Applied(old(store.Value()), Complete(id, token), now)
                               case Broke(error) => Applied(old(store.Value()), Fail(id, token, error, delay), now)
                               case Stopping => old(store.Value())
      ensures var owned := id in old(store.tasks) && Owns(old(store.tasks)[id], token, now);
              && delivered == old(delivered) + (if owned && outcome == Succeeded then 1 else 0)
              && failed == old(failed) + (if owned && outcome.Broke? then 1 else 0)
    {
      match outcome {
        case Stopping =>
        case Broke(error) =>
          var settled := store.FailTask(id, token, error, now, delay);
          if settled {
            failed := failed + 1;
          }
        case Succeeded =>
          var settled := store.CompleteTask(id, token, now);
          if settled {
            delivered := delivered + 1;
          }
      }
    }
  }
}
