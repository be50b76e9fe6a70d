/** Workers, their leases, the box and the payments together: one letter per invoice and one settled attempt
    (backend/internal/outbox/worker.go, backend/internal/mailstub/delivery.go,
    backend/internal/rentals/ending.go, backend/internal/rentals/paymentattempt.go). */
module Deliveries {
  import opened Wrappers
  import opened Invoices
  import opened Rentals
  import opened Operations
  import opened Invariants
  import opened Runs
  import opened Mail
  import Outbox

  /** Where one attempt stands: it claimed its task, read what it delivers, ended, or met a conflict. */
  datatype Phase = Claimed | Carrying(request: Request) | Ended(ok: bool) | Clashed

  /** An attempt in the memory of some worker; nothing else knows of it. */
  datatype Flight = Flight(id: nat, subject: Outbox.Subject, phase: Phase)

  datatype World = World(
    db: Db,
    queue: Outbox.Queue,
    box: Box,
    accounts: map<nat, string>,
    flights: map<nat, Flight>)

  datatype Event =
    | Transact(timed: Timed, recorded: map<nat, Outbox.Subject>)
    | Claim(token: nat, id: nat, lease: nat, now: int)
    | Read(token: nat)
    | Send(token: nat, now: int, lost: bool)
    | Try(token: nat, moment: int, declined: bool, lost: bool)
    | Break(token: nat)
    | Settle(token: nat, now: int, delay: nat)
    | Crash(token: nat)
    | Arm
    | Retire(ids: set<nat>, now: int)

  // ---------- what an ending owes ----------

  /** The tasks the endings of the stored rentals owe. */
  predicate Owed(db: Db, subject: Outbox.Subject) {
    match subject
    case LetterAbout(rental) => rental in db.rows && InvoiceLetter in db.rows[rental].owed
    case PaymentOf(rental) => rental in db.rows && PaymentAttempt in db.rows[rental].owed
    case Announcement(_) => true
  }

  predicate OfRide(subject: Outbox.Subject) {
    !subject.Announcement?
  }

  /** A transaction records, with the rows it changes, exactly the tasks its endings owe, each once. */
  ghost predicate RecordsItsEndings(before: Db, after: Db, recorded: map<nat, Outbox.Subject>) {
    && (forall id :: id in recorded && OfRide(recorded[id]) ==>
          Owed(after, recorded[id]) && !Owed(before, recorded[id]))
    && (forall subject :: OfRide(subject) && Owed(after, subject) && !Owed(before, subject) ==>
          exists id :: id in recorded && recorded[id] == subject)
    && (forall a, b :: a in recorded && b in recorded && recorded[a] == recorded[b] && OfRide(recorded[a]) ==> a == b)
  }

  // ---------- what one event does ----------

  /** The letter a delivery renders: the invoice as it was issued, to the account that owes it. */
  function RequestFor(w: World, rental: nat): Option<Request> {
    if rental !in w.db.rows || w.db.rows[rental].invoice.None? then None
    else if w.db.rows[rental].invoice.value.user !in w.accounts then None
    else
      var invoice := w.db.rows[rental].invoice.value;
      Some(Request(w.accounts[invoice.user], LetterOf(AsIssued(invoice))))
  }

  ghost predicate Enabled(w: World, e: Event) {
    match e
    case Transact(timed, recorded) =>
      && Timely(w.db.clock, [timed]) && RecordsItsEndings(w.db, Commit(w.db, timed), recorded)
      && (forall id :: id in recorded ==> !Outbox.Known(w.queue, id))
      && (forall id :: id in Commit(w.db, timed).rows ==> Commit(w.db, timed).rows[id].rental.user in w.accounts)
    case Claim(token, id, lease, now) =>
      Outbox.Allowed(w.queue, Outbox.Take(id, token, lease), now) && token !in w.flights
    case Read(token) => token in w.flights && w.flights[token].phase == Claimed && w.flights[token].subject.LetterAbout?
    case Send(token, _, _) =>
      token in w.flights && w.flights[token].phase.Carrying? && w.flights[token].subject.LetterAbout?
    case Try(token, moment, declined, _) =>
      token in w.flights && w.flights[token].phase == Claimed && w.flights[token].subject.PaymentOf?
      && Timely(w.db.clock, [Timed(moment, Attempt(w.flights[token].subject.rental, declined))])
    case Break(token) => token in w.flights && !w.flights[token].phase.Ended? && !w.flights[token].phase.Clashed?
    case Settle(token, _, _) => token in w.flights && w.flights[token].phase.Ended?
    case Crash(token) => token in w.flights
    case Arm => true
    case Retire(ids, now) => Outbox.Allowed(w.queue, Outbox.Delete(ids), now)
  }

  function WithPhase(w: World, token: nat, phase: Phase): World
    requires token in w.flights
  {
    w.(flights := w.flights[token := w.flights[token].(phase := phase)])
  }

  function Without(w: World, token: nat): World {
    w.(flights := map t | t in w.flights && t != token :: w.flights[t])
  }

  /** What a worker reports of the attempt it made. */
  function Settling(flight: Flight, token: nat, delay: nat): Outbox.Statement
    requires flight.phase.Ended?
  {
    if flight.phase.ok then Outbox.Complete(flight.id, token)
    else Outbox.Fail(flight.id, token, "delivery failed", delay)
  }

  ghost function Next(w: World, e: Event): World
    requires Enabled(w, e)
  {
    match e
    case Transact(timed, recorded) =>
      w.(db := Commit(w.db, timed), queue := Outbox.WithTasks(w.queue, recorded, timed.moment))
    case Claim(token, id, lease, now) =>
      w.(queue := Outbox.Applied(w.queue, Outbox.Take(id, token, lease), now),
         flights := w.flights[token := Flight(id, w.queue.tasks[id].subject, Claimed)])
    case Read(token) =>
      // An invoice or an account that is not there is nothing to deliver.
      var request := RequestFor(w, w.flights[token].subject.rental);
      WithPhase(w, token, if request.None? then Ended(true) else Carrying(request.value))
    case Send(token, now, lost) =>
      var flight := w.flights[token];
      var accepted := Accepted(w.box, flight.subject.rental, flight.phase.request, now);
      if accepted == Err(Conflict) then WithPhase(w, token, Clashed)
      else if accepted.Err? then WithPhase(w, token, Ended(false))
      else
        var (after, receipt) := accepted.value;
        WithPhase(w.(box := after), token, Ended(!receipt.dropped && !lost))
    case Try(token, moment, declined, lost) =>
      var timed := Timed(moment, Attempt(w.flights[token].subject.rental, declined));
      var ok := Perform(w.db.(clock := moment), timed.step).Ok?;
      WithPhase(w.(db := Commit(w.db, timed)), token, Ended(ok && !lost))
    case Break(token) => WithPhase(w, token, Ended(false))
    case Settle(token, now, delay) =>
      Without(w.(queue := Outbox.Applied(w.queue, Settling(w.flights[token], token, delay), now)), token)
    case Crash(token) => Without(w, token)
    case Arm => w.(box := w.box.(armed := true))
    case Retire(ids, now) => w.(queue := Outbox.Applied(w.queue, Outbox.Delete(ids), now))
  }

  // ---------- what is always so ----------

  /** What a delivered task has done for good. */
  predicate Done(w: World, subject: Outbox.Subject) {
    match subject
    case LetterAbout(rental) => rental in w.box.messages
    case PaymentOf(rental) =>
      rental in w.db.rows && w.db.rows[rental].invoice.Some?
      && w.db.rows[rental].invoice.value.payment.status != Pending
    case Announcement(_) => true
  }

  ghost predicate FlightOk(w: World, token: nat)
    requires token in w.flights
  {
    var flight := w.flights[token];
    && Outbox.Known(w.queue, flight.id) && Outbox.TaskOf(w.queue, flight.id).subject == flight.subject
    && match flight.phase
       case Claimed => true
       case Carrying(request) =>
         flight.subject.LetterAbout? && RequestFor(w, flight.subject.rental) == Some(request)
       case Ended(ok) => ok ==> Done(w, flight.subject)
       case Clashed => false
  }

  /** Every letter in the box is the letter about its invoice, tasks are about endings that were written, and a
      completed task has done what it is about. */
  ghost predicate WorldOk(w: World) {
    && Inv(w.db) && Outbox.QueueOk(w.queue)
    && (forall id :: id in w.db.rows ==> w.db.rows[id].rental.user in w.accounts)
    && (forall key :: key in w.box.messages ==> RequestFor(w, key) == Some(w.box.messages[key].request))
    && (forall id :: Outbox.Known(w.queue, id) ==>
          && Owed(w.db, Outbox.TaskOf(w.queue, id).subject)
          && (Outbox.TaskOf(w.queue, id).completedAt.Some? ==> Done(w, Outbox.TaskOf(w.queue, id).subject)))
    && (forall token :: token in w.flights ==> FlightOk(w, token))
  }

  /** What later worlds keep of a world: its letters, its requests and what was done in it. */
  ghost predicate WorldFollows(a: World, b: World) {
    && a.accounts == b.accounts && Evolved(a.db, b.db) && BoxFollows(a.box, b.box)
  }

  lemma {:induction false} RequestsStay(a: World, b: World, rental: nat)
    requires WorldFollows(a, b) && RequestFor(a, rental).Some?
    ensures RequestFor(b, rental) == RequestFor(a, rental)
  {
    assert Evolves(a.db.rows[rental], b.db.rows[rental]);
  }

  lemma {:induction false} DoneStays(a: World, b: World, subject: Outbox.Subject)
    requires WorldFollows(a, b) && Done(a, subject)
    ensures Done(b, subject)
  {
    if subject.PaymentOf? {
      assert Evolves(a.db.rows[subject.rental], b.db.rows[subject.rental]);
    }
  }

  lemma {:induction false} OwedStays(a: World, b: World, subject: Outbox.Subject)
    requires WorldFollows(a, b) && Inv(a.db) && Owed(a.db, subject)
    ensures Owed(b.db, subject)
  {
    if OfRide(subject) {
      assert RowIn(a.db, subject.rental);
      assert Evolves(a.db.rows[subject.rental], b.db.rows[subject.rental]);
    }
  }

  /** What an owed task is about has its invoice and its account. */
  lemma {:induction false} OwedHasItsLetter(w: World, rental: nat)
    requires WorldOk(w) && (Owed(w.db, Outbox.LetterAbout(rental)) || Owed(w.db, Outbox.PaymentOf(rental)))
    ensures w.db.rows[rental].invoice.Some? && RequestFor(w, rental).Some?
  {
    assert RowIn(w.db, rental);
  }

  /** A world that follows one in which all was well is one itself, if what is new in it is well. */
  lemma {:induction false} WorldStays(a: World, b: World)
    requires WorldOk(a) && WorldFollows(a, b) && Inv(b.db)
    requires Outbox.QueueOk(b.queue) && Outbox.QueueFollows(a.queue, b.queue)
    requires forall id :: id in b.db.rows ==> b.db.rows[id].rental.user in b.accounts
    requires forall key :: key in b.box.messages ==>
               key in a.box.messages || RequestFor(b, key) == Some(b.box.messages[key].request)
    requires forall id :: Outbox.Known(b.queue, id) ==>
               Outbox.Known(a.queue, id) || Owed(b.db, Outbox.TaskOf(b.queue, id).subject)
    requires forall id :: Outbox.Known(b.queue, id) && Outbox.TaskOf(b.queue, id).completedAt.Some? ==>
               || (Outbox.Known(a.queue, id) && Outbox.TaskOf(a.queue, id).completedAt.Some?)
               || Done(b, Outbox.TaskOf(b.queue, id).subject)
    requires forall token :: token in b.flights ==>
               (token in a.flights && b.flights[token] == a.flights[token]) || FlightOk(b, token)
    ensures WorldOk(b)
  {
    forall key | key in b.box.messages
      ensures RequestFor(b, key) == Some(b.box.messages[key].request)
    {
      if key in a.box.messages {
        RequestsStay(a, b, key);
      }
    }
    forall id | Outbox.Known(b.queue, id)
      ensures Owed(b.db, Outbox.TaskOf(b.queue, id).subject)
      ensures Outbox.TaskOf(b.queue, id).completedAt.Some? ==> Done(b, Outbox.TaskOf(b.queue, id).subject)
    {
      if Outbox.Known(a.queue, id) {
        OwedStays(a, b, Outbox.TaskOf(a.queue, id).subject);
        if Outbox.TaskOf(a.queue, id).completedAt.Some? {
          DoneStays(a, b, Outbox.TaskOf(a.queue, id).subject);
        }
      }
    }
    forall token | token in b.flights
      ensures FlightOk(b, token)
    {
      if token in a.flights && b.flights[token] == a.flights[token] {
        FlightStays(a, b, token);
      }
    }
  }

  lemma {:induction false} FlightStays(a: World, b: World, token: nat)
    requires WorldFollows(a, b) && Outbox.QueueFollows(a.queue, b.queue)
    requires token in a.flights && token in b.flights && b.flights[token] == a.flights[token] && FlightOk(a, token)
    ensures FlightOk(b, token)
  {
    var flight := a.flights[token];
    match flight.phase
    case Carrying(request) => RequestsStay(a, b, flight.subject.rental);
    case Ended(ok) =>
      if ok {
        DoneStays(a, b, flight.subject);
      }
    case _ =>
  }

  lemma {:induction false} SameQueueFollows(q: Outbox.Queue)
    ensures Outbox.QueueFollows(q, q)
  {
  }

  lemma {:induction false} SameRowsFollow(db: Db)
    ensures Evolved(db, db)
  {
    forall id | id in db.rows
      ensures Evolves(db.rows[id], db.rows[id])
    {
    }
  }

  // ---------- every event keeps it ----------

  lemma {:induction false} TasksRecorded(q: Outbox.Queue, recorded: map<nat, Outbox.Subject>, now: int)
    requires Outbox.QueueOk(q) && forall id :: id in recorded ==> !Outbox.Known(q, id)
    ensures var after := Outbox.WithTasks(q, recorded, now);
            && Outbox.QueueOk(after) && Outbox.QueueFollows(q, after)
            && (forall id :: Outbox.Known(after, id) ==>
                  if id in recorded then Outbox.TaskOf(after, id) == Outbox.Recorded(recorded[id], now)
                  else Outbox.Known(q, id) && Outbox.TaskOf(after, id) == Outbox.TaskOf(q, id))
  {
    var after := Outbox.WithTasks(q, recorded, now);
    forall id | Outbox.Known(after, id)
      ensures if id in recorded then Outbox.TaskOf(after, id) == Outbox.Recorded(recorded[id], now)
              else Outbox.Known(q, id) && Outbox.TaskOf(after, id) == Outbox.TaskOf(q, id)
    {
    }
    forall id | Outbox.Known(q, id)
      ensures Outbox.Known(after, id) && Outbox.TaskOf(after, id) == Outbox.TaskOf(q, id)
    {
    }
  }

  lemma {:induction false} TransactKeeps(w: World, timed: Timed, recorded: map<nat, Outbox.Subject>)
    requires WorldOk(w) && Enabled(w, Transact(timed, recorded))
    ensures WorldOk(Next(w, Transact(timed, recorded))) && WorldFollows(w, Next(w, Transact(timed, recorded)))
  {
    CommitIsKept(w.db, timed);
    TasksRecorded(w.queue, recorded, timed.moment);
    WorldStays(w, Next(w, Transact(timed, recorded)));
  }

  lemma {:induction false} PhaseKeeps(w: World, token: nat, phase: Phase)
    requires WorldOk(w) && token in w.flights
    requires FlightOk(WithPhase(w, token, phase), token)
    ensures WorldOk(WithPhase(w, token, phase)) && WorldFollows(w, WithPhase(w, token, phase))
  {
    SameQueueFollows(w.queue);
    SameRowsFollow(w.db);
    WorldStays(w, WithPhase(w, token, phase));
  }

  lemma {:induction false} SendKeeps(w: World, token: nat, now: int, lost: bool)
    requires WorldOk(w) && Enabled(w, Send(token, now, lost))
    ensures WorldOk(Next(w, Send(token, now, lost))) && WorldFollows(w, Next(w, Send(token, now, lost)))
  {
    var key, request := w.flights[token].subject.rental, w.flights[token].phase.request;
    assert FlightOk(w, token);
    if Sendable(request) {
      NoConflict(w, key, request);
      AcceptKeepsLetters(w.box, key, request, now);
      var (after, receipt) := Accepted(w.box, key, request, now).value;
      StoredKeeps(w, token, key, request, after, Ended(!receipt.dropped && !lost));
    } else {
      PhaseKeeps(w, token, Ended(false));
    }
  }

  /** No delivery meets a key that holds a different letter. */
  lemma {:induction false} NoConflict(w: World, key: nat, request: Request)
    requires WorldOk(w) && RequestFor(w, key) == Some(request)
    ensures key in w.box.messages ==> w.box.messages[key].request == request
  {
  }

  lemma {:induction false} StoredKeeps(w: World, token: nat, key: nat, request: Request, after: Box, phase: Phase)
    requires WorldOk(w) && token in w.flights && w.flights[token].subject == Outbox.LetterAbout(key)
    requires RequestFor(w, key) == Some(request) && BoxFollows(w.box, after) && phase.Ended?
    requires after.messages.Keys == w.box.messages.Keys + {key} && after.messages[key].request == request
    ensures var next := WithPhase(w.(box := after), token, phase);
            WorldOk(next) && WorldFollows(w, next)
  {
    var next := WithPhase(w.(box := after), token, phase);
    assert FlightOk(w, token);
    SameQueueFollows(w.queue);
    SameRowsFollow(w.db);
    assert RequestFor(next, key) == RequestFor(w, key);
    WorldStays(w, next);
  }

  lemma {:induction false} TryKeeps(w: World, token: nat, moment: int, declined: bool, lost: bool)
    requires WorldOk(w) && Enabled(w, Try(token, moment, declined, lost))
    ensures WorldOk(Next(w, Try(token, moment, declined, lost)))
    ensures WorldFollows(w, Next(w, Try(token, moment, declined, lost)))
  {
    var rental := w.flights[token].subject.rental;
    var timed := Timed(moment, Attempt(rental, declined));
    assert FlightOk(w, token);
    OwedHasItsLetter(w, rental);
    AttemptMovesOnlyPayments(w.db, timed);
    var ok := Perform(w.db.(clock := moment), timed.step).Ok?;
    AttemptedKeeps(w, token, timed, Ended(ok && !lost));
  }

  lemma {:induction false} AttemptedKeeps(w: World, token: nat, timed: Timed, phase: Phase)
    requires WorldOk(w) && token in w.flights && Timely(w.db.clock, [timed]) && phase.Ended?
    requires phase.ok ==> Done(w.(db := Commit(w.db, timed)), w.flights[token].subject)
    requires forall id :: id in Commit(w.db, timed).rows ==>
               id in w.db.rows && Commit(w.db, timed).rows[id].rental == w.db.rows[id].rental
    ensures var next := WithPhase(w.(db := Commit(w.db, timed)), token, phase);
            WorldOk(next) && WorldFollows(w, next)
  {
    assert FlightOk(w, token);
    CommitIsKept(w.db, timed);
    SameQueueFollows(w.queue);
    WorldStays(w, WithPhase(w.(db := Commit(w.db, timed)), token, phase));
  }

  /** An attempt that committed leaves no payment waiting, and changes no rental. */
  lemma {:induction false} AttemptMovesOnlyPayments(db: Db, timed: Timed)
    requires timed.step.Attempt? && timed.step.id in db.rows && db.rows[timed.step.id].invoice.Some?
    ensures Perform(db.(clock := timed.moment), timed.step).Ok? ==>
              var after := Commit(db, timed);
              && timed.step.id in after.rows && after.rows[timed.step.id].invoice.Some?
              && after.rows[timed.step.id].invoice.value.payment.status != Pending
    ensures forall id :: id in Commit(db, timed).rows ==>
              id in db.rows && Commit(db, timed).rows[id].rental == db.rows[id].rental
  {
  }

  lemma {:induction false} SettleKeeps(w: World, token: nat, now: int, delay: nat)
    requires WorldOk(w) && Enabled(w, Settle(token, now, delay))
    ensures WorldOk(Next(w, Settle(token, now, delay))) && WorldFollows(w, Next(w, Settle(token, now, delay)))
  {
    var settling := Settling(w.flights[token], token, delay);
    assert FlightOk(w, token);
    Outbox.StatementKeeps(w.queue, settling, now);
    SettlingCompletesItsTask(w.queue, settling, now);
    QueueSettled(w, token, Outbox.Applied(w.queue, settling, now));
  }

  /** Settling completes at most the one task it names. */
  lemma {:induction false} SettlingCompletesItsTask(q: Outbox.Queue, s: Outbox.Statement, now: int)
    requires Outbox.QueueOk(q) && (s.Complete? || s.Fail?)
    ensures var after := Outbox.Applied(q, s, now);
            forall id :: Outbox.Known(after, id) ==>
              && Outbox.Known(q, id)
              && (Outbox.TaskOf(after, id).completedAt.Some? && Outbox.TaskOf(q, id).completedAt.None? ==>
                    s.Complete? && id == s.id)
  {
  }

  lemma {:induction false} QueueSettled(w: World, token: nat, queue: Outbox.Queue)
    requires WorldOk(w) && token in w.flights && Outbox.QueueOk(queue) && Outbox.QueueFollows(w.queue, queue)
    requires forall id :: Outbox.Known(queue, id) ==>
               && Outbox.Known(w.queue, id)
               && (Outbox.TaskOf(queue, id).completedAt.Some? && Outbox.TaskOf(w.queue, id).completedAt.None? ==>
                     Done(w, Outbox.TaskOf(w.queue, id).subject))
    ensures var after := Without(w.(queue := queue), token);
            WorldOk(after) && WorldFollows(w, after)
  {
    SameRowsFollow(w.db);
    WorldStays(w, Without(w.(queue := queue), token));
  }

  lemma {:induction false} QueueKeeps(w: World, s: Outbox.Statement, now: int, flights: map<nat, Flight>)
    requires WorldOk(w) && Outbox.Allowed(w.queue, s, now) && (s.Take? || s.Delete?)
    requires forall token :: token in flights && token in w.flights ==> flights[token] == w.flights[token]
    requires forall token :: token in flights && token !in w.flights ==>
               flights[token].phase == Claimed && Outbox.Known(w.queue, flights[token].id)
               && Outbox.TaskOf(w.queue, flights[token].id).subject == flights[token].subject
    ensures var after := w.(queue := Outbox.Applied(w.queue, s, now), flights := flights);
            WorldOk(after) && WorldFollows(w, after)
  {
    Outbox.StatementKeeps(w.queue, s, now);
    SameRowsFollow(w.db);
    WorldStays(w, w.(queue := Outbox.Applied(w.queue, s, now), flights := flights));
  }

  lemma {:induction false} ReadKeeps(w: World, token: nat)
    requires WorldOk(w) && Enabled(w, Read(token))
    ensures WorldOk(Next(w, Read(token))) && WorldFollows(w, Next(w, Read(token)))
  {
    var rental := w.flights[token].subject.rental;
    assert FlightOk(w, token);
    OwedHasItsLetter(w, rental);
    PhaseKeeps(w, token, Carrying(RequestFor(w, rental).value));
  }

  lemma {:induction false} BreakKeeps(w: World, token: nat)
    requires WorldOk(w) && token in w.flights
    ensures WorldOk(WithPhase(w, token, Ended(false))) && WorldFollows(w, WithPhase(w, token, Ended(false)))
  {
    assert FlightOk(w, token);
    PhaseKeeps(w, token, Ended(false));
  }

  /** A worker that dies and a refusal that is asked for change nothing that is stored of letters and tasks. */
  lemma {:induction false} OthersKeep(w: World, next: World)
    requires WorldOk(w)
    requires next.db == w.db && next.queue == w.queue && next.accounts == w.accounts
    requires next.box.messages == w.box.messages
    requires BoxFollows(w.box, next.box)
    requires forall token :: token in next.flights ==> token in w.flights && next.flights[token] == w.flights[token]
    ensures WorldOk(next) && WorldFollows(w, next)
  {
    SameQueueFollows(w.queue);
    SameRowsFollow(w.db);
    WorldStays(w, next);
  }

  lemma {:induction false} EventKeeps(w: World, e: Event)
    requires WorldOk(w) && Enabled(w, e)
    ensures WorldOk(Next(w, e)) && WorldFollows(w, Next(w, e))
  {
    match e
    case Transact(timed, recorded) => TransactKeeps(w, timed, recorded);
    case Claim(token, id, lease, now) => ClaimKeeps(w, token, id, lease, now);
    case Read(token) => ReadKeeps(w, token);
    case Send(token, now, lost) => SendKeeps(w, token, now, lost);
    case Try(token, moment, declined, lost) => TryKeeps(w, token, moment, declined, lost);
    case Break(token) => BreakKeeps(w, token);
    case Settle(token, now, delay) => SettleKeeps(w, token, now, delay);
    case Crash(token) => OthersKeep(w, Next(w, e));
    case Arm => OthersKeep(w, Next(w, e));
    case Retire(ids, now) => RetireKeeps(w, ids, now);
  }

  lemma {:induction false} ClaimKeeps(w: World, token: nat, id: nat, lease: nat, now: int)
    requires WorldOk(w) && Enabled(w, Claim(token, id, lease, now))
    ensures WorldOk(Next(w, Claim(token, id, lease, now))) && WorldFollows(w, Next(w, Claim(token, id, lease, now)))
  {
    var flight := Flight(id, w.queue.tasks[id].subject, Claimed);
    QueueKeeps(w, Outbox.Take(id, token, lease), now, w.flights[token := flight]);
  }

  lemma {:induction false} RetireKeeps(w: World, ids: set<nat>, now: int)
    requires WorldOk(w) && Enabled(w, Retire(ids, now))
    ensures WorldOk(Next(w, Retire(ids, now))) && WorldFollows(w, Next(w, Retire(ids, now)))
  {
    QueueKeeps(w, Outbox.Delete(ids), now, w.flights);
  }

  // ---------- whole runs ----------

  ghost predicate RunEnabled(w: World, events: seq<Event>)
    decreases |events|
  {
    events == [] || (Enabled(w, events[0]) && RunEnabled(Next(w, events[0]), events[1..]))
  }

  ghost function RunOf(w: World, events: seq<Event>): World
    requires RunEnabled(w, events)
    decreases |events|
  {
    if events == [] then w else RunOf(Next(w, events[0]), events[1..])
  }

  lemma {:induction false} RunKeeps(w: World, events: seq<Event>)
    requires WorldOk(w) && RunEnabled(w, events)
    ensures WorldOk(RunOf(w, events)) && WorldFollows(w, RunOf(w, events))
    decreases |events|
  {
    if events == [] {
      SameRowsFollow(w.db);
    } else {
      var next := Next(w, events[0]);
      EventKeeps(w, events[0]);
      RunKeeps(next, events[1..]);
      EvolvedTwice(w.db, next.db, RunOf(next, events[1..]).db);
    }
  }

  /** In any run from an installation every completed ride has exactly one letter task, and exactly one task for
      the attempt at its payment when its invoice is positive. */
  lemma {:induction false} EndingsAreOwedOnce(w: World, events: seq<Event>, rental: nat)
    requires WorldOk(w) && OwedOnce(w) && RunEnabled(w, events)
    requires rental in RunOf(w, events).db.rows && RunOf(w, events).db.rows[rental].rental.stage == Completed
    ensures var now := RunOf(w, events);
            && now.db.rows[rental].invoice.Some?
            && (exists id :: Subject(now, id, Outbox.LetterAbout(rental)))
            && ((exists id :: Subject(now, id, Outbox.PaymentOf(rental))) <==>
                  now.db.rows[rental].invoice.value.total > 0)
            && OneAtMost(now, Outbox.LetterAbout(rental))
            && OneAtMost(now, Outbox.PaymentOf(rental))
  {
    RunKeeps(w, events);
    RunOwesOnce(w, events);
    EndingIsOwedOnce(RunOf(w, events), rental);
  }

  lemma {:induction false} EndingIsOwedOnce(now: World, rental: nat)
    requires WorldOk(now) && OwedOnce(now) && rental in now.db.rows && now.db.rows[rental].rental.stage == Completed
    ensures now.db.rows[rental].invoice.Some?
    ensures exists id :: Subject(now, id, Outbox.LetterAbout(rental))
    ensures (exists id :: Subject(now, id, Outbox.PaymentOf(rental))) <==> now.db.rows[rental].invoice.value.total > 0
    ensures OneAtMost(now, Outbox.LetterAbout(rental))
    ensures OneAtMost(now, Outbox.PaymentOf(rental))
  {
    assert RowIn(now.db, rental);
    assert Owed(now.db, Outbox.LetterAbout(rental));
    if now.db.rows[rental].invoice.value.total > 0 {
      assert Owed(now.db, Outbox.PaymentOf(rental));
    }
  }

  /** A letter states its invoice: when it was issued, why the ride ended and what had run out, the minutes, the rate
      and the amount of each mode, the total, and that it is paid when it asks for nothing and waits to be otherwise. */
  predicate StatesTheInvoice(letter: Letter, invoice: Invoice) {
    && letter.issuedAt == invoice.issuedAt && letter.total == invoice.total
    && letter.driving == LineText(invoice.driving.minutes, invoice.driving.rate, invoice.driving.amount)
    && letter.paused == LineText(invoice.paused.minutes, invoice.paused.rate, invoice.paused.amount)
    && letter.payment == (if invoice.total == 0 then PaidText else WaitingText)
    && (invoice.reason == UserFinished <==> letter.reason == FinishedByUser)
    && (invoice.reason == EnergyDepleted ==>
          invoice.exhausted.Some? && letter.reason == OutOfEnergy(invoice.exhausted.value))
  }

  /** The letter in the box under the key of an invoice: to the account of its ride, and about it. */
  predicate HasItsLetter(w: World, rental: nat) {
    && rental in w.db.rows && w.db.rows[rental].invoice.Some?
    && w.db.rows[rental].rental.user in w.accounts && rental in w.box.messages
    && w.box.messages[rental].request.to == w.accounts[w.db.rows[rental].rental.user]
    && StatesTheInvoice(w.box.messages[rental].request.letter, w.db.rows[rental].invoice.value)
  }

  /** Over any run of workers, crashes, leases that run out, answers that are lost and payments that move: a
      completed letter task has exactly the letter about its invoice in the box, under the key of that invoice,
      and it never changes afterwards; no attempt meets a conflict. */
  lemma {:induction false} ExactlyOneLetter(w: World, events: seq<Event>, later: seq<Event>, id: nat, rental: nat)
    requires WorldOk(w) && RunEnabled(w, events) && RunEnabled(RunOf(w, events), later)
    requires Outbox.Known(RunOf(w, events).queue, id)
    requires Outbox.TaskOf(RunOf(w, events).queue, id).subject == Outbox.LetterAbout(rental)
    requires Outbox.TaskOf(RunOf(w, events).queue, id).completedAt.Some?
    ensures var (now, after) := (RunOf(w, events), RunOf(RunOf(w, events), later));
            && HasItsLetter(now, rental) && HasItsLetter(after, rental)
            && after.box.messages[rental] == now.box.messages[rental]
            && RequestFor(now, rental) == Some(now.box.messages[rental].request)
            && (forall token :: token in after.flights ==> !after.flights[token].phase.Clashed?)
  {
    RunKeeps(w, events);
    var now := RunOf(w, events);
    CompletedLetterIsThere(now, id, rental);
    LettersStateTheirInvoices(now, rental);
    RunKeeps(now, later);
    LettersStateTheirInvoices(RunOf(now, later), rental);
    NothingClashes(RunOf(now, later));
  }

  lemma {:induction false} CompletedLetterIsThere(w: World, id: nat, rental: nat)
    requires WorldOk(w) && Outbox.Known(w.queue, id)
    requires Outbox.TaskOf(w.queue, id).subject == Outbox.LetterAbout(rental)
    requires Outbox.TaskOf(w.queue, id).completedAt.Some?
    ensures rental in w.box.messages && RequestFor(w, rental) == Some(w.box.messages[rental].request)
  {
    assert Done(w, Outbox.LetterAbout(rental));
  }

  lemma {:induction false} LettersStateTheirInvoices(w: World, rental: nat)
    requires WorldOk(w) && rental in w.box.messages
    ensures HasItsLetter(w, rental)
  {
    assert RequestFor(w, rental) == Some(w.box.messages[rental].request);
    assert RowIn(w.db, rental);
  }

  lemma {:induction false} NothingClashes(w: World)
    requires WorldOk(w)
    ensures forall token :: token in w.flights ==> !w.flights[token].phase.Clashed?
  {
    forall token | token in w.flights
      ensures !w.flights[token].phase.Clashed?
    {
      assert FlightOk(w, token);
    }
  }

  /** A completed payment task has settled its payment: the first attempt was made, and no later attempt of the
      service makes another. */
  lemma {:induction false} OneFirstAttempt(w: World, events: seq<Event>, id: nat, rental: nat, timed: Timed)
    requires WorldOk(w) && RunEnabled(w, events) && Outbox.Known(RunOf(w, events).queue, id)
    requires Outbox.TaskOf(RunOf(w, events).queue, id).subject == Outbox.PaymentOf(rental)
    requires Outbox.TaskOf(RunOf(w, events).queue, id).completedAt.Some?
    requires timed.step.Attempt? && timed.step.id == rental
    ensures var db := RunOf(w, events).db;
            && rental in db.rows && db.rows[rental].invoice.Some?
            && db.rows[rental].invoice.value.payment.status != Pending
            && Commit(db, timed).rows == db.rows
  {
    RunKeeps(w, events);
    assert Done(RunOf(w, events), Outbox.PaymentOf(rental));
    SettledIsNotAttempted(RunOf(w, events).db, timed);
  }

  lemma {:induction false} SettledIsNotAttempted(db: Db, timed: Timed)
    requires timed.step.Attempt? && timed.step.id in db.rows && db.rows[timed.step.id].invoice.Some?
    requires db.rows[timed.step.id].invoice.value.payment.status != Pending
    ensures Commit(db, timed).rows == db.rows
  {
  }

  // ---------- every ending is owed once ----------

  predicate Subject(w: World, id: nat, subject: Outbox.Subject) {
    Outbox.Known(w.queue, id) && Outbox.TaskOf(w.queue, id).subject == subject
  }

  ghost predicate OneAtMost(w: World, subject: Outbox.Subject) {
    forall a, b :: Subject(w, a, subject) && Subject(w, b, subject) ==> a == b
  }

  /** Everything the endings owe was recorded, each once, and is still known to the queue. */
  ghost predicate OwedOnce(w: World) {
    && (forall subject :: OfRide(subject) && Owed(w.db, subject) ==> exists id :: Subject(w, id, subject))
    && (forall a, b, subject :: OfRide(subject) && Subject(w, a, subject) && Subject(w, b, subject) ==> a == b)
  }

  /** The events that record nothing leave the tasks that are known, what they are about and what is owed. */
  ghost predicate SameTasks(a: World, b: World) {
    && (forall id, subject :: Subject(a, id, subject) <==> Subject(b, id, subject))
    && (forall subject :: OfRide(subject) ==> (Owed(a.db, subject) <==> Owed(b.db, subject)))
  }

  lemma {:induction false} SameTasksOwedOnce(a: World, b: World)
    requires OwedOnce(a) && SameTasks(a, b)
    ensures OwedOnce(b)
  {
    forall subject | OfRide(subject) && Owed(b.db, subject)
      ensures exists id :: Subject(b, id, subject)
    {
      var id :| Subject(a, id, subject);
      assert Subject(b, id, subject);
    }
  }

  lemma {:induction false} TransactOwesOnce(w: World, timed: Timed, recorded: map<nat, Outbox.Subject>)
    requires WorldOk(w) && OwedOnce(w) && Enabled(w, Transact(timed, recorded))
    ensures OwedOnce(Next(w, Transact(timed, recorded)))
  {
    CommitIsKept(w.db, timed);
    TasksRecorded(w.queue, recorded, timed.moment);
    RecordedOwesOnce(w, Next(w, Transact(timed, recorded)), recorded, timed);
  }

  lemma {:induction false} RecordedOwesOnce(w: World, next: World, recorded: map<nat, Outbox.Subject>, timed: Timed)
    requires WorldOk(w) && OwedOnce(w) && Enabled(w, Transact(timed, recorded)) && next.db == Commit(w.db, timed)
    requires forall id :: Outbox.Known(w.queue, id) || id in recorded ==> Outbox.Known(next.queue, id)
    requires forall id :: Outbox.Known(next.queue, id) ==>
               if id in recorded then Outbox.TaskOf(next.queue, id).subject == recorded[id]
               else Outbox.Known(w.queue, id) && Outbox.TaskOf(next.queue, id) == Outbox.TaskOf(w.queue, id)
    ensures OwedOnce(next)
  {
    forall subject | OfRide(subject) && Owed(next.db, subject)
      ensures exists id :: Subject(next, id, subject)
    {
      if Owed(w.db, subject) {
        var id :| Subject(w, id, subject);
        assert Subject(next, id, subject);
      } else {
        var id :| id in recorded && recorded[id] == subject;
        assert Subject(next, id, subject);
      }
    }
    forall a, b, subject | OfRide(subject) && Subject(next, a, subject) && Subject(next, b, subject)
      ensures a == b
    {
      assert a !in recorded ==> Subject(w, a, subject) && Owed(w.db, subject);
      assert b !in recorded ==> Subject(w, b, subject) && Owed(w.db, subject);
    }
  }

  lemma {:induction false} StatementRecordsNothing(q: Outbox.Queue, s: Outbox.Statement, now: int)
    requires Outbox.QueueOk(q) && Outbox.Allowed(q, s, now) && !s.Record?
    ensures var after := Outbox.Applied(q, s, now);
            && (forall id :: Outbox.Known(q, id) <==> Outbox.Known(after, id))
            && (forall id :: Outbox.Known(q, id) ==> Outbox.TaskOf(after, id).subject == Outbox.TaskOf(q, id).subject)
  {
    Outbox.StatementKeeps(q, s, now);
    var after := Outbox.Applied(q, s, now);
    forall id
      ensures Outbox.Known(q, id) <==> Outbox.Known(after, id)
    {
    }
  }

  lemma {:induction false} AttemptOwesNothing(db: Db, timed: Timed)
    requires timed.step.Attempt?
    ensures Commit(db, timed).rows.Keys == db.rows.Keys
    ensures forall id :: id in db.rows ==> Commit(db, timed).rows[id].owed == db.rows[id].owed
  {
  }

  lemma {:induction false} StatementOwesOnce(w: World, s: Outbox.Statement, now: int, next: World)
    requires WorldOk(w) && OwedOnce(w) && Outbox.Allowed(w.queue, s, now) && !s.Record?
    requires next.queue == Outbox.Applied(w.queue, s, now) && next.db == w.db
    ensures OwedOnce(next)
  {
    StatementRecordsNothing(w.queue, s, now);
    SameTasksOwedOnce(w, next);
  }

  lemma {:induction false} TryOwesOnce(w: World, timed: Timed, next: World)
    requires OwedOnce(w) && timed.step.Attempt? && next.queue == w.queue && next.db == Commit(w.db, timed)
    ensures OwedOnce(next)
  {
    AttemptOwesNothing(w.db, timed);
    SameTasksOwedOnce(w, next);
  }

  /** Every completed ride owes its letter, and one attempt at its payment when it cost anything: each of them is
      recorded in exactly one task, by the transaction that wrote the ending. */
  lemma {:induction false} EventOwesOnce(w: World, e: Event)
    requires WorldOk(w) && OwedOnce(w) && Enabled(w, e)
    ensures OwedOnce(Next(w, e))
  {
    match e
    case Transact(timed, recorded) => TransactOwesOnce(w, timed, recorded);
    case Claim(token, id, lease, now) => ClaimOwesOnce(w, token, id, lease, now);
    case Settle(token, now, delay) => SettleOwesOnce(w, token, now, delay);
    case Retire(ids, now) => RetireOwesOnce(w, ids, now);
    case Try(token, moment, declined, lost) => AttemptOwesOnce(w, token, moment, declined, lost);
    case _ => OthersOweOnce(w, e);
  }

  lemma {:induction false} ClaimOwesOnce(w: World, token: nat, id: nat, lease: nat, now: int)
    requires WorldOk(w) && OwedOnce(w) && Enabled(w, Claim(token, id, lease, now))
    ensures OwedOnce(Next(w, Claim(token, id, lease, now)))
  {
    StatementOwesOnce(w, Outbox.Take(id, token, lease), now, Next(w, Claim(token, id, lease, now)));
  }

  lemma {:induction false} RetireOwesOnce(w: World, ids: set<nat>, now: int)
    requires WorldOk(w) && OwedOnce(w) && Enabled(w, Retire(ids, now))
    ensures OwedOnce(Next(w, Retire(ids, now)))
  {
    StatementOwesOnce(w, Outbox.Delete(ids), now, Next(w, Retire(ids, now)));
  }

  lemma {:induction false} AttemptOwesOnce(w: World, token: nat, moment: int, declined: bool, lost: bool)
    requires OwedOnce(w) && Enabled(w, Try(token, moment, declined, lost))
    ensures OwedOnce(Next(w, Try(token, moment, declined, lost)))
  {
    TryOwesOnce(w, Timed(moment, Attempt(w.flights[token].subject.rental, declined)),
                Next(w, Try(token, moment, declined, lost)));
  }

  lemma {:induction false} SettleOwesOnce(w: World, token: nat, now: int, delay: nat)
    requires WorldOk(w) && OwedOnce(w) && Enabled(w, Settle(token, now, delay))
    ensures OwedOnce(Next(w, Settle(token, now, delay)))
  {
    StatementOwesOnce(w, Settling(w.flights[token], token, delay), now, Next(w, Settle(token, now, delay)));
  }

  lemma {:induction false} OthersOweOnce(w: World, e: Event)
    requires OwedOnce(w) && Enabled(w, e) && (e.Read? || e.Send? || e.Break? || e.Crash? || e.Arm?)
    ensures OwedOnce(Next(w, e))
  {
    assert Next(w, e).queue == w.queue && Next(w, e).db == w.db;
    SameTasksOwedOnce(w, Next(w, e));
  }

  lemma {:induction false} RunOwesOnce(w: World, events: seq<Event>)
    requires WorldOk(w) && OwedOnce(w) && RunEnabled(w, events)
    ensures OwedOnce(RunOf(w, events))
    decreases |events|
  {
    if events != [] {
      EventKeeps(w, events[0]);
      EventOwesOnce(w, events[0]);
      RunOwesOnce(Next(w, events[0]), events[1..]);
    }
  }

  /** Before anything was reserved or recorded. */
  lemma {:induction false} InstalledWorldIsOk(db: Db, accounts: map<nat, string>, armed: bool)
    requires Inv(db) && db.rows == map[]
    ensures WorldOk(World(db, Outbox.Queue(map[], {}, map[]), Box(map[], armed), accounts, map[]))
    ensures OwedOnce(World(db, Outbox.Queue(map[], {}, map[]), Box(map[], armed), accounts, map[]))
  {
  }
}
