/** Remembered commands: the claim of a key, the stored answer, the attempts that race for one key, and the removal
    of what was kept long enough (backend/internal/idempotency/store.go, retention.go, owner.go and the answering
    transaction of backend/internal/rentals/reserve.go). */
module Idempotency {
  import opened Wrappers

  /** How long a stored answer is kept, in microseconds. */
  const RETENTION: int := 86_400_000_000

  datatype Owner = Account(user: nat) | Installation
  datatype Key = Key(owner: Owner, command: nat)

  datatype Entry = Entry(fingerprint: int, answer: int, retainUntil: int)

  /** The row an unfinished transaction inserted: only that transaction sees it, and everybody else's insert of the
      same key waits for it. */
  datatype Pending = Pending(attempt: nat, fingerprint: int, written: Option<Entry>)

  datatype Table = Table(rows: map<Key, Entry>, held: map<Key, Pending>)

  datatype Taken = Inserted | Conflict | Waits

  datatype Failure = Busy | OtherCommand | Gone | Broken | Unheard

  // ---- The statements ----

  function Insert(t: Table, attempt: nat, key: Key, fingerprint: int): (Table, Taken) {
    if key in t.held then (t, Waits)
    else if key in t.rows then (t, Conflict)
    else (t.(held := t.held[key := Pending(attempt, fingerprint, None)]), Inserted)
  }

  /** The answer a key holds for a command. The row may have been removed since the insert met it. */
  function Stored(t: Table, key: Key, fingerprint: int): Result<int, Failure> {
    if key !in t.rows then Err(Gone)
    else if t.rows[key].fingerprint != fingerprint then Err(OtherCommand)
    else Ok(t.rows[key].answer)
  }

  function Complete(t: Table, key: Key, answer: int, at: int): Table
    requires key in t.held
  {
    var p := t.held[key];
    t.(held := t.held[key := p.(written := Some(Entry(p.fingerprint, answer, at + RETENTION)))])
  }

  function Commit(t: Table, key: Key): Table
    requires key in t.held && t.held[key].written.Some?
  {
    Table(t.rows[key := t.held[key].written.value], t.held - {key})
  }

  function Rollback(t: Table, key: Key): Table {
    t.(held := t.held - {key})
  }

  predicate Expired(rows: map<Key, Entry>, now: int, key: Key) {
    key in rows && rows[key].retainUntil <= now
  }

  /** The rows one sweep selects: expired, the oldest first, at most `limit` and fewer only when there are no more. */
  ghost predicate IsBatch(rows: map<Key, Entry>, now: int, limit: nat, batch: set<Key>) {
    && (forall k :: k in batch ==> Expired(rows, now, k))
    && |batch| <= limit
    && (forall k :: Expired(rows, now, k) && k !in batch ==> |batch| == limit)
    && (forall k, l :: k in batch && Expired(rows, now, l) && l !in batch ==>
          rows[k].retainUntil <= rows[l].retainUntil)
  }

  /** What a sweep deletes of the rows it selected. The deletion compares the account column, which is null in a row
      of the installation, and a null equals nothing. */
  function Deletable(batch: set<Key>): set<Key> {
    set k | k in batch && k.owner.Account?
  }

  function DeleteExpired(t: Table, batch: set<Key>): Table {
    t.(rows := t.rows - Deletable(batch))
  }

  // ---- Attempts that race ----

  datatype Phase =
    | Started
    | Reading
    | Owning
    | Done(answer: int, source: nat)
    | Failed(failure: Failure)

  datatype Attempt = Attempt(key: Key, fingerprint: int, phase: Phase)

  /** One committed change: which command made it, what it answered, and when that answer was written. */
  datatype Effect = Effect(key: Key, fingerprint: int, answer: int, at: int, attempt: nat)

  /** `effects` is the history of committed changes and `latest` the last of them for a key; no statement reads
      either. */
  datatype World = World(table: Table, attempts: map<nat, Attempt>, effects: seq<Effect>, latest: map<Key, nat>,
                         clock: int)

  datatype Event =
    | Begin(attempt: nat, key: Key, fingerprint: int)
    | Claim(attempt: nat)
    | Read(attempt: nat)
    | GiveUp(attempt: nat)
    | Decide(attempt: nat, answer: int)
    | Finish(attempt: nat, heard: bool)
    | Break(attempt: nat)
    | Sweep(limit: nat, batch: set<Key>)

  datatype Timed = Timed(at: int, event: Event)

  predicate InPhase(w: World, a: nat, phase: Phase) {
    a in w.attempts && w.attempts[a].phase == phase
  }

  predicate Holds(w: World, a: nat) {
    && InPhase(w, a, Owning) && w.attempts[a].key in w.table.held && w.table.held[w.attempts[a].key].attempt == a
  }

  ghost predicate Enabled(w: World, e: Event) {
    match e
    case Begin(a, _, _) => a !in w.attempts
    case Claim(a) => InPhase(w, a, Started) && w.attempts[a].key !in w.table.held
    case GiveUp(a) => InPhase(w, a, Started) && w.attempts[a].key in w.table.held
    case Read(a) => InPhase(w, a, Reading)
    case Decide(a, _) => Holds(w, a) && w.table.held[w.attempts[a].key].written.None?
    case Finish(a, _) => Holds(w, a) && w.table.held[w.attempts[a].key].written.Some?
    case Break(a) => InPhase(w, a, Started) || InPhase(w, a, Reading) || Holds(w, a)
    case Sweep(limit, batch) => IsBatch(w.table.rows, w.clock, limit, batch)
  }

  function Moved(w: World, a: nat, phase: Phase): World
    requires a in w.attempts
  {
    w.(attempts := w.attempts[a := w.attempts[a].(phase := phase)])
  }

  /** An attempt finds the row of its key and reads it. */
  function ReadBy(w: World, a: nat): World
    requires a in w.attempts
  {
    var k := w.attempts[a].key;
    match Stored(w.table, k, w.attempts[a].fingerprint)
    case Err(f) => Moved(w, a, Failed(f))
    case Ok(answer) => Moved(w, a, Done(answer, if k in w.latest then w.latest[k] else |w.effects|))
  }

  /** The transaction of an attempt commits. Its caller hears of it, or only sees a failure. */
  function FinishedBy(w: World, a: nat, heard: bool): World
    requires Holds(w, a) && w.table.held[w.attempts[a].key].written.Some?
  {
    var k := w.attempts[a].key;
    var entry := w.table.held[k].written.value;
    var i := |w.effects|;
    var done := Moved(w, a, if heard then Done(entry.answer, i) else Failed(Unheard));
    done.(table := Commit(w.table, k),
          effects := w.effects + [Effect(k, entry.fingerprint, entry.answer, entry.retainUntil - RETENTION, a)],
          latest := w.latest[k := i])
  }

  function Step(w: World, e: Event): World
    requires Enabled(w, e)
  {
    match e
    case Begin(a, k, f) => w.(attempts := w.attempts[a := Attempt(k, f, Started)])
    case Claim(a) =>
      var (t, taken) := Insert(w.table, a, w.attempts[a].key, w.attempts[a].fingerprint);
      Moved(w, a, if taken.Inserted? then Owning else Reading).(table := t)
    case GiveUp(a) => Moved(w, a, Failed(Busy))
    case Read(a) => ReadBy(w, a)
    case Decide(a, answer) => w.(table := Complete(w.table, w.attempts[a].key, answer, w.clock))
    case Finish(a, heard) => FinishedBy(w, a, heard)
    case Break(a) =>
      var broken := Moved(w, a, Failed(Broken));
      if Holds(w, a) then broken.(table := Rollback(w.table, w.attempts[a].key)) else broken
    case Sweep(_, batch) => w.(table := DeleteExpired(w.table, batch))
  }

  function Advance(w: World, now: int): World {
    if now > w.clock then w.(clock := now) else w
  }

  ghost function Next(w: World, e: Timed): World {
    var on := Advance(w, e.at);
    if Enabled(on, e.event) then Step(on, e.event) else on
  }

  ghost function Run(w: World, events: seq<Timed>): World
    decreases |events|
  {
    if events == [] then w else Next(Run(w, events[..|events| - 1]), events[|events| - 1])
  }

  function Begun(clock: int): World {
    World(Table(map[], map[]), map[], [], map[], clock)
  }

  // ---- What every run keeps ----

  /** An uncommitted row belongs to one unfinished attempt of that very command, and nothing is stored beside it. */
  predicate HeldOk(w: World) {
    && (forall k :: k in w.table.held ==> k !in w.table.rows && Holder(w, k))
    && (forall a :: a in w.attempts && w.attempts[a].phase == Owning ==> Holds(w, a))
  }

  predicate Holder(w: World, k: Key)
    requires k in w.table.held
  {
    var p := w.table.held[k];
    && p.attempt in w.attempts && w.attempts[p.attempt].key == k && w.attempts[p.attempt].phase == Owning
    && w.attempts[p.attempt].fingerprint == p.fingerprint
    && (p.written.Some? ==> p.written.value.fingerprint == p.fingerprint
                            && p.written.value.retainUntil <= w.clock + RETENTION)
  }

  /** A stored row is the answer of the last change made under its key. */
  predicate RowsOk(w: World) {
    forall k :: k in w.table.rows ==> RowIsLatest(w, k)
  }

  predicate RowIsLatest(w: World, k: Key)
    requires k in w.table.rows
  {
    && k in w.latest && w.latest[k] < |w.effects|
    && w.effects[w.latest[k]].key == k
    && w.table.rows[k] == EntryOf(w.effects[w.latest[k]])
  }

  function EntryOf(e: Effect): Entry {
    Entry(e.fingerprint, e.answer, e.at + RETENTION)
  }

  /** A change whose answer is no longer stored belongs to an account and is older than the retention. */
  predicate Kept(w: World, i: nat)
    requires i < |w.effects|
  {
    var e := w.effects[i];
    || (e.key in w.table.rows && e.key in w.latest && w.latest[e.key] == i)
    || (e.key.owner.Account? && e.at + RETENTION <= w.clock && WrittenAfter(w, e.key, e.at + RETENTION))
  }

  /** Whatever is being written under a key now was written at or after a moment. */
  predicate WrittenAfter(w: World, k: Key, at: int) {
    k in w.table.held && w.table.held[k].written.Some? ==> at + RETENTION <= w.table.held[k].written.value.retainUntil
  }

  /** Two changes under one key are an account's, and a retention apart. */
  predicate Spread(effects: seq<Effect>) {
    forall i, j :: 0 <= i < j < |effects| && effects[i].key == effects[j].key ==>
                     effects[i].key.owner.Account? && effects[i].at + RETENTION <= effects[j].at
  }

  /** A change was made by one attempt, which ended with it. */
  predicate Made(w: World, i: nat)
    requires i < |w.effects|
  {
    var a := w.effects[i].attempt;
    && a in w.attempts
    && (w.attempts[a].phase == Done(w.effects[i].answer, i) || w.attempts[a].phase == Failed(Unheard))
  }

  predicate MadeOnce(effects: seq<Effect>) {
    forall i, j :: 0 <= i < j < |effects| ==> effects[i].attempt != effects[j].attempt
  }

  /** An answer given is the answer of a change made by the same command. */
  predicate AnswerOk(w: World, a: nat)
    requires a in w.attempts
  {
    var t := w.attempts[a];
    t.phase.Done? ==>
      t.phase.source < |w.effects| && w.effects[t.phase.source].key == t.key
      && w.effects[t.phase.source].fingerprint == t.fingerprint && w.effects[t.phase.source].answer == t.phase.answer
  }

  predicate WorldOk(w: World) {
    && HeldOk(w) && RowsOk(w) && Spread(w.effects) && MadeOnce(w.effects)
    && (forall i :: 0 <= i < |w.effects| ==> Kept(w, i) && Made(w, i))
    && (forall a :: a in w.attempts ==> AnswerOk(w, a))
  }

  lemma {:induction false} AdvanceKeeps(w: World, now: int)
    requires WorldOk(w)
    ensures WorldOk(Advance(w, now))
  {
    var on := Advance(w, now);
    forall k | k in on.table.held ensures Holder(on, k) { assert Holder(w, k); }
    forall k | k in on.table.rows ensures RowIsLatest(on, k) { assert RowIsLatest(w, k); }
    forall a | a in on.attempts && on.attempts[a].phase == Owning ensures Holds(on, a) { assert Holds(w, a); }
    forall i | 0 <= i < |on.effects| ensures Kept(on, i) && Made(on, i) { assert Kept(w, i) && Made(w, i); }
    forall a | a in on.attempts ensures AnswerOk(on, a) { assert AnswerOk(w, a); }
  }

  /** An attempt that makes no change and holds nothing afterwards moves alone. */
  lemma {:induction false} MovingKeeps(w: World, a: nat, t: Attempt)
    requires WorldOk(w) && (a in w.attempts ==> !w.attempts[a].phase.Owning? && !w.attempts[a].phase.Done?
                                                && w.attempts[a].phase != Failed(Unheard))
    requires !t.phase.Owning?
    requires AnswerOk(w.(attempts := w.attempts[a := t]), a)
    ensures WorldOk(w.(attempts := w.attempts[a := t]))
  {
    var on := w.(attempts := w.attempts[a := t]);
    forall k | k in on.table.held ensures Holder(on, k) { assert Holder(w, k); }
    forall k | k in on.table.rows ensures RowIsLatest(on, k) { assert RowIsLatest(w, k); }
    forall b | b in on.attempts && on.attempts[b].phase == Owning ensures Holds(on, b) { assert Holds(w, b); }
    forall i | 0 <= i < |on.effects| ensures Kept(on, i) && Made(on, i) { assert Kept(w, i) && Made(w, i); }
    forall b | b in on.attempts ensures AnswerOk(on, b) { assert b != a ==> AnswerOk(w, b); }
  }

  lemma {:induction false} ReadingKeeps(w: World, a: nat)
    requires WorldOk(w) && InPhase(w, a, Reading)
    ensures WorldOk(ReadBy(w, a))
  {
    var on := ReadBy(w, a);
    if w.attempts[a].key in w.table.rows {
      assert RowIsLatest(w, w.attempts[a].key);
    }
    MovingKeeps(w, a, on.attempts[a]);
  }

  /** An insert that meets neither a stored row nor a waiting one holds the key. */
  lemma {:induction false} ClaimingKeeps(w: World, a: nat)
    requires WorldOk(w) && Enabled(w, Claim(a))
    ensures WorldOk(Step(w, Claim(a)))
  {
    var on := Step(w, Claim(a));
    var key := w.attempts[a].key;
    if key in w.table.rows {
      MovingKeeps(w, a, on.attempts[a]);
      assert on == w.(attempts := w.attempts[a := on.attempts[a]]);
    } else {
      forall k | k in on.table.held ensures k !in on.table.rows && Holder(on, k) { assert k != key ==> Holder(w, k); }
      forall k | k in on.table.rows ensures RowIsLatest(on, k) { assert RowIsLatest(w, k); }
      forall b | b in on.attempts && on.attempts[b].phase == Owning ensures Holds(on, b) {
        assert b != a ==> Holds(w, b) && w.attempts[b].key != key;
      }
      forall i | 0 <= i < |on.effects| ensures Kept(on, i) && Made(on, i) { assert Kept(w, i) && Made(w, i); }
      forall b | b in on.attempts ensures AnswerOk(on, b) { assert AnswerOk(w, b); }
    }
  }

  lemma {:induction false} DecidingKeeps(w: World, a: nat, answer: int)
    requires WorldOk(w) && Enabled(w, Decide(a, answer))
    ensures WorldOk(Step(w, Decide(a, answer)))
  {
    var on := Step(w, Decide(a, answer));
    forall k | k in on.table.held ensures k !in on.table.rows && Holder(on, k) { assert Holder(w, k); }
    forall k | k in on.table.rows ensures RowIsLatest(on, k) { assert RowIsLatest(w, k); }
    forall b | b in on.attempts && on.attempts[b].phase == Owning ensures Holds(on, b) { assert Holds(w, b); }
    forall i | 0 <= i < |on.effects| ensures Kept(on, i) && Made(on, i) { assert Kept(w, i) && Made(w, i); }
    forall b | b in on.attempts ensures AnswerOk(on, b) { assert AnswerOk(w, b); }
  }

  lemma {:induction false} RollingBackKeeps(w: World, a: nat)
    requires WorldOk(w) && Holds(w, a)
    ensures WorldOk(Step(w, Break(a)))
  {
    var on := Step(w, Break(a));
    var key := w.attempts[a].key;
    forall k | k in on.table.held ensures Holder(on, k) { assert Holder(w, k) && k != key; }
    forall k | k in on.table.rows ensures RowIsLatest(on, k) { assert RowIsLatest(w, k); }
    forall b | b in on.attempts && on.attempts[b].phase == Owning ensures Holds(on, b) { assert Holds(w, b); }
    forall i | 0 <= i < |on.effects| ensures Kept(on, i) && Made(on, i) { assert Kept(w, i) && Made(w, i); }
    forall b | b in on.attempts ensures AnswerOk(on, b) { assert AnswerOk(w, b); }
  }

  /** A commit adds one change, a retention behind every earlier one of its key. */
  lemma {:induction false} FinishingAddsOneChange(w: World, a: nat, heard: bool)
    requires WorldOk(w) && Enabled(w, Finish(a, heard))
    ensures Spread(FinishedBy(w, a, heard).effects) && MadeOnce(FinishedBy(w, a, heard).effects)
  {
    var on := FinishedBy(w, a, heard);
    var key, last := w.attempts[a].key, |w.effects|;
    assert Holder(w, key);
    forall i | 0 <= i < last
      ensures w.effects[i].attempt != a
      ensures w.effects[i].key == key ==> key.owner.Account? && w.effects[i].at + RETENTION <= on.effects[last].at
    {
      assert Kept(w, i) && Made(w, i);
    }
  }

  lemma {:induction false} FinishingKeepsChanges(w: World, a: nat, heard: bool, i: nat)
    requires WorldOk(w) && Enabled(w, Finish(a, heard)) && i <= |w.effects|
    ensures Kept(FinishedBy(w, a, heard), i) && Made(FinishedBy(w, a, heard), i)
  {
    assert Holder(w, w.attempts[a].key);
    if i < |w.effects| {
      assert Kept(w, i) && Made(w, i);
    }
  }

  lemma {:induction false} FinishingKeeps(w: World, a: nat, heard: bool)
    requires WorldOk(w) && Enabled(w, Finish(a, heard))
    ensures WorldOk(FinishedBy(w, a, heard))
  {
    var on := FinishedBy(w, a, heard);
    var key := w.attempts[a].key;
    assert Holder(w, key);
    forall k | k in on.table.held ensures k !in on.table.rows && Holder(on, k) { assert Holder(w, k) && k != key; }
    forall k | k in on.table.rows ensures RowIsLatest(on, k) { assert k != key ==> RowIsLatest(w, k); }
    forall b | b in on.attempts && on.attempts[b].phase == Owning ensures Holds(on, b) { assert Holds(w, b); }
    FinishingAddsOneChange(w, a, heard);
    forall i | 0 <= i < |on.effects| ensures Kept(on, i) && Made(on, i) { FinishingKeepsChanges(w, a, heard, i); }
    forall b | b in on.attempts ensures AnswerOk(on, b) { assert AnswerOk(w, b); }
  }

  lemma {:induction false} SweepingKeeps(w: World, limit: nat, batch: set<Key>)
    requires WorldOk(w) && IsBatch(w.table.rows, w.clock, limit, batch)
    ensures WorldOk(Step(w, Sweep(limit, batch)))
  {
    var on := Step(w, Sweep(limit, batch));
    forall k | k in on.table.held ensures k !in on.table.rows && Holder(on, k) { assert Holder(w, k); }
    forall k | k in on.table.rows ensures RowIsLatest(on, k) { assert RowIsLatest(w, k); }
    forall b | b in on.attempts && on.attempts[b].phase == Owning ensures Holds(on, b) { assert Holds(w, b); }
    forall i | 0 <= i < |on.effects| ensures Kept(on, i) && Made(on, i) {
      var k := w.effects[i].key;
      assert Kept(w, i) && Made(w, i);
      if k in Deletable(batch) && w.latest[k] == i {
        assert RowIsLatest(w, k) && Expired(w.table.rows, w.clock, k) && k !in w.table.held;
      }
    }
    forall b | b in on.attempts ensures AnswerOk(on, b) { assert AnswerOk(w, b); }
  }

  lemma {:induction false} StepKeeps(w: World, e: Event)
    requires WorldOk(w) && Enabled(w, e)
    ensures WorldOk(Step(w, e))
  {
    match e {
      case Begin(a, k, f) => MovingKeeps(w, a, Attempt(k, f, Started));
      case Claim(a) => ClaimingKeeps(w, a);
      case Read(a) => ReadingKeeps(w, a);
      case GiveUp(a) => MovingKeeps(w, a, Step(w, e).attempts[a]);
      case Decide(a, answer) => DecidingKeeps(w, a, answer);
      case Finish(a, heard) => FinishingKeeps(w, a, heard);
      case Break(a) =>
        if Holds(w, a) {
          RollingBackKeeps(w, a);
        } else {
          MovingKeeps(w, a, Step(w, e).attempts[a]);
        }
      case Sweep(limit, batch) => SweepingKeeps(w, limit, batch);
    }
  }

  lemma {:induction false} RunKeeps(w: World, events: seq<Timed>)
    requires WorldOk(w)
    ensures WorldOk(Run(w, events))
    decreases |events|
  {
    if events != [] {
      var before := Run(w, events[..|events| - 1]);
      var e := events[|events| - 1];
      RunKeeps(w, events[..|events| - 1]);
      AdvanceKeeps(before, e.at);
      if Enabled(Advance(before, e.at), e.event) {
        StepKeeps(Advance(before, e.at), e.event);
      }
    }
  }

  ghost predicate Reachable(w: World) {
    exists clock: int, events: seq<Timed> :: w == Run(Begun(clock), events)
  }

  lemma {:induction false} ReachableIsOk(w: World)
    requires Reachable(w)
    ensures WorldOk(w)
  {
    var clock: int, events: seq<Timed> :| w == Run(Begun(clock), events);
    RunKeeps(Begun(clock), events);
  }

  // ---- What that promises a client ----

  /** However attempts race, roll back, repeat and are swept away: one key changes something at most once within a
      day, and at most once ever when the installation owns it. */
  lemma {:induction false} ChangesOfAKeyAreFarApart(w: World, i: nat, j: nat)
    requires Reachable(w) && i < j < |w.effects| && w.effects[i].key == w.effects[j].key
    ensures w.effects[i].key.owner.Account? && w.effects[i].at + 86_400_000_000 <= w.effects[j].at
    ensures w.effects[i].attempt != w.effects[j].attempt
  {
    ReachableIsOk(w);
  }

  /** Two attempts answered under one key made or repeat the same change of the same command and got the same answer,
      unless their answers were decided a day apart. */
  lemma {:induction false} AnswersAgree(w: World, a: nat, b: nat)
    requires Reachable(w) && a in w.attempts && b in w.attempts && w.attempts[a].key == w.attempts[b].key
    requires w.attempts[a].phase.Done? && w.attempts[b].phase.Done?
    ensures var i, j := w.attempts[a].phase.source, w.attempts[b].phase.source;
            && i < |w.effects| && j < |w.effects|
            && w.effects[i].key == w.effects[j].key == w.attempts[a].key
            && (i == j ==> w.attempts[a].phase == w.attempts[b].phase
                           && w.attempts[a].fingerprint == w.attempts[b].fingerprint)
            && (i < j ==> w.effects[i].at + 86_400_000_000 <= w.effects[j].at)
            && (j < i ==> w.effects[j].at + 86_400_000_000 <= w.effects[i].at)
  {
    ReachableIsOk(w);
    assert AnswerOk(w, a) && AnswerOk(w, b);
  }

  /** An attempt that was refused, met another command's answer, found the key busy or broke off changed nothing; one
      that was answered stands for exactly one change, its own or the one it repeats. */
  lemma {:induction false} OnlyAnsweredAttemptsChange(w: World, i: nat)
    requires Reachable(w) && i < |w.effects|
    ensures var e := w.effects[i];
            && e.attempt in w.attempts
            && (w.attempts[e.attempt].phase == Done(e.answer, i) || w.attempts[e.attempt].phase == Failed(Unheard))
  {
    ReachableIsOk(w);
    assert Made(w, i);
  }

  /** While an answer is stored it is the answer of the last change under its key; and a change less than a day
      old, or the installation's, still has its answer stored. */
  lemma {:induction false} StoredAnswersAreTheLastOnes(w: World, i: nat)
    requires Reachable(w) && i < |w.effects|
    requires w.effects[i].at + 86_400_000_000 > w.clock || w.effects[i].key.owner.Installation?
    ensures var e := w.effects[i];
            e.key in w.table.rows && w.table.rows[e.key] == Entry(e.fingerprint, e.answer, e.at + 86_400_000_000)
  {
    ReachableIsOk(w);
    assert Kept(w, i);
    assert RowIsLatest(w, w.effects[i].key);
  }

  /** Within a day of a change, an attempt that comes to its key finds it taken, and is answered as the change was when
      it is the same command and refused when it is another. */
  lemma {:induction false} RepeatsAreAnswered(w: World, i: nat, a: nat)
    requires Reachable(w) && i < |w.effects| && a in w.attempts && w.attempts[a].key == w.effects[i].key
    requires w.effects[i].at + 86_400_000_000 > w.clock || w.effects[i].key.owner.Installation?
    ensures Enabled(w, Claim(a)) ==> Step(w, Claim(a)).attempts[a].phase == Reading
    ensures Enabled(w, Read(a)) ==>
              Step(w, Read(a)).attempts[a].phase ==
              if w.attempts[a].fingerprint == w.effects[i].fingerprint then Done(w.effects[i].answer, i)
              else Failed(OtherCommand)
  {
    StoredAnswersAreTheLastOnes(w, i);
    ReachableIsOk(w);
    assert Kept(w, i);
  }

  /** While another attempt holds its key, one that comes to it cannot take it, and is refused as busy without a
      trace. */
  lemma {:induction false} WaitersAreToldBusy(w: World, a: nat, holder: nat)
    requires Reachable(w) && InPhase(w, a, Started) && InPhase(w, holder, Owning)
    requires w.attempts[a].key == w.attempts[holder].key
    ensures !Enabled(w, Claim(a)) && Enabled(w, GiveUp(a))
    ensures Step(w, GiveUp(a)) == w.(attempts := w.attempts[a := w.attempts[a].(phase := Failed(Busy))])
  {
    ReachableIsOk(w);
    assert Holds(w, holder);
  }

  /** Two attempts never hold one key. */
  lemma {:induction false} OneHolder(w: World, a: nat, b: nat)
    requires Reachable(w) && InPhase(w, a, Owning) && InPhase(w, b, Owning) && w.attempts[a].key == w.attempts[b].key
    ensures a == b && w.attempts[a].key !in w.table.rows
  {
    ReachableIsOk(w);
    assert Holds(w, a) && Holds(w, b);
  }

  // ---- What the sweep leaves ----

  /** A sweep empties its batch exactly when no row in it is the installation's; those rows outlive every sweep. */
  lemma {:induction false} SweepEmptiesItsBatchExactlyWhen(t: Table, batch: set<Key>)
    requires batch <= t.rows.Keys
    ensures (forall k :: k in batch ==> k !in DeleteExpired(t, batch).rows) <==>
            (forall k :: k in batch ==> k.owner.Account?)
    ensures forall k :: k in t.rows && k !in DeleteExpired(t, batch).rows ==> k in batch && k.owner.Account?
  {
    forall k | k in batch && k.owner.Installation? ensures k in DeleteExpired(t, batch).rows {
      assert k in t.rows;
    }
  }

  /** As many expired rows of the installation as a sweep selects, each older than every row of an account that is
      stored or being written. */
  predicate Stalled(w: World, limit: nat, stale: set<Key>) {
    && |stale| >= limit
    && (forall k :: k in stale ==> k.owner.Installation? && Expired(w.table.rows, w.clock, k))
    && (forall k, l :: k in stale && l in w.table.rows && l.owner.Account? ==>
                         w.table.rows[k].retainUntil < w.table.rows[l].retainUntil)
    && (forall k, l :: k in stale && l in w.table.held && w.table.held[l].written.Some? ==>
                         w.table.rows[k].retainUntil < w.table.held[l].written.value.retainUntil)
  }

  /** A stalled sweep finds only rows it cannot delete. */
  lemma {:induction false} StalledSweepDeletesNothing(w: World, limit: nat, stale: set<Key>, size: nat, batch: set<Key>)
    requires Stalled(w, limit, stale) && size <= limit && IsBatch(w.table.rows, w.clock, size, batch)
    ensures DeleteExpired(w.table, batch) == w.table
  {
    forall k | k in batch ensures k.owner.Installation? {
      if k.owner.Account? {
        forall x | x in stale ensures x in batch {
          assert w.table.rows[x].retainUntil < w.table.rows[k].retainUntil;
        }
        Larger(stale + {k}, batch);
      }
    }
    assert Deletable(batch) == {};
  }

  lemma {:induction false} Larger(a: set<Key>, b: set<Key>)
    requires a <= b
    ensures |a| <= |b|
  {
    assert b == a + (b - a);
  }

  lemma {:induction false} StalledStep(w: World, limit: nat, stale: set<Key>, e: Event)
    requires Stalled(w, limit, stale) && HeldOk(w) && Enabled(w, e) && (e.Sweep? ==> e.limit <= limit)
    ensures Stalled(Step(w, e), limit, stale) && w.table.rows.Keys <= Step(w, e).table.rows.Keys
  {
    var on := Step(w, e);
    if e.Sweep? {
      StalledSweepDeletesNothing(w, limit, stale, e.limit, e.batch);
    } else {
      forall k | k in stale ensures Expired(on.table.rows, on.clock, k) && on.table.rows[k] == w.table.rows[k] {
        assert Expired(w.table.rows, w.clock, k);
      }
    }
  }

  /** Once that many expired rows of the installation lie in front, no later sweep of at most that size ever deletes
      anything: every answer then stored, of whatever account, stays for good. */
  lemma {:induction false} StalledForever(w: World, limit: nat, stale: set<Key>, events: seq<Timed>)
    requires WorldOk(w) && Stalled(w, limit, stale)
    requires forall e :: e in events && e.event.Sweep? ==> e.event.limit <= limit
    ensures Stalled(Run(w, events), limit, stale)
    ensures w.table.rows.Keys <= Run(w, events).table.rows.Keys
    decreases |events|
  {
    if events != [] {
      var before := Run(w, events[..|events| - 1]);
      var e := events[|events| - 1];
      StalledForever(w, limit, stale, events[..|events| - 1]);
      RunKeeps(w, events[..|events| - 1]);
      var on := Advance(before, e.at);
      AdvanceKeeps(before, e.at);
      assert Stalled(on, limit, stale);
      if Enabled(on, e.event) {
        StalledStep(on, limit, stale, e.event);
      }
    }
  }

  // ---- How a sweep comes to stall ----

  /** Some run leads from an empty table to a state. */
  ghost predicate Leads(w: World) {
    exists events :: w == Run(Begun(0), events)
  }

  lemma {:induction false} LeadsOn(w: World, e: Timed)
    requires Leads(w)
    ensures Leads(Next(w, e))
  {
    var events :| w == Run(Begun(0), events);
    var more := events + [e];
    assert more[..|more| - 1] == events && more[|more| - 1] == e;
    assert Next(w, e) == Run(Begun(0), more);
  }

  /** Nothing is held, and every attempt so far had a lower number. */
  ghost predicate Quiet(w: World, n: nat) {
    Leads(w) && w.table.held == map[] && forall a :: a in w.attempts ==> a < n
  }

  /** One command, made without company: its answer is stored. */
  lemma {:induction false} OneCommand(w: World, n: nat, key: Key, at: int) returns (after: World)
    requires Quiet(w, n) && key !in w.table.rows && w.clock <= at
    ensures Quiet(after, n + 1) && after.clock == at
    ensures after.table.rows == w.table.rows[key := Entry(0, 0, at + RETENTION)]
  {
    var claimed := ClaimedAlone(w, n, key, at);
    var decided := Next(claimed, Timed(at, Decide(n, 0)));
    LeadsOn(claimed, Timed(at, Decide(n, 0)));
    assert decided.table == Table(w.table.rows, map[key := Pending(n, 0, Some(Entry(0, 0, at + RETENTION)))]);
    after := Next(decided, Timed(at, Finish(n, true)));
    LeadsOn(decided, Timed(at, Finish(n, true)));
  }

  lemma {:induction false} ClaimedAlone(w: World, n: nat, key: Key, at: int) returns (claimed: World)
    requires Quiet(w, n) && key !in w.table.rows && w.clock <= at
    ensures Leads(claimed) && claimed.clock == at && InPhase(claimed, n, Owning) && claimed.attempts[n].key == key
    ensures claimed.table == Table(w.table.rows, map[key := Pending(n, 0, None)])
    ensures forall a :: a in claimed.attempts ==> a <= n
  {
    var begun := Next(w, Timed(at, Begin(n, key, 0)));
    LeadsOn(w, Timed(at, Begin(n, key, 0)));
    assert begun.attempts[n] == Attempt(key, 0, Started) && begun.table == w.table && begun.clock == at;
    claimed := Next(begun, Timed(at, Event.Claim(n)));
    LeadsOn(begun, Timed(at, Event.Claim(n)));
  }

  function KeyOfInstallation(i: nat): Key {
    Key(Installation, i)
  }

  function KeysOfInstallation(n: nat): (keys: set<Key>)
    ensures |keys| == n
    ensures forall k :: k in keys <==> k.owner == Installation && k.command < n
  {
    if n == 0 then {} else KeysOfInstallation(n - 1) + {KeyOfInstallation(n - 1)}
  }

  /** As many commands of the installation as one likes. */
  lemma {:induction false} ManyCommands(n: nat) returns (w: World)
    ensures Quiet(w, n) && w.clock == 0 && w.table.rows.Keys == KeysOfInstallation(n)
    ensures forall k :: k in w.table.rows ==> w.table.rows[k].retainUntil == RETENTION
  {
    if n == 0 {
      w := Begun(0);
      assert w == Run(Begun(0), []);
    } else {
      var before := ManyCommands(n - 1);
      w := OneCommand(before, n - 1, KeyOfInstallation(n - 1), 0);
    }
  }

  /** For a sweep of any size: that many commands of the installation, one of an account a moment later, and a day.
      The answer of the account is due for deletion, and the sweep is stalled. */
  lemma {:induction false} StallingHappens(limit: nat, user: nat) returns (w: World, stale: set<Key>)
    ensures Reachable(w) && Stalled(w, limit, stale)
    ensures Expired(w.table.rows, w.clock, Key(Account(user), 0))
  {
    var many := ManyCommands(limit);
    stale := KeysOfInstallation(limit);
    var last := OneCommand(many, limit, Key(Account(user), 0), 1);
    w := ADayLater(last);
    var events :| w == Run(Begun(0), events);
  }

  /** Nothing happens for a day. */
  lemma {:induction false} ADayLater(w: World) returns (later: World)
    requires Leads(w) && w.clock <= RETENTION + 1
    ensures Leads(later) && later.table == w.table && later.clock == RETENTION + 1
  {
    var day := Timed(RETENTION + 1, Sweep(0, {}));
    later := Next(w, day);
    LeadsOn(w, day);
    assert Deletable({}) == {};
  }

  // ---- The table as the statements change it ----

  datatype Claim = Owns | Answered(answer: int) | Unavailable(failure: Failure)

  datatype Outcome = Decided(answer: int) | Replayed(answer: int) | Refused(failure: Failure)

  class Requests {
    var rows: map<Key, Entry>
    var held: map<Key, Pending>

    constructor ()
      ensures Contents() == Table(map[], map[])
    {
      rows, held := map[], map[];
    }

    function Contents(): Table
      reads this
    {
      Table(rows, held)
    }

    /** Takes a key, or tells what the key already holds. An attempt that waited for the holder in vain is told the
        command is in progress. */
    method ClaimKey(attempt: nat, key: Key, fingerprint: int) returns (claim: Claim)
      modifies this`held
      ensures Contents() == Insert(old(Contents()), attempt, key, fingerprint).0
      ensures match Insert(old(Contents()), attempt, key, fingerprint).1
              case Waits => claim == Unavailable(Busy)
              case Inserted => claim == Owns
              case Conflict =>
                (match Stored(old(Contents()), key, fingerprint)
                 case Ok(answer) => claim == Answered(answer)
                 case Err(failure) => claim == Unavailable(failure))
    {
      if key in held {
        return Unavailable(Busy);
      }
      if key !in rows {
        held := held[key := Pending(attempt, fingerprint, None)];
        return Owns;
      }
      var entry := rows[key];
      if entry.fingerprint != fingerprint {
        return Unavailable(OtherCommand);
      }
      return Answered(entry.answer);
    }

    /** Writes the answer of the command that holds the key. */
    method Write(key: Key, answer: int, at: int)
      requires key in held
      modifies this`held
      ensures Contents() == Complete(old(Contents()), key, answer, at)
    {
      var pending := held[key];
      held := held[key := pending.(written := Some(Entry(pending.fingerprint, answer, at + RETENTION)))];
    }

    method CommitKey(key: Key)
      requires key in held && held[key].written.Some?
      modifies this
      ensures Contents() == Commit(old(Contents()), key)
    {
      rows := rows[key := held[key].written.value];
      held := held - {key};
    }

    method RollbackKey(key: Key)
      modifies this`held
      ensures Contents() == Rollback(old(Contents()), key)
    {
      held := held - {key};
    }

    /** One command: replay what the key holds, or decide, store the answer and commit both together. A decision that
        fails rolls the claim back with everything else. */
    method Answer(attempt: nat, key: Key, fingerprint: int, decided: Option<int>, now: int) returns (r: Outcome)
      modifies this
      ensures old(key in held) ==> r == Refused(Busy) && Contents() == old(Contents())
      ensures old(key !in held && key in rows) ==>
                && Contents() == old(Contents())
                && r == if old(rows[key].fingerprint) == fingerprint then Replayed(old(rows[key].answer))
                        else Refused(OtherCommand)
      ensures old(key !in held && key !in rows) ==>
                && held == old(held)
                && (decided.None? ==> r == Refused(Broken) && rows == old(rows))
                && (decided.Some? ==>
                      && r == Decided(decided.value)
                      && rows == old(rows)[key := Entry(fingerprint, decided.value, now + RETENTION)])
    {
      var claim := ClaimKey(attempt, key, fingerprint);
      match claim {
        case Unavailable(failure) => return Refused(failure);
        case Answered(answer) => return Replayed(answer);
        case Owns =>
          if decided.None? {
            RollbackKey(key);
            assert held == old(held);
            return Refused(Broken);
          }
          Write(key, decided.value, now);
          CommitKey(key);
          assert held == old(held);
          return Decided(decided.value);
      }
    }
  }
}
