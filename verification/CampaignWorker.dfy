/**
  The campaign dispatcher's code: the callback that re-batches the user stream, the publisher with
  its retries, and the checkpoint after every batch.  `World` stands for everything outside the
  process; it records each call as an event of the protocol, so `World.Valid` says that the calls
  made so far form a history the protocol allows.
*/
module CampaignWorker {
  import opened Wrappers
  import opened UserStream
  import opened Campaign

  const DEFAULT_BATCH_SIZE: nat := 1000

  /** `Exhausted` is the error after five attempts that met a full queue. */
  datatype Error = NoError | ErrQueueFull | Exhausted | Canceled | OtherError

  /** The total wait after `attempts` attempts that met a full queue, in seconds. */
  function Backoff(attempts: nat): nat {
    if attempts == 0 then 0 else Backoff(attempts - 1) + 5 * attempts
  }

  lemma BackoffBound(attempts: nat)
    requires attempts <= MAX_ATTEMPTS
    ensures Backoff(attempts) <= 75 && (attempts == 5 ==> Backoff(attempts) == 75)
  {
    assert Backoff(1) == 5 && Backoff(2) == 15 && Backoff(3) == 30 && Backoff(4) == 50 && Backoff(5) == 75;
  }

  /** The prefixes of a batch that failed attempts have published, one after the other. */
  function Attempts(tasks: seq<Task>, prefixes: seq<nat>): seq<Task>
    requires forall i :: 0 <= i < |prefixes| ==> prefixes[i] <= |tasks|
  {
    if prefixes == [] then []
    else Attempts(tasks, prefixes[..|prefixes| - 1]) + tasks[..prefixes[|prefixes| - 1]]
  }

  /** So many attempts publish no more messages than as many whole batches. */
  lemma {:induction false} AttemptsBound(tasks: seq<Task>, prefixes: seq<nat>)
    requires forall i :: 0 <= i < |prefixes| ==> prefixes[i] <= |tasks|
    ensures |Attempts(tasks, prefixes)| <= |prefixes| * |tasks|
  {
    if prefixes != [] {
      AttemptsBound(tasks, prefixes[..|prefixes| - 1]);
      assert |prefixes| * |tasks| == (|prefixes| - 1) * |tasks| + |tasks|;
    }
  }

  /** Up to five attempts, of which the last may be the whole batch, publish at most five batches. */
  lemma FiveBatches(tasks: seq<Task>, prefixes: seq<nat>, whole: bool)
    requires forall i :: 0 <= i < |prefixes| ==> prefixes[i] <= |tasks|
    requires |prefixes| <= MAX_ATTEMPTS && (whole ==> |prefixes| < MAX_ATTEMPTS)
    ensures |Attempts(tasks, prefixes)| + (if whole then |tasks| else 0) <= MAX_ATTEMPTS * |tasks|
  {
    AttemptsBound(tasks, prefixes);
    var n := |prefixes| + if whole then 1 else 0;
    assert n * |tasks| == |prefixes| * |tasks| + if whole then |tasks| else 0;
    assert (MAX_ATTEMPTS - n) * |tasks| >= 0;
    assert (MAX_ATTEMPTS - n) * |tasks| == MAX_ATTEMPTS * |tasks| - n * |tasks|;
  }

  lemma OneMoreAttempt(log: seq<Task>, tasks: seq<Task>, prefixes: seq<nat>, k: nat)
    requires k <= |tasks| && forall i :: 0 <= i < |prefixes| ==> prefixes[i] <= |tasks|
    ensures log + Attempts(tasks, prefixes + [k]) == log + Attempts(tasks, prefixes) + tasks[..k]
  {
    assert (prefixes + [k])[..|prefixes|] == prefixes;
  }

  /**
    What publishing a batch adds to the log: every failed attempt a prefix, a proper one if the queue
    was full, and success the whole batch in order, after at most four failed attempts.
  */
  ghost predicate RetryLog(tasks: seq<Task>, before: seq<Task>, after: seq<Task>, prefixes: seq<nat>, err: Error) {
    && |prefixes| <= MAX_ATTEMPTS
    && (err == NoError ==> |prefixes| < MAX_ATTEMPTS) && (err == Exhausted ==> |prefixes| == MAX_ATTEMPTS)
    && (forall i :: 0 <= i < |prefixes| ==> prefixes[i] <= |tasks|)
    && (forall i :: 0 <= i < |prefixes| && (err in {NoError, Exhausted} || i < |prefixes| - 1) ==>
          prefixes[i] < |tasks|)
    && after == before + Attempts(tasks, prefixes) + if err == NoError then tasks else []
  }

  /** A conversion to a 32-bit signed integer. */
  function Int32(n: int): int {
    (n + 0x8000_0000) % 0x1_0000_0000 - 0x8000_0000
  }

  /** The columns of a campaign row that claiming reads. */
  datatype CampaignRow = CampaignRow(status: Status, scheduledAt: int, deleted: bool)

  predicate Ready(row: CampaignRow, now: int) {
    row.status == Pending && row.scheduledAt <= now && !row.deleted
  }

  /**
    SELECT ... WHERE status = 'pending' AND scheduled_at <= now AND deleted_at IS NULL ORDER BY
    scheduled_at LIMIT 1 FOR UPDATE SKIP LOCKED, and the update of the row it finds.
  */
  method ClaimReady(table: map<nat, CampaignRow>, locked: set<nat>, now: int)
    returns (claimed: Option<nat>, after: map<nat, CampaignRow>)
    ensures claimed.None? ==> after == table && forall id :: id in table && id !in locked ==>
              table[id].status != Pending || table[id].scheduledAt > now || table[id].deleted
    ensures claimed.Some? ==>
      && claimed.value in table && claimed.value !in locked
      && table[claimed.value].status == Pending && table[claimed.value].scheduledAt <= now
      && !table[claimed.value].deleted
      && (forall id :: id in table && id !in locked && table[id].status == Pending && !table[id].deleted ==>
            table[claimed.value].scheduledAt <= table[id].scheduledAt)
      && after == table[claimed.value := table[claimed.value].(status := Dispatching)]
  {
    claimed, after := None, table;
    var rest := table.Keys;
    while rest != {}
      invariant rest <= table.Keys
      invariant claimed.None? ==> forall id :: id in table && id !in rest && id !in locked ==> !Ready(table[id], now)
      invariant claimed.Some? ==>
        && claimed.value in table && claimed.value !in locked && Ready(table[claimed.value], now)
        && (forall id :: id in table && id !in rest && id !in locked && Ready(table[id], now) ==>
              table[claimed.value].scheduledAt <= table[id].scheduledAt)
      decreases rest
    {
      var id :| id in rest;
      if id !in locked && Ready(table[id], now)
         && (claimed.None? || table[id].scheduledAt < table[claimed.value].scheduledAt) {
        claimed := Some(id);
      }
      rest := rest - {id};
    }
    if claimed.Some? {
      after := table[claimed.value := table[claimed.value].(status := Dispatching)];
    }
  }

  lemma NextRecord(records: seq<UserRecord>, users: seq<UserRecord>, first: nat, i: nat)
    requires first <= |users| && records <= users[first..] && i < |records|
    ensures first + i < |users| && records[i] == users[first + i] && records[..i + 1] == records[..i] + [records[i]]
  {
    assert records[i] == users[first..][i];
  }

  lemma OneMoreUser(users: seq<UserRecord>, base: nat, received: nat)
    requires base <= received < |users|
    ensures users[base..received + 1] == users[base..received] + [users[received]]
  {
  }

  lemma TasksAppend(p: Plan, i: nat, j: nat, k: nat)
    requires i <= j <= k <= |p.users|
    ensures p.Tasks(p.users[i..k]) == p.Tasks(p.users[i..j]) + p.Tasks(p.users[j..k])
  {
    assert p.users[i..k] == p.users[i..j] + p.users[j..k];
  }

  /** The world outside: `dbWorks` means that no write to the database fails, `restWorks` that no other call does. */
  class World {
    const plan: Plan
    const dbWorks: bool
    const restWorks: bool
    var row: Row
    var log: seq<Task>
    var waited: nat
    var faults: nat // the calls that failed
    ghost var worker: Worker
    ghost var events: seq<Event>
    ghost var states: seq<State> // before and after every event

    constructor (plan: Plan, row: Row, dbWorks: bool, restWorks: bool)
      requires plan.Valid() && row.status in {Pending, Dispatching} && row.cursor == None && row.dispatched == 0
      ensures Valid() && this.plan == plan && this.row == row && log == [] && worker == Idle
      ensures this.dbWorks == dbWorks && this.restWorks == restWorks
    {
      this.dbWorks, this.restWorks := dbWorks, restWorks;
      this.plan, this.row, this.log, this.waited, this.faults := plan, row, [], 0, 0;
      this.worker, this.events, this.states := Idle, [], [State(row, [], Idle)];
    }

    ghost function Now(): State reads this`row, this`log, this`worker { State(row, log, worker) }

    /** The calls made so far are a history the protocol allows. */
    ghost predicate Valid()
      reads this`row, this`log, this`worker, this`events, this`states
    {
      && plan.Valid()
      && |states| == |events| + 1 && Fresh(states[0]) && states[|events|] == Now()
      && (forall i {:trigger events[i]} :: 0 <= i < |events| ==>
            Allowed(plan, states[i], events[i]) && states[i + 1] == Apply(plan, states[i], events[i]))
    }

    lemma HistoryUpTo(n: nat)
      requires Valid() && n <= |events|
      ensures Execute(plan, states[0], events[..n]) == Some(states[n])
    {
      if n > 0 {
        HistoryUpTo(n - 1);
        assert events[..n][..n - 1] == events[..n - 1] && events[..n][n - 1] == events[n - 1];
      }
    }

    /** So what the protocol guarantees of every history holds here. */
    lemma NowCovered()
      requires Valid()
      ensures Execute(plan, states[0], events) == Some(Now()) && Covered(plan, Now())
    {
      HistoryUpTo(|events|);
      assert events[..|events|] == events;
      ExecuteCovered(plan, states[0], events, Now());
    }

    /** Every call to the outside is one event of the protocol. */
    ghost method Record(e: Event)
      requires Valid() && Allowed(plan, Now(), e)
      modifies this`worker, this`events, this`states
      ensures worker == Apply(plan, old(Now()), e).worker
      ensures events == old(events) + [e] && states == old(states) + [Apply(plan, old(Now()), e)]
    {
      events, states := events + [e], states + [Apply(plan, Now(), e)];
      worker := states[|events|].worker;
    }

    /** Claiming as the row of this campaign sees it. */
    method ClaimPendingCampaign() returns (claimed: bool)
      requires Valid()
      modifies this`row, this`worker, this`events, this`states
      ensures Valid() && worker == old(worker) && log == old(log)
      ensures claimed ==> old(row.status) == Pending && row == old(row).(status := Dispatching)
      ensures !claimed ==> row == old(row)
    {
      var available: bool := *;
      claimed := available && row.status == Pending;
      if claimed {
        Record(Claimed);
        row := row.(status := Dispatching);
      }
    }

    method Load() returns (cursor: Cursor)
      requires Valid()
      modifies this`worker, this`events, this`states
      ensures Valid() && cursor == row.cursor
      ensures worker == Running(Passed(plan.users, cursor), 0, 0)
    {
      cursor := row.cursor;
      Record(Begin);
    }

    /** Whether a write is lost, and whether it is reported as failed although it is not. */
    method WriteFails() returns (lost: bool, reported: bool)
      ensures dbWorks ==> !lost && !reported
    {
      var l: bool := *;
      var r: bool := *;
      lost, reported := !dbWorks && l, !dbWorks && r;
    }

    method SetTotalRecipients(count: int) returns (err: Error)
      requires Valid() && worker.Running? && count == |plan.users|
      modifies this`row, this`worker, this`events, this`states, this`faults
      ensures Valid() && worker == old(worker)
      ensures faults == old(faults) + if err == NoError then 0 else 1
      ensures row == old(row).(total := count) || (err != NoError && row == old(row))
      ensures dbWorks ==> err == NoError
    {
      var lost, reported := WriteFails();
      Record(TotalSet(lost));
      if !lost {
        row := row.(total := count);
      }
      err := NoError;
      if lost || reported {
        err, faults := OtherError, faults + 1;
      }
    }

    /** A full queue has refused the message; after any other error it may have been queued all the same. */
    method Publish(task: Task) returns (err: Error, ghost queued: bool)
      requires Valid() && Allowed(plan, Now(), Published(task))
      modifies this`log, this`worker, this`events, this`states, this`faults
      ensures Valid() && err != Exhausted && faults == old(faults) + if err == NoError then 0 else 1
      ensures log == if queued then old(log) + [task] else old(log)
      ensures err == NoError ==> queued && worker == old(worker).(sent := old(worker).sent + 1)
      ensures err == ErrQueueFull ==> !queued && worker == NextAttempt(old(worker))
      ensures err in {Canceled, OtherError} ==> worker == Broken
      ensures restWorks ==> err == NoError
    {
      var full: bool := *;
      if full && !restWorks {
        Record(QueueFull);
        err, queued, faults := ErrQueueFull, false, faults + 1;
        return;
      }
      var failed: bool := *;
      var arrived: bool := *;
      queued := restWorks || !failed || arrived;
      if restWorks || !failed || arrived {
        Enqueue(task);
      }
      err := NoError;
      if failed && !restWorks {
        err := PublishFails();
      }
    }

    /** The publish ends in an error, whether or not the message has arrived. */
    method PublishFails() returns (err: Error)
      requires Valid() && worker.Running?
      modifies this`worker, this`events, this`states, this`faults
      ensures Valid() && err in {Canceled, OtherError} && worker == Broken && faults == old(faults) + 1
    {
      var canceled: bool := *;
      Record(Stopped);
      err, faults := if canceled then Canceled else OtherError, faults + 1;
    }

    /** The message arrives in the queue. */
    method Enqueue(task: Task)
      requires Valid() && Allowed(plan, Now(), Event.Published(task))
      modifies this`log, this`worker, this`events, this`states
      ensures Valid() && log == old(log) + [task] && worker == old(worker).(sent := old(worker).sent + 1)
    {
      Record(Event.Published(task));
      log := log + [task];
    }

    /** The error of the context: none, cancelled, or its deadline. */
    method ContextError() returns (err: Error)
      requires Valid()
      modifies this`worker, this`events, this`states, this`faults
      ensures Valid() && err in {NoError, Canceled, OtherError}
      ensures faults == old(faults) + if err == NoError then 0 else 1
      ensures err == NoError ==> worker == old(worker)
      ensures err != NoError && old(worker).Running? ==> worker == Broken
      ensures !old(worker).Running? ==> worker == old(worker)
      ensures restWorks ==> err == NoError
    {
      var outcome: int := *;
      err := if restWorks || outcome > 1 then NoError else if outcome == 1 then OtherError else Canceled;
      if err != NoError {
        faults := faults + 1;
        if worker.Running? {
          Record(Stopped);
        }
      }
    }

    /** A call to the identity service, whose failure ends the run. */
    method CallIdentity() returns (ok: bool)
      requires Valid() && worker.Running?
      modifies this`worker, this`events, this`states, this`faults
      ensures Valid() && faults == old(faults) + (if ok then 0 else 1) && worker == if ok then old(worker) else Broken
      ensures restWorks ==> ok
    {
      var failed: bool := *;
      ok := restWorks || !failed;
      if !ok {
        faults := faults + 1;
        Record(Stopped);
      }
    }

    /** The server has ended its stream in an error, which it does only when one of its own calls fails. */
    method StreamFailed(env: ServerEnv)
      requires Valid() && worker.Running? && ServerFails(env)
      modifies this`worker, this`events, this`states, this`faults
      ensures Valid() && worker == Broken && faults == old(faults) + 1
    {
      faults := faults + 1;
      Record(Stopped);
    }

    method Wait(seconds: nat)
      modifies this`waited
      ensures waited == old(waited) + seconds
    {
      waited := waited + seconds;
    }

    /**
      UPDATE campaigns SET last_dispatched_cursor = cursor, dispatched_count = dispatched_count + n;
      after an error the row may have been written or not.
    */
    method CheckpointDispatch(cursor: Cursor, n: nat) returns (err: Error)
      requires Valid() && Allowed(plan, Now(), Checkpointed(false))
      requires cursor == Some(plan.users[plan.BatchEnd(worker.base) - 1].id) && n == worker.sent
      modifies this`row, this`worker, this`events, this`states, this`faults
      ensures Valid() && worker == Running(plan.BatchEnd(old(worker).base), 0, 0)
      ensures faults == old(faults) + if err == NoError then 0 else 1
      ensures || row == old(row).(cursor := cursor, dispatched := old(row).dispatched + n)
              || (err != NoError && row == old(row))
      ensures dbWorks ==> err == NoError
    {
      var lost, reported := WriteFails();
      Record(Checkpointed(lost));
      if !lost {
        row := row.(cursor := cursor, dispatched := row.dispatched + n);
      }
      err := NoError;
      if lost || reported {
        err, faults := OtherError, faults + 1;
      }
    }

    method MarkCampaignStatus(status: Status) returns (ghost lost: bool)
      requires Valid()
      requires status == Completed ==> Allowed(plan, Now(), Finished(false))
      requires status != Completed ==> status == Status.Failed && worker.Broken?
      modifies this`row, this`worker, this`events, this`states, this`faults
      ensures Valid() && worker == Idle && faults >= old(faults)
      ensures row == if lost then old(row) else old(row).(status := status)
      ensures events == old(events) + [MarkEvent(status, lost)]
      ensures faults == old(faults) ==> !lost
      ensures dbWorks ==> faults == old(faults)
    {
      var l, reported := WriteFails();
      lost := l;
      Record(MarkEvent(status, l));
      if !l {
        row := row.(status := status);
      }
      if l || reported {
        faults := faults + 1;
      }
    }
  }

  /** Marking the end of a run, in a write that may be lost. */
  function MarkEvent(status: Status, lost: bool): Event {
    if status == Completed then Finished(lost) else MarkedFailed(lost)
  }

  /** Some page read or send of the server fails, or its context ends. */
  ghost predicate ServerFails(env: ServerEnv) {
    exists k: nat :: env.cancelled(k) || env.read(k).Failed? || env.sendFails(k)
  }

  /** A row and a log as a dispatch run found them. */
  datatype Snapshot = Snapshot(row: Row, log: seq<Task>, faults: nat)

  /** The dispatcher, with the variables its stream callback captures. */
  class CampaignWorker {
    const world: World
    const batchSize: nat
    var batch: seq<UserRecord>
    var cursor: Cursor
    var totalDispatched: nat
    ghost var delivered: seq<UserRecord> // the records the callback was called for

    constructor (world: World, configured: int)
      requires world.plan.batchSize == if configured <= 0 then DEFAULT_BATCH_SIZE else configured
      ensures this.world == world && batchSize == world.plan.batchSize && batch == [] && totalDispatched == 0
      ensures batchSize == if configured > 0 then configured else 1000
    {
      this.world := world;
      this.batchSize := if configured <= 0 then DEFAULT_BATCH_SIZE else configured;
      this.batch, this.cursor, this.totalDispatched := [], None, 0;
    }

    /**
      Without a fault since the run began, the recipients from `first` to `received` are published,
      once each, and those up to `base` are recorded.
    */
    ghost predicate Published(was: Snapshot, first: nat, base: nat, received: nat)
      reads this`totalDispatched, world
      requires first <= base <= received <= |world.plan.users|
    {
      && was.faults <= world.faults && (world.dbWorks && world.restWorks ==> world.faults == was.faults)
      && world.row.status == was.row.status
      && (world.faults == was.faults ==>
            && world.log == was.log + world.plan.Tasks(world.plan.users[first..received])
            && CursorAt(world.plan, world.row.cursor, base)
            && world.row.dispatched == was.row.dispatched + base - first
            && totalDispatched == base - first
            && world.row.total == |world.plan.users|)
    }

    /** Without a fault since the run began, the recipients from `first` to `base` are done, once each. */
    ghost predicate OnTrack(was: Snapshot, first: nat, base: nat)
      reads this`totalDispatched, world
      requires first <= base <= |world.plan.users|
    {
      Published(was, first, base, base)
    }

    /** Between two callbacks: the batch buffer holds the users received since the last flush. */
    ghost predicate Collecting(was: Snapshot, first: nat, received: nat)
      reads this`batch, this`cursor, this`totalDispatched, world
    {
      && world.Valid() && batchSize == world.plan.batchSize
      && world.worker.Running? && world.worker.sent == 0 && world.worker.attempt == 0
      && first <= world.worker.base <= received <= |world.plan.users|
      && batch == world.plan.users[world.worker.base..received] && |batch| < batchSize
      && (batch != [] ==> cursor == Some(batch[|batch| - 1].id))
      && OnTrack(was, first, world.worker.base)
    }

    /** The run has ended in an error that left the campaign's status alone. */
    ghost predicate Stopped(was: Snapshot)
      reads world
    {
      world.Valid() && world.worker == Broken && world.faults > was.faults && world.row.status == was.row.status
    }

    /** Publishes the users one by one, up to the first error. */
    method TryPublishBatch(users: seq<UserRecord>) returns (err: Error, ghost published: nat)
      requires world.Valid() && world.worker.Running? && world.worker.sent == 0
      requires world.worker.base <= |world.plan.users|
      requires users == world.plan.users[world.worker.base..world.plan.BatchEnd(world.worker.base)]
      modifies world`log, world`worker, world`events, world`states, world`faults
      ensures world.Valid() && published <= |users| && err != Exhausted
      ensures err == NoError ==> published == |users|
      ensures err == ErrQueueFull ==> published < |users|
      ensures world.faults == old(world.faults) + if err == NoError then 0 else 1
      ensures world.log == old(world.log) + world.plan.Tasks(users)[..published]
      ensures err == NoError ==> world.worker == old(world.worker).(sent := |users|)
      ensures err == ErrQueueFull ==> world.worker == NextAttempt(old(world.worker))
      ensures err in {Canceled, OtherError} ==> world.worker == Broken
      ensures world.restWorks ==> err == NoError
    {
      published := 0;
      ghost var tasks := world.plan.Tasks(users);
      for i := 0 to |users|
        invariant world.Valid() && published == i && world.faults == old(world.faults)
        invariant world.worker == old(world.worker).(sent := i)
        invariant world.log == old(world.log) + tasks[..i]
      {
        var task := world.plan.TaskFor(users[i]);
        ghost var queued;
        err, queued := world.Publish(task);
        assert tasks[..i + 1] == tasks[..i] + [task];
        if queued {
          published := i + 1;
        }
        if err != NoError {
          return;
        }
      }
      err := NoError;
      assert tasks[..|users|] == tasks;
    }

    /** The whole of publishing a batch: in every outcome at most five times its messages. */
    method PublishBatch(users: seq<UserRecord>) returns (err: Error, ghost prefixes: seq<nat>)
      requires world.Valid() && world.worker.Running? && world.worker.sent == 0 && world.worker.attempt == 0
      requires world.worker.base <= |world.plan.users|
      requires users == world.plan.users[world.worker.base..world.plan.BatchEnd(world.worker.base)]
      modifies world`log, world`worker, world`events, world`states, world`waited, world`faults
      ensures world.Valid() && err != ErrQueueFull
      ensures RetryLog(world.plan.Tasks(users), old(world.log), world.log, prefixes, err)
      ensures |world.log| <= |old(world.log)| + MAX_ATTEMPTS * |users|
      ensures world.faults == old(world.faults) ==> world.log == old(world.log) + world.plan.Tasks(users)
      ensures err == NoError ==> world.worker == Running(old(world.worker).base, |users|, |prefixes|)
      ensures err != NoError ==> world.worker == Broken
      ensures world.faults >= old(world.faults)
      ensures (world.faults == old(world.faults) <==> err == NoError && prefixes == [])
      ensures world.waited <= old(world.waited) + 75
      ensures err == Exhausted ==> |prefixes| == 5 && world.waited == old(world.waited) + 75
      ensures world.restWorks ==> err == NoError && prefixes == []
    {
      err, prefixes := RetryBatch(users);
      FiveBatches(world.plan.Tasks(users), prefixes, err == NoError);
    }

    /** Publishes one batch, backing off and starting it again while the queue is full. */
    method RetryBatch(users: seq<UserRecord>) returns (err: Error, ghost prefixes: seq<nat>)
      requires world.Valid() && world.worker.Running? && world.worker.sent == 0 && world.worker.attempt == 0
      requires world.worker.base <= |world.plan.users|
      requires users == world.plan.users[world.worker.base..world.plan.BatchEnd(world.worker.base)]
      modifies world`log, world`worker, world`events, world`states, world`waited, world`faults
      ensures world.Valid() && err != ErrQueueFull
      ensures RetryLog(world.plan.Tasks(users), old(world.log), world.log, prefixes, err)
      ensures err == NoError ==> world.worker == Running(old(world.worker).base, |users|, |prefixes|)
      ensures err != NoError ==> world.worker == Broken
      ensures world.faults >= old(world.faults)
      ensures (world.faults == old(world.faults) <==> err == NoError && prefixes == [])
      ensures world.waited <= old(world.waited) + 75
      ensures err == Exhausted ==> |prefixes| == 5 && world.waited == old(world.waited) + 75
      ensures world.restWorks ==> err == NoError && prefixes == []
    {
      prefixes := [];
      ghost var tasks := world.plan.Tasks(users);
      ghost var start := world.log;
      for attempt := 0 to MAX_ATTEMPTS
        invariant world.Valid() && |prefixes| == attempt
        invariant forall i :: 0 <= i < |prefixes| ==> prefixes[i] < |users|
        invariant world.log == start + Attempts(tasks, prefixes)
        invariant world.worker == if attempt < MAX_ATTEMPTS then Running(old(world.worker).base, 0, attempt) else Broken
        invariant world.waited == old(world.waited) + Backoff(attempt) && Backoff(attempt) <= 75
        invariant world.faults == old(world.faults) + attempt && (world.restWorks ==> attempt == 0)
      {
        ghost var published;
        err, published := TryAndBackOff(users, attempt);
        BackoffBound(attempt + 1);
        if err == NoError {
          assert tasks[..|users|] == tasks;
          return;
        }
        OneMoreAttempt(start, tasks, prefixes, published);
        prefixes := prefixes + [published];
        if err != ErrQueueFull {
          return;
        }
      }
      BackoffBound(MAX_ATTEMPTS);
      err := Exhausted;
    }

    /** One attempt, and the wait after it if the queue is full, unless the context ends meanwhile. */
    method TryAndBackOff(users: seq<UserRecord>, attempt: nat) returns (err: Error, ghost published: nat)
      requires world.Valid() && world.worker.Running? && world.worker.sent == 0
      requires world.worker.base <= |world.plan.users|
      requires users == world.plan.users[world.worker.base..world.plan.BatchEnd(world.worker.base)]
      modifies world`log, world`worker, world`events, world`states, world`waited, world`faults
      ensures world.Valid() && published <= |users| && err != Exhausted
      ensures world.log == old(world.log) + world.plan.Tasks(users)[..published]
      ensures err == NoError ==> published == |users| && world.worker == old(world.worker).(sent := |users|)
      ensures err == NoError <==> world.faults == old(world.faults)
      ensures err == ErrQueueFull ==> published < |users| && world.worker == NextAttempt(old(world.worker))
      ensures err == ErrQueueFull ==> world.faults == old(world.faults) + 1
      ensures err in {Canceled, OtherError} ==> world.worker == Broken && world.faults > old(world.faults)
      ensures || world.waited == old(world.waited) + (attempt + 1) * 5
              || (err != ErrQueueFull && world.waited == old(world.waited))
      ensures world.restWorks ==> err == NoError
    {
      err, published := TryPublishBatch(users);
      if err != ErrQueueFull {
        return;
      }
      world.Wait((attempt + 1) * 5);
      var ended := world.ContextError();
      if ended != NoError {
        err := ended;
      }
    }

    /** Publishes the buffered batch and checkpoints it; a lost checkpoint is only logged. */
    method Flush(ghost was: Snapshot, ghost first: nat, ghost received: nat) returns (err: Error)
      requires world.Valid() && world.worker.Running? && world.worker.sent == 0 && world.worker.attempt == 0
      requires first <= world.worker.base < received == world.plan.BatchEnd(world.worker.base)
      requires batch == world.plan.users[world.worker.base..received] && cursor == Some(batch[|batch| - 1].id)
      requires OnTrack(was, first, world.worker.base)
      modifies world, this`totalDispatched
      ensures err != ErrQueueFull
      ensures err == NoError ==>
                world.Valid() && world.worker == Running(received, 0, 0) && OnTrack(was, first, received)
      ensures err != NoError ==> Stopped(was) && !world.restWorks
    {
      ghost var base := world.worker.base;
      TasksAppend(world.plan, first, base, received);
      ghost var prefixes;
      err, prefixes := PublishBatch(batch);
      if err == NoError {
        Checkpoint(was, first, base, received);
      }
    }

    /** The checkpoint of a batch that has been published. */
    method Checkpoint(ghost was: Snapshot, ghost first: nat, ghost base: nat, ghost received: nat)
      requires world.Valid() && world.worker.Running? && world.worker.base == base && world.worker.sent == |batch|
      requires first <= base < received == world.plan.BatchEnd(base)
      requires batch == world.plan.users[base..received] && cursor == Some(batch[|batch| - 1].id)
      requires Published(was, first, base, received)
      modifies world, this`totalDispatched
      ensures world.Valid() && world.worker == Running(received, 0, 0) && OnTrack(was, first, received)
    {
      var err := world.CheckpointDispatch(cursor, |batch|);
      totalDispatched := totalDispatched + |batch|;
    }

    /** The stream callback. */
    method OnUser(u: UserRecord, ghost was: Snapshot, ghost first: nat, ghost received: nat) returns (err: Error)
      requires Collecting(was, first, received) && received < |world.plan.users| && u == world.plan.users[received]
      modifies this, world
      ensures err != ErrQueueFull && delivered == old(delivered) + [u]
      ensures err == NoError ==> Collecting(was, first, received + 1)
      ensures err != NoError ==> Stopped(was) && !world.restWorks
    {
      delivered := delivered + [u];
      err := world.ContextError();
      if err != NoError {
        return;
      }
      batch := batch + [u];
      cursor := Some(u.id);
      OneMoreUser(world.plan.users, world.worker.base, received);
      if |batch| < batchSize {
        return;
      }
      err := Flush(was, first, received + 1);
      if err != NoError {
        return;
      }
      batch := [];
    }

    /** One record: unless the stream breaks, the callback is called for it. */
    method ReceiveOne(u: UserRecord, ghost was: Snapshot, ghost first: nat, ghost received: nat)
      returns (err: Error, called: bool)
      requires Collecting(was, first, received) && received < |world.plan.users| && u == world.plan.users[received]
      modifies this, world
      ensures err != ErrQueueFull && delivered == old(delivered) + if called then [u] else []
      ensures err == NoError ==> called && Collecting(was, first, received + 1)
      ensures err != NoError ==> Stopped(was) && !world.restWorks
    {
      var ok := world.CallIdentity();
      if !ok {
        return OtherError, false;
      }
      err := OnUser(u, was, first, received);
      called := true;
    }

    /** The receive loop of the gRPC client, which calls back in order and stops at the first error of either side. */
    method Receive(records: seq<UserRecord>, eof: bool, env: ServerEnv, ghost was: Snapshot, ghost first: nat)
      returns (err: Error, ghost reached: nat)
      requires Collecting(was, first, first)
      requires records <= world.plan.users[first..]
      requires if eof then records == world.plan.users[first..] else ServerFails(env)
      modifies this, world
      ensures err != ErrQueueFull
      ensures reached <= |records| && delivered == old(delivered) + records[..reached]
      ensures err == NoError ==> reached == |records| && Collecting(was, first, |world.plan.users|)
      ensures err != NoError ==> Stopped(was) && (!world.restWorks || ServerFails(env))
    {
      err, reached := ReceiveRecords(records, was, first);
      if err == NoError && !eof {
        world.StreamFailed(env);
        err := OtherError;
      }
    }

    /** The records that arrive before the stream ends. */
    method ReceiveRecords(records: seq<UserRecord>, ghost was: Snapshot, ghost first: nat)
      returns (err: Error, ghost reached: nat)
      requires Collecting(was, first, first) && records <= world.plan.users[first..]
      modifies this, world
      ensures err != ErrQueueFull
      ensures reached <= |records| && delivered == old(delivered) + records[..reached]
      ensures err == NoError ==> reached == |records| && Collecting(was, first, first + |records|)
      ensures err != NoError ==> Stopped(was) && !world.restWorks
    {
      reached := 0;
      for i := 0 to |records|
        invariant Collecting(was, first, first + i) && reached == i
        invariant delivered == old(delivered) + records[..i]
      {
        NextRecord(records, world.plan.users, first, i);
        var received;
        err, received := ReceiveOne(records[i], was, first, first + i);
        reached := if received then i + 1 else i;
        if err != NoError {
          return;
        }
      }
      err := NoError;
    }

    /** The gRPC client: opens the stream and calls back for every record. */
    method StreamUsers(role: string, start: Cursor, pageSize: int, env: ServerEnv, ghost table: Table,
                       ghost was: Snapshot, ghost first: nat) returns (err: Error)
      requires Collecting(was, first, first) && CursorAt(world.plan, start, first)
      requires Lists(world.plan.users, table, role, None)
      requires forall k :: env.read(k).Saw? ==> env.read(k).table == table
      modifies this, world
      ensures err != ErrQueueFull
      ensures err == NoError ==> Collecting(was, first, |world.plan.users|)
      ensures err != NoError ==> Stopped(was) && (!world.restWorks || ServerFails(env))
    {
      var connected := world.CallIdentity();
      if !connected {
        return OtherError;
      }
      var records, eof := ServerStream(role, start, pageSize, env, table, world.plan, first);
      ghost var reached;
      err, reached := Receive(records, eof, env, was, first);
    }

    /** Streams every recipient beyond the cursor and flushes the last, partial batch. */
    method StreamAndFlush(role: string, env: ServerEnv, ghost table: Table, ghost was: Snapshot, ghost first: nat)
      returns (err: Error)
      requires Collecting(was, first, first) && CursorAt(world.plan, cursor, first)
      requires Lists(world.plan.users, table, role, None)
      requires forall k :: env.read(k).Saw? ==> env.read(k).table == table
      modifies this, world
      ensures err != ErrQueueFull
      ensures err == NoError ==>
        world.Valid() && world.worker == Running(|world.plan.users|, 0, 0) && OnTrack(was, first, |world.plan.users|)
      ensures err != NoError ==> Stopped(was) && (!world.restWorks || ServerFails(env))
    {
      err := StreamUsers(role, cursor, Int32(batchSize), env, table, was, first);
      if err == NoError && |batch| > 0 {
        err := Flush(was, first, |world.plan.users|);
      }
    }

    /** Loads the stored cursor, counts the recipients and stores their number. */
    method StartRun(role: string, table: Table, ghost was: Snapshot) returns (err: Error, ghost first: nat)
      requires world.Valid() && batchSize == world.plan.batchSize
      requires Lists(world.plan.users, table, role, None)
      requires was == Snapshot(world.row, world.log, world.faults)
      modifies this, world
      ensures err in {NoError, OtherError} && first == Passed(world.plan.users, was.row.cursor)
      ensures err == NoError ==>
                Collecting(was, first, first) && cursor == was.row.cursor && CursorAt(world.plan, cursor, first)
      ensures err != NoError ==> Stopped(was) && !world.restWorks
    {
      batch, totalDispatched := [], 0;
      cursor := world.Load();
      first := world.worker.base;
      world.NowCovered();
      var counted := world.CallIdentity();
      if !counted {
        return OtherError, first;
      }
      var total := CountUsers(table, role);
      ListedCount(world.plan.users, table, role);
      var lost := world.SetTotalRecipients(total);
      assert world.plan.users[first..first] == [];
      err := NoError;
    }

    /** What a run without faults that began beyond the first `first` recipients has done. */
    ghost predicate RanThrough(was: Snapshot, first: nat)
      reads world
    {
      var users := world.plan.users;
      && first <= |users|
      && world.log == was.log + world.plan.Tasks(users[first..])
      && world.row == Row(Completed, |users|, if users == [] then None else Some(users[|users| - 1].id),
                          was.row.dispatched + |users| - first)
    }

    /** The last call of the run has marked the campaign, unless that write was lost. */
    ghost predicate Marked(was: Snapshot, status: Status)
      reads world
    {
      exists lost :: world.events != [] && world.events[|world.events| - 1] == MarkEvent(status, lost)
        && world.row.status == (if lost then was.row.status else status) && (world.dbWorks ==> !lost)
    }

    /** All recipients are published: the campaign is complete. */
    method Complete(ghost was: Snapshot, ghost first: nat)
      requires world.Valid() && world.worker == Running(|world.plan.users|, 0, 0)
      requires first <= |world.plan.users| && OnTrack(was, first, |world.plan.users|)
      modifies world
      ensures world.Valid() && world.faults >= was.faults
      ensures AllPublished(world.plan, world.Now(), |world.plan.users|)
      ensures Marked(was, Completed)
      ensures world.faults == was.faults ==> RanThrough(was, first)
      ensures world.dbWorks && world.restWorks ==> world.faults == was.faults
    {
      world.NowCovered();
      assert world.plan.users[first..] == world.plan.users[first..|world.plan.users|];
      ghost var lost := world.MarkCampaignStatus(Completed);
      assert world.events[|world.events| - 1] == MarkEvent(Completed, lost);
    }

    /**
      One dispatch run, from the stored cursor.  Whatever fails on the way, the calls it makes are a
      history the protocol allows.  A run that meets no fault publishes exactly the recipients
      beyond the stored cursor, once each and in id order, and completes the campaign.
    */
    method DispatchCampaign(role: string, env: ServerEnv, table: Table) returns (err: Error)
      requires world.Valid() && batchSize == world.plan.batchSize
      requires Lists(world.plan.users, table, role, None)
      requires forall k :: env.read(k).Saw? ==> env.read(k).table == table
      modifies this, world
      ensures world.Valid() && world.faults >= old(world.faults)
      ensures err == NoError ==> AllPublished(world.plan, world.Now(), |world.plan.users|)
      ensures err == NoError ==> Marked(old(Snapshot(world.row, world.log, world.faults)), Completed)
      ensures err == Canceled ==> world.row.status == old(world.row.status) && world.worker == Broken
      ensures err !in {NoError, Canceled} ==>
                Marked(old(Snapshot(world.row, world.log, world.faults)), Status.Failed)
      ensures world.restWorks && !ServerFails(env) ==> err == NoError
      ensures world.restWorks && !ServerFails(env) && world.dbWorks ==> world.faults == old(world.faults)
      ensures world.faults == old(world.faults) ==> err == NoError
      ensures world.faults == old(world.faults) ==>
        RanThrough(old(Snapshot(world.row, world.log, world.faults)), Passed(world.plan.users, old(world.row.cursor)))
    {
      ghost var was := Snapshot(world.row, world.log, world.faults);
      ghost var first;
      err, first := StartRun(role, table, was);
      if err == NoError {
        err := StreamAndFlush(role, env, table, was, first);
      }
      if err != NoError {
        if err == Canceled {
          return;
        }
        ghost var lost := world.MarkCampaignStatus(Status.Failed);
        assert world.events[|world.events| - 1] == MarkEvent(Status.Failed, lost);
        return;
      }
      Complete(was, first);
    }
  }

  /** Beyond the stored cursor the query lists the recipients the cursor has not passed. */
  lemma ResumedList(table: Table, role: string, p: Plan, start: Cursor, n: nat)
    requires p.Valid() && Lists(p.users, table, role, None)
    requires n <= |p.users| && CursorAt(p, start, n)
    ensures Lists(p.users[n..], table, role, start)
  {
    CursorPasses(p, start, n);
    var rest := p.users[n..];
    forall i | 0 <= i < |rest| ensures Shows(table, role, rest[i]) && After(start, rest[i].id) {
      assert rest[i] == p.users[n + i];
    }
    forall id: Id | id in Matching(table, role) && After(start, id) ensures Sent(rest, id) {
      assert Sent(p.users, id);
      var i :| 0 <= i < |p.users| && p.users[i].id == id;
      assert rest[i - n].id == id;
    }
  }

  /** The identity service's stream, over a table that does not change. */
  method ServerStream(role: string, start: Cursor, pageSize: int, env: ServerEnv, ghost table: Table,
                      ghost p: Plan, ghost n: nat) returns (records: seq<UserRecord>, ok: bool)
    requires p.Valid() && Lists(p.users, table, role, None)
    requires n <= |p.users| && CursorAt(p, start, n)
    requires forall k :: env.read(k).Saw? ==> env.read(k).table == table
    ensures records <= p.users[n..]
    ensures if ok then records == p.users[n..] else ServerFails(env)
  {
    var seen;
    records, seen, ok := UserStream.StreamUsers(role, start, pageSize, env);
    ResumedList(table, role, p, start, n);
    FixedTableStream(records, start, role, seen, ok, table, p.users[n..]);
  }
}
