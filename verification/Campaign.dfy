/**
  Campaign fan-out.  The protocol is a machine over the dispatcher's calls to the broker and to the
  campaign row; a crash is a run that is simply followed by the next `Begin`, which reloads the
  stored cursor.  The lemmas hold after every sequence of events the machine allows, and
  CampaignWorker.dfy shows that the dispatcher's code only ever makes allowed calls.

  The user table is fixed: `users` holds every user matching the campaign's filter, in id order.
*/
module Campaign {
  import opened Wrappers
  import opened UserStream

  const MAX_ATTEMPTS: nat := 5

  datatype Status = Pending | Dispatching | Completed | Failed

  datatype Info = Info(id: nat, eventType: string, channel: string, subject: string, content: string)

  datatype Task = Task(campaignId: nat, userId: Id, eventType: string, recipient: string, channel: string,
                       subject: string, content: string)

  /** The columns of a campaign row that dispatching reads or writes. */
  datatype Row = Row(status: Status, total: int, cursor: Cursor, dispatched: int)

  /** A campaign with its recipients and the configured batch size. */
  datatype Plan = Plan(info: Info, users: seq<UserRecord>, batchSize: nat) {
    ghost predicate Valid() { Ascending(users) && batchSize > 0 }

    function TaskFor(u: UserRecord): Task {
      Task(info.id, u.id, info.eventType, u.email, info.channel, info.subject, info.content)
    }

    function Tasks(us: seq<UserRecord>): (ts: seq<Task>)
      ensures |ts| == |us|
    {
      seq(|us|, i requires 0 <= i < |us| => TaskFor(us[i]))
    }

    /** Where the batch starting at `base` ends. */
    function BatchEnd(base: nat): nat {
      if base + batchSize <= |users| then base + batchSize else |users|
    }
  }

  /**
    The dispatcher between two calls: users before `base` are flushed, `sent` messages of the batch
    at `base` are published by the current attempt, `attempt` attempts met a full queue.
  */
  datatype Worker = Idle | Running(base: nat, sent: nat, attempt: nat) | Broken

  datatype State = State(row: Row, log: seq<Task>, worker: Worker)

  datatype Event =
    | Claimed
    | Begin
    | TotalSet(lost: bool)
    | Published(task: Task)
    | QueueFull
    | Stopped
    | Checkpointed(lost: bool)
    | Finished(lost: bool)
    | MarkedFailed(lost: bool)

  /** How many users a cursor has passed. */
  function Passed(users: seq<UserRecord>, cursor: Cursor): nat {
    if users == [] || After(cursor, users[0].id) then 0 else 1 + Passed(users[1..], cursor)
  }

  /** A full queue starts the batch again; the fifth time it ends the run. */
  function NextAttempt(w: Worker): Worker
    requires w.Running?
  {
    if w.attempt + 1 < MAX_ATTEMPTS then Running(w.base, 0, w.attempt + 1) else Broken
  }

  predicate Allowed(p: Plan, s: State, e: Event) {
    match e
    case Claimed => s.row.status == Pending
    case Begin => true
    case TotalSet(_) => s.worker.Running?
    case Published(task) =>
      s.worker.Running? && s.worker.base + s.worker.sent < p.BatchEnd(s.worker.base)
      && task == p.TaskFor(p.users[s.worker.base + s.worker.sent])
    case QueueFull =>
      s.worker.Running? && s.worker.base + s.worker.sent < p.BatchEnd(s.worker.base)
    case Stopped => s.worker.Running?
    case Checkpointed(_) =>
      s.worker.Running? && s.worker.base < s.worker.base + s.worker.sent == p.BatchEnd(s.worker.base)
    case Finished(_) => s.worker.Running? && s.worker.base == |p.users| && s.worker.sent == 0
    case MarkedFailed(_) => s.worker.Broken?
  }

  function Apply(p: Plan, s: State, e: Event): State
    requires Allowed(p, s, e)
  {
    match e
    case Claimed => s.(row := s.row.(status := Dispatching))
    case Begin => s.(worker := Running(Passed(p.users, s.row.cursor), 0, 0))
    case TotalSet(lost) => if lost then s else s.(row := s.row.(total := |p.users|))
    case Published(task) => s.(log := s.log + [task], worker := s.worker.(sent := s.worker.sent + 1))
    case QueueFull => s.(worker := NextAttempt(s.worker))
    case Stopped => s.(worker := Broken)
    case Checkpointed(lost) =>
      var end := p.BatchEnd(s.worker.base);
      s.(worker := Running(end, 0, 0),
         row := if lost then s.row
                else s.row.(cursor := Some(p.users[end - 1].id), dispatched := s.row.dispatched + s.worker.sent))
    case Finished(lost) => s.(worker := Idle, row := if lost then s.row else s.row.(status := Completed))
    case MarkedFailed(lost) => s.(worker := Idle, row := if lost then s.row else s.row.(status := Status.Failed))
  }

  /** The state after a history of events, if the machine allows every one of them. */
  function Execute(p: Plan, init: State, events: seq<Event>): Option<State> {
    if events == [] then Some(init)
    else
      match Execute(p, init, events[..|events| - 1])
      case None => None
      case Some(s) =>
        var e := events[|events| - 1];
        if Allowed(p, s, e) then Some(Apply(p, s, e)) else None
  }

  /** A campaign that has not been dispatched yet. */
  predicate Fresh(s: State) {
    s.row.status in {Pending, Dispatching} && s.row.cursor == None && s.row.dispatched == 0
    && s.log == [] && s.worker == Idle
  }

  predicate AllPublished(p: Plan, s: State, n: nat)
    requires n <= |p.users|
  {
    forall j :: 0 <= j < n ==> p.TaskFor(p.users[j]) in s.log
  }

  predicate CursorAt(p: Plan, cursor: Cursor, n: nat)
    requires n <= |p.users|
  {
    cursor == if n == 0 then None else Some(p.users[n - 1].id)
  }

  /** Every message published is for one of the first `n` users. */
  predicate OnlyFirst(p: Plan, log: seq<Task>, n: nat)
    requires n <= |p.users|
  {
    forall i :: 0 <= i < |log| ==> log[i] in p.Tasks(p.users[..n])
  }

  /** The stored cursor sits behind a flushed user, and everything up to it has been published. */
  ghost predicate Covered(p: Plan, s: State) {
    var n := Passed(p.users, s.row.cursor);
    && n <= |p.users|
    && CursorAt(p, s.row.cursor, n)
    && AllPublished(p, s, n)
    && s.row.dispatched <= n
    && (s.row.status == Completed ==> AllPublished(p, s, |p.users|))
    && (s.worker.Running? ==>
          && n <= s.worker.base
          && s.worker.base + s.worker.sent <= p.BatchEnd(s.worker.base)
          && s.worker.attempt < MAX_ATTEMPTS
          && AllPublished(p, s, s.worker.base + s.worker.sent))
  }

  lemma {:induction false} PassedAt(users: seq<UserRecord>, cursor: Cursor, n: nat)
    requires Ascending(users) && n <= |users|
    requires forall i :: 0 <= i < |users| ==> (After(cursor, users[i].id) <==> n <= i)
    ensures Passed(users, cursor) == n
  {
    if users != [] && n > 0 {
      assert !After(cursor, users[0].id);
      assert forall i :: 0 <= i < |users[1..]| ==> users[1..][i] == users[i + 1];
      PassedAt(users[1..], cursor, n - 1);
    } else if users != [] {
      assert After(cursor, users[0].id);
    }
  }

  /** The cursor of the n-th user has passed exactly n users. */
  lemma CursorPasses(p: Plan, cursor: Cursor, n: nat)
    requires p.Valid() && n <= |p.users| && CursorAt(p, cursor, n)
    ensures Passed(p.users, cursor) == n
    ensures forall i :: 0 <= i < |p.users| ==> (After(cursor, p.users[i].id) <==> n <= i)
  {
    PassedAt(p.users, cursor, n);
  }

  lemma PublishCovered(p: Plan, s: State, task: Task)
    requires Covered(p, s) && Allowed(p, s, Published(task))
    ensures Covered(p, Apply(p, s, Published(task)))
  {
    var t := Apply(p, s, Published(task));
    assert t.log[|s.log|] == task;
    assert forall x :: x in s.log ==> x in t.log;
  }

  lemma CheckpointCovered(p: Plan, s: State, lost: bool)
    requires p.Valid() && Covered(p, s) && Allowed(p, s, Checkpointed(lost))
    ensures Covered(p, Apply(p, s, Checkpointed(lost)))
  {
    if !lost {
      CursorPasses(p, Apply(p, s, Checkpointed(lost)).row.cursor, p.BatchEnd(s.worker.base));
    }
  }

  lemma StepCovered(p: Plan, s: State, e: Event)
    requires p.Valid() && Covered(p, s) && Allowed(p, s, e)
    ensures Covered(p, Apply(p, s, e))
  {
    match e {
      case Published(task) => PublishCovered(p, s, task);
      case Checkpointed(lost) => CheckpointCovered(p, s, lost);
      case _ =>
    }
  }

  /** A publish is for a recipient. */
  lemma StepOnlyFirst(p: Plan, s: State, e: Event)
    requires OnlyFirst(p, s.log, |p.users|) && Allowed(p, s, e)
    ensures OnlyFirst(p, Apply(p, s, e).log, |p.users|)
  {
    if e.Published? {
      PublishInStep(p, s.log, s.worker.base + s.worker.sent, |p.users|);
    }
  }

  lemma {:induction false} ExecuteCovered(p: Plan, init: State, events: seq<Event>, s: State)
    requires p.Valid() && Fresh(init) && Execute(p, init, events) == Some(s)
    ensures Covered(p, s) && OnlyFirst(p, s.log, |p.users|)
  {
    if events == [] {
      CursorPasses(p, None, 0);
    } else {
      var before := Execute(p, init, events[..|events| - 1]).value;
      ExecuteCovered(p, init, events[..|events| - 1], before);
      StepCovered(p, before, events[|events| - 1]);
      StepOnlyFirst(p, before, events[|events| - 1]);
    }
  }

  /**
    Crash and resume: after any history of runs, every user at or below the stored cursor has been
    published at least once, and a completed campaign has published every user.
  */
  lemma Coverage(p: Plan, init: State, events: seq<Event>, s: State, u: UserRecord)
    requires p.Valid() && Fresh(init) && Execute(p, init, events) == Some(s) && u in p.users
    ensures !After(s.row.cursor, u.id) || s.row.status == Completed ==> p.TaskFor(u) in s.log
  {
    ExecuteCovered(p, init, events, s);
    CursorPasses(p, s.row.cursor, Passed(p.users, s.row.cursor));
    var i :| 0 <= i < |p.users| && p.users[i] == u;
  }

  predicate NothingLost(events: seq<Event>) {
    forall i :: 0 <= i < |events| ==> events[i] != Checkpointed(true)
  }

  lemma OnlyFirstGrows(p: Plan, log: seq<Task>, n: nat, m: nat)
    requires n <= m <= |p.users| && OnlyFirst(p, log, n)
    ensures OnlyFirst(p, log, m)
  {
    forall i | 0 <= i < |log| ensures log[i] in p.Tasks(p.users[..m]) {
      var j :| 0 <= j < n && p.Tasks(p.users[..n])[j] == log[i];
      assert p.Tasks(p.users[..m])[j] == log[i];
    }
  }

  /** With every checkpoint written, the row keeps up with the dispatcher. */
  ghost predicate InStep(p: Plan, s: State) {
    var n := Passed(p.users, s.row.cursor);
    && s.row.dispatched == n <= |p.users|
    && (s.worker.Running? ==> s.worker.base == n)
    && OnlyFirst(p, s.log, p.BatchEnd(n))
  }

  /** The next user of the batch is one of its users. */
  lemma PublishInStep(p: Plan, log: seq<Task>, i: nat, n: nat)
    requires i < n <= |p.users| && OnlyFirst(p, log, n)
    ensures OnlyFirst(p, log + [p.TaskFor(p.users[i])], n)
  {
    assert p.Tasks(p.users[..n])[i] == p.TaskFor(p.users[i]);
  }

  lemma StepInStep(p: Plan, s: State, e: Event)
    requires p.Valid() && Covered(p, s) && InStep(p, s) && Allowed(p, s, e) && e != Checkpointed(true)
    ensures InStep(p, Apply(p, s, e))
  {
    match e {
      case Published(_) => PublishInStep(p, s.log, s.worker.base + s.worker.sent, p.BatchEnd(s.worker.base));
      case Checkpointed(_) => CheckpointInStep(p, s);
      case _ =>
    }
  }

  lemma CheckpointInStep(p: Plan, s: State)
    requires p.Valid() && Covered(p, s) && InStep(p, s) && Allowed(p, s, Checkpointed(false))
    ensures InStep(p, Apply(p, s, Checkpointed(false)))
  {
    var n := p.BatchEnd(s.worker.base);
    CursorPasses(p, Apply(p, s, Checkpointed(false)).row.cursor, n);
    OnlyFirstGrows(p, s.log, n, p.BatchEnd(n));
  }

  lemma {:induction false} ExecuteInStep(p: Plan, init: State, events: seq<Event>, s: State)
    requires p.Valid() && Fresh(init) && Execute(p, init, events) == Some(s) && NothingLost(events)
    ensures InStep(p, s)
  {
    if events == [] {
      CursorPasses(p, None, 0);
    } else {
      var before := Execute(p, init, events[..|events| - 1]).value;
      ExecuteInStep(p, init, events[..|events| - 1], before);
      ExecuteCovered(p, init, events[..|events| - 1], before);
      StepInStep(p, before, events[|events| - 1]);
    }
  }

  lemma {:induction false} DistinctUsers(us: seq<UserRecord>)
    requires Ascending(us)
    ensures |set u | u in us| == |us|
  {
    if us != [] {
      var rest := us[..|us| - 1];
      DistinctUsers(rest);
      assert us == rest + [us[|us| - 1]];
      assert (set u | u in us) == (set u | u in rest) + {us[|us| - 1]};
    }
  }

  /** The users at or below a cursor. */
  function UpTo(users: seq<UserRecord>, cursor: Cursor): set<UserRecord> {
    set u | u in users && !After(cursor, u.id)
  }

  lemma UpToSize(p: Plan, cursor: Cursor, n: nat)
    requires p.Valid() && n <= |p.users| && CursorAt(p, cursor, n)
    ensures |UpTo(p.users, cursor)| == n
  {
    CursorPasses(p, cursor, n);
    var first := p.users[..n];
    forall u ensures u in UpTo(p.users, cursor) <==> u in first {
      if u in UpTo(p.users, cursor) {
        var i :| 0 <= i < |p.users| && p.users[i] == u;
        assert first[i] == u;
      }
    }
    assert UpTo(p.users, cursor) == set u | u in first;
    DistinctUsers(first);
  }

  /**
    Count conservation: `dispatched_count` is the number of users at or below the stored cursor when
    every checkpoint was written, and never more than that number.
  */
  lemma CountConservation(p: Plan, init: State, events: seq<Event>, s: State)
    requires p.Valid() && Fresh(init) && Execute(p, init, events) == Some(s)
    ensures s.row.dispatched <= |UpTo(p.users, s.row.cursor)|
    ensures NothingLost(events) ==> s.row.dispatched == |UpTo(p.users, s.row.cursor)|
  {
    ExecuteCovered(p, init, events, s);
    if NothingLost(events) {
      ExecuteInStep(p, init, events, s);
    }
    UpToSize(p, s.row.cursor, Passed(p.users, s.row.cursor));
  }

  /** The users beyond the stored cursor that have been published: a resumed run repeats them. */
  function Ahead(p: Plan, s: State): set<UserRecord> {
    set u | u in p.users && After(s.row.cursor, u.id) && p.TaskFor(u) in s.log
  }

  /** The message is for this user of this campaign, with all it says. */
  predicate IsFor(info: Info, u: UserRecord, task: Task) {
    && task.campaignId == info.id && task.eventType == info.eventType && task.channel == info.channel
    && task.subject == info.subject && task.content == info.content
    && task.userId == u.id && task.recipient == u.email
  }

  /** In every history every message goes to the address of a recipient, with the campaign's subject and content. */
  lemma PublishedIsFor(p: Plan, init: State, events: seq<Event>, s: State, i: nat) returns (u: UserRecord)
    requires p.Valid() && Fresh(init) && Execute(p, init, events) == Some(s) && i < |s.log|
    ensures u in p.users && IsFor(p.info, u, s.log[i])
  {
    ExecuteCovered(p, init, events, s);
    var tasks := p.Tasks(p.users[..|p.users|]);
    assert s.log[i] in tasks;
    var j :| 0 <= j < |tasks| && tasks[j] == s.log[i];
    u := p.users[j];
  }

  /** A published user has the id of one of the users published to. */
  lemma PublishedIsEarly(p: Plan, first: seq<UserRecord>, log: seq<Task>, u: UserRecord) returns (j: nat)
    requires forall k :: 0 <= k < |log| ==> log[k] in p.Tasks(first)
    requires p.TaskFor(u) in log
    ensures j < |first| && first[j].id == u.id
  {
    var k :| 0 <= k < |log| && log[k] == p.TaskFor(u);
    j :| 0 <= j < |first| && p.Tasks(first)[j] == log[k];
  }

  lemma SameIdSameUser(users: seq<UserRecord>, i: nat, j: nat)
    requires Ascending(users) && i < |users| && j < |users| && users[i].id == users[j].id
    ensures i == j
  {
  }

  lemma AheadIsInOneBatch(p: Plan, s: State, u: UserRecord)
    requires p.Valid() && Covered(p, s) && InStep(p, s) && u in Ahead(p, s)
    ensures var n := Passed(p.users, s.row.cursor); u in p.users[n..p.BatchEnd(n)]
  {
    var n := Passed(p.users, s.row.cursor);
    CursorPasses(p, s.row.cursor, n);
    var first := p.users[..p.BatchEnd(n)];
    var j := PublishedIsEarly(p, first, s.log, u);
    var i :| 0 <= i < |p.users| && p.users[i] == u;
    assert p.users[i].id == u.id == first[j].id == p.users[j].id;
    SameIdSameUser(p.users, i, j);
    assert p.users[n..p.BatchEnd(n)][j - n] == u;
  }

  lemma SliceAscends(users: seq<UserRecord>, i: nat, j: nat)
    requires Ascending(users) && i <= j <= |users|
    ensures Ascending(users[i..j])
  {
    var part := users[i..j];
    assert forall k :: 0 <= k < |part| ==> part[k] == users[i + k];
  }

  /**
    Repeat bound: when every checkpoint was written, the users that have been published beyond the
    stored cursor number at most one batch, whenever the dispatcher crashes.
  */
  lemma RepeatBound(p: Plan, init: State, events: seq<Event>, s: State)
    requires p.Valid() && Fresh(init) && Execute(p, init, events) == Some(s) && NothingLost(events)
    ensures |Ahead(p, s)| <= p.batchSize
  {
    var n := Passed(p.users, s.row.cursor);
    ExecuteCovered(p, init, events, s);
    ExecuteInStep(p, init, events, s);
    var window := p.users[n..p.BatchEnd(n)];
    forall u | u in Ahead(p, s) ensures u in window {
      AheadIsInOneBatch(p, s, u);
    }
    SliceAscends(p.users, n, p.BatchEnd(n));
    DistinctUsers(window);
    SubsetSize(Ahead(p, s), set u | u in window);
  }

  /** One run, which never met a full queue. */
  predicate Quiet(events: seq<Event>) {
    forall i :: 0 <= i < |events| ==> (events[i] == Begin ==> i == 0) && events[i] != QueueFull
  }

  /** What such a run has published: a prefix of the recipients, all of them once completed. */
  ghost predicate InOrder(p: Plan, s: State) {
    && |s.log| <= |p.users|
    && s.log == p.Tasks(p.users[..|s.log|])
    && (s.worker.Running? ==> |s.log| == s.worker.base + s.worker.sent)
    && (s.row.status == Completed ==> |s.log| == |p.users|)
  }

  lemma StepInOrder(p: Plan, s: State, e: Event)
    requires p.Valid() && Covered(p, s) && InOrder(p, s) && Allowed(p, s, e)
    requires !e.QueueFull? && (e == Begin ==> s.log == [] && s.row.cursor == None)
    ensures InOrder(p, Apply(p, s, e))
  {
    var t := Apply(p, s, e);
    match e {
      case Begin => CursorPasses(p, None, 0);
      case Published(task) =>
        var k := |s.log|;
        assert p.users[..k + 1] == p.users[..k] + [p.users[k]];
        assert t.log == p.Tasks(p.users[..k + 1]);
      case _ =>
    }
  }

  /**
    Exactly once: one run that never met a full queue publishes the recipients in id order, each at
    most once, and all of them when it completes.
  */
  lemma {:induction false} QuietRunPublishesInOrder(p: Plan, init: State, events: seq<Event>, s: State)
    requires p.Valid() && Fresh(init) && Execute(p, init, events) == Some(s) && Quiet(events)
    ensures InOrder(p, s)
    ensures s.row.status == Completed ==> s.log == p.Tasks(p.users)
  {
    if events != [] {
      var before := Execute(p, init, events[..|events| - 1]).value;
      QuietRunPublishesInOrder(p, init, events[..|events| - 1], before);
      ExecuteCovered(p, init, events[..|events| - 1], before);
      StepInOrder(p, before, events[|events| - 1]);
    }
    assert p.users[..|p.users|] == p.users;
  }

  function Claims(events: seq<Event>): nat {
    if events == [] then 0
    else Claims(events[..|events| - 1]) + if events[|events| - 1] == Claimed then 1 else 0
  }

  /** A campaign is claimed at most once, however many dispatchers poll for pending campaigns. */
  lemma {:induction false} ClaimedOnce(p: Plan, init: State, events: seq<Event>, s: State)
    requires Execute(p, init, events) == Some(s)
    ensures Claims(events) + (if s.row.status == Pending then 1 else 0) <= 1
  {
    if events != [] {
      ClaimedOnce(p, init, events[..|events| - 1], Execute(p, init, events[..|events| - 1]).value);
    }
  }

  /** Nothing makes a campaign pending again. */
  lemma {:induction false} NeverPendingAgain(p: Plan, s: State, more: seq<Event>, t: State)
    requires Execute(p, s, more) == Some(t) && s.row.status != Pending
    ensures t.row.status != Pending && Claims(more) == 0
  {
    if more != [] {
      NeverPendingAgain(p, s, more[..|more| - 1], Execute(p, s, more[..|more| - 1]).value);
    }
  }

  /**
    A campaign can still be claimed if and only if it is pending.  So a dispatcher that stops or
    crashes leaves its campaign dispatching, and no other one ever takes it up by itself.
  */
  lemma CanStillBeClaimed(p: Plan, s: State)
    ensures (exists more :: Execute(p, s, more).Some? && Claims(more) > 0) <==> s.row.status == Pending
  {
    if s.row.status == Pending {
      var more := [Claimed];
      assert more[..|more| - 1] == [];
      assert Execute(p, s, more) == Some(Apply(p, s, Claimed));
      assert Claims(more) == Claims(more[..|more| - 1]) + 1;
    } else {
      forall more | Execute(p, s, more).Some? ensures Claims(more) == 0 {
        NeverPendingAgain(p, s, more, Execute(p, s, more).value);
      }
    }
  }
}
