/**
  The email queue, its retry queue, its dead-letter queue, the dead-letter table and the replay of
  its rows.  A delivery may crash between the handler's effects and the acknowledgement, and a
  database write may fail; the broker itself loses nothing.  When publishing a retry or a replay
  fails, its message has not been enqueued.
*/
module EmailQueue {
  import opened Wrappers

  datatype Message = Task(note: nat, retryCount: int) | Malformed(id: nat)

  /** A dead-letter row is pending until it is marked as replayed. */
  datatype Row = Row(msg: Message, replayed: bool)

  /** A replay request that has found its row not replayed yet. */
  datatype Replay = Replay(row: nat, published: bool)

  /** `entered` counts the messages that were put into the queue from outside, `done` those acknowledged for good. */
  datatype State = State(
    main: multiset<Message>, retry: multiset<Message>, dead: multiset<Message>,
    rows: map<nat, Row>, replays: map<nat, Replay>,
    done: nat, entered: nat, mailed: set<nat>)

  /**
    How sending a mail ends: `Sent` without an error (the breaker's probing call returns no error
    either, and mails nothing), refused by the open breaker, or with another error.
  */
  datatype SendResult = Sent(mailed: bool) | BreakerOpen | SendFailed(mailed: bool)

  datatype Verdict = Ack | Requeue | Reject

  /** What the handler does with a message: whether it publishes a retry, and its verdict. */
  datatype Handled = Handled(verdict: Verdict, retried: Option<Message>)

  datatype Action =
    | Enter(msg: Message)
    | Deliver(msg: Message, result: SendResult, republished: bool, acked: bool)
    | Expire(msg: Message)
    | Archive(msg: Message, row: nat, acked: bool)
    | ReplayRead(req: nat, row: nat)
    | ReplayPublish(req: nat)
    | ReplayMark(req: nat)
    | ReplayDrop(req: nat)

  /** The largest retry count a message can carry. */
  function Cap(maxRetries: int): (n: nat)
    ensures n >= maxRetries && (n == 0 || n == maxRetries)
  {
    if maxRetries < 0 then 0 else maxRetries
  }

  /** The email handler; `republished` tells whether publishing the retry succeeds. */
  function Handle(maxRetries: int, m: Message, r: SendResult, republished: bool): Handled {
    match m
    case Malformed(_) => Handled(Reject, None)
    case Task(note, count) =>
      match r
      case BreakerOpen => Handled(Requeue, None)
      case Sent(_) => Handled(Ack, None)
      case SendFailed(_) =>
        if count < maxRetries then
          if republished then Handled(Ack, Some(Task(note, count + 1))) else Handled(Requeue, None)
        else Handled(Reject, None)
  }

  /** How long a message stays in the retry queue, in seconds: the time to live of the queue. */
  const RETRY_TTL: nat := 60

  /** The delay that the handler announces for a retry, in seconds. */
  function RetryDelay(retryCount: nat): nat {
    var delays := [1 * 60, 5 * 60, 15 * 60];
    if retryCount < |delays| then delays[retryCount] else delays[|delays| - 1]
  }

  /** The announced delay is the one the queue keeps only for a retry that counts none. */
  lemma DelayKept(retryCount: nat)
    ensures RetryDelay(retryCount) == RETRY_TTL <==> retryCount == 0
  {
  }

  /** The main queue loses a message that was acknowledged or rejected. */
  function MainAfter(main: multiset<Message>, m: Message, h: Handled, acked: bool): multiset<Message> {
    if acked && h.verdict != Requeue then main - multiset{m} else main
  }

  /** The dead-letter queue gets a message that was rejected. */
  function DeadAfter(dead: multiset<Message>, m: Message, h: Handled, acked: bool): multiset<Message> {
    if acked && h.verdict == Reject then dead + multiset{m} else dead
  }

  /** The retry queue gets what the handler publishes. */
  function RetryAfter(retry: multiset<Message>, h: Handled): multiset<Message> {
    if h.retried.Some? then retry + multiset{h.retried.value} else retry
  }

  /** A message acknowledged without a retry is done. */
  function DoneAfter(done: nat, h: Handled, acked: bool): nat {
    if acked && h == Handled(Ack, None) then done + 1 else done
  }

  function MailedAfter(mailed: set<nat>, m: Message, r: SendResult): set<nat> {
    if m.Task? && !r.BreakerOpen? && r.mailed then mailed + {m.note} else mailed
  }

  predicate Enabled(s: State, a: Action) {
    match a
    case Enter(m) => m.Task? ==> m.retryCount == 0
    case Deliver(m, _, _, _) => m in s.main
    case Expire(m) => m in s.retry
    case Archive(m, row, _) => m in s.dead && row !in s.rows
    case ReplayRead(req, row) => req !in s.replays && row in s.rows && !s.rows[row].replayed && s.rows[row].msg.Task?
    case ReplayPublish(req) => req in s.replays && !s.replays[req].published && s.replays[req].row in s.rows
    case ReplayMark(req) => req in s.replays && s.replays[req].published && s.replays[req].row in s.rows
    case ReplayDrop(req) => req in s.replays
  }

  function Apply(maxRetries: int, s: State, a: Action): State
    requires Enabled(s, a)
  {
    match a
    case Enter(m) => s.(main := s.main + multiset{m}, entered := s.entered + 1)
    case Deliver(m, r, republished, acked) =>
      var h := Handle(maxRetries, m, r, republished);
      State(MainAfter(s.main, m, h, acked), RetryAfter(s.retry, h), DeadAfter(s.dead, m, h, acked), s.rows, s.replays,
            DoneAfter(s.done, h, acked), s.entered, MailedAfter(s.mailed, m, r))
    case Expire(m) => s.(retry := s.retry - multiset{m}, main := s.main + multiset{m})
    case Archive(m, row, acked) =>
      s.(rows := s.rows[row := Row(m, false)], dead := if acked then s.dead - multiset{m} else s.dead)
    case ReplayRead(req, row) => s.(replays := s.replays[req := Replay(row, false)])
    case ReplayPublish(req) =>
      var r := s.replays[req];
      var m := s.rows[r.row].msg;
      s.(main := s.main + multiset{if m.Task? then Task(m.note, 0) else m},
         replays := s.replays[req := r.(published := true)])
    case ReplayMark(req) =>
      var r := s.replays[req];
      s.(rows := s.rows[r.row := s.rows[r.row].(replayed := true)], replays := s.replays - {req})
    case ReplayDrop(req) => s.(replays := s.replays - {req})
  }

  predicate BeingReplayed(s: State, row: nat) {
    exists q :: q in s.replays && s.replays[q] == Replay(row, true)
  }

  /** The pending rows whose message is not back in the queue. */
  function Waiting(s: State): set<nat> {
    set row | row in s.rows && !s.rows[row].replayed && !BeingReplayed(s, row)
  }

  /** The messages that are somewhere, plus those that are done. */
  function Count(s: State): nat {
    |s.main| + |s.retry| + |s.dead| + |Waiting(s)| + s.done
  }

  /** Another request that has published the row's message has not marked the row yet. */
  predicate ReplayedByAnother(s: State, req: nat, row: nat) {
    exists q :: q in s.replays && q != req && s.replays[q] == Replay(row, true)
  }

  /**
    The step leaves a message in two places: a retry or a row for a message that is not
    acknowledged, a replay of a row that was replayed meanwhile, or a replay that ends between its
    publish and its mark.
  */
  predicate Duplicates(maxRetries: int, s: State, a: Action) {
    match a
    case Deliver(m, r, republished, acked) => !acked && Handle(maxRetries, m, r, republished).retried.Some?
    case Archive(_, _, acked) => !acked
    case ReplayPublish(req) => req in s.replays && s.replays[req].row !in Waiting(s)
    case ReplayDrop(req) =>
      req in s.replays
      && var r := s.replays[req];
         r.published && r.row in s.rows && !s.rows[r.row].replayed && !ReplayedByAnother(s, req, r.row)
    case _ => false
  }

  /** A replayed task goes back to the main queue with no retries counted; nothing else becomes of it. */
  lemma ReplayStartsOver(maxRetries: int, s: State, req: nat)
    requires Enabled(s, ReplayPublish(req)) && s.rows[s.replays[req].row].msg.Task?
    ensures var t := Apply(maxRetries, s, ReplayPublish(req));
      && t.main == s.main + multiset{Task(s.rows[s.replays[req].row].msg.note, 0)}
      && t.retry == s.retry && t.dead == s.dead && t.rows == s.rows && t.done == s.done
  {
  }

  /** A retry comes back as the message it was, with the retries it has counted. */
  lemma RetryComesBack(maxRetries: int, s: State, m: Message)
    requires m in s.retry
    ensures var t := Apply(maxRetries, s, Expire(m));
      && t.main[m] == s.main[m] + 1 && t.retry[m] == s.retry[m] - 1
      && (forall x :: x != m ==> t.main[x] == s.main[x] && t.retry[x] == s.retry[x])
      && t == s.(main := t.main, retry := t.retry)
  {
  }

  /** Replay requests refer to rows of the table. */
  predicate ReplaysOk(s: State) {
    forall q :: q in s.replays ==> s.replays[q].row in s.rows
  }

  predicate InRange(m: Message, cap: int) { m.Task? ==> 0 <= m.retryCount <= cap }

  predicate Spent(m: Message, cap: int) { m.Task? ==> m.retryCount == cap }

  /** Retry counts stay in range, and what was dead-lettered had no retries left. */
  predicate CountsOk(maxRetries: int, s: State) {
    && (forall m :: m in s.main ==> InRange(m, Cap(maxRetries)))
    && (forall m :: m in s.retry ==> InRange(m, Cap(maxRetries)))
    && (forall m :: m in s.dead ==> Spent(m, Cap(maxRetries)))
    && (forall r :: r in s.rows ==> Spent(s.rows[r].msg, Cap(maxRetries)))
  }

  lemma TakeOne(q: multiset<Message>, m: Message)
    requires m in q
    ensures |q - multiset{m}| == |q| - 1
  {
  }

  lemma SameWaiting(s: State, t: State)
    requires t.rows == s.rows && t.replays == s.replays
    ensures Waiting(t) == Waiting(s)
  {
    assert forall row :: BeingReplayed(t, row) <==> BeingReplayed(s, row);
  }

  /** A handled message leaves the main queue, for the place its verdict names. */
  lemma HandledCount(main: multiset<Message>, retry: multiset<Message>, dead: multiset<Message>, done: nat,
                     m: Message, h: Handled, acked: bool)
    requires m in main && (h.retried.Some? ==> h.verdict == Ack)
    ensures var before, after := |main| + |retry| + |dead| + done,
                |MainAfter(main, m, h, acked)| + |RetryAfter(retry, h)| + |DeadAfter(dead, m, h, acked)|
                + DoneAfter(done, h, acked);
            after == before + if !acked && h.retried.Some? then 1 else 0
  {
    TakeOne(main, m);
  }

  /** A delivery moves its message; a retry without an acknowledgement duplicates it. */
  lemma DeliverCount(maxRetries: int, s: State, a: Action)
    requires Enabled(s, a) && a.Deliver?
    ensures Count(Apply(maxRetries, s, a)) == Count(s) + if Duplicates(maxRetries, s, a) then 1 else 0
  {
    var h := Handle(maxRetries, a.msg, a.result, a.republished);
    HandledCount(s.main, s.retry, s.dead, s.done, a.msg, h, a.acked);
    SameWaiting(s, Apply(maxRetries, s, a));
  }

  lemma ArchiveCount(maxRetries: int, s: State, a: Action)
    requires ReplaysOk(s) && Enabled(s, a) && a.Archive?
    ensures Count(Apply(maxRetries, s, a)) == Count(s) + if Duplicates(maxRetries, s, a) then 1 else 0
  {
    RowStepWaiting(maxRetries, s, a);
    TakeOne(s.dead, a.msg);
  }

  lemma ReplayCount(maxRetries: int, s: State, a: Action)
    requires ReplaysOk(s) && Enabled(s, a) && (a.ReplayRead? || a.ReplayPublish? || a.ReplayMark? || a.ReplayDrop?)
    ensures Count(Apply(maxRetries, s, a)) == Count(s) + if Duplicates(maxRetries, s, a) then 1 else 0
  {
    RowStepWaiting(maxRetries, s, a);
  }

  lemma RowStepWaiting(maxRetries: int, s: State, a: Action)
    requires ReplaysOk(s) && Enabled(s, a)
    ensures var t := Apply(maxRetries, s, a);
      match a
      case Archive(_, row, _) => Waiting(t) == Waiting(s) + {row} && row !in Waiting(s)
      case ReplayRead(_, _) => Waiting(t) == Waiting(s)
      case ReplayPublish(req) => Waiting(t) == Waiting(s) - {s.replays[req].row}
      case ReplayMark(req) => Waiting(t) == Waiting(s)
      case ReplayDrop(req) =>
        var row := s.replays[req].row;
        if Duplicates(maxRetries, s, a) then Waiting(t) == Waiting(s) + {row} && row !in Waiting(s)
        else Waiting(t) == Waiting(s)
      case _ => true
  {
    var t := Apply(maxRetries, s, a);
    match a {
      case Archive(m, row, _) =>
        assert forall r :: BeingReplayed(t, r) <==> BeingReplayed(s, r);
      case ReplayRead(req, row) =>
        forall r ensures BeingReplayed(t, r) <==> BeingReplayed(s, r) {
          if q :| q in s.replays && s.replays[q] == Replay(r, true) {
            assert t.replays[q] == Replay(r, true);
          }
        }
      case ReplayPublish(req) =>
        var row := s.replays[req].row;
        assert t.replays[req] == Replay(row, true);
        forall r | r != row ensures BeingReplayed(t, r) <==> BeingReplayed(s, r) {
          if q :| q in s.replays && s.replays[q] == Replay(r, true) {
            assert t.replays[q] == Replay(r, true);
          }
        }
      case ReplayMark(req) =>
        var row := s.replays[req].row;
        assert s.replays[req] == Replay(row, true);
        forall r | r != row ensures BeingReplayed(t, r) <==> BeingReplayed(s, r) {
          if q :| q in s.replays && s.replays[q] == Replay(r, true) {
            assert t.replays[q] == Replay(r, true);
          }
        }
      case ReplayDrop(req) => DropWaiting(maxRetries, s, req);
      case _ =>
    }
  }

  lemma DropWaiting(maxRetries: int, s: State, req: nat)
    requires ReplaysOk(s) && req in s.replays
    ensures var t, row := Apply(maxRetries, s, ReplayDrop(req)), s.replays[req].row;
      if Duplicates(maxRetries, s, ReplayDrop(req)) then Waiting(t) == Waiting(s) + {row} && row !in Waiting(s)
      else Waiting(t) == Waiting(s)
  {
    var t, row := Apply(maxRetries, s, ReplayDrop(req)), s.replays[req].row;
    assert s.replays[req].published ==> BeingReplayed(s, row);
    forall r ensures BeingReplayed(t, r) <==> ReplayedByAnother(s, req, r) {
      if q :| q in s.replays && q != req && s.replays[q] == Replay(r, true) {
        assert t.replays[q] == Replay(r, true);
      }
      if q :| q in t.replays && t.replays[q] == Replay(r, true) {
        assert q != req && s.replays[q] == Replay(r, true);
      }
    }
    forall r | r != row || !s.replays[req].published ensures BeingReplayed(s, r) ==> ReplayedByAnother(s, req, r) {
      if q :| q in s.replays && s.replays[q] == Replay(r, true) {
        assert q != req;
      }
    }
  }

  /** No step loses a message, and the steps that duplicate one are exactly these. */
  lemma StepCount(maxRetries: int, s: State, a: Action)
    requires ReplaysOk(s) && Enabled(s, a)
    ensures var t := Apply(maxRetries, s, a);
            Count(t) == Count(s) + t.entered - s.entered + if Duplicates(maxRetries, s, a) then 1 else 0
  {
    match a {
      case Deliver(_, _, _, _) => DeliverCount(maxRetries, s, a);
      case Archive(_, _, _) => ArchiveCount(maxRetries, s, a);
      case Expire(m) =>
        SameWaiting(s, Apply(maxRetries, s, a));
        TakeOne(s.retry, m);
      case Enter(_) => SameWaiting(s, Apply(maxRetries, s, a));
      case _ => ReplayCount(maxRetries, s, a);
    }
  }

  lemma StepReplaysOk(maxRetries: int, s: State, a: Action)
    requires ReplaysOk(s) && Enabled(s, a)
    ensures ReplaysOk(Apply(maxRetries, s, a))
  {
  }

  /** What the handler retries or rejects, in terms of the retry count of its message. */
  lemma HandleRange(maxRetries: int, m: Message, r: SendResult, republished: bool)
    requires InRange(m, Cap(maxRetries))
    ensures var h := Handle(maxRetries, m, r, republished);
            && (h.retried.Some? ==> h.verdict == Ack && InRange(h.retried.value, Cap(maxRetries)))
            && (h.verdict == Reject ==> Spent(m, Cap(maxRetries)))
  {
  }

  lemma DeliverCountsOk(maxRetries: int, s: State, a: Action)
    requires CountsOk(maxRetries, s) && Enabled(s, a) && a.Deliver?
    ensures CountsOk(maxRetries, Apply(maxRetries, s, a))
  {
    var t := Apply(maxRetries, s, a);
    HandleRange(maxRetries, a.msg, a.result, a.republished);
    forall m | m in t.main ensures m in s.main {
    }
    forall m | m in t.retry ensures InRange(m, Cap(maxRetries)) {
    }
    forall m | m in t.dead ensures Spent(m, Cap(maxRetries)) {
    }
  }

  lemma StepCountsOk(maxRetries: int, s: State, a: Action)
    requires ReplaysOk(s) && CountsOk(maxRetries, s) && Enabled(s, a)
    ensures CountsOk(maxRetries, Apply(maxRetries, s, a))
  {
    if a.Deliver? {
      DeliverCountsOk(maxRetries, s, a);
    }
  }

  const EMPTY: State := State(multiset{}, multiset{}, multiset{}, map[], map[], 0, 0, {})

  /** The state after a history of actions, if each of them was enabled. */
  function Execute(maxRetries: int, actions: seq<Action>): Option<State> {
    if actions == [] then Some(EMPTY)
    else
      match Execute(maxRetries, actions[..|actions| - 1])
      case None => None
      case Some(s) =>
        var a := actions[|actions| - 1];
        if Enabled(s, a) then Some(Apply(maxRetries, s, a)) else None
  }

  /** How many steps of a history left a message in two places. */
  function Duplications(maxRetries: int, actions: seq<Action>): nat
    requires Execute(maxRetries, actions).Some?
  {
    if actions == [] then 0
    else
      var before := actions[..|actions| - 1];
      Duplications(maxRetries, before)
      + if Duplicates(maxRetries, Execute(maxRetries, before).value, actions[|actions| - 1]) then 1 else 0
  }

  lemma EmptyCount()
    ensures Count(EMPTY) == 0
  {
    assert Waiting(EMPTY) == {};
  }

  lemma {:induction false} ExecuteKeeps(maxRetries: int, actions: seq<Action>, s: State)
    requires Execute(maxRetries, actions) == Some(s)
    ensures ReplaysOk(s) && CountsOk(maxRetries, s)
    ensures Count(s) == s.entered + Duplications(maxRetries, actions)
  {
    if actions == [] {
      EmptyCount();
    } else {
      var before := Execute(maxRetries, actions[..|actions| - 1]).value;
      var a := actions[|actions| - 1];
      ExecuteKeeps(maxRetries, actions[..|actions| - 1], before);
      StepCount(maxRetries, before, a);
      StepReplaysOk(maxRetries, before, a);
      StepCountsOk(maxRetries, before, a);
    }
  }

  /**
    Conservation: after any history the messages in the three queues, the waiting dead-letter rows
    and the messages done are as many as ever entered, plus one for every step that duplicated one.
    So nothing is ever lost, and the numbers agree exactly when no step of the history duplicates.
  */
  lemma MessagesAreConserved(maxRetries: int, actions: seq<Action>, s: State)
    requires Execute(maxRetries, actions) == Some(s)
    ensures |s.main| + |s.retry| + |s.dead| + |Waiting(s)| + s.done == s.entered + Duplications(maxRetries, actions)
  {
    ExecuteKeeps(maxRetries, actions, s);
  }

  /** No delivery without an acknowledgement, and no replay that ends before it has marked its row. */
  predicate NoFault(a: Action) {
    match a
    case Deliver(_, _, _, acked) => acked
    case Archive(_, _, acked) => acked
    case ReplayDrop(_) => false
    case _ => true
  }

  predicate NoFaults(actions: seq<Action>) { forall i :: 0 <= i < |actions| ==> NoFault(actions[i]) }

  /** Nobody begins to replay a row while another request is at it. */
  predicate Alone(s: State, a: Action) {
    a.ReplayRead? ==> forall q :: q in s.replays ==> s.replays[q].row != a.row
  }

  /** In the whole history nobody does. */
  ghost predicate NoOverlap(maxRetries: int, actions: seq<Action>) {
    forall i {:trigger actions[i]} :: 0 <= i < |actions| ==>
      Execute(maxRetries, actions[..i]).Some? && Alone(Execute(maxRetries, actions[..i]).value, actions[i])
  }

  /** One request at a time replays a row, and the row is still pending. */
  predicate OneReplayEach(s: State) {
    && (forall q :: q in s.replays ==> s.replays[q].row in s.rows && !s.rows[s.replays[q].row].replayed)
    && (forall q, r :: q in s.replays && r in s.replays && s.replays[q].row == s.replays[r].row ==> q == r)
  }

  lemma OrderlyKeeps(maxRetries: int, s: State, a: Action)
    requires OneReplayEach(s) && Enabled(s, a) && NoFault(a) && Alone(s, a)
    ensures OneReplayEach(Apply(maxRetries, s, a))
  {
  }

  lemma OrderlyDuplicatesNone(maxRetries: int, s: State, a: Action)
    requires OneReplayEach(s) && Enabled(s, a) && NoFault(a)
    ensures !Duplicates(maxRetries, s, a)
  {
  }

  /** Without a fault and without overlapping replays of one row, nothing is duplicated. */
  lemma {:induction false} OrderlyIsExact(maxRetries: int, actions: seq<Action>, s: State)
    requires Execute(maxRetries, actions) == Some(s) && NoFaults(actions) && NoOverlap(maxRetries, actions)
    ensures OneReplayEach(s) && Duplications(maxRetries, actions) == 0 && Count(s) == s.entered
  {
    ExecuteKeeps(maxRetries, actions, s);
    if actions != [] {
      var before := actions[..|actions| - 1];
      forall i | 0 <= i < |before| ensures before[..i] == actions[..i] && before[i] == actions[i] {
      }
      OrderlyIsExact(maxRetries, before, Execute(maxRetries, before).value);
      OrderlyKeeps(maxRetries, Execute(maxRetries, before).value, actions[|actions| - 1]);
      OrderlyDuplicatesNone(maxRetries, Execute(maxRetries, before).value, actions[|actions| - 1]);
    }
  }

  lemma Extend(maxRetries: int, actions: seq<Action>, s: State, a: Action, t: State)
    requires Execute(maxRetries, actions) == Some(s) && Enabled(s, a) && t == Apply(maxRetries, s, a)
    ensures Execute(maxRetries, actions + [a]) == Some(t)
  {
    assert (actions + [a])[..|actions|] == actions;
  }

  /** One message that is dead-lettered. */
  lemma DeadLettered() returns (actions: seq<Action>, s: State)
    ensures Execute(0, actions) == Some(s) && NoFaults(actions)
    ensures s == State(multiset{}, multiset{}, multiset{Task(0, 0)}, map[], map[], 0, 1, {})
  {
    var m := Task(0, 0);
    var s1 := EMPTY.(main := multiset{m}, entered := 1);
    s := s1.(main := multiset{}, dead := multiset{m});
    Extend(0, [], EMPTY, Enter(m), s1);
    Extend(0, [] + [Enter(m)], s1, Deliver(m, SendFailed(false), false, true), s);
    actions := [] + [Enter(m)] + [Deliver(m, SendFailed(false), false, true)];
  }

  /** It is archived as row 0, and two requests find the row pending. */
  lemma BothRead() returns (actions: seq<Action>, s: State)
    ensures Execute(0, actions) == Some(s) && NoFaults(actions)
    ensures s == State(multiset{}, multiset{}, multiset{}, map[0 := Row(Task(0, 0), false)],
                       map[0 := Replay(0, false), 1 := Replay(0, false)], 0, 1, {})
  {
    actions, s := DeadLettered();
    var s1 := s.(dead := multiset{}, rows := map[0 := Row(Task(0, 0), false)]);
    var s2 := s1.(replays := map[0 := Replay(0, false)]);
    var s3 := s1.(replays := map[0 := Replay(0, false), 1 := Replay(0, false)]);
    Extend(0, actions, s, Archive(Task(0, 0), 0, true), s1);
    Extend(0, actions + [Archive(Task(0, 0), 0, true)], s1, ReplayRead(0, 0), s2);
    Extend(0, actions + [Archive(Task(0, 0), 0, true)] + [ReplayRead(0, 0)], s2, ReplayRead(1, 0), s3);
    actions, s := actions + [Archive(Task(0, 0), 0, true)] + [ReplayRead(0, 0)] + [ReplayRead(1, 0)], s3;
  }

  /** One of them publishes it. */
  lemma OnePublished() returns (actions: seq<Action>, s: State)
    ensures Execute(0, actions) == Some(s) && NoFaults(actions)
    ensures s == State(multiset{Task(0, 0)}, multiset{}, multiset{}, map[0 := Row(Task(0, 0), false)],
                       map[0 := Replay(0, true), 1 := Replay(0, false)], 0, 1, {})
  {
    actions, s := BothRead();
    var t := s.(main := multiset{Task(0, 0)}, replays := map[0 := Replay(0, true), 1 := Replay(0, false)]);
    Extend(0, actions, s, ReplayPublish(0), t);
    actions, s := actions + [ReplayPublish(0)], t;
  }

  /** Then the other one does. */
  lemma BothPublished() returns (actions: seq<Action>, s: State)
    ensures Execute(0, actions) == Some(s) && NoFaults(actions)
    ensures s == State(multiset{Task(0, 0), Task(0, 0)}, multiset{}, multiset{}, map[0 := Row(Task(0, 0), false)],
                       map[0 := Replay(0, true), 1 := Replay(0, true)], 0, 1, {})
  {
    actions, s := OnePublished();
    var t := s.(main := multiset{Task(0, 0), Task(0, 0)}, replays := map[0 := Replay(0, true), 1 := Replay(0, true)]);
    Extend(0, actions, s, ReplayPublish(1), t);
    actions, s := actions + [ReplayPublish(1)], t;
  }

  /**
    Two overlapping replays of one row both find it pending, publish it and mark it: no delivery
    stays unacknowledged and no write fails, and yet there are two messages where one entered.
  */
  lemma OverlappingReplaysDuplicate() returns (actions: seq<Action>, s: State)
    ensures Execute(0, actions) == Some(s) && NoFaults(actions)
    ensures s.entered == 1 && s.main == multiset{Task(0, 0), Task(0, 0)} && Count(s) == 2
  {
    actions, s := BothPublished();
    var s1 := s.(rows := map[0 := Row(Task(0, 0), true)], replays := map[1 := Replay(0, true)]);
    var s2 := s1.(replays := map[]);
    Extend(0, actions, s, ReplayMark(0), s1);
    Extend(0, actions + [ReplayMark(0)], s1, ReplayMark(1), s2);
    actions, s := actions + [ReplayMark(0)] + [ReplayMark(1)], s2;
    assert Waiting(s) == {};
  }

  /**
    The handler counts before it announces, so that in no history does it announce the delay that
    the queue keeps: every retry is announced for 5 minutes or more, and comes after one.
  */
  lemma DelayNeverKept(maxRetries: int, actions: seq<Action>, s: State, m: Message, r: SendResult)
    requires Execute(maxRetries, actions) == Some(s) && m in s.main
    ensures var h := Handle(maxRetries, m, r, true);
      h.retried.Some? ==>
        h.retried.value.retryCount >= 1 && RetryDelay(h.retried.value.retryCount) >= 5 * 60 > RETRY_TTL
  {
    if m.Task? {
      RetriesAreBounded(maxRetries, actions, s, m);
    }
  }

  /** Retries are bounded: counts stay within 0..Cap, and tasks are dead-lettered only at Cap. */
  lemma RetriesAreBounded(maxRetries: int, actions: seq<Action>, s: State, m: Message)
    requires Execute(maxRetries, actions) == Some(s) && m.Task?
    ensures m in s.main || m in s.retry ==> 0 <= m.retryCount <= Cap(maxRetries)
    ensures m in s.dead || (exists r :: r in s.rows && s.rows[r].msg == m) ==> m.retryCount == Cap(maxRetries)
  {
    ExecuteKeeps(maxRetries, actions, s);
  }
}
