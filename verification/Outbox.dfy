/**
  The transactional outbox and its workers.  Any number of workers claim pending events, publish
  them and record the outcome; each repository or broker call is one action, a write may be lost
  (the worker only logs that), and a worker may crash between two calls.  A failed publish means
  that the message was not enqueued.

  An event also counts its publishes: `successes` and `failures` are not columns of the table.
*/
module Outbox {
  import opened Wrappers

  datatype Status = Pending | Processing | Published | Failed

  datatype Event = Event(note: nat, status: Status, retryCount: nat, publishedAt: bool, successes: nat, failures: nat)

  /** What a worker has done with an event it has claimed. */
  datatype Stage = Claimed | Sent | NotSent

  /** A claimed event in a worker's memory. */
  datatype Hold = Hold(stage: Stage, retryCount: nat)

  /** The holds are keyed by worker and event. */
  datatype State = State(events: map<nat, Event>, holds: map<(nat, nat), Hold>)

  datatype Action =
    | Create(event: nat, note: nat)
    | Claim(worker: nat, event: nat, lost: bool)
    | PublishOk(worker: nat, event: nat)
    | PublishErr(worker: nat, event: nat)
    | MarkPublished(worker: nat, event: nat, lost: bool)
    | IncrementRetry(worker: nat, event: nat, lost: bool)
    | MarkFailed(worker: nat, event: nat, lost: bool)
    | Crash(worker: nat)

  /** How often an event may fail to be published before it is given up. */
  function Limit(maxRetries: int): (n: nat)
    ensures n >= 1 && n >= maxRetries && (n == 1 || n == maxRetries)
  {
    if maxRetries < 1 then 1 else maxRetries
  }

  predicate Holds(s: State, w: nat, e: nat, stage: Stage) {
    (w, e) in s.holds && s.holds[(w, e)].stage == stage && e in s.events
  }

  predicate Enabled(maxRetries: int, s: State, a: Action) {
    match a
    case Create(e, note) => e !in s.events && forall x :: x in s.events ==> s.events[x].note != note
    case Claim(w, e, _) => e in s.events && s.events[e].status == Pending && !s.events[e].publishedAt
    case PublishOk(w, e) => Holds(s, w, e, Claimed)
    case PublishErr(w, e) => Holds(s, w, e, Claimed)
    case MarkPublished(w, e, _) => Holds(s, w, e, Sent)
    case IncrementRetry(w, e, _) => Holds(s, w, e, NotSent) && s.holds[(w, e)].retryCount + 1 < maxRetries
    case MarkFailed(w, e, _) => Holds(s, w, e, NotSent) && s.holds[(w, e)].retryCount + 1 >= maxRetries
    case Crash(_) => true
  }

  function Put(s: State, e: nat, ev: Event): State { s.(events := s.events[e := ev]) }

  function Release(s: State, w: nat, e: nat): State { s.(holds := s.holds - {(w, e)}) }

  function Apply(maxRetries: int, s: State, a: Action): State
    requires Enabled(maxRetries, s, a)
  {
    match a
    case Create(e, note) => Put(s, e, Event(note, Pending, 0, false, 0, 0))
    case Claim(w, e, lost) =>
      var t := Put(s, e, s.events[e].(status := Processing));
      if lost then t else t.(holds := t.holds[(w, e) := Hold(Claimed, s.events[e].retryCount)])
    case PublishOk(w, e) =>
      Put(s, e, s.events[e].(successes := s.events[e].successes + 1))
        .(holds := s.holds[(w, e) := s.holds[(w, e)].(stage := Sent)])
    case PublishErr(w, e) =>
      Put(s, e, s.events[e].(failures := s.events[e].failures + 1))
        .(holds := s.holds[(w, e) := s.holds[(w, e)].(stage := NotSent)])
    case MarkPublished(w, e, lost) =>
      Release(if lost then s else Put(s, e, s.events[e].(status := Published, publishedAt := true)), w, e)
    case IncrementRetry(w, e, lost) =>
      var ev := s.events[e];
      Release(if lost then s else Put(s, e, ev.(status := Pending, retryCount := ev.retryCount + 1)), w, e)
    case MarkFailed(w, e, lost) =>
      Release(if lost then s else Put(s, e, s.events[e].(status := Failed)), w, e)
    case Crash(w) => s.(holds := map k | k in s.holds && k.0 != w :: s.holds[k])
  }

  predicate EventOk(maxRetries: int, ev: Event) {
    && ev.successes <= 1
    && ev.failures <= ev.retryCount + 1 <= Limit(maxRetries)
    && (ev.publishedAt <==> ev.status == Published)
    && (ev.status == Published ==> ev.successes == 1)
    && (ev.status == Pending ==> ev.successes == 0 && ev.failures == ev.retryCount)
    && (ev.status == Failed ==> ev.successes == 0 && ev.failures == Limit(maxRetries))
  }

  predicate HoldOk(ev: Event, h: Hold) {
    && ev.status == Processing && h.retryCount == ev.retryCount
    && match h.stage
       case Claimed => ev.successes == 0 && ev.failures == ev.retryCount
       case Sent => ev.successes == 1
       case NotSent => ev.successes == 0 && ev.failures == ev.retryCount + 1
  }

  ghost predicate Inv(maxRetries: int, s: State) {
    && (forall e :: e in s.events ==> EventOk(maxRetries, s.events[e]))
    && (forall w, e :: (w, e) in s.holds ==> e in s.events && HoldOk(s.events[e], s.holds[(w, e)]))
    && (forall w, v, e :: (w, e) in s.holds && (v, e) in s.holds ==> w == v)
    && (forall d, e :: d in s.events && e in s.events && s.events[d].note == s.events[e].note ==> d == e)
  }

  /** Publishing and its failure keep the invariant. */
  lemma PublishInv(maxRetries: int, s: State, a: Action)
    requires Inv(maxRetries, s) && Enabled(maxRetries, s, a) && (a.PublishOk? || a.PublishErr?)
    ensures Inv(maxRetries, Apply(maxRetries, s, a))
  {
  }

  /** Recording the outcome keeps the invariant. */
  lemma RecordInv(maxRetries: int, s: State, a: Action)
    requires Inv(maxRetries, s) && Enabled(maxRetries, s, a) && (a.MarkPublished? || a.IncrementRetry? || a.MarkFailed?)
    ensures Inv(maxRetries, Apply(maxRetries, s, a))
  {
    var t := Apply(maxRetries, s, a);
    assert forall w :: (w, a.event) !in t.holds;
  }

  lemma StepInv(maxRetries: int, s: State, a: Action)
    requires Inv(maxRetries, s) && Enabled(maxRetries, s, a)
    ensures Inv(maxRetries, Apply(maxRetries, s, a))
  {
    if a.PublishOk? || a.PublishErr? {
      PublishInv(maxRetries, s, a);
    } else if a.MarkPublished? || a.IncrementRetry? || a.MarkFailed? {
      RecordInv(maxRetries, s, a);
    }
  }

  /** Outcomes are final: success and failure are never undone, and counts never go down. */
  lemma StepMonotone(maxRetries: int, s: State, a: Action, e: nat)
    requires Inv(maxRetries, s) && Enabled(maxRetries, s, a) && e in s.events
    ensures var t := Apply(maxRetries, s, a);
            && e in t.events && t.events[e].note == s.events[e].note
            && s.events[e].successes <= t.events[e].successes && s.events[e].failures <= t.events[e].failures
            && (s.events[e].status in {Published, Failed} ==> t.events[e] == s.events[e])
  {
  }

  const EMPTY: State := State(map[], map[])

  /** The state after a history of actions, if each of them was enabled. */
  function Execute(maxRetries: int, init: State, actions: seq<Action>): Option<State> {
    if actions == [] then Some(init)
    else
      match Execute(maxRetries, init, actions[..|actions| - 1])
      case None => None
      case Some(s) =>
        var a := actions[|actions| - 1];
        if Enabled(maxRetries, s, a) then Some(Apply(maxRetries, s, a)) else None
  }

  lemma {:induction false} ExecuteInv(maxRetries: int, init: State, actions: seq<Action>, s: State)
    requires Inv(maxRetries, init) && Execute(maxRetries, init, actions) == Some(s)
    ensures Inv(maxRetries, s)
  {
    if actions != [] {
      var before := Execute(maxRetries, init, actions[..|actions| - 1]).value;
      ExecuteInv(maxRetries, init, actions[..|actions| - 1], before);
      StepInv(maxRetries, before, actions[|actions| - 1]);
    }
  }

  /** No two workers hold the same event, in any state the workers can reach. */
  lemma ClaimsAreExclusive(maxRetries: int, actions: seq<Action>, s: State, w: nat, v: nat, e: nat)
    requires Execute(maxRetries, EMPTY, actions) == Some(s)
    requires (w, e) in s.holds && (v, e) in s.holds
    ensures w == v && e in s.events && s.events[e].status == Processing
  {
    ExecuteInv(maxRetries, EMPTY, actions, s);
  }

  /**
    Over all runs of all workers an event is published at most once, fails to be published at most
    `Limit` times, carries a publication time exactly when it is marked published, and is never
    retried more than `Limit - 1` times; it is given up only after all of them.
  */
  lemma PublishedAtMostOnce(maxRetries: int, actions: seq<Action>, s: State, e: nat)
    requires Execute(maxRetries, EMPTY, actions) == Some(s) && e in s.events
    ensures s.events[e].successes <= 1 && s.events[e].failures <= Limit(maxRetries)
    ensures s.events[e].publishedAt <==> s.events[e].status == Published
    ensures s.events[e].status == Published ==> s.events[e].successes == 1
    ensures s.events[e].status == Failed ==> s.events[e].successes == 0 && s.events[e].failures == Limit(maxRetries)
    ensures s.events[e].retryCount <= Limit(maxRetries) - 1
  {
    ExecuteInv(maxRetries, EMPTY, actions, s);
  }

  /** The event is pending, or a running worker has it and has not tried its last publish. */
  ghost predicate Live(maxRetries: int, s: State, e: nat) {
    && e in s.events
    && (|| s.events[e].status == Pending
        || (exists w :: Holds(s, w, e, Claimed))
        || (exists w :: Holds(s, w, e, NotSent) && s.holds[(w, e)].retryCount + 1 < maxRetries))
  }

  lemma StuckStep(maxRetries: int, s: State, a: Action, e: nat)
    requires Inv(maxRetries, s) && Enabled(maxRetries, s, a) && e in s.events && !Live(maxRetries, s, e)
    ensures var t := Apply(maxRetries, s, a);
            e in t.events && !Live(maxRetries, t, e) && t.events[e].successes == s.events[e].successes
  {
    var t := Apply(maxRetries, s, a);
    forall w, stage | Holds(t, w, e, stage) && stage != Sent
      ensures Holds(s, w, e, stage) && t.holds[(w, e)] == s.holds[(w, e)]
    {
    }
  }

  lemma {:induction false} StuckForever(maxRetries: int, s: State, more: seq<Action>, t: State, e: nat)
    requires Inv(maxRetries, s) && e in s.events && !Live(maxRetries, s, e) && Execute(maxRetries, s, more) == Some(t)
    ensures e in t.events && !Live(maxRetries, t, e) && t.events[e].successes == s.events[e].successes
  {
    if more != [] {
      var before := Execute(maxRetries, s, more[..|more| - 1]).value;
      StuckForever(maxRetries, s, more[..|more| - 1], before, e);
      ExecuteInv(maxRetries, s, more[..|more| - 1], before);
      StuckStep(maxRetries, before, more[|more| - 1], e);
    }
  }

  lemma ExecuteOne(maxRetries: int, init: State, actions: seq<Action>, s: State, a: Action)
    requires Execute(maxRetries, init, actions) == Some(s) && Enabled(maxRetries, s, a)
    ensures Execute(maxRetries, init, actions + [a]) == Some(Apply(maxRetries, s, a))
  {
    assert (actions + [a])[..|actions|] == actions;
  }

  /** From a live event, the actions that publish it. */
  lemma LiveCanPublish(maxRetries: int, s: State, e: nat) returns (more: seq<Action>, t: State)
    requires Inv(maxRetries, s) && Live(maxRetries, s, e)
    ensures Execute(maxRetries, s, more) == Some(t) && e in t.events
    ensures t.events[e].successes == s.events[e].successes + 1
  {
    more, t := [], s;
    if w :| Holds(s, w, e, Claimed) {
      ExecuteOne(maxRetries, s, more, t, PublishOk(w, e));
      more, t := more + [PublishOk(w, e)], Apply(maxRetries, t, PublishOk(w, e));
    } else {
      if s.events[e].status != Pending {
        var w :| Holds(s, w, e, NotSent) && s.holds[(w, e)].retryCount + 1 < maxRetries;
        ExecuteOne(maxRetries, s, more, t, IncrementRetry(w, e, false));
        more, t := more + [IncrementRetry(w, e, false)], Apply(maxRetries, t, IncrementRetry(w, e, false));
      }
      ExecuteInv(maxRetries, s, more, t);
      ExecuteOne(maxRetries, s, more, t, Claim(0, e, false));
      more, t := more + [Claim(0, e, false)], Apply(maxRetries, t, Claim(0, e, false));
      ExecuteOne(maxRetries, s, more, t, PublishOk(0, e));
      more, t := more + [PublishOk(0, e)], Apply(maxRetries, t, PublishOk(0, e));
    }
  }

  /**
    An event can still be published if and only if it is live.  So delivery is at most once, not at
    least once: nothing ever claims an event that is already `processing`.
  */
  lemma CanStillBePublished(maxRetries: int, s: State, e: nat)
    requires Inv(maxRetries, s) && e in s.events
    ensures (exists more :: Execute(maxRetries, s, more).Some? && e in Execute(maxRetries, s, more).value.events
               && Execute(maxRetries, s, more).value.events[e].successes > s.events[e].successes)
      <==> Live(maxRetries, s, e)
  {
    if Live(maxRetries, s, e) {
      var more, t := LiveCanPublish(maxRetries, s, e);
    } else {
      forall more | Execute(maxRetries, s, more).Some?
        ensures e in Execute(maxRetries, s, more).value.events
          && Execute(maxRetries, s, more).value.events[e].successes == s.events[e].successes
      {
        StuckForever(maxRetries, s, more, Execute(maxRetries, s, more).value, e);
      }
    }
  }

  /** A worker that crashes before it publishes strands its events: they are never published. */
  lemma CrashStrands(maxRetries: int, s: State, w: nat, e: nat, more: seq<Action>, t: State)
    requires Inv(maxRetries, s) && Holds(s, w, e, Claimed)
    requires Execute(maxRetries, Apply(maxRetries, s, Crash(w)), more) == Some(t)
    ensures e in t.events && t.events[e].successes == 0 && t.events[e].status == Processing
  {
    var crashed := Apply(maxRetries, s, Crash(w));
    StepInv(maxRetries, s, Crash(w));
    StrandedStatus(maxRetries, crashed, more, t, e);
  }

  lemma {:induction false} StrandedStatus(maxRetries: int, s: State, more: seq<Action>, t: State, e: nat)
    requires e in s.events && s.events[e].status == Processing && (forall w :: (w, e) !in s.holds)
    requires Execute(maxRetries, s, more) == Some(t)
    ensures e in t.events && t.events[e] == s.events[e] && (forall w :: (w, e) !in t.holds)
  {
    if more != [] {
      StrandedStatus(maxRetries, s, more[..|more| - 1], Execute(maxRetries, s, more[..|more| - 1]).value, e);
    }
  }
}
