/**
  The code that drives the delivery path: notification service, outbox worker, email worker,
  dead-letter worker and replay.  `Interfere` stands where other processes may act; every method is
  shown to make only actions of Delivery.dfy.
*/
module DeliveryWorkers {
  import opened Wrappers
  import opened Delivery
  import O = Outbox
  import Q = EmailQueue
  import B = CircuitBreaker

  /** The action is not one of the outbox worker or replay request `me`. */
  predicate ByOthers(me: nat, a: Action) {
    match a
    case Out(Create(_, _)) => true
    case Out(o) => o.worker != me
    case Mail(ReplayRead(req, _)) => req != me
    case Mail(ReplayPublish(req)) => req != me
    case Mail(ReplayMark(req)) => req != me
    case Mail(ReplayDrop(req)) => req != me
    case _ => true
  }

  /** Every event that `me` has claimed is as it was. */
  ghost predicate HoldsKept(me: nat, s: O.State, t: O.State) {
    forall e {:trigger (me, e) in s.holds} {:trigger (me, e) in t.holds} ::
      && ((me, e) in s.holds <==> (me, e) in t.holds)
      && ((me, e) in s.holds ==> t.holds[(me, e)] == s.holds[(me, e)])
      && ((me, e) in s.holds && e in s.events ==> e in t.events && t.events[e] == s.events[e])
  }

  /** Every event that `me` has claimed, but for `e`, is as it was. */
  ghost predicate OthersHeld(me: nat, e: nat, s: O.State, t: O.State) {
    forall d {:trigger (me, d) in s.holds} {:trigger (me, d) in t.holds} | d != e ::
      && ((me, d) in s.holds <==> (me, d) in t.holds)
      && ((me, d) in s.holds ==> t.holds[(me, d)] == s.holds[(me, d)])
      && ((me, d) in s.holds && d in s.events ==> d in t.events && t.events[d] == s.events[d])
  }

  /** The replay that `me` has begun is as it was, and so is the message of its row. */
  ghost predicate ReplayKept(me: nat, s: Q.State, t: Q.State) {
    && (me in s.replays <==> me in t.replays)
    && (me in s.replays ==> t.replays[me] == s.replays[me])
    && (forall r :: r in s.rows ==> r in t.rows && t.rows[r].msg == s.rows[r].msg)
  }

  /** How often publishing the event has been tried. */
  function Tries(s: O.State, e: nat): nat {
    if e in s.events then s.events[e].successes + s.events[e].failures else 0
  }

  ghost predicate TriesKept(s: O.State, t: O.State) { forall e :: Tries(s, e) <= Tries(t, e) }

  ghost predicate TriesSame(s: O.State, t: O.State) { forall e :: Tries(s, e) == Tries(t, e) }

  ghost predicate Kept(me: nat, s: State, t: State) {
    && HoldsKept(me, s.outbox, t.outbox) && TriesKept(s.outbox, t.outbox)
    && ReplayKept(me, s.mail, t.mail) && s.writes <= t.writes
  }

  lemma OthersKeepHolds(maxRetries: int, me: nat, s: O.State, o: O.Action)
    requires O.Inv(maxRetries, s) && O.Enabled(maxRetries, s, o) && (o.Create? || o.worker != me)
    ensures HoldsKept(me, s, O.Apply(maxRetries, s, o))
  {
    forall e | (me, e) in s.holds ensures !o.Create? && !o.Crash? ==> o.event != e {
    }
  }

  lemma OthersKeepReplay(maxRetries: int, me: nat, s: Q.State, q: Q.Action)
    requires Q.ReplaysOk(s) && Q.Enabled(s, q) && ByOthers(me, Mail(q))
    ensures ReplayKept(me, s, Q.Apply(maxRetries, s, q))
  {
  }

  lemma TriesNeverFall(maxRetries: int, s: O.State, o: O.Action)
    requires O.Inv(maxRetries, s) && O.Enabled(maxRetries, s, o)
    ensures TriesKept(s, O.Apply(maxRetries, s, o))
  {
    forall e | e in s.events ensures Tries(s, e) <= Tries(O.Apply(maxRetries, s, o), e) {
      O.StepMonotone(maxRetries, s, o, e);
    }
  }

  /** Claims are exclusive: no step of another process touches what a process has claimed. */
  lemma OthersKeep(l: Limits, me: nat, s: State, a: Action)
    requires Inv(l, s) && Enabled(l, s, a) && ByOthers(me, a)
    ensures Kept(me, s, Apply(l, s, a))
  {
    if a.Out? {
      OthersKeepHolds(l.outbox, me, s.outbox, a.o);
      TriesNeverFall(l.outbox, s.outbox, a.o);
    } else if a.Mail? {
      OthersKeepReplay(l.email, me, s.mail, a.q);
    }
  }

  function Attempt(ev: O.Event, ok: bool): O.Event {
    if ok then ev.(successes := ev.successes + 1) else ev.(failures := ev.failures + 1)
  }

  /** The row once the outcome of a publish is recorded, by the retry count the worker has read. */
  function Recorded(maxRetries: int, ev: O.Event, retryCount: nat, ok: bool): O.Event {
    if ok then ev.(status := O.Published, publishedAt := true)
    else if retryCount + 1 >= maxRetries then ev.(status := O.Failed)
    else ev.(status := O.Pending, retryCount := ev.retryCount + 1)
  }

  /** One more publish of the event was tried, and what came of it was recorded or lost. */
  predicate TriedOnceMore(maxRetries: int, before: O.Event, after: O.Event) {
    exists ok: bool ::
      after == Attempt(before, ok) || after == Recorded(maxRetries, Attempt(before, ok), before.retryCount, ok)
  }

  /** A mail handed to the breaker, and what the caller learns. */
  predicate Sends(b: B.Result, r: Q.SendResult) {
    match b
    case Refused => r == Q.BreakerOpen
    case Idle => r == Q.Sent(false)
    case RanOk => r == Q.Sent(true)
    case RanFailed => r.SendFailed?
  }

  /** The action was made after the first `n`. */
  ghost predicate Did(history: seq<Action>, n: nat, a: Action) {
    exists i :: n <= i < |history| && history[i] == a
  }

  /** The events a claim may take. */
  function Claimable(s: O.State): set<nat> {
    set e | e in s.events && s.events[e].status == O.Pending && !s.events[e].publishedAt
  }

  function Min(a: nat, b: nat): nat { if a < b then a else b }

  /** Whether publishing an event succeeds, and whether the outcome is written. */
  datatype PublishEnv = PublishEnv(published: bool, written: bool)

  /** Whether the claiming transaction is made and answered, and which rows are not locked. */
  datatype ClaimEnv = ClaimEnv(begun: bool, answered: bool, unlocked: nat -> bool)

  /** Whether a retry is published, the message acknowledged, and the notification updated. */
  datatype DeliveryEnv = DeliveryEnv(republished: bool, acked: bool, updated: bool)

  /** Which calls of a replay succeed. */
  datatype ReplayEnv = ReplayEnv(read: bool, published: bool, marked: bool, updated: bool)

  /** The claimable events that are not locked. */
  function Free(s: O.State, env: ClaimEnv): set<nat> { set e | e in Claimable(s) && env.unlocked(e) }

  /** Part of a batch is claimed: `events` are held with their rows processing, and `rest` is as it was. */
  ghost predicate Claiming(me: nat, was: O.State, now: O.State, rest: set<nat>, events: seq<nat>) {
    && rest <= Claimable(was) && rest <= Claimable(now) && TriesSame(was, now)
    && (forall i, j :: 0 <= i < j < |events| ==> events[i] != events[j])
    && (forall e :: (me, e) in now.holds <==> e in events)
    && (forall e :: e in rest ==> e !in events && now.events[e] == was.events[e])
    && (forall e :: e in events ==>
          && e in was.events && O.Holds(now, me, e, O.Claimed)
          && now.events[e] == was.events[e].(status := O.Processing))
  }

  lemma ClaimingMore(maxRetries: int, me: nat, was: O.State, s: O.State, rest: set<nat>, events: seq<nat>, e: nat,
                     lost: bool)
    requires Claiming(me, was, s, rest, events) && e in rest
    ensures Claiming(me, was, O.Apply(maxRetries, s, O.Claim(me, e, lost)), rest - {e},
                     if lost then events else events + [e])
  {
  }

  /** Every event that is pending and not locked is among them. */
  ghost predicate TakesAll(was: O.State, events: seq<nat>, env: ClaimEnv) {
    forall e :: e in was.events && was.events[e].status == O.Pending && env.unlocked(e) ==> e in events
  }

  /** What is not claimed so far is as it was, and the claimable events of it are the `rest`. */
  ghost predicate Leaving(was: O.State, now: O.State, rest: set<nat>, events: seq<nat>, env: ClaimEnv) {
    && (forall e :: e in Free(was, env) ==> e in rest || e in events)
    && (forall e :: e in was.events && e !in events ==> e in now.events && now.events[e] == was.events[e])
  }

  lemma LeavingMore(maxRetries: int, me: nat, was: O.State, s: O.State, rest: set<nat>, events: seq<nat>,
                    env: ClaimEnv, e: nat)
    requires rest <= Claimable(s) && e in rest
    ensures Leaving(was, s, rest, events, env) ==>
      Leaving(was, O.Apply(maxRetries, s, O.Claim(me, e, false)), rest - {e}, events + [e], env)
  {
  }

  /** Part of a batch is done: let go and tried once more; the others are held as they were. */
  ghost predicate Working(me: nat, at: O.State, now: O.State, claimed: seq<nat>, done: set<nat>) {
    && TriesKept(at, now)
    && (forall e :: e in done ==> Tries(now, e) > Tries(at, e))
    && (forall e :: (me, e) in now.holds <==> e in claimed && e !in done)
    && (forall e :: e in claimed && e !in done ==>
          O.Holds(now, me, e, O.Claimed) && e in at.events && now.events[e] == at.events[e])
  }

  lemma WorkingMore(me: nat, at: O.State, s: O.State, t: O.State, claimed: seq<nat>, done: set<nat>, e: nat)
    requires Working(me, at, s, claimed, done) && e in claimed && e !in done
    requires OthersHeld(me, e, s, t) && TriesKept(s, t) && Tries(t, e) > Tries(s, e) && (me, e) !in t.holds
    ensures Working(me, at, t, claimed, done + {e})
  {
    forall d | d != e ensures (me, d) in t.holds <==> (me, d) in s.holds {
    }
    forall d ensures Tries(at, d) <= Tries(t, d) {
      assert Tries(at, d) <= Tries(s, d) <= Tries(t, d);
    }
  }

  /** The row of a claimed event once it was tried and the outcome was written. */
  function Tried(maxRetries: int, ev: O.Event, env: PublishEnv): O.Event {
    Recorded(maxRetries, Attempt(ev, env.published), ev.retryCount, env.published)
  }

  /** Nobody else acts: the events done are as their calls left them, and all others as they were. */
  ghost predicate DoneAlone(maxRetries: int, at: O.State, now: O.State, done: set<nat>, env: nat -> PublishEnv) {
    forall e :: e in at.events ==>
      && e in now.events
      && (e !in done ==> now.events[e] == at.events[e])
      && (e in done && env(e).written ==> now.events[e] == Tried(maxRetries, at.events[e], env(e)))
  }

  lemma DoneAloneMore(maxRetries: int, at: O.State, s: O.State, t: O.State, done: set<nat>, env: nat -> PublishEnv,
                      e: nat)
    requires DoneAlone(maxRetries, at, s, done, env) && e in at.events && e !in done && e in t.events
    requires t.events == s.events[e := t.events[e]]
    requires env(e).written ==> t.events[e] == Tried(maxRetries, at.events[e], env(e))
    ensures DoneAlone(maxRetries, at, t, done + {e}, env)
  {
  }

  /** The processes of the delivery path.  When one of them is `alone`, nobody else acts. */
  class Workers {
    const l: Limits
    const breaker: B.CircuitBreaker
    const alone: bool
    var s: State
    ghost var history: seq<Action>

    constructor (l: Limits, breaker: B.CircuitBreaker, alone: bool)
      ensures this.l == l && this.breaker == breaker && this.alone == alone && Valid() && s == EMPTY
    {
      this.l, this.breaker, this.alone := l, breaker, alone;
      s, history := EMPTY, [];
    }

    ghost predicate Valid()
      reads this
    {
      Execute(l, EMPTY, history) == Some(s)
    }

    lemma ValidInv()
      requires Valid()
      ensures Inv(l, s)
    {
      EmptyInv(l);
      ExecuteInv(l, EMPTY, history, s);
    }

    lemma FailedNote(e: nat)
      requires Valid() && e in s.outbox.events && s.outbox.events[e].status == O.Failed
      ensures s.outbox.events[e].note in s.notes && s.notes[s.outbox.events[e].note] == Failed
    {
      ValidInv();
    }

    method Do(a: Action)
      requires Valid() && Enabled(l, s, a)
      modifies this
      ensures Valid() && s == Apply(l, old(s), a) && history == old(history) + [a]
    {
      assert (history + [a])[..|history|] == history;
      history := history + [a];
      s := Apply(l, s, a);
    }

    /** Any number of actions of other processes. */
    method Interfere(me: nat)
      requires Valid()
      modifies this
      ensures Valid() && Kept(me, old(s), s) && old(history) <= history
      ensures alone ==> s == old(s) && history == old(history)
    {
      var steps: int := *;
      for i := 0 to if alone || steps < 0 then 0 else steps
        invariant Valid() && Kept(me, old(s), s) && old(history) <= history
        invariant alone ==> s == old(s) && history == old(history)
      {
        var a: Action := *;
        if Enabled(l, s, a) && ByOthers(me, a) {
          ValidInv();
          OthersKeep(l, me, s, a);
          Do(a);
        }
      }
    }

    /** One transaction: both rows, both pending, or none. */
    method CreateWithOutbox(note: nat, event: nat, committed: bool) returns (ok: bool)
      requires Valid()
      modifies this
      ensures Valid() && ok == (committed && old(Enabled(l, s, Out(O.Create(event, note)))))
      ensures ok ==> s.notes == old(s.notes)[note := Pending]
      ensures ok ==> s.outbox.events == old(s.outbox.events)[event := O.Event(note, O.Pending, 0, false, 0, 0)]
      ensures ok ==> s.mail == old(s.mail) && s.outbox.holds == old(s.outbox.holds)
      ensures !ok ==> s == old(s)
    {
      ok := committed && note !in s.notes && Enabled(l, s, Out(O.Create(event, note)));
      if ok {
        Do(Out(O.Create(event, note)));
      }
    }

    /**
      One transaction that marks pending events as processing, as many as there are up to `limit`,
      leaving out those that are locked.
    */
    method ClaimPendingBatch(me: nat, limit: nat, env: ClaimEnv) returns (events: seq<nat>)
      requires Valid() && forall e :: (me, e) !in s.outbox.holds
      modifies this
      ensures Valid() && |events| == if env.begun && env.answered then Min(limit, |old(Free(s.outbox, env))|) else 0
      ensures forall i, j :: 0 <= i < j < |events| ==> events[i] != events[j]
      ensures forall e :: (me, e) in s.outbox.holds <==> e in events
      ensures forall e :: e in events ==>
                && e in old(s.outbox.events) && old(s.outbox.events[e]).status == O.Pending && env.unlocked(e)
                && e in old(Free(s.outbox, env)) && O.Holds(s.outbox, me, e, O.Claimed)
                && s.outbox.events[e] == old(s.outbox.events[e]).(status := O.Processing)
      ensures env.begun && env.answered && |events| < limit ==> TakesAll(old(s.outbox), events, env)
      ensures env.answered ==> forall e :: e in old(s.outbox.events) && e !in events ==>
                e in s.outbox.events && s.outbox.events[e] == old(s.outbox.events[e])
      ensures s.notes == old(s.notes) && s.mail == old(s.mail) && TriesSame(old(s.outbox), s.outbox)
    {
      events := [];
      if !env.begun {
        return;
      }
      PendingIsClaimable();
      ghost var rest;
      events, rest := ClaimRows(me, limit, env);
    }

    /** ClaimPendingBatch once its transaction has begun. */
    method ClaimRows(me: nat, limit: nat, env: ClaimEnv) returns (events: seq<nat>, ghost left: set<nat>)
      requires Valid() && forall e :: (me, e) !in s.outbox.holds
      modifies this
      ensures Valid() && |events| == if env.answered then Min(limit, |old(Free(s.outbox, env))|) else 0
      ensures Claiming(me, old(s.outbox), s.outbox, left, events)
      ensures forall e :: e in events ==> e in old(Free(s.outbox, env))
      ensures env.answered ==> Leaving(old(s.outbox), s.outbox, left, events, env) && (|events| < limit ==> left == {})
      ensures s.notes == old(s.notes) && s.mail == old(s.mail)
    {
      events := [];
      var rest := Free(s.outbox, env);
      var claimed: nat := 0;
      ghost var was := s.outbox;
      while rest != {} && claimed < limit
        invariant Valid() && claimed <= limit && |events| == if env.answered then claimed else 0
        invariant claimed + |rest| == |Free(was, env)| && rest <= Free(was, env)
        invariant Claiming(me, was, s.outbox, rest, events) && forall e :: e in events ==> e in Free(was, env)
        invariant env.answered ==> Leaving(was, s.outbox, rest, events, env)
        invariant s.notes == old(s.notes) && s.mail == old(s.mail)
        decreases rest
      {
        var e :| e in rest;
        ClaimingMore(l.outbox, me, was, s.outbox, rest, events, e, !env.answered);
        LeavingMore(l.outbox, me, was, s.outbox, rest, events, env, e);
        rest := rest - {e};
        Do(Out(O.Claim(me, e, !env.answered)));
        claimed := claimed + 1;
        if env.answered {
          events := events + [e];
        }
      }
      left := rest;
    }

    /**
      As many events as are pending, not locked and within the batch size are claimed; every one of
      them is tried once more and let go, and alone the worker leaves it as its calls went.
    */
    method ProcessBatch(me: nat, batchSize: nat, claim: ClaimEnv, env: nat -> PublishEnv) returns (claimed: seq<nat>)
      requires Valid() && forall e :: (me, e) !in s.outbox.holds
      modifies this
      ensures Valid() && forall e :: (me, e) !in s.outbox.holds
      ensures |claimed| == if claim.begun && claim.answered then Min(batchSize, |old(Free(s.outbox, claim))|) else 0
      ensures forall i, j :: 0 <= i < j < |claimed| ==> claimed[i] != claimed[j]
      ensures forall e :: e in claimed ==>
                && e in old(s.outbox.events) && old(s.outbox.events[e]).status == O.Pending && claim.unlocked(e)
                && Tries(s.outbox, e) > Tries(old(s.outbox), e)
      ensures claim.begun && claim.answered && |claimed| < batchSize ==> TakesAll(old(s.outbox), claimed, claim)
      ensures alone ==> forall e :: e in claimed && env(e).written ==>
                && e in s.outbox.events
                && s.outbox.events[e] == Tried(l.outbox, old(s.outbox.events[e]).(status := O.Processing), env(e))
      ensures alone && claim.answered ==> forall e :: e in old(s.outbox.events) && e !in claimed ==>
                e in s.outbox.events && s.outbox.events[e] == old(s.outbox.events[e])
    {
      claimed := ClaimPendingBatch(me, batchSize, claim);
      ghost var at := s.outbox;
      PublishAll(me, claimed, env);
      assert forall e :: e in claimed ==> at.events[e] == old(s.outbox.events[e]).(status := O.Processing);
    }

    /** ProcessBatch once it has claimed its events. */
    method PublishAll(me: nat, claimed: seq<nat>, env: nat -> PublishEnv)
      requires Valid() && Working(me, s.outbox, s.outbox, claimed, {})
      requires forall i, j :: 0 <= i < j < |claimed| ==> claimed[i] != claimed[j]
      modifies this
      ensures Valid() && forall e :: (me, e) !in s.outbox.holds
      ensures forall e :: e in claimed ==> Tries(s.outbox, e) > Tries(old(s.outbox), e)
      ensures alone ==> DoneAlone(l.outbox, old(s.outbox), s.outbox, (set e | e in claimed), env)
    {
      ghost var at := s.outbox;
      ghost var done: set<nat> := {};
      for i := 0 to |claimed|
        invariant Valid() && Working(me, at, s.outbox, claimed, done)
        invariant forall j :: 0 <= j < |claimed| ==> (claimed[j] in done <==> j < i)
        invariant done <= set e | e in claimed
        invariant alone ==> DoneAlone(l.outbox, at, s.outbox, done, env)
      {
        PublishNext(me, at, claimed, done, claimed[i], env);
        done := done + {claimed[i]};
      }
      assert done == set e | e in claimed;
    }

    /** One event of the batch. */
    method PublishNext(me: nat, ghost at: O.State, ghost claimed: seq<nat>, ghost done: set<nat>, e: nat,
                       env: nat -> PublishEnv)
      requires Valid() && Working(me, at, s.outbox, claimed, done) && e in claimed && e !in done
      requires alone ==> DoneAlone(l.outbox, at, s.outbox, done, env)
      modifies this
      ensures Valid() && Working(me, at, s.outbox, claimed, done + {e})
      ensures alone ==> DoneAlone(l.outbox, at, s.outbox, done + {e}, env)
    {
      ghost var was := s.outbox;
      PublishEvent(me, e, env(e));
      WorkingMore(me, at, was, s.outbox, claimed, done, e);
      if alone {
        DoneAloneMore(l.outbox, at, was, s.outbox, done, env, e);
      }
    }

    /** The broker takes the event's message, with no retries counted, or the publish fails. */
    method Publish(me: nat, e: nat, ok: bool)
      requires Valid() && O.Holds(s.outbox, me, e, O.Claimed)
      modifies this
      ensures Valid() && O.Holds(s.outbox, me, e, if ok then O.Sent else O.NotSent) && s.notes == old(s.notes)
      ensures s.outbox.holds[(me, e)].retryCount == old(s.outbox.holds[(me, e)].retryCount)
      ensures s.outbox.events == old(s.outbox.events)[e := Attempt(old(s.outbox.events[e]), ok)]
      ensures OthersHeld(me, e, old(s.outbox), s.outbox) && TriesKept(old(s.outbox), s.outbox)
      ensures ok ==> s.mail.main == old(s.mail.main) + multiset{Q.Task(old(s.outbox.events[e].note), 0)}
      ensures !ok ==> s.mail.main == old(s.mail.main)
      ensures s.mail.retry == old(s.mail.retry) && s.mail.dead == old(s.mail.dead) && s.mail.rows == old(s.mail.rows)
      ensures history == old(history) + [Out(if ok then O.PublishOk(me, e) else O.PublishErr(me, e))]
    {
      Do(Out(if ok then O.PublishOk(me, e) else O.PublishErr(me, e)));
    }

    /** UPDATE outbox_events SET status = 'published', published_at = now WHERE id = e */
    method MarkPublished(me: nat, e: nat, written: bool)
      requires Valid() && O.Holds(s.outbox, me, e, O.Sent)
      modifies this
      ensures Valid() && s.outbox.holds == old(s.outbox.holds) - {(me, e)} && old(history) <= history
      ensures var ev := old(s.outbox.events[e]);
              || s.outbox.events == old(s.outbox.events)[e := ev.(status := O.Published, publishedAt := true)]
              || (!written && s.outbox.events == old(s.outbox.events))
      ensures s.notes == old(s.notes) && s.mail == old(s.mail)
    {
      var lost: bool := *;
      lost := lost && !written;
      Do(Out(O.MarkPublished(me, e, lost)));
    }

    /** UPDATE outbox_events SET status = 'pending', retry_count = retry_count + 1 WHERE id = e */
    method IncrementRetry(me: nat, e: nat, written: bool)
      requires Valid() && O.Holds(s.outbox, me, e, O.NotSent) && s.outbox.holds[(me, e)].retryCount + 1 < l.outbox
      modifies this
      ensures Valid() && s.outbox.holds == old(s.outbox.holds) - {(me, e)} && old(history) <= history
      ensures var ev := old(s.outbox.events[e]);
              || s.outbox.events == old(s.outbox.events)[e := ev.(status := O.Pending, retryCount := ev.retryCount + 1)]
              || (!written && s.outbox.events == old(s.outbox.events))
      ensures s.notes == old(s.notes) && s.mail == old(s.mail)
    {
      var lost: bool := *;
      lost := lost && !written;
      Do(Out(O.IncrementRetry(me, e, lost)));
    }

    /** One transaction over the event and its notification: both fail, or nothing changes. */
    method MarkFailed(me: nat, e: nat, written: bool)
      requires Valid() && O.Holds(s.outbox, me, e, O.NotSent) && s.outbox.holds[(me, e)].retryCount + 1 >= l.outbox
      modifies this
      ensures Valid() && s.outbox.holds == old(s.outbox.holds) - {(me, e)} && old(history) <= history
      ensures var ev := old(s.outbox.events[e]);
              || (s.outbox.events == old(s.outbox.events)[e := ev.(status := O.Failed)]
                  && s.notes == old(s.notes)[ev.note := Failed])
              || (!written && s.outbox.events == old(s.outbox.events) && s.notes == old(s.notes))
      ensures s.mail == old(s.mail)
    {
      var lost: bool := *;
      lost := lost && !written;
      HasNote(e);
      Do(Out(O.MarkFailed(me, e, lost)));
    }

    lemma PendingIsClaimable()
      requires Valid()
      ensures forall e :: e in s.outbox.events && s.outbox.events[e].status == O.Pending ==> e in Claimable(s.outbox)
    {
      ValidInv();
    }

    lemma HasNote(e: nat)
      requires Valid() && e in s.outbox.events
      ensures s.outbox.events[e].note in s.notes
    {
      ValidInv();
    }

    lemma HeldCount(me: nat, e: nat)
      requires Valid() && (me, e) in s.outbox.holds
      ensures e in s.outbox.events && s.outbox.holds[(me, e)].retryCount == s.outbox.events[e].retryCount
    {
      ValidInv();
    }

    /**
      Exactly one more publish of the event is tried, and its outcome is recorded: published, failed
      once the retries are used up, or pending again.  If that write fails, it may not be.
    */
    method PublishEvent(me: nat, e: nat, env: PublishEnv)
      requires Valid() && O.Holds(s.outbox, me, e, O.Claimed)
      modifies this
      ensures Valid() && (me, e) !in s.outbox.holds && e in s.outbox.events
      ensures var tried := Attempt(old(s.outbox.events[e]), env.published);
        || s.outbox.events[e] == Recorded(l.outbox, tried, tried.retryCount, env.published)
        || (!env.written && s.outbox.events[e] == tried)
      ensures s.outbox.events[e].status == O.Failed ==>
                s.outbox.events[e].note in s.notes && s.notes[s.outbox.events[e].note] == Failed
      ensures OthersHeld(me, e, old(s.outbox), s.outbox) && TriesKept(old(s.outbox), s.outbox)
      ensures env.published ==> Did(history, |old(history)|, Out(O.PublishOk(me, e)))
      ensures alone ==> s.outbox.events == old(s.outbox.events)[e := s.outbox.events[e]]
      ensures alone && env.published ==>
                s.mail.main == old(s.mail.main) + multiset{Q.Task(old(s.outbox.events[e].note), 0)}
      ensures alone && !env.published ==> s.mail.main == old(s.mail.main)
    {
      Interfere(me);
      HeldCount(me, e);
      ghost var n := |history|;
      Publish(me, e, env.published);
      assert env.published ==> history[n] == Out(O.PublishOk(me, e));
      RecordOutcome(me, e, env);
      assert env.published ==> history[n] == Out(O.PublishOk(me, e));
      if s.outbox.events[e].status == O.Failed {
        FailedNote(e);
      }
    }

    /** PublishEvent once the broker has answered. */
    method RecordOutcome(me: nat, e: nat, env: PublishEnv)
      requires Valid() && O.Holds(s.outbox, me, e, if env.published then O.Sent else O.NotSent)
      modifies this
      ensures Valid() && (me, e) !in s.outbox.holds && e in s.outbox.events && old(history) <= history
      ensures var ev, n := old(s.outbox.events[e]), old(s.outbox.holds[(me, e)].retryCount);
        || s.outbox.events[e] == Recorded(l.outbox, ev, n, env.published)
        || (!env.written && s.outbox.events[e] == ev)
      ensures OthersHeld(me, e, old(s.outbox), s.outbox) && TriesKept(old(s.outbox), s.outbox)
      ensures alone ==> s.outbox.events == old(s.outbox.events)[e := s.outbox.events[e]] && s.mail == old(s.mail)
    {
      Interfere(me);
      ghost var was := s.outbox;
      if !env.published {
        if s.outbox.holds[(me, e)].retryCount + 1 >= l.outbox {
          MarkFailed(me, e, env.written);
        } else {
          IncrementRetry(me, e, env.written);
        }
      } else {
        MarkPublished(me, e, env.written);
      }
      assert forall d :: Tries(was, d) <= Tries(s.outbox, d);
    }

    /** UPDATE notifications SET status = w.status WHERE id = w.note; after an error it may have been written or not. */
    method UpdateDeliveryStatus(w: Write, ok: bool)
      requires Valid() && w in s.writes
      modifies this
      ensures Valid() && old(history) <= history
      ensures w.note in old(s.notes) ==>
                s == old(s).(notes := old(s.notes)[w.note := w.status]) || (!ok && s == old(s))
      ensures w.note !in old(s.notes) ==> s == old(s)
    {
      var written: bool := *;
      if ok || written {
        Do(Update(w));
      }
    }

    /** The breaker has had this one call more, and `r` is what it came to. */
    ghost predicate SentThrough(before: seq<B.Call>, c: B.Call, r: Q.SendResult)
      reads breaker
    {
      && breaker.calls == before + [c] && |breaker.results| == |breaker.calls|
      && Sends(breaker.results[|before|], r)
    }

    /** The mail goes to the server through the breaker, if it has a recipient. */
    method SendEmail(recipient: string, c: B.Call) returns (r: Q.SendResult)
      requires breaker.Valid() && breaker.Next(c)
      modifies breaker
      ensures breaker.Valid()
      ensures recipient == "" ==> r == Q.SendFailed(false) && breaker.calls == old(breaker.calls)
      ensures recipient != "" ==> SentThrough(old(breaker.calls), c, r)
    {
      if recipient == "" {
        return Q.SendFailed(false);
      }
      var result := breaker.Execute(c);
      match result {
        case Refused => r := Q.BreakerOpen;
        case Idle => r := Q.Sent(false);
        case RanOk => r := Q.Sent(true);
        case RanFailed =>
          var mailed: bool := *;
          r := Q.SendFailed(mailed);
      }
    }

    /** What the email handler decides, by what became of the mail. */
    method HandleMessage(m: Q.Message, recipient: string, c: B.Call, republished: bool)
      returns (r: Q.SendResult, verdict: Q.Verdict, status: Option<NoteStatus>)
      requires breaker.Valid() && breaker.Next(c)
      modifies breaker
      ensures breaker.Valid()
      ensures m.Malformed? || recipient == "" ==> breaker.calls == old(breaker.calls)
      ensures m.Task? && recipient == "" ==> r == Q.SendFailed(false)
      ensures m.Task? && recipient != "" ==> SentThrough(old(breaker.calls), c, r)
      ensures m.Malformed? ==> verdict == Q.Reject && status == None
      ensures m.Task? && r.Sent? ==> verdict == Q.Ack && status == Some(Delivering)
      ensures m.Task? && r.BreakerOpen? ==> verdict == Q.Requeue && status == None
      ensures m.Task? && r.SendFailed? && m.retryCount < l.email ==>
                verdict == (if republished then Q.Ack else Q.Requeue) && status == None
      ensures m.Task? && r.SendFailed? && m.retryCount >= l.email ==> verdict == Q.Reject && status == Some(Failed)
    {
      if m.Malformed? {
        return Q.SendFailed(false), Q.Reject, None;
      }
      r := SendEmail(recipient, c);
      if r == Q.BreakerOpen {
        return r, Q.Requeue, None;
      }
      if r.SendFailed? {
        if m.retryCount < l.email {
          return r, if republished then Q.Ack else Q.Requeue, None;
        }
        return r, Q.Reject, Some(Failed);
      }
      return r, Q.Ack, Some(Delivering);
    }

    /** Where the queues have the message after its delivery. */
    ghost predicate Moved(m: Q.Message, r: Q.SendResult, env: DeliveryEnv, before: Q.State, after: Q.State) {
      var retried := m.Task? && r.SendFailed? && m.retryCount < l.email;
      && (m.Task? && r.BreakerOpen? ==> after.main == before.main && after.done == before.done)
      && (m.Task? && r.Sent? && env.acked ==> after.main == before.main - multiset{m} && after.done == before.done + 1)
      && (retried && env.republished && env.acked ==>
            after.main == before.main - multiset{m} && after.done == before.done)
      && (retried && !env.republished ==> after.main == before.main && after.done == before.done)
      && ((m.Malformed? || (r.SendFailed? && !retried)) && env.acked ==>
            && after.main == before.main - multiset{m} && after.dead == before.dead + multiset{m}
            && after.done == before.done)
      && (m.Task? && (!r.SendFailed? || retried) ==> after.dead == before.dead)
      && after.retry == before.retry
         + (if retried && env.republished then multiset{Q.Task(m.note, m.retryCount + 1)} else multiset{})
      && (!env.acked ==> after.main == before.main && after.dead == before.dead && after.done == before.done)
      && after.rows == before.rows && after.replays == before.replays && after.entered == before.entered
    }

    /** The status a delivery gives to the notification. */
    predicate Noted(m: Q.Message, r: Q.SendResult, updated: bool, before: map<nat, NoteStatus>,
                    after: map<nat, NoteStatus>)
    {
      if m.Task? && m.note in before && (r.Sent? || (r.SendFailed? && m.retryCount >= l.email)) then
        after == before[m.note := if r.Sent? then Delivering else Failed] || (!updated && after == before)
      else after == before
    }

    /**
      The broker delivers a message and acts on the handler's verdict, unless the consumer crashes
      first.  An acknowledged delivery neither loses nor duplicates the message.
    */
    method HandleDelivery(m: Q.Message, recipient: string, c: B.Call, env: DeliveryEnv) returns (r: Q.SendResult)
      requires Valid() && m in s.mail.main && breaker.Valid() && breaker.Next(c)
      modifies this, breaker
      ensures Valid() && breaker.Valid()
      ensures m.Task? && recipient == "" ==> r == Q.SendFailed(false)
      ensures m.Task? && recipient != "" ==> SentThrough(old(breaker.calls), c, r)
      ensures Moved(m, r, env, old(s.mail), s.mail)
      ensures Noted(m, r, env.updated, old(s.notes), s.notes)
      ensures m.Task? && !r.BreakerOpen? && r.mailed ==> m.note in s.mail.mailed
      ensures env.acked ==> Q.Count(s.mail) == old(Q.Count(s.mail))
      ensures s.outbox == old(s.outbox)
    {
      var verdict, status;
      r, verdict, status := HandleMessage(m, recipient, c, env.republished);
      Settle(m, r, env);
      if status.Some? {
        UpdateDeliveryStatus(Write(m.note, status.value), env.updated);
      }
    }

    /** The broker's side of a delivery. */
    method Settle(m: Q.Message, r: Q.SendResult, env: DeliveryEnv)
      requires Valid() && m in s.mail.main
      modifies this
      ensures Valid() && s.outbox == old(s.outbox) && s.notes == old(s.notes)
      ensures Moved(m, r, env, old(s.mail), s.mail)
      ensures m.Task? && !r.BreakerOpen? && r.mailed ==> m.note in s.mail.mailed
      ensures env.acked ==> Q.Count(s.mail) == old(Q.Count(s.mail))
      ensures m.Task? && r.Sent? ==> Write(m.note, Delivering) in s.writes
      ensures m.Task? && r.SendFailed? && m.retryCount >= l.email ==> Write(m.note, Failed) in s.writes
    {
      var a := Q.Deliver(m, r, env.republished, env.acked);
      Q.DeliverCount(l.email, s.mail, a);
      Do(Mail(a));
    }

    /** From the dead-letter queue to the table; without a row there is no acknowledgement. */
    method SaveToDLQ(m: Q.Message, row: nat, written: bool, acked: bool) returns (saved: bool)
      requires Valid() && m in s.mail.dead
      modifies this
      ensures Valid() && saved == (written && row !in old(s.mail.rows))
      ensures saved ==> s.mail.rows == old(s.mail.rows)[row := Q.Row(m, false)]
      ensures saved ==> s.mail.dead == if acked then old(s.mail.dead) - multiset{m} else old(s.mail.dead)
      ensures s.mail.main == old(s.mail.main) && s.mail.retry == old(s.mail.retry)
      ensures !saved ==> s == old(s)
      ensures acked ==> Q.Count(s.mail) == old(Q.Count(s.mail))
      ensures Q.Count(s.mail) >= old(Q.Count(s.mail))
    {
      saved := written && row !in s.mail.rows;
      if saved {
        ValidInv();
        Q.ArchiveCount(l.email, s.mail, Q.Archive(m, row, acked));
        Do(Mail(Q.Archive(m, row, acked)));
      }
    }

    /** The row can be replayed: it has not been, and its payload parses. */
    predicate Replayable(s: Q.State, row: nat) {
      row in s.rows && !s.rows[row].replayed && s.rows[row].msg.Task?
    }

    /**
      Success means that this request has read the pending row, put its message back into the queue
      with no retries counted, and marked the row; alone it does so whenever its calls succeed.
    */
    method ReplayDLQMessage(me: nat, row: nat, env: ReplayEnv) returns (ok: bool)
      requires Valid() && me !in s.mail.replays
      modifies this
      ensures Valid() && me !in s.mail.replays && old(history) <= history
      ensures ok == (env.read && old(Replayable(s.mail, row)) && env.published && env.marked)
      ensures ok ==> row in s.mail.rows && s.mail.rows[row].replayed
      ensures ok ==> Did(history, |old(history)|, Mail(Q.ReplayRead(me, row)))
      ensures ok ==> Did(history, |old(history)|, Mail(Q.ReplayPublish(me)))
      ensures ok ==> Did(history, |old(history)|, Mail(Q.ReplayMark(me)))
      ensures alone && env.read && old(Replayable(s.mail, row)) && env.published ==>
                s.mail.main == old(s.mail.main) + multiset{Q.Task(old(s.mail.rows[row].msg.note), 0)}
      ensures alone && !(env.read && old(Replayable(s.mail, row)) && env.published) ==> s.mail.main == old(s.mail.main)
      ensures alone && ok ==> s.mail.rows == old(s.mail.rows)[row := old(s.mail.rows[row]).(replayed := true)]
      ensures alone && !ok ==> s.mail.rows == old(s.mail.rows) && s.notes == old(s.notes)
      ensures alone && ok && env.updated && old(s.mail.rows[row].msg.note) in old(s.notes) ==>
                s.notes == old(s.notes)[old(s.mail.rows[row].msg.note) := NoteStatus.Pending]
    {
      if !env.read || !Replayable(s.mail, row) {
        return false;
      }
      Do(Mail(Q.ReplayRead(me, row)));
      assert history[|old(history)|] == Mail(Q.ReplayRead(me, row));
      ok := Republish(me, row, env);
    }

    /** ReplayDLQMessage once it has read the row. */
    method Republish(me: nat, row: nat, env: ReplayEnv) returns (ok: bool)
      requires Valid() && me in s.mail.replays && s.mail.replays[me] == Q.Replay(row, false)
      requires row in s.mail.rows && s.mail.rows[row].msg.Task?
      modifies this
      ensures Valid() && me !in s.mail.replays && old(history) <= history && row in s.mail.rows
      ensures ok == (env.published && env.marked)
      ensures ok ==> s.mail.rows[row].replayed
      ensures ok ==> Did(history, |old(history)|, Mail(Q.ReplayPublish(me)))
      ensures ok ==> Did(history, |old(history)|, Mail(Q.ReplayMark(me)))
      ensures alone && env.published ==>
                s.mail.main == old(s.mail.main) + multiset{Q.Task(old(s.mail.rows[row].msg.note), 0)}
      ensures alone && !env.published ==> s.mail.main == old(s.mail.main)
      ensures alone ==> RowMarked(row, ok, env.updated, old(s), s)
    {
      Interfere(me);
      if !env.published {
        Do(Mail(Q.ReplayDrop(me)));
        return false;
      }
      ghost var n := |history|;
      Do(Mail(Q.ReplayPublish(me)));
      assert history[n] == Mail(Q.ReplayPublish(me));
      ok := MarkReplayed(me, row, env);
      assert history[n] == Mail(Q.ReplayPublish(me));
    }

    /** What marking does to the row and its notification. */
    predicate RowMarked(row: nat, ok: bool, updated: bool, before: State, after: State) {
      if ok then
        && row in before.mail.rows && before.mail.rows[row].msg.Task?
        && after.mail.rows == before.mail.rows[row := before.mail.rows[row].(replayed := true)]
        && (updated && before.mail.rows[row].msg.note in before.notes ==>
              after.notes == before.notes[before.mail.rows[row].msg.note := NoteStatus.Pending])
      else after.mail.rows == before.mail.rows && after.notes == before.notes
    }

    /** ReplayDLQMessage once the message is back in the queue. */
    method MarkReplayed(me: nat, row: nat, env: ReplayEnv) returns (ok: bool)
      requires Valid() && me in s.mail.replays && s.mail.replays[me] == Q.Replay(row, true)
      requires row in s.mail.rows && s.mail.rows[row].msg.Task?
      modifies this
      ensures Valid() && me !in s.mail.replays && old(history) <= history && row in s.mail.rows
      ensures ok == env.marked
      ensures ok ==> s.mail.rows[row].replayed && Did(history, |old(history)|, Mail(Q.ReplayMark(me)))
      ensures alone ==> s.mail.main == old(s.mail.main) && RowMarked(row, ok, env.updated, old(s), s)
    {
      Interfere(me);
      ok := env.marked;
      if !ok {
        Do(Mail(Q.ReplayDrop(me)));
        return;
      }
      ghost var n := |history|;
      Do(Mail(Q.ReplayMark(me)));
      UpdateDeliveryStatus(Write(s.mail.rows[row].msg.note, NoteStatus.Pending), env.updated);
      assert history[n] == Mail(Q.ReplayMark(me));
    }

    /** The webhook reports a mail: its headers are looked up, and only those of a mail that was sent can be found. */
    method HandleMailpitWebhook(note: nat, fetched: bool, updated: bool) returns (ok: bool)
      requires Valid()
      modifies this
      ensures Valid() && ok == (fetched && updated && note in old(s.mail.mailed))
      ensures s.outbox == old(s.outbox) && s.mail == old(s.mail)
      ensures ok && note in old(s.notes) ==> s.notes == old(s.notes)[note := Sent]
      ensures !(fetched && note in old(s.mail.mailed) && note in old(s.notes)) ==> s.notes == old(s.notes)
    {
      ok := false;
      if fetched && note in s.mail.mailed {
        Do(Webhook(note));
        UpdateDeliveryStatus(Write(note, Sent), updated);
        ok := updated;
      }
    }
  }
}
