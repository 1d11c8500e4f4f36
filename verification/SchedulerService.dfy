/**
  One run of the scheduler over its table.  Each schedule stands with everything sent for it, and
  goes through an event of Scheduler.dfy.
*/
module SchedulerService {
  import opened Wrappers
  import opened Scheduler

  /** What the calls of a run answer: the query, and both writes of a schedule. */
  datatype RunEnv = RunEnv(queryOk: bool, create: nat -> bool, record: nat -> bool)

  /** The run as the schedule `id` sees it. */
  function RunOf(env: RunEnv, found: string -> bool, id: nat, s: State, dbNow: int, now: int): Event {
    Run(dbNow, now, env.queryOk && found(s.schedule.event) && env.create(id), env.record(id))
  }

  /** The schedule is enabled and was not sent in the last 20 hours. */
  predicate Awaits(s: Schedule, dbNow: int) {
    s.enabled && (s.last.Some? ==> dbNow - s.last.value > 72_000_000_000)
  }

  /** By the local clock the send time has come, and the last send was not on the same day. */
  predicate TimeHasCome(s: Schedule, now: int) {
    match ParseSendTime(s.sendTime)
    case None => false
    case Some((h, m)) =>
      && (now + s.offset) % 86_400_000_000 >= h * 3_600_000_000 + m * 60_000_000
      && (s.last.Some? ==> (s.last.value + s.offset) / 86_400_000_000 != (now + s.offset) / 86_400_000_000)
  }

  /** One more send, noted in the row if that write succeeds. */
  predicate SentOnce(s: State, t: State, now: int, recorded: bool) {
    && t.sends == s.sends + [Send(now, s.schedule.offset, s.schedule.sendTime, recorded)]
    && t.schedule == if recorded then s.schedule.(last := Some(now)) else s.schedule
  }

  /** What a run leaves of a schedule: sent once if it awaits that and all calls succeed, and as it was otherwise. */
  predicate SentOrLeft(env: RunEnv, found: string -> bool, id: nat, s: State, t: State, dbNow: int, now: int) {
    if env.queryOk && Awaits(s.schedule, dbNow) && found(s.schedule.event) && TimeHasCome(s.schedule, now)
       && env.create(id) then SentOnce(s, t, now, env.record(id))
    else t.sends == s.sends && t.schedule == s.schedule
  }

  lemma CandidatesAwait(dbNow: int)
    ensures forall s: Schedule :: Candidate(s, dbNow) <==> Awaits(s, dbNow)
  {
  }

  lemma RunLeaves(env: RunEnv, found: string -> bool, id: nat, s: State, dbNow: int, now: int)
    requires !env.queryOk || !Candidate(s.schedule, dbNow)
    ensures Apply(s, RunOf(env, found, id, s, dbNow, now)) == s.(clock := now)
  {
  }

  lemma RunSends(env: RunEnv, found: string -> bool, id: nat, s: State, dbNow: int, now: int)
    ensures SentOrLeft(env, found, id, s, Apply(s, RunOf(env, found, id, s, dbNow, now)), dbNow, now)
  {
    if ParseSendTime(s.schedule.sendTime).Some? {
      TimeOfDay(s.schedule.offset, now, ParseSendTime(s.schedule.sendTime).value);
    }
  }

  /** The template repository, with the look-ups made of it. */
  class TemplateRepository {
    const found: string -> bool
    var queries: seq<string>

    constructor (found: string -> bool)
      ensures this.found == found && queries == []
    {
      this.found, queries := found, [];
    }

    method GetByEventType(event: string) returns (ok: bool)
      modifies this
      ensures ok == found(event) && queries == old(queries) + [event]
    {
      ok, queries := found(event), queries + [event];
    }
  }

  /** The look-ups are those of the event types, each exactly once. */
  ghost predicate OnceEach(queries: seq<string>, events: seq<string>) {
    && (forall i, j :: 0 <= i < j < |queries| ==> queries[i] != queries[j])
    && (forall event :: event in queries <==> event in events)
  }

  lemma OnceMore(queries: seq<string>, events: seq<string>, i: nat)
    requires i < |events| && OnceEach(queries, events[..i])
    ensures OnceEach(if events[i] in queries then queries else queries + [events[i]], events[..i + 1])
  {
    assert events[..i + 1] == events[..i] + [events[i]];
  }

  class SchedulerService {
    const templates: TemplateRepository
    var table: map<nat, State>

    constructor (rows: map<nat, Schedule>, clock: int, templates: TemplateRepository)
      ensures this.templates == templates && table.Keys == rows.Keys && forall id :: id in rows ==>
                table[id] == State(rows[id], [], clock)
    {
      this.templates := templates;
      table := map id | id in rows :: State(rows[id], [], clock);
    }

    /** The schedule after the run. */
    function After(env: RunEnv, id: nat, s: State, dbNow: int, now: int): State {
      Apply(s, RunOf(env, templates.found, id, s, dbNow, now))
    }

    method FindDueCandidates(dbNow: int, env: RunEnv) returns (ok: bool, ids: seq<nat>)
      ensures ok == env.queryOk
      ensures ok ==> forall id :: id in ids <==> id in table && Awaits(table[id].schedule, dbNow)
      ensures ok ==> forall i, j :: 0 <= i < j < |ids| ==> ids[i] != ids[j]
    {
      ok, ids := env.queryOk, [];
      var rest := table.Keys;
      while rest != {}
        invariant rest <= table.Keys
        invariant forall id :: id in ids <==> id in table && id !in rest && Candidate(table[id].schedule, dbNow)
        invariant forall i, j :: 0 <= i < j < |ids| ==> ids[i] != ids[j]
        decreases rest
      {
        var id :| id in rest;
        if Candidate(table[id].schedule, dbNow) {
          ids := ids + [id];
        }
        rest := rest - {id};
      }
    }

    /** The event types of the schedules. */
    function EventTypes(ids: seq<nat>): (events: seq<string>)
      reads this
      requires forall i :: 0 <= i < |ids| ==> ids[i] in table
      ensures |events| == |ids| && forall i :: 0 <= i < |ids| ==> events[i] == table[ids[i]].schedule.event
    {
      var rows := table;
      seq(|ids|, i requires 0 <= i < |ids| && ids[i] in rows => rows[ids[i]].schedule.event)
    }

    /** The templates of the candidates: one look-up for each of their event types, and no other. */
    method FetchTemplates(ids: seq<nat>) returns (cache: map<string, bool>)
      requires forall i :: 0 <= i < |ids| ==> ids[i] in table
      modifies templates
      ensures forall i :: 0 <= i < |ids| ==> table[ids[i]].schedule.event in cache
      ensures forall event :: event in cache ==> cache[event] == templates.found(event)
      ensures old(templates.queries) <= templates.queries
      ensures OnceEach(templates.queries[|old(templates.queries)|..], EventTypes(ids))
    {
      cache := map[];
      ghost var asked: seq<string> := [];
      ghost var events := EventTypes(ids);
      for i := 0 to |ids|
        invariant forall j :: 0 <= j < i ==> events[j] in cache
        invariant forall event :: event in cache ==> cache[event] == templates.found(event)
        invariant templates.queries == old(templates.queries) + asked
        invariant forall event :: event in asked <==> event in cache
        invariant OnceEach(asked, events[..i])
      {
        var event := table[ids[i]].schedule.event;
        OnceMore(asked, events, i);
        if event !in cache {
          var ok := templates.GetByEventType(event);
          cache := cache[event := ok];
          asked := asked + [event];
        }
      }
      assert events[..|ids|] == events;
    }

    /** One candidate: the notification is created, and its time recorded; either may fail. */
    method ProcessSchedule(id: nat, dbNow: int, now: int, found: bool, env: RunEnv)
      requires id in table && Candidate(table[id].schedule, dbNow)
      requires env.queryOk && found == templates.found(table[id].schedule.event)
      modifies this
      ensures table == old(table)[id := After(env, id, old(table[id]), dbNow, now)]
    {
      var s := table[id];
      if !IsDue(s.schedule, now) || !found || !env.create(id) {
        table := table[id := s.(clock := now)];
        return;
      }
      var send := Send(now, s.schedule.offset, s.schedule.sendTime, true);
      if env.record(id) {
        table := table[id := State(s.schedule.(last := Some(now)), s.sends + [send], now)];
      } else {
        table := table[id := State(s.schedule, s.sends + [send.(recorded := false)], now)];
      }
    }

    /** The candidates one after the other. */
    method ProcessCandidates(ids: seq<nat>, dbNow: int, now: int, cache: map<string, bool>, env: RunEnv)
      requires env.queryOk && forall event :: event in cache ==> cache[event] == templates.found(event)
      requires forall id :: id in ids ==>
                id in table && Candidate(table[id].schedule, dbNow) && table[id].schedule.event in cache
      requires forall i, j :: 0 <= i < j < |ids| ==> ids[i] != ids[j]
      modifies this
      ensures table.Keys == old(table.Keys)
      ensures forall id :: id in table ==>
        table[id] == if id in ids then After(env, id, old(table[id]), dbNow, now) else old(table[id])
    {
      ghost var was := table;
      ghost var done: set<nat> := {};
      for i := 0 to |ids|
        invariant table.Keys == was.Keys
        invariant forall j :: 0 <= j < |ids| ==> (ids[j] in done <==> j < i)
        invariant forall id :: id in done ==> id in ids
        invariant forall id :: id in table ==>
          table[id] == if id in done then After(env, id, was[id], dbNow, now) else was[id]
      {
        ProcessSchedule(ids[i], dbNow, now, cache[table[ids[i]].schedule.event], env);
        done := done + {ids[i]};
      }
    }

    /** A run once the query has found its candidates. */
    method ProcessFound(ids: seq<nat>, dbNow: int, now: int, env: RunEnv)
      requires env.queryOk && forall id :: id in ids ==> id in table && Candidate(table[id].schedule, dbNow)
      requires forall i, j :: 0 <= i < j < |ids| ==> ids[i] != ids[j]
      modifies this, templates
      ensures table.Keys == old(table.Keys)
      ensures forall id :: id in table ==>
        table[id] == if id in ids then After(env, id, old(table[id]), dbNow, now) else old(table[id])
    {
      var cache := FetchTemplates(ids);
      ProcessCandidates(ids, dbNow, now, cache, env);
    }

    /**
      Every schedule goes through one run, with the answers its own calls got: it is sent once, or it
      is left as it was.
    */
    method ProcessDueSchedules(dbNow: int, now: int, env: RunEnv) returns (ok: bool)
      requires dbNow <= now && forall id :: id in table ==> table[id].clock <= dbNow
      modifies this, templates
      ensures ok == env.queryOk && table.Keys == old(table.Keys)
      ensures forall id :: id in table ==>
                Enabled(old(table[id]), RunOf(env, templates.found, id, old(table[id]), dbNow, now))
      ensures forall id :: id in table ==>
                table[id] == After(env, id, old(table[id]), dbNow, now)
      ensures forall id :: id in table ==>
                SentOrLeft(env, templates.found, id, old(table[id]), table[id], dbNow, now)
    {
      ghost var was := table;
      var ids;
      ok, ids := FindDueCandidates(dbNow, env);
      if ok {
        CandidatesAwait(dbNow);
        ProcessFound(ids, dbNow, now, env);
      }
      table := map id | id in table :: table[id].(clock := now);
      forall id | id in table
        ensures table[id] == After(env, id, was[id], dbNow, now)
        ensures SentOrLeft(env, templates.found, id, was[id], table[id], dbNow, now)
      {
        RunSends(env, templates.found, id, was[id], dbNow, now);
        if !ok || id !in ids {
          CandidatesAwait(dbNow);
          RunLeaves(env, templates.found, id, was[id], dbNow, now);
        }
      }
    }
  }
}
