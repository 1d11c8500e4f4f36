/**
  The whole delivery path of one email notification: the notifications table, the outbox and its
  workers, the queues with their consumers and the dead-letter table, and the delivery webhook.
*/
module Delivery {
  import opened Wrappers
  import O = Outbox
  import Q = EmailQueue

  datatype NoteStatus = Pending | Delivering | Sent | Failed

  /** A status a handler, a replay or the webhook is about to write. */
  datatype Write = Write(note: nat, status: NoteStatus)

  /**
    `writes` are the status updates still to come (or never to come, when their process crashes),
    `foreign` counts the malformed messages that did not come from the outbox, and `handled` holds
    the notifications of the messages acknowledged without a retry.
  */
  datatype State = State(
    notes: map<nat, NoteStatus>, outbox: O.State, mail: Q.State,
    writes: set<Write>, foreign: nat, handled: set<nat>)

  datatype Limits = Limits(outbox: int, email: int)

  datatype Action = Out(o: O.Action) | Mail(q: Q.Action) | Webhook(note: nat) | Update(write: Write)

  predicate Enabled(l: Limits, s: State, a: Action) {
    match a
    case Out(o) => O.Enabled(l.outbox, s.outbox, o) && (o.Create? ==> o.note !in s.notes)
    case Mail(q) => Q.Enabled(s.mail, q) && (q.Enter? ==> q.msg.Malformed?)
    case Webhook(note) => note in s.mail.mailed
    case Update(write) => write in s.writes
  }

  /** UPDATE notifications SET status = ? WHERE id = ? */
  function SetStatus(notes: map<nat, NoteStatus>, w: Write): map<nat, NoteStatus> {
    if w.note in notes then notes[w.note := w.status] else notes
  }

  /** The status updates the email handler makes for its message. */
  function HandlerWrites(l: Limits, m: Q.Message, r: Q.SendResult): set<Write> {
    if m.Malformed? || r.BreakerOpen? then {}
    else if r.Sent? then {Write(m.note, Delivering)}
    else if m.retryCount < l.email then {}
    else {Write(m.note, Failed)}
  }

  /** The status update of a replay. */
  function ReplayWrites(m: Q.Message): set<Write> {
    if m.Task? then {Write(m.note, Pending)} else {}
  }

  /** The notification a delivery is done with. */
  function HandledBy(l: Limits, q: Q.Action): set<nat>
    requires q.Deliver?
  {
    var h := Q.Handle(l.email, q.msg, q.result, q.republished);
    if q.acked && q.msg.Task? && h == Q.Handled(Q.Ack, None) then {q.msg.note}
    else {}
  }

  function ApplyOut(l: Limits, s: State, o: O.Action): State
    requires Enabled(l, s, Out(o))
  {
    var t := s.(outbox := O.Apply(l.outbox, s.outbox, o));
    match o
    case Create(e, note) => t.(notes := s.notes[note := Pending])
    case PublishOk(w, e) => t.(mail := Q.Apply(l.email, s.mail, Q.Enter(Q.Task(s.outbox.events[e].note, 0))))
    case MarkFailed(w, e, lost) =>
      if lost then t else t.(notes := SetStatus(s.notes, Write(s.outbox.events[e].note, Failed)))
    case _ => t
  }

  function ApplyMail(l: Limits, s: State, q: Q.Action): State
    requires Enabled(l, s, Mail(q))
  {
    var t := s.(mail := Q.Apply(l.email, s.mail, q));
    match q
    case Enter(_) => t.(foreign := s.foreign + 1)
    case Deliver(m, r, _, _) =>
      t.(writes := s.writes + HandlerWrites(l, m, r), handled := s.handled + HandledBy(l, q))
    case ReplayMark(req) => t.(writes := s.writes + ReplayWrites(s.mail.rows[s.mail.replays[req].row].msg))
    case _ => t
  }

  function Apply(l: Limits, s: State, a: Action): State
    requires Enabled(l, s, a)
  {
    match a
    case Out(o) => ApplyOut(l, s, o)
    case Mail(q) => ApplyMail(l, s, q)
    case Webhook(note) => s.(writes := s.writes + {Write(note, Sent)})
    case Update(write) => s.(notes := SetStatus(s.notes, write))
  }

  predicate IsFor(m: Q.Message, note: nat) { m.Task? && m.note == note }

  /** There is a message for the notification in a queue or in the dead-letter table. */
  ghost predicate InTransit(s: Q.State, note: nat) {
    || (exists m :: m in s.main && IsFor(m, note))
    || (exists m :: m in s.retry && IsFor(m, note))
    || (exists m :: m in s.dead && IsFor(m, note))
    || (exists r :: r in s.rows && IsFor(s.rows[r].msg, note))
  }

  /** There is a message for the notification, a mail sent for it, or an update of it to come. */
  ghost predicate Present(s: State, note: nat) {
    InTransit(s.mail, note) || note in s.mail.mailed || exists w :: w in s.writes && w.note == note
  }

  /** An event of this notification has been published. */
  predicate Backed(s: State, note: nat) {
    exists e :: e in s.outbox.events && s.outbox.events[e].note == note && s.outbox.events[e].successes == 1
  }

  /** What is there for a notification goes back to a published event. */
  ghost predicate AllBacked(s: State) {
    forall note :: Present(s, note) ==> Backed(s, note)
  }

  /** What has been published is still there, or was handled. */
  ghost predicate NoneLost(s: State) {
    forall e {:trigger s.outbox.events[e]} :: e in s.outbox.events && s.outbox.events[e].successes == 1 ==>
      InTransit(s.mail, s.outbox.events[e].note) || s.outbox.events[e].note in s.handled
  }

  predicate HasEvent(s: State, note: nat) {
    exists e :: e in s.outbox.events && s.outbox.events[e].note == note
  }

  /** Every event has its notification, a failed event a failed one, and every notification an event. */
  ghost predicate Agree(s: State) {
    && (forall e {:trigger s.outbox.events[e]} :: e in s.outbox.events ==>
          && s.outbox.events[e].note in s.notes
          && (s.outbox.events[e].status == O.Failed ==> s.notes[s.outbox.events[e].note] == Failed))
    && (forall n :: n in s.notes ==> HasEvent(s, n))
  }

  function Published(s: State): set<nat> {
    set e | e in s.outbox.events && s.outbox.events[e].successes == 1
  }

  ghost predicate Inv(l: Limits, s: State) {
    && O.Inv(l.outbox, s.outbox) && Q.ReplaysOk(s.mail) && Q.CountsOk(l.email, s.mail)
    && AllBacked(s) && Agree(s) && NoneLost(s)
    && s.mail.entered == |Published(s)| + s.foreign && Q.Count(s.mail) >= s.mail.entered
  }

  /** A failed event was never published. */
  lemma BackedNotFailed(l: Limits, s: State, note: nat, e: nat)
    requires O.Inv(l.outbox, s.outbox) && Backed(s, note)
    requires e in s.outbox.events && s.outbox.events[e].note == note
    ensures s.outbox.events[e].status != O.Failed
  {
    var d :| d in s.outbox.events && s.outbox.events[d].note == note && s.outbox.events[d].successes == 1;
    assert d == e;
  }

  lemma BackedStays(l: Limits, s: State, a: Action, note: nat)
    requires O.Inv(l.outbox, s.outbox) && Enabled(l, s, a) && Backed(s, note)
    ensures Backed(Apply(l, s, a), note)
  {
    var e :| e in s.outbox.events && s.outbox.events[e].note == note && s.outbox.events[e].successes == 1;
    if a.Out? {
      O.StepMonotone(l.outbox, s.outbox, a.o, e);
      O.StepInv(l.outbox, s.outbox, a.o);
    }
    assert Apply(l, s, a).outbox.events[e].successes == 1;
  }

  lemma NewInMain(maxRetries: int, s: Q.State, q: Q.Action, m: Q.Message, note: nat)
    requires Q.ReplaysOk(s) && Q.Enabled(s, q) && m in Q.Apply(maxRetries, s, q).main && IsFor(m, note)
    ensures InTransit(s, note) || (q.Enter? && IsFor(q.msg, note))
  {
    if m !in s.main && q.ReplayPublish? {
      assert IsFor(s.rows[s.replays[q.req].row].msg, note);
    }
  }

  /** A retry is for the notification of its message. */
  lemma RetriedFor(maxRetries: int, m: Q.Message, r: Q.SendResult, republished: bool)
    ensures var h := Q.Handle(maxRetries, m, r, republished);
            h.retried.Some? ==> m.Task? && IsFor(h.retried.value, m.note)
  {
  }

  lemma OnlyDeliverRetries(maxRetries: int, s: Q.State, q: Q.Action, m: Q.Message)
    requires Q.Enabled(s, q) && m in Q.Apply(maxRetries, s, q).retry && m !in s.retry
    ensures q.Deliver? && Q.Handle(maxRetries, q.msg, q.result, q.republished).retried == Some(m)
  {
  }

  lemma NewInRetry(maxRetries: int, s: Q.State, q: Q.Action, m: Q.Message, note: nat)
    requires Q.Enabled(s, q) && m in Q.Apply(maxRetries, s, q).retry && IsFor(m, note)
    ensures InTransit(s, note)
  {
    if m !in s.retry {
      OnlyDeliverRetries(maxRetries, s, q, m);
      RetriedFor(maxRetries, q.msg, q.result, q.republished);
      assert q.msg in s.main && IsFor(q.msg, note);
    }
  }

  lemma NewInDead(maxRetries: int, s: Q.State, q: Q.Action, m: Q.Message, note: nat)
    requires Q.Enabled(s, q) && m in Q.Apply(maxRetries, s, q).dead && IsFor(m, note)
    ensures InTransit(s, note)
  {
    if m !in s.dead {
      assert q.Deliver? && q.msg == m;
    }
  }

  lemma NewInRows(maxRetries: int, s: Q.State, q: Q.Action, r: nat, note: nat)
    requires Q.ReplaysOk(s) && Q.Enabled(s, q) && r in Q.Apply(maxRetries, s, q).rows
    requires IsFor(Q.Apply(maxRetries, s, q).rows[r].msg, note)
    ensures InTransit(s, note)
  {
    if q.Archive? && r == q.row {
      assert q.msg in s.dead;
    } else {
      assert r in s.rows && IsFor(s.rows[r].msg, note);
    }
  }

  /** Nothing but a publish brings up something new for a notification. */
  lemma NewInTransit(maxRetries: int, s: Q.State, q: Q.Action, note: nat)
    requires Q.ReplaysOk(s) && Q.Enabled(s, q) && InTransit(Q.Apply(maxRetries, s, q), note)
    ensures InTransit(s, note) || (q.Enter? && IsFor(q.msg, note))
  {
    var t := Q.Apply(maxRetries, s, q);
    if m :| m in t.main && IsFor(m, note) {
      NewInMain(maxRetries, s, q, m, note);
    } else if m :| m in t.retry && IsFor(m, note) {
      NewInRetry(maxRetries, s, q, m, note);
    } else if m :| m in t.dead && IsFor(m, note) {
      NewInDead(maxRetries, s, q, m, note);
    } else {
      var r :| r in t.rows && IsFor(t.rows[r].msg, note);
      NewInRows(maxRetries, s, q, r, note);
    }
  }

  /** A mail is sent only for a message that is there. */
  lemma NewMailed(maxRetries: int, s: Q.State, q: Q.Action, note: nat)
    requires Q.Enabled(s, q) && note in Q.Apply(maxRetries, s, q).mailed && note !in s.mailed
    ensures InTransit(s, note)
  {
    if q.Deliver? {
      assert q.msg in s.main && IsFor(q.msg, note);
    }
  }

  /** A handler or a replay updates only what it has a message for. */
  lemma NewWrite(l: Limits, s: State, q: Q.Action, w: Write)
    requires Q.ReplaysOk(s.mail) && Enabled(l, s, Mail(q)) && w in ApplyMail(l, s, q).writes
    ensures Present(s, w.note)
  {
    if w !in s.writes {
      if q.Deliver? {
        assert q.msg in s.mail.main && IsFor(q.msg, w.note);
      } else {
        var row := s.mail.replays[q.req].row;
        assert row in s.mail.rows && IsFor(s.mail.rows[row].msg, w.note);
      }
    }
  }

  lemma NewPresent(l: Limits, s: State, a: Action, note: nat)
    requires Q.ReplaysOk(s.mail) && Enabled(l, s, a) && Present(Apply(l, s, a), note)
    ensures Present(s, note) || (a.Out? && a.o.PublishOk? && s.outbox.events[a.o.event].note == note)
  {
    var t := Apply(l, s, a);
    if a.Mail? {
      if InTransit(t.mail, note) {
        NewInTransit(l.email, s.mail, a.q, note);
      } else if note in t.mail.mailed {
        if note !in s.mail.mailed {
          NewMailed(l.email, s.mail, a.q, note);
        }
      } else {
        var w :| w in t.writes && w.note == note;
        NewWrite(l, s, a.q, w);
      }
    } else if a.Out? && a.o.PublishOk? && InTransit(t.mail, note) {
      NewInTransit(l.email, s.mail, Q.Enter(Q.Task(s.outbox.events[a.o.event].note, 0)), note);
    }
  }

  lemma DeliverKeepsOthers(maxRetries: int, s: Q.State, q: Q.Action, m: Q.Message)
    requires Q.Enabled(s, q) && q.Deliver? && q.msg != m
    ensures m in s.main ==> m in Q.Apply(maxRetries, s, q).main
    ensures m in s.retry ==> m in Q.Apply(maxRetries, s, q).retry
  {
  }

  lemma StaysInQueue(maxRetries: int, s: Q.State, q: Q.Action, m: Q.Message)
    requires Q.ReplaysOk(s) && Q.Enabled(s, q) && !(q.Deliver? && q.msg == m) && (m in s.main || m in s.retry)
    ensures m in Q.Apply(maxRetries, s, q).main || m in Q.Apply(maxRetries, s, q).retry
  {
    match q {
      case Deliver(_, _, _, _) => DeliverKeepsOthers(maxRetries, s, q, m);
      case Expire(_) =>
      case _ =>
    }
  }

  lemma StaysDead(maxRetries: int, s: Q.State, q: Q.Action, m: Q.Message, note: nat)
    requires Q.ReplaysOk(s) && Q.Enabled(s, q) && m in s.dead && IsFor(m, note)
    ensures InTransit(Q.Apply(maxRetries, s, q), note)
  {
    var t := Q.Apply(maxRetries, s, q);
    if q.Archive? && q.msg == m {
      assert q.row in t.rows && t.rows[q.row].msg == m;
    } else {
      assert m in t.dead;
    }
  }

  lemma StaysInRows(maxRetries: int, s: Q.State, q: Q.Action, r: nat)
    requires Q.ReplaysOk(s) && Q.Enabled(s, q) && r in s.rows
    ensures r in Q.Apply(maxRetries, s, q).rows && Q.Apply(maxRetries, s, q).rows[r].msg == s.rows[r].msg
  {
  }

  /** What is in transit stays there until it is delivered. */
  lemma StaysInTransit(maxRetries: int, s: Q.State, q: Q.Action, note: nat)
    requires Q.ReplaysOk(s) && Q.Enabled(s, q) && InTransit(s, note) && !(q.Deliver? && IsFor(q.msg, note))
    ensures InTransit(Q.Apply(maxRetries, s, q), note)
  {
    if r :| r in s.rows && IsFor(s.rows[r].msg, note) {
      StaysInRows(maxRetries, s, q, r);
    } else if m :| (m in s.main || m in s.retry) && IsFor(m, note) {
      StaysInQueue(maxRetries, s, q, m);
    } else {
      var m :| m in s.dead && IsFor(m, note);
      StaysDead(maxRetries, s, q, m, note);
    }
  }

  lemma DeliveredStays(l: Limits, s: State, q: Q.Action, note: nat)
    requires Enabled(l, s, Mail(q)) && q.Deliver? && IsFor(q.msg, note)
    ensures var t := ApplyMail(l, s, q); InTransit(t.mail, note) || note in t.handled
  {
    var t := ApplyMail(l, s, q);
    var h := Q.Handle(l.email, q.msg, q.result, q.republished);
    if h.retried.Some? {
      assert h.retried.value in t.mail.retry && IsFor(h.retried.value, note);
    } else if !q.acked || h.verdict == Q.Requeue {
      assert q.msg in t.mail.main;
    } else if h.verdict == Q.Reject {
      assert q.msg in t.mail.dead;
    }
  }

  lemma StepBacked(l: Limits, s: State, a: Action)
    requires Inv(l, s) && Enabled(l, s, a)
    ensures AllBacked(Apply(l, s, a))
  {
    var t := Apply(l, s, a);
    forall note | Present(t, note) ensures Backed(t, note) {
      NewPresent(l, s, a, note);
      if Present(s, note) {
        BackedStays(l, s, a, note);
      } else {
        var e := a.o.event;
        assert t.outbox.events[e].note == note && t.outbox.events[e].successes == 1;
      }
    }
  }

  lemma StepNoteNotLost(l: Limits, s: State, a: Action, note: nat)
    requires Q.ReplaysOk(s.mail) && Enabled(l, s, a) && (InTransit(s.mail, note) || note in s.handled)
    ensures InTransit(Apply(l, s, a).mail, note) || note in Apply(l, s, a).handled
  {
    if InTransit(s.mail, note) {
      if a.Mail? && a.q.Deliver? && IsFor(a.q.msg, note) {
        DeliveredStays(l, s, a.q, note);
      } else if a.Mail? {
        StaysInTransit(l.email, s.mail, a.q, note);
      } else if a.Out? && a.o.PublishOk? {
        StaysInTransit(l.email, s.mail, Q.Enter(Q.Task(s.outbox.events[a.o.event].note, 0)), note);
      }
    }
  }

  /** Only its own publish makes an event a published one. */
  lemma NewPublished(l: Limits, s: State, a: Action, e: nat)
    requires O.Inv(l.outbox, s.outbox) && Enabled(l, s, a)
    ensures e in Published(Apply(l, s, a)) <==> e in Published(s) || (a.Out? && a.o.PublishOk? && a.o.event == e)
  {
    if a.Out? && e in s.outbox.events {
      O.StepMonotone(l.outbox, s.outbox, a.o, e);
    }
  }

  /** A published event was published before, or its message is in the main queue. */
  lemma EventNotLost(l: Limits, s: State, a: Action, e: nat)
    requires O.Inv(l.outbox, s.outbox) && Q.ReplaysOk(s.mail) && NoneLost(s)
    requires Enabled(l, s, a) && e in Published(Apply(l, s, a))
    ensures var t := Apply(l, s, a); InTransit(t.mail, t.outbox.events[e].note) || t.outbox.events[e].note in t.handled
  {
    var t := Apply(l, s, a);
    var note := t.outbox.events[e].note;
    NewPublished(l, s, a, e);
    if e in Published(s) {
      if a.Out? {
        O.StepMonotone(l.outbox, s.outbox, a.o, e);
      }
      StepNoteNotLost(l, s, a, note);
    } else {
      assert IsFor(Q.Task(note, 0), note) && Q.Task(note, 0) in t.mail.main;
    }
  }

  lemma StepNoneLost(l: Limits, s: State, a: Action)
    requires Inv(l, s) && Enabled(l, s, a)
    ensures NoneLost(Apply(l, s, a))
  {
    var t := Apply(l, s, a);
    forall e | e in t.outbox.events && t.outbox.events[e].successes == 1
      ensures InTransit(t.mail, t.outbox.events[e].note) || t.outbox.events[e].note in t.handled
    {
      EventNotLost(l, s, a, e);
    }
  }

  /** A status written for a published notification leaves the agreement. */
  lemma UpdateAgrees(l: Limits, s: State, w: Write)
    requires O.Inv(l.outbox, s.outbox) && Agree(s) && Backed(s, w.note)
    ensures Agree(s.(notes := SetStatus(s.notes, w)))
  {
    forall e | e in s.outbox.events && s.outbox.events[e].note == w.note ensures s.outbox.events[e].status != O.Failed {
      BackedNotFailed(l, s, w.note, e);
    }
    assert forall n :: HasEvent(s, n) ==> HasEvent(s.(notes := SetStatus(s.notes, w)), n);
  }

  lemma EventStays(l: Limits, s: State, o: O.Action, note: nat)
    requires O.Inv(l.outbox, s.outbox) && Enabled(l, s, Out(o)) && HasEvent(s, note)
    ensures HasEvent(ApplyOut(l, s, o), note)
  {
    var e :| e in s.outbox.events && s.outbox.events[e].note == note;
    O.StepMonotone(l.outbox, s.outbox, o, e);
    assert ApplyOut(l, s, o).outbox.events[e].note == note;
  }

  /** The notifications that an outbox action leaves alone. */
  lemma OutKeepsNote(l: Limits, s: State, o: O.Action, e: nat)
    requires O.Inv(l.outbox, s.outbox) && Enabled(l, s, Out(o))
    requires e in s.outbox.events && s.outbox.events[e].note in s.notes
    ensures var t, note := ApplyOut(l, s, o), s.outbox.events[e].note;
      note in t.notes && (t.notes[note] == s.notes[note] || (o.MarkFailed? && o.event == e))
  {
    if o.MarkFailed? && o.event != e {
      assert s.outbox.events[o.event].note != s.outbox.events[e].note;
    }
  }

  /** An event keeps its notification, and failing it fails the notification. */
  lemma OutAgreesOn(l: Limits, s: State, o: O.Action, e: nat)
    requires O.Inv(l.outbox, s.outbox) && Agree(s) && Enabled(l, s, Out(o)) && e in ApplyOut(l, s, o).outbox.events
    ensures var t := ApplyOut(l, s, o); var ev := t.outbox.events[e];
      ev.note in t.notes && (ev.status == O.Failed ==> t.notes[ev.note] == Failed)
  {
    if e in s.outbox.events {
      O.StepMonotone(l.outbox, s.outbox, o, e);
      OutKeepsNote(l, s, o, e);
    }
  }

  lemma OutAgrees(l: Limits, s: State, o: O.Action)
    requires Inv(l, s) && Enabled(l, s, Out(o))
    ensures Agree(ApplyOut(l, s, o))
  {
    var t := ApplyOut(l, s, o);
    forall n | n in t.notes ensures HasEvent(t, n) {
      if o.Create? && o.note == n {
        assert t.outbox.events[o.event].note == n;
      } else {
        EventStays(l, s, o, n);
      }
    }
    forall e | e in t.outbox.events
      ensures t.outbox.events[e].note in t.notes
      ensures t.outbox.events[e].status == O.Failed ==> t.notes[t.outbox.events[e].note] == Failed
    {
      OutAgreesOn(l, s, o, e);
    }
  }

  lemma StepAgrees(l: Limits, s: State, a: Action)
    requires Inv(l, s) && Enabled(l, s, a)
    ensures Agree(Apply(l, s, a))
  {
    match a {
      case Out(o) => OutAgrees(l, s, o);
      case Update(w) =>
        assert Present(s, w.note);
        UpdateAgrees(l, s, w);
      case _ =>
        assert forall n :: HasEvent(s, n) ==> HasEvent(Apply(l, s, a), n);
    }
  }

  lemma EnteredStep(maxRetries: int, s: Q.State, q: Q.Action)
    requires Q.Enabled(s, q)
    ensures Q.Apply(maxRetries, s, q).entered == s.entered + if q.Enter? then 1 else 0
  {
  }

  /** The events published after a step. */
  lemma PublishedAfter(l: Limits, s: State, a: Action)
    requires O.Inv(l.outbox, s.outbox) && Enabled(l, s, a)
    ensures Published(Apply(l, s, a)) == Published(s) + if a.Out? && a.o.PublishOk? then {a.o.event} else {}
  {
    var t := Apply(l, s, a);
    forall e ensures e in Published(t) <==> e in Published(s) || (a.Out? && a.o.PublishOk? && a.o.event == e) {
      NewPublished(l, s, a, e);
    }
  }

  /** An event is published once. */
  lemma NotYetPublished(l: Limits, s: State, o: O.Action)
    requires O.Inv(l.outbox, s.outbox) && O.Enabled(l.outbox, s.outbox, o) && o.PublishOk?
    ensures o.event !in Published(s)
  {
  }

  lemma PublishedSize(l: Limits, s: State, a: Action)
    requires O.Inv(l.outbox, s.outbox) && Enabled(l, s, a)
    ensures |Published(Apply(l, s, a))| == |Published(s)| + if a.Out? && a.o.PublishOk? then 1 else 0
  {
    PublishedAfter(l, s, a);
    if a.Out? && a.o.PublishOk? {
      NotYetPublished(l, s, a.o);
    } else {
      assert Published(s) + {} == Published(s);
    }
  }

  /** The mail queue sees one entry for every event published and one for every foreign message. */
  lemma StepEntered(l: Limits, s: State, a: Action)
    requires Inv(l, s) && Enabled(l, s, a)
    ensures var t := Apply(l, s, a); t.mail.entered == |Published(t)| + t.foreign
  {
    PublishedSize(l, s, a);
    if a.Mail? {
      EnteredStep(l.email, s.mail, a.q);
    }
  }

  lemma StepMail(l: Limits, s: State, a: Action)
    requires Inv(l, s) && Enabled(l, s, a)
    ensures var t := Apply(l, s, a);
            Q.ReplaysOk(t.mail) && Q.CountsOk(l.email, t.mail) && Q.Count(t.mail) >= t.mail.entered
  {
    if a.Mail? {
      Q.StepCount(l.email, s.mail, a.q);
      Q.StepReplaysOk(l.email, s.mail, a.q);
      Q.StepCountsOk(l.email, s.mail, a.q);
    } else if a.Out? && a.o.PublishOk? {
      var enter := Q.Enter(Q.Task(s.outbox.events[a.o.event].note, 0));
      Q.StepCount(l.email, s.mail, enter);
      Q.StepReplaysOk(l.email, s.mail, enter);
      Q.StepCountsOk(l.email, s.mail, enter);
    }
  }

  lemma StepInv(l: Limits, s: State, a: Action)
    requires Inv(l, s) && Enabled(l, s, a)
    ensures Inv(l, Apply(l, s, a))
  {
    if a.Out? {
      O.StepInv(l.outbox, s.outbox, a.o);
    }
    StepMail(l, s, a);
    StepBacked(l, s, a);
    StepNoneLost(l, s, a);
    StepAgrees(l, s, a);
    StepEntered(l, s, a);
  }

  const EMPTY: State := State(map[], O.EMPTY, Q.EMPTY, {}, 0, {})

  /** The state after a history of actions, if each of them was enabled. */
  function Execute(l: Limits, init: State, actions: seq<Action>): Option<State> {
    if actions == [] then Some(init)
    else
      match Execute(l, init, actions[..|actions| - 1])
      case None => None
      case Some(s) =>
        var a := actions[|actions| - 1];
        if Enabled(l, s, a) then Some(Apply(l, s, a)) else None
  }

  lemma EmptyInv(l: Limits)
    ensures Inv(l, EMPTY)
  {
    assert Published(EMPTY) == {};
  }

  lemma {:induction false} ExecuteInv(l: Limits, init: State, actions: seq<Action>, s: State)
    requires Inv(l, init) && Execute(l, init, actions) == Some(s)
    ensures Inv(l, s)
  {
    if actions != [] {
      var before := Execute(l, init, actions[..|actions| - 1]).value;
      ExecuteInv(l, init, actions[..|actions| - 1], before);
      StepInv(l, before, actions[|actions| - 1]);
    }
  }

  lemma FailedStep(l: Limits, s: State, a: Action, e: nat)
    requires O.Inv(l.outbox, s.outbox) && Enabled(l, s, a)
    requires e in s.outbox.events && s.outbox.events[e].status == O.Failed
    ensures var t := Apply(l, s, a); e in t.outbox.events && t.outbox.events[e] == s.outbox.events[e]
  {
    if a.Out? {
      O.StepMonotone(l.outbox, s.outbox, a.o, e);
    }
  }

  lemma {:induction false} FailedStays(l: Limits, s: State, more: seq<Action>, t: State, e: nat)
    requires Inv(l, s) && Execute(l, s, more) == Some(t)
    requires e in s.outbox.events && s.outbox.events[e].status == O.Failed
    ensures e in t.outbox.events && t.outbox.events[e] == s.outbox.events[e]
  {
    if more != [] {
      var before := Execute(l, s, more[..|more| - 1]).value;
      FailedStays(l, s, more[..|more| - 1], before, e);
      ExecuteInv(l, s, more[..|more| - 1], before);
      FailedStep(l, before, more[|more| - 1], e);
    }
  }

  /**
    Once an event has failed, its notification is failed in that state and in every later one, and
    there is never a message, a mail or a status update for it.
  */
  lemma FailureIsFinal(l: Limits, history: seq<Action>, s: State, more: seq<Action>, t: State, e: nat)
    requires Execute(l, EMPTY, history) == Some(s) && Execute(l, s, more) == Some(t)
    requires e in s.outbox.events && s.outbox.events[e].status == O.Failed
    ensures var note := s.outbox.events[e].note; note in t.notes && t.notes[note] == Failed && !Present(t, note)
  {
    EmptyInv(l);
    ExecuteInv(l, EMPTY, history, s);
    ExecuteInv(l, s, more, t);
    FailedStays(l, s, more, t, e);
    if Present(t, s.outbox.events[e].note) {
      BackedNotFailed(l, t, s.outbox.events[e].note, e);
    }
  }

  /** Events and notifications correspond one to one. */
  lemma OneEventEach(l: Limits, history: seq<Action>, s: State)
    requires Execute(l, EMPTY, history) == Some(s)
    ensures forall e :: e in s.outbox.events ==> s.outbox.events[e].note in s.notes
    ensures forall d, e :: d in s.outbox.events && e in s.outbox.events && d != e ==>
              s.outbox.events[d].note != s.outbox.events[e].note
    ensures forall n :: n in s.notes ==> exists e :: e in s.outbox.events && s.outbox.events[e].note == n
  {
    EmptyInv(l);
    ExecuteInv(l, EMPTY, history, s);
    assert forall n :: n in s.notes ==> HasEvent(s, n);
  }

  predicate Duplicates(l: Limits, s: State, a: Action) { a.Mail? && Q.Duplicates(l.email, s.mail, a.q) }

  /** How many steps of a history left a message in two places. */
  function Duplications(l: Limits, actions: seq<Action>): nat
    requires Execute(l, EMPTY, actions).Some?
  {
    if actions == [] then 0
    else
      var before := actions[..|actions| - 1];
      Duplications(l, before) + if Duplicates(l, Execute(l, EMPTY, before).value, actions[|actions| - 1]) then 1 else 0
  }

  lemma StepCount(l: Limits, s: State, a: Action)
    requires Inv(l, s) && Enabled(l, s, a)
    ensures var t := Apply(l, s, a);
            Q.Count(t.mail) == Q.Count(s.mail) + t.mail.entered - s.mail.entered + if Duplicates(l, s, a) then 1 else 0
  {
    if a.Mail? {
      Q.StepCount(l.email, s.mail, a.q);
    } else if a.Out? && a.o.PublishOk? {
      Q.StepCount(l.email, s.mail, Q.Enter(Q.Task(s.outbox.events[a.o.event].note, 0)));
    }
  }

  lemma {:induction false} CountKeeps(l: Limits, actions: seq<Action>, s: State)
    requires Execute(l, EMPTY, actions) == Some(s)
    ensures Inv(l, s) && Q.Count(s.mail) == s.mail.entered + Duplications(l, actions)
  {
    EmptyInv(l);
    if actions == [] {
      Q.EmptyCount();
    } else {
      var before := Execute(l, EMPTY, actions[..|actions| - 1]).value;
      CountKeeps(l, actions[..|actions| - 1], before);
      StepInv(l, before, actions[|actions| - 1]);
      StepCount(l, before, actions[|actions| - 1]);
    }
  }

  /**
    Conservation over the whole path: the messages in all queues, the waiting rows and the messages
    done are as many as the events published and the foreign messages, plus one for every step that
    duplicated one.  Publishing never duplicates; the mail steps that do are those of EmailQueue.
  */
  lemma PathConserves(l: Limits, history: seq<Action>, s: State)
    requires Execute(l, EMPTY, history) == Some(s)
    ensures |s.mail.main| + |s.mail.retry| + |s.mail.dead| + |Q.Waiting(s.mail)| + s.mail.done
         == |Published(s)| + s.foreign + Duplications(l, history)
  {
    CountKeeps(l, history, s);
  }

  /**
    Nothing published is lost: whatever crashes and whichever writes fail, a published notification
    has a message in a queue, a dead-letter row, or a delivery that was acknowledged for good.
  */
  lemma NothingIsLost(l: Limits, history: seq<Action>, s: State, e: nat)
    requires Execute(l, EMPTY, history) == Some(s)
    requires e in s.outbox.events && s.outbox.events[e].status == O.Published
    ensures InTransit(s.mail, s.outbox.events[e].note) || s.outbox.events[e].note in s.handled
    ensures Q.Count(s.mail) >= |Published(s)| + s.foreign
  {
    EmptyInv(l);
    ExecuteInv(l, EMPTY, history, s);
  }

  /** A delivery for the notification that saw no error although no mail went out: the breaker's idle call. */
  predicate IdleFor(a: Action, note: nat) {
    a.Mail? && a.q.Deliver? && IsFor(a.q.msg, note) && a.q.result == Q.Sent(false)
  }

  lemma MailedStays(maxRetries: int, s: Q.State, q: Q.Action)
    requires Q.Enabled(s, q)
    ensures s.mailed <= Q.Apply(maxRetries, s, q).mailed
  {
  }

  /** A delivery that is done with its message saw no error, and mailed it unless the call was idle. */
  lemma DoneMeansSent(l: Limits, s: Q.State, q: Q.Action, note: nat)
    requires Q.Enabled(s, q) && q.Deliver? && note in HandledBy(l, q)
    ensures q.result.Sent? && q.msg.Task? && q.msg.note == note
    ensures q.result.mailed ==> note in Q.Apply(l.email, s, q).mailed
  {
  }

  lemma NewHandled(l: Limits, s: State, a: Action, note: nat)
    requires Enabled(l, s, a) && note in Apply(l, s, a).handled
    ensures note in s.handled || note in Apply(l, s, a).mail.mailed || IdleFor(a, note)
  {
    if note !in s.handled {
      DoneMeansSent(l, s.mail, a.q, note);
    }
  }

  lemma StepMailed(l: Limits, s: State, a: Action)
    requires Enabled(l, s, a)
    ensures s.mail.mailed <= Apply(l, s, a).mail.mailed
  {
    if a.Mail? {
      MailedStays(l.email, s.mail, a.q);
    }
  }

  /**
    A handled notification was mailed, or one of its deliveries met the breaker's idle call.  With
    NothingIsLost: a published notification is in transit, mailed, or lost to that call.
  */
  lemma {:induction false} HandledWasMailed(l: Limits, history: seq<Action>, s: State, note: nat)
    requires Execute(l, EMPTY, history) == Some(s) && note in s.handled
    ensures note in s.mail.mailed || exists i :: 0 <= i < |history| && IdleFor(history[i], note)
  {
    if history != [] {
      var rest, a := history[..|history| - 1], history[|history| - 1];
      var before := Execute(l, EMPTY, rest).value;
      NewHandled(l, before, a, note);
      StepMailed(l, before, a);
      if note in before.handled {
        HandledWasMailed(l, rest, before, note);
        assert forall i :: 0 <= i < |rest| ==> rest[i] == history[i];
      }
    }
  }
}
