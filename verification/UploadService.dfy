/**
  The code of the upload session service and of the janitor, on a store shared with any number of
  other requests.  `Interfere` stands before every call: there the others make any steps of their
  own.  Each method is shown to make only the steps that the protocol of Upload.dfy
  gives to its request.
*/
module UploadService {
  import opened Wrappers
  import opened Upload

  datatype Outcome = Rejected | InternalError | Accepted

  /** The numbers of the parts not uploaded yet. */
  method PendingParts(parts: seq<Part>) returns (pending: seq<nat>)
    ensures pending == [] <==> AllUploaded(parts)
    ensures forall n :: n in pending <==>
              exists i :: 0 <= i < |parts| && parts[i].number == n && parts[i].status != Uploaded
  {
    pending := [];
    for i := 0 to |parts|
      invariant pending == [] <==> forall j :: 0 <= j < i ==> parts[j].status == Uploaded
      invariant forall n :: n in pending <==>
                exists j :: 0 <= j < i && parts[j].number == n && parts[j].status != Uploaded
    {
      if parts[i].status != Uploaded {
        pending := pending + [parts[i].number];
      }
    }
  }

  /** The part list of the storage call. */
  method BuildCompletedParts(parts: seq<Part>) returns (list: array<CompletedPart>)
    ensures fresh(list) && list[..] == ToCompleted(parts)
  {
    list := new CompletedPart[|parts|](i => CompletedPart(0, ""));
    for i := 0 to |parts|
      invariant forall j :: 0 <= j < i ==> list[j] == CompletedPart(parts[j].number, parts[j].etag)
    {
      list[i] := CompletedPart(parts[i].number, parts[i].etag);
    }
  }

  /** The parts marked as uploaded. */
  function CountUploaded(parts: seq<Part>): nat {
    if parts == [] then 0
    else CountUploaded(parts[..|parts| - 1]) + if parts[|parts| - 1].status == Uploaded then 1 else 0
  }

  /** SELECT ... WHERE status = 'uploaded', of which only the number of rows is used. */
  method GetUploadedParts(parts: seq<Part>) returns (uploaded: nat)
    ensures uploaded == CountUploaded(parts) <= |parts|
    ensures uploaded == |UploadedAt(parts)|
    ensures uploaded == |parts| <==> AllUploaded(parts)
  {
    uploaded := 0;
    for i := 0 to |parts|
      invariant uploaded == CountUploaded(parts[..i]) <= i
      invariant uploaded == i <==> AllUploaded(parts[..i])
    {
      assert parts[..i + 1][..i] == parts[..i];
      if parts[i].status == Uploaded {
        uploaded := uploaded + 1;
      }
    }
    assert parts[..|parts|] == parts;
    CountIs(parts);
  }

  /** Where the uploaded parts are. */
  function UploadedAt(parts: seq<Part>): set<int> { set i | 0 <= i < |parts| && parts[i].status == Uploaded }

  lemma {:induction false} CountIs(parts: seq<Part>)
    ensures CountUploaded(parts) == |UploadedAt(parts)|
  {
    if parts != [] {
      var n := |parts| - 1;
      CountIs(parts[..n]);
      assert UploadedAt(parts) == UploadedAt(parts[..n]) + if parts[n].status == Uploaded then {n} else {};
    }
  }

  /** Nothing in the store has changed but where requests are. */
  predicate Untouched(before: State, after: State) {
    && after.session == before.session && after.parts == before.parts
    && after.calls == before.calls && after.completions == before.completions
  }

  /** Which calls of a complete request succeed. */
  datatype CompleteEnv = CompleteEnv(
    found: bool, locked: bool, stored: bool, undone: bool, videoFound: bool, videoSaved: bool, saved: bool)

  /** Which calls of a part-URL request succeed, and the URL that is signed. */
  datatype UrlEnv = UrlEnv(found: bool, read: bool, signed: bool, url: string, saved: bool, moved: bool)

  /** Which calls of a confirm-part request succeed. */
  datatype ConfirmEnv = ConfirmEnv(found: bool, read: bool, saved: bool, counted: bool)

  predicate HasUrl(s: State, number: int, url: string) {
    1 <= number <= |s.parts| && s.parts[number - 1].url == url
  }

  /** When the request had made its save, the row of the part held the URL. */
  ghost predicate UrlSaved(states: seq<State>, me: nat, number: int, url: string) {
    exists t :: t in states && me in t.clients && t.clients[me] in {UrlMarking, Done} && HasUrl(t, number, url)
  }

  predicate Confirmed(s: State, number: int, etag: string) {
    && 1 <= number <= |s.parts| && s.parts[number - 1].status == Uploaded
    && s.parts[number - 1].etag == etag && Unquoted(etag)
  }

  /** When the request had made its save, the part was confirmed. */
  ghost predicate WasConfirmed(states: seq<State>, me: nat, number: int, etag: string) {
    exists t :: t in states && me in t.clients && t.clients[me] == ConfirmCounting && Confirmed(t, number, etag)
  }

  /**
    The store with the requests on it.  When a request is `alone`, nobody else makes a step; then it is
    determined by what the store holds and by which of its own calls succeed.
  */
  class Store {
    const alone: bool
    var s: State
    ghost var states: seq<State>

    constructor (session: Session, parts: seq<Part>, alone: bool)
      requires Init(State(session, parts, [], 0, map[]))
      ensures Valid() && this.alone == alone && s == State(session, parts, [], 0, map[])
    {
      this.alone := alone;
      s := State(session, parts, [], 0, map[]);
      states := [State(session, parts, [], 0, map[])];
    }

    /** What has happened to the store so far is a behaviour of the protocol. */
    ghost predicate Valid()
      reads this
    {
      Behaviour(states) && states[|states| - 1] == s
    }

    ghost predicate At(me: nat, c: Client)
      reads this
    {
      Valid() && me in s.clients && s.clients[me] == c
    }

    /** Other requests arrive and make any number of steps; the caller knows nothing but this contract. */
    method Interfere(me: nat, ghost c: Client)
      requires At(me, c)
      modifies this
      ensures At(me, c) && (forall t :: t in old(states) ==> t in states)
      ensures alone ==> s == old(s)
    {
      var steps: int := *;
      for i := 0 to if alone || steps < 0 then 0 else steps
        invariant At(me, c) && (forall t :: t in old(states) ==> t in states)
        invariant alone ==> s == old(s)
      {
        var id: int := *;
        if 0 <= id != me {
          OtherStep(id, me, c);
        }
      }
    }

    /** The request `id` arrives, reads, writes or ends. */
    method OtherStep(id: nat, me: nat, ghost c: Client)
      requires At(me, c) && id != me
      modifies this
      ensures At(me, c) && (forall t :: t in old(states) ==> t in states)
    {
      if id !in s.clients {
        var start: Client := *;
        if start.ConfirmStart? {
          var raw := AnyText();
          assert Trims(raw, Trim(raw));
          Arrive(id, ConfirmStart(start.number, Trim(raw)));
        } else if start.CompleteStart? || start.UrlStart? || start.AbortStart? || start.JanitorStart? {
          Arrive(id, start);
        }
      } else {
        var at, effect: State, next: Client := s.clients[id], *, *;
        if Reads(s, at, next) {
          Read(id, at, next);
        } else if Writes(s, at, effect, next) {
          Write(id, at, effect, next);
        } else {
          Exit(id, at);
        }
      }
    }

    /** Any text a client may send. */
    method AnyText() returns (raw: string) {
      raw := *;
    }

    method Arrive(id: nat, start: Client)
      requires Valid() && id !in s.clients && Entry(start)
      modifies this
      ensures At(id, start) && s == Goto(old(s), id, start) && s in states
      ensures (forall t :: t in old(states) ==> t in states)
    {
      Extend(Goto(s, id, start));
      s := Goto(s, id, start);
    }

    ghost method Extend(t: State)
      requires Valid() && Next(s, t)
      modifies this`states
      ensures Behaviour(states) && states == old(states) + [t]
    {
      ghost var was := states;
      states := states + [t];
      forall i | 0 <= i < |states| - 1 ensures StepAt(states, i) {
        if i < |was| - 1 {
          assert StepAt(was, i);
        }
      }
    }

    /** The request goes from `c` to `d` on the rows as they are. */
    method Read(me: nat, ghost c: Client, d: Client)
      requires At(me, c) && Reads(s, c, d)
      modifies this
      ensures At(me, d) && s == Goto(old(s), me, d) && s in states && (forall t :: t in old(states) ==> t in states)
    {
      assert Step(s, me, Goto(s, me, d));
      Extend(Goto(s, me, d));
      s := Goto(s, me, d);
    }

    /** The request goes from `c` to `d` with the effect `e`. */
    method Write(me: nat, ghost c: Client, e: State, d: Client)
      requires At(me, c) && Writes(s, c, e, d)
      modifies this
      ensures At(me, d) && s == Goto(e, me, d) && s in states && (forall t :: t in old(states) ==> t in states)
    {
      assert Step(s, me, Goto(e, me, d));
      Extend(Goto(e, me, d));
      s := Goto(e, me, d);
    }

    /** The request ends. */
    method Exit(me: nat, ghost c: Client)
      requires At(me, c)
      modifies this
      ensures At(me, Done) && s == Goto(old(s), me, Done) && s in states
      ensures (forall t :: t in old(states) ==> t in states)
    {
      assert Step(s, me, Goto(s, me, Done));
      Extend(Goto(s, me, Done));
      s := Goto(s, me, Done);
    }

    /**
      The compare-and-set; `ok` is false when another request was faster or the update failed, and in
      the second case the row may have changed all the same.
    */
    method TransitionSessionStatus(me: nat, ghost c: Client, from: Status, to: Status, won: Client, answered: bool)
      returns (ok: bool)
      requires At(me, c)
      requires s.session.status == from ==> Writes(s, c, Transition(s, from, to), won)
      requires s.session.status == from ==> Writes(s, c, Transition(s, from, to), Done)
      modifies this
      ensures (forall t :: t in old(states) ==> t in states)
      ensures ok == (answered && old(s.session.status) == from)
      ensures ok ==> At(me, won) && s == Goto(Transition(old(s), from, to), me, won)
      ensures !ok ==> At(me, Done) && (s == Goto(old(s), me, Done) || s == Goto(Transition(old(s), from, to), me, Done))
      ensures !ok && answered ==> s == Goto(old(s), me, Done)
    {
      var done: bool := *;
      ok := answered && s.session.status == from;
      if ok {
        Write(me, c, Transition(s, from, to), won);
      } else if !answered && done && s.session.status == from {
        Write(me, c, Transition(s, from, to), Done);
      } else {
        Exit(me, c);
      }
    }

    /** A session whose storage call has succeeded, or whose row says completed, was completed once. */
    lemma CompletedOnce(me: nat, c: Client)
      requires At(me, c) && (HasStored(c) || s.session.status == Completed)
      ensures s.completions == 1
    {
      BehaviourKeeps(states, |states| - 1);
    }

    /** There are as many part rows as the session has parts, and they are numbered from 1. */
    lemma PartNumber(number: int)
      requires Valid()
      ensures |s.parts| == s.session.totalParts
      ensures 1 <= number <= |s.parts| ==> s.parts[number - 1].number == number
    {
      BehaviourKeeps(states, |states| - 1);
    }

    /** All parts are there and nobody is completing the session. */
    predicate Completable(s: State) { s.session.status == InProgress && AllUploaded(s.parts) }

    /** One more storage call with these parts, and nothing else but the session row. */
    predicate CalledWith(before: State, parts: seq<Part>, after: State) {
      after.calls == before.calls + [ToCompleted(parts)] && after.parts == before.parts
    }

    /** How a request ends that is alone and has sent the parts to storage. */
    predicate AfterStorage(env: CompleteEnv, r: Outcome, before: State, after: State) {
      if !env.stored then
        && r == InternalError && after.completions == before.completions
        && after.session.status in {InProgress, Completing} && (env.undone ==> after.session.status == InProgress)
      else
        && after.completions == before.completions + 1
        && if !env.videoFound || !env.videoSaved then r == InternalError && after.session.status == Completing
           else r == Accepted && after.session.status in {Completing, Completed}
                && (env.saved ==> after.session.status == Completed && after.session.completedAt.Some?)
    }

    /**
      Accepted means that the upload has been completed, by this request or by an earlier one.  Alone,
      it completes the session if there is something to complete and its calls succeed; a storage
      error puts the session back, so that the client can try again.
    */
    method CompleteSession(me: nat, env: CompleteEnv) returns (r: Outcome)
      requires At(me, CompleteStart)
      modifies this
      ensures At(me, Done)
      ensures r == Accepted ==> s.completions == 1
      ensures alone && (!env.found || !old(Completable(s))) ==> Untouched(old(s), s)
      ensures alone && (!env.found || !old(Completable(s))) ==>
                r == if env.found && old(s.session.status) == Completed then Accepted else Rejected
      ensures alone && env.found && old(Completable(s)) && !env.locked ==>
                r == InternalError && s.session.status in {InProgress, Completing} && s.calls == old(s.calls)
      ensures alone && env.found && old(Completable(s)) && env.locked ==>
                CalledWith(old(s), old(s.parts), s) && AfterStorage(env, r, old(s), s)
    {
      Interfere(me, CompleteStart);
      if !env.found {
        Exit(me, CompleteStart);
        return Rejected;
      }
      var session, parts := s.session, s.parts;
      if session.status == Completed {
        CompletedOnce(me, CompleteStart);
        Exit(me, CompleteStart);
        return Accepted;
      }
      if session.status != InProgress {
        Exit(me, CompleteStart);
        return Rejected;
      }
      var pending := PendingParts(parts);
      if |pending| > 0 {
        Exit(me, CompleteStart);
        return Rejected;
      }
      Read(me, CompleteStart, CompleteReady(session, parts));
      Interfere(me, CompleteReady(session, parts));
      var ok := TransitionSessionStatus(
        me, CompleteReady(session, parts), InProgress, Completing, CompleteLocked(session, parts), env.locked);
      if !ok {
        return if env.locked then Rejected else InternalError;
      }
      r := CompleteUpload(me, session, parts, env);
    }

    /** CompleteSession once it owns the session: the storage call, and the transition back if it fails. */
    method CompleteUpload(me: nat, session: Session, parts: seq<Part>, env: CompleteEnv) returns (r: Outcome)
      requires At(me, CompleteLocked(session, parts))
      modifies this
      ensures At(me, Done)
      ensures r == Accepted ==> s.completions == 1
      ensures alone && old(s.session.status) == Completing ==>
                CalledWith(old(s), parts, s) && AfterStorage(env, r, old(s), s)
    {
      Interfere(me, CompleteLocked(session, parts));
      var list := BuildCompletedParts(parts);
      var called := s.(calls := s.calls + [list[..]]);
      if !env.stored {
        Write(me, CompleteLocked(session, parts), called, CompleteFailed);
        Interfere(me, CompleteFailed);
        var undone := TransitionSessionStatus(me, CompleteFailed, Completing, InProgress, Done, env.undone);
        return InternalError;
      }
      Write(me, CompleteLocked(session, parts), called.(completions := s.completions + 1), CompleteStored(session));
      r := RecordCompletion(me, session, env);
    }

    /** CompleteSession once storage has succeeded: the video row, the session row and the event. */
    method RecordCompletion(me: nat, session: Session, env: CompleteEnv) returns (r: Outcome)
      requires At(me, CompleteStored(session))
      modifies this
      ensures At(me, Done)
      ensures r == Accepted ==> s.completions == 1
      ensures r == if env.videoFound && env.videoSaved then Accepted else InternalError
      ensures alone ==> s.parts == old(s.parts) && s.calls == old(s.calls) && s.completions == old(s.completions)
      ensures alone && r != Accepted ==> s.session == old(s.session)
      ensures alone && r == Accepted ==>
                s.session == old(s.session) || (s.session.status == Completed && s.session.completedAt.Some?)
      ensures alone && r == Accepted && env.saved ==> s.session.status == Completed && s.session.completedAt.Some?
    {
      Interfere(me, CompleteStored(session));
      if !env.videoFound {
        Exit(me, CompleteStored(session));
        return InternalError;
      }
      Read(me, CompleteStored(session), CompleteVideo(session));
      Interfere(me, CompleteVideo(session));
      if !env.videoSaved {
        Exit(me, CompleteVideo(session));
        return InternalError;
      }
      Read(me, CompleteVideo(session), CompleteSaving(session));
      Interfere(me, CompleteSaving(session));
      var now: int := *;
      var done: bool := *;
      var row := session.(status := Completed, completedAt := Some(now));
      Write(me, CompleteSaving(session), if env.saved || done then SaveSession(s, row) else s, CompletePublishing);
      Interfere(me, CompletePublishing);
      CompletedOnce(me, CompletePublishing);
      Exit(me, CompletePublishing); // the event is published, or the failure is logged
      r := Accepted;
    }

    /** The session is active and the part is one of its parts that is not uploaded. */
    /** The session goes on, and the part is not uploaded yet. */
    predicate IsOpen(s: State, number: int) {
      s.session.status in {Initiated, InProgress} && IsPending(s, number)
    }

    predicate IsPending(s: State, number: int) { 1 <= number <= |s.parts| && s.parts[number - 1].status != Uploaded }

    /** What a part-URL request that is alone does to the store: the URL of one part, and the session in progress. */
    predicate UrlGiven(env: UrlEnv, number: int, before: State, after: State) {
      && 1 <= number <= |before.parts| && after.calls == before.calls && after.completions == before.completions
      && (|| after.parts == before.parts[number - 1 := before.parts[number - 1].(url := env.url)]
          || (!env.saved && after.parts == before.parts))
      && after.session.status in {before.session.status, InProgress}
      && (env.moved ==> after.session.status == InProgress)
    }

    /**
      Accepted means that a URL was signed for a part of the session, and saved in its row unless that
      save failed.
    */
    method GetPartURL(me: nat, number: int, env: UrlEnv) returns (r: Outcome)
      requires At(me, UrlStart(number))
      modifies this
      ensures At(me, Done)
      ensures r == Accepted ==> env.found && env.read && env.signed && 1 <= number <= |s.parts| == s.session.totalParts
      ensures r == Accepted && env.saved ==> UrlSaved(states, me, number, env.url)
      ensures alone ==> (r == Accepted <==> env.found && env.read && env.signed && old(IsOpen(s, number)))
      ensures alone ==> if r == Accepted then UrlGiven(env, number, old(s), s) else Untouched(old(s), s)
    {
      PartNumber(number);
      Interfere(me, UrlStart(number));
      var status := s.session.status;
      if !env.found || !Active(status) || number < 1 || number > s.session.totalParts {
        Exit(me, UrlStart(number));
        return Rejected;
      }
      Read(me, UrlStart(number), UrlChecked(status, number));
      r := SignPart(me, number, status, env);
    }

    /** GetPartURL once it has checked the session. */
    method SignPart(me: nat, number: int, status: Status, env: UrlEnv) returns (r: Outcome)
      requires At(me, UrlChecked(status, number)) && number >= 1 && Active(status)
      modifies this
      ensures At(me, Done)
      ensures r == Accepted ==> env.read && env.signed && number <= |s.parts| == s.session.totalParts
      ensures r == Accepted && env.saved ==> UrlSaved(states, me, number, env.url)
      ensures alone ==>
                (r == Accepted <==> env.read && env.signed && number <= |old(s.parts)| && !old(Marked(s, number)))
      ensures alone && status == old(s.session.status) && r == Accepted ==> UrlGiven(env, number, old(s), s)
      ensures alone && r != Accepted ==> Untouched(old(s), s)
    {
      Interfere(me, UrlChecked(status, number));
      if !env.read || number > |s.parts| || s.parts[number - 1].status == Uploaded {
        Exit(me, UrlChecked(status, number));
        return Rejected;
      }
      var part := s.parts[number - 1];
      PartNumber(number);
      Read(me, UrlChecked(status, number), UrlRead(status, part));
      r := SignAndSave(me, status, part, env);
    }

    /** GetPartURL once it has read the part: presign, save the row as it was read, move the session on. */
    method SignAndSave(me: nat, status: Status, part: Part, env: UrlEnv) returns (r: Outcome)
      requires At(me, UrlRead(status, part)) && 1 <= part.number <= |s.parts| && Active(status)
      modifies this
      ensures At(me, Done)
      ensures r == Accepted ==> |s.parts| == |old(s.parts)| == s.session.totalParts
      ensures r == Accepted && env.saved ==> UrlSaved(states, me, part.number, env.url)
      ensures r == if env.signed then Accepted else InternalError
      ensures alone && status == old(s.session.status) && part == old(s.parts)[part.number - 1] && env.signed ==>
                UrlGiven(env, part.number, old(s), s)
      ensures alone && !env.signed ==> Untouched(old(s), s)
    {
      Interfere(me, UrlRead(status, part));
      if !env.signed {
        Exit(me, UrlRead(status, part));
        return InternalError;
      }
      var row := part.(url := env.url);
      Read(me, UrlRead(status, part), UrlSigned(status, row));
      PartsKept(old(s));
      SaveUrl(me, status, row, env);
      r := Accepted;
    }

    /** The save of the row as it was read, which may undo a confirmation made meanwhile, and the transition. */
    method SaveUrl(me: nat, status: Status, row: Part, env: UrlEnv)
      requires At(me, UrlSigned(status, row)) && 1 <= row.number <= |s.parts| && Active(status)
      modifies this
      ensures At(me, Done)
      ensures env.saved ==> UrlSaved(states, me, row.number, row.url)
      ensures |s.parts| == |old(s.parts)| == s.session.totalParts
      ensures alone ==> s.calls == old(s.calls) && s.completions == old(s.completions)
      ensures alone ==>
                s.parts == old(s.parts)[row.number - 1 := row] || (!env.saved && s.parts == old(s.parts))
      ensures alone && status == old(s.session.status) ==> s.session.status in {status, InProgress}
      ensures alone && status == old(s.session.status) && env.moved ==> s.session.status == InProgress
    {
      Interfere(me, UrlSigned(status, row));
      PartsKept(old(s));
      var done: bool := *;
      var effect := if env.saved || done then SavePart(s, row) else s;
      Write(me, UrlSigned(status, row), effect, if status == Initiated then UrlMarking else Done);
      ghost var after := s;
      if status == Initiated {
        Interfere(me, UrlMarking);
        var moved := TransitionSessionStatus(me, UrlMarking, Initiated, InProgress, Done, env.moved);
      }
      assert after in states && (env.saved ==> HasUrl(after, row.number, row.url));
      PartsKept(after);
      PartNumber(row.number);
    }

    /** What a confirm-part request that is alone does to the store: this part is uploaded with this ETag. */
    predicate ConfirmedAlone(number: int, etag: string, before: State, after: State) {
      && 1 <= number <= |before.parts| && after.session == before.session && after.calls == before.calls
      && after.parts == before.parts[number - 1 := before.parts[number - 1].(etag := etag, status := Uploaded)]
    }

    /**
      Accepted means that the part row was saved as uploaded, with the unquoted ETag.  It need not be
      so any more when the request ends: see MarkCanBeLost.
    */
    method ConfirmPart(me: nat, number: int, raw: string, env: ConfirmEnv) returns (r: Outcome, uploaded: nat)
      requires At(me, ConfirmStart(number, Trim(raw)))
      modifies this
      ensures At(me, Done)
      ensures r == Accepted ==> WasConfirmed(states, me, number, Trim(raw))
      ensures r == Accepted ==> uploaded == CountUploaded(s.parts)
      ensures ConfirmResult(env, number, Trim(raw), r, old(s), s)
    {
      var etag := Trim(raw);
      TrimUnquotes(raw);
      r, uploaded := ConfirmTrimmed(me, number, etag, env);
    }

    /** The outcome of a confirm-part request that is alone. */
    predicate ConfirmResult(env: ConfirmEnv, number: int, etag: string, r: Outcome, before: State, after: State)
    {
      var open := env.found && env.read && IsOpen(before, number) && etag != "";
      alone ==>
        && (r == Accepted <==> open && env.saved && env.counted)
        && (!open ==> r == Rejected && Untouched(before, after))
        && (open && env.saved ==> ConfirmedAlone(number, etag, before, after))
    }

    method ConfirmTrimmed(me: nat, number: int, etag: string, env: ConfirmEnv) returns (r: Outcome, uploaded: nat)
      requires At(me, ConfirmStart(number, etag)) && (etag == "" || Unquoted(etag))
      modifies this
      ensures At(me, Done)
      ensures r == Accepted ==> WasConfirmed(states, me, number, etag)
      ensures r == Accepted ==> uploaded == CountUploaded(s.parts)
      ensures ConfirmResult(env, number, etag, r, old(s), s)
    {
      Interfere(me, ConfirmStart(number, etag));
      if !env.found || !Active(s.session.status) {
        Exit(me, ConfirmStart(number, etag));
        return Rejected, 0;
      }
      Read(me, ConfirmStart(number, etag), ConfirmChecked(number, etag));
      r, uploaded := ConfirmRow(me, number, etag, env);
    }

    /** ConfirmPart once it has checked the session. */
    method ConfirmRow(me: nat, number: int, etag: string, env: ConfirmEnv) returns (r: Outcome, uploaded: nat)
      requires At(me, ConfirmChecked(number, etag)) && (etag == "" || Unquoted(etag)) && env.found
      modifies this
      ensures At(me, Done)
      ensures r == Accepted ==> WasConfirmed(states, me, number, etag)
      ensures r == Accepted ==> uploaded == CountUploaded(s.parts)
      ensures alone && !(env.read && IsPending(old(s), number) && etag != "") ==> r == Rejected && Untouched(old(s), s)
      ensures alone && env.read && IsPending(old(s), number) && etag != "" ==>
                r == (if env.saved && env.counted then Accepted else InternalError)
      ensures alone && env.read && IsPending(old(s), number) && etag != "" && env.saved ==>
                ConfirmedAlone(number, etag, old(s), s)
    {
      Interfere(me, ConfirmChecked(number, etag));
      if !env.read || number < 1 || number > |s.parts| || s.parts[number - 1].status == Uploaded || etag == "" {
        Exit(me, ConfirmChecked(number, etag));
        return Rejected, 0;
      }
      r, uploaded := ConfirmPending(me, number, etag, env);
    }

    /** ConfirmPart on a part that is not uploaded. */
    method ConfirmPending(me: nat, number: int, etag: string, env: ConfirmEnv) returns (r: Outcome, uploaded: nat)
      requires At(me, ConfirmChecked(number, etag)) && Unquoted(etag) && IsPending(s, number)
      modifies this
      ensures At(me, Done)
      ensures r == Accepted ==> WasConfirmed(states, me, number, etag)
      ensures r == Accepted ==> uploaded == CountUploaded(s.parts)
      ensures r == if env.saved && env.counted then Accepted else InternalError
      ensures alone && env.saved ==> ConfirmedAlone(number, etag, old(s), s)
    {
      var part := s.parts[number - 1];
      PartNumber(number);
      Read(me, ConfirmChecked(number, etag), ConfirmRead(part, etag));
      r, uploaded := SaveConfirmed(me, part, etag, env);
    }

    /** ConfirmPart once it has read the part: the save, and the count of the uploaded parts. */
    method SaveConfirmed(me: nat, part: Part, etag: string, env: ConfirmEnv) returns (r: Outcome, uploaded: nat)
      requires At(me, ConfirmRead(part, etag)) && 1 <= part.number <= |s.parts| && Unquoted(etag)
      modifies this
      ensures At(me, Done)
      ensures r == Accepted ==> WasConfirmed(states, me, part.number, etag)
      ensures r == Accepted ==> uploaded == CountUploaded(s.parts)
      ensures r == if env.saved && env.counted then Accepted else InternalError
      ensures alone && env.saved && part == old(s.parts)[part.number - 1] ==>
                ConfirmedAlone(part.number, etag, old(s), s)
    {
      Interfere(me, ConfirmRead(part, etag));
      PartsKept(old(s));
      var done: bool := *;
      if !env.saved && !done {
        Exit(me, ConfirmRead(part, etag));
        return InternalError, 0;
      }
      Write(me, ConfirmRead(part, etag), SavePart(s, part.(etag := etag, status := Uploaded)), ConfirmCounting);
      ghost var after := s;
      if !env.saved {
        Exit(me, ConfirmCounting);
        return InternalError, 0;
      }
      Interfere(me, ConfirmCounting);
      uploaded := GetUploadedParts(s.parts);
      Exit(me, ConfirmCounting);
      assert after in states && Confirmed(after, part.number, etag);
      r := if env.counted then Accepted else InternalError;
    }

    /** The number of parts never changes. */
    lemma PartsKept(t: State)
      requires Valid() && t in states
      ensures |t.parts| == |s.parts|
    {
      var k :| 0 <= k < |states| && states[k] == t;
      BehaviourKeeps(states, k);
      BehaviourKeeps(states, |states| - 1);
    }

    /** Accepted means that the session is aborted when the request ends, whatever it was before. */
    method AbortSession(me: nat, found: bool, saved: bool) returns (r: Outcome)
      requires At(me, AbortStart)
      modifies this
      ensures At(me, Done)
      ensures r == Accepted ==> s.session.status == Aborted
      ensures alone ==> s.parts == old(s.parts) && s.calls == old(s.calls) && s.completions == old(s.completions)
      ensures alone && found && (saved || old(s.session.status) == Aborted) ==>
                r == Accepted && s.session == old(s.session).(status := Aborted)
      ensures alone && !found ==> r == Rejected && s.session == old(s.session)
    {
      Interfere(me, AbortStart);
      if !found {
        Exit(me, AbortStart);
        return Rejected;
      }
      var session := s.session;
      if session.status == Aborted {
        Exit(me, AbortStart);
        return Accepted;
      }
      Read(me, AbortStart, AbortRead(session));
      r := SaveAborted(me, session, saved);
    }

    /** AbortSession once it has read the session: storage is told to abort, and the row is saved as it was read. */
    method SaveAborted(me: nat, session: Session, saved: bool) returns (r: Outcome)
      requires At(me, AbortRead(session))
      modifies this
      ensures At(me, Done)
      ensures r == if saved then Accepted else InternalError
      ensures saved ==> s.session == session.(status := Aborted)
      ensures alone ==> s.parts == old(s.parts) && s.calls == old(s.calls) && s.completions == old(s.completions)
    {
      Interfere(me, AbortRead(session));
      Read(me, AbortRead(session), AbortSaving(session)); // storage was told to abort, or the failure is logged
      Interfere(me, AbortSaving(session));
      var done: bool := *;
      if !saved && !done {
        Exit(me, AbortSaving(session));
        return InternalError;
      }
      Write(me, AbortSaving(session), SaveSession(s, session.(status := Aborted)), Done);
      r := if saved then Accepted else InternalError;
    }

    /** The janitor on one session of the batch it has listed; only an overdue session is expired. */
    method ExpireSession(me: nat, now: int, expiresAt: int, saved: bool) returns (r: Outcome)
      requires At(me, JanitorStart)
      modifies this
      ensures At(me, Done)
      ensures r == Accepted ==> s.session.status == Expired && expiresAt < now
      ensures alone ==> s.parts == old(s.parts) && s.calls == old(s.calls) && s.completions == old(s.completions)
      ensures alone && saved && old(s.session.status) in {Initiated, InProgress} && expiresAt < now ==>
                r == Accepted && s.session == old(s.session).(status := Expired)
      ensures alone && (old(s.session.status) !in {Initiated, InProgress} || expiresAt >= now) ==>
                r == Rejected && s.session == old(s.session)
    {
      Interfere(me, JanitorStart);
      var session := s.session;
      if !Active(session.status) || expiresAt >= now {
        Exit(me, JanitorStart);
        return Rejected;
      }
      Read(me, JanitorStart, JanitorRead(session));
      r := SaveExpired(me, session, saved);
    }

    /** ExpireSession on an overdue session: storage is told to abort, and the row is saved as it was read. */
    method SaveExpired(me: nat, session: Session, saved: bool) returns (r: Outcome)
      requires At(me, JanitorRead(session))
      modifies this
      ensures At(me, Done)
      ensures r == if saved then Accepted else InternalError
      ensures saved ==> s.session == session.(status := Expired)
      ensures alone ==> s.parts == old(s.parts) && s.calls == old(s.calls) && s.completions == old(s.completions)
    {
      Interfere(me, JanitorRead(session));
      Read(me, JanitorRead(session), JanitorSaving(session)); // storage was told to abort, or the failure is logged
      Interfere(me, JanitorSaving(session));
      var done: bool := *;
      if !saved && !done {
        Exit(me, JanitorSaving(session));
        return InternalError;
      }
      Write(me, JanitorSaving(session), SaveSession(s, session.(status := Expired)), Done);
      r := if saved then Accepted else InternalError;
    }
  }
}
