/**
  One multipart upload session under concurrent requests.  Complete, abort, part-URL and
  confirm-part requests and the janitor interleave freely; each repository or storage call is one
  step.  Status transitions are compare-and-set, the other writes are blind saves of a whole row as
  it was read earlier.  A write that reports an error may or may not have taken effect, and a
  request may stop for good at any point; a storage error means that nothing was completed.
*/
module Upload {
  import opened Wrappers

  datatype Status = Initiated | InProgress | Completing | Completed | Aborted | Expired

  datatype PartStatus = Pending | Uploaded

  datatype Part = Part(number: nat, status: PartStatus, etag: string, url: string)

  datatype Session = Session(status: Status, totalParts: nat, completedAt: Option<int>)

  datatype CompletedPart = CompletedPart(number: nat, etag: string)

  /** Where a request is, with the rows it has read. */
  datatype Client =
    | CompleteStart
    | CompleteReady(session: Session, parts: seq<Part>)  // passed its checks, before the transition to completing
    | CompleteLocked(session: Session, parts: seq<Part>) // owns the transition, before the storage call
    | CompleteFailed                                     // storage failed, before the transition back
    | CompleteStored(session: Session)                   // storage succeeded, before the video is read
    | CompleteVideo(session: Session)                    // before the video is saved
    | CompleteSaving(session: Session)                   // before the session is saved as completed
    | CompletePublishing                                 // before the event is published
    | UrlStart(number: int)
    | UrlChecked(status: Status, number: int)
    | UrlRead(status: Status, part: Part)
    | UrlSigned(status: Status, part: Part)
    | UrlMarking
    | ConfirmStart(number: int, etag: string)            // the ETag with the quotes around it removed
    | ConfirmChecked(number: int, etag: string)
    | ConfirmRead(part: Part, etag: string)
    | ConfirmCounting                                    // before the uploaded parts are counted
    | AbortStart
    | AbortRead(session: Session)
    | AbortSaving(session: Session)
    | JanitorStart
    | JanitorRead(session: Session)
    | JanitorSaving(session: Session)
    | Done

  datatype State = State(
    session: Session,
    parts: seq<Part>,
    calls: seq<seq<CompletedPart>>, // the part lists of all CompleteMultipartUpload calls
    completions: nat,               // how many of those calls succeeded
    clients: map<nat, Client>)

  predicate Active(status: Status) { status == Initiated || status == InProgress }

  predicate Terminal(status: Status) { status == Completed || status == Aborted || status == Expired }

  function TrimLeft(s: string): (r: string)
    ensures r == "" || r[0] != '"'
  {
    if s != "" && s[0] == '"' then TrimLeft(s[1..]) else s
  }

  function TrimRight(s: string): (r: string)
    ensures r <= s && (r == "" || r[|r| - 1] != '"')
  {
    if s != "" && s[|s| - 1] == '"' then TrimRight(s[..|s| - 1]) else s
  }

  /** The ETag without the quotes around it. */
  function Trim(s: string): string { TrimRight(TrimLeft(s)) }

  predicate Trims(raw: string, etag: string) { etag == Trim(raw) }

  predicate Unquoted(etag: string) {
    etag != "" && etag[0] != '"' && etag[|etag| - 1] != '"'
  }

  predicate OnlyQuotes(s: string) { forall i :: 0 <= i < |s| ==> s[i] == '"' }

  lemma {:induction false} TrimLeftCuts(s: string) returns (n: nat)
    ensures n <= |s| && TrimLeft(s) == s[n..] && OnlyQuotes(s[..n])
  {
    n := 0;
    if s != "" && s[0] == '"' {
      var m := TrimLeftCuts(s[1..]);
      n := m + 1;
      assert s[..n] == [s[0]] + s[1..][..m];
    }
  }

  lemma {:induction false} TrimRightCuts(s: string) returns (n: nat)
    ensures n <= |s| && TrimRight(s) == s[..n] && OnlyQuotes(s[n..])
  {
    n := |s|;
    if s != "" && s[|s| - 1] == '"' {
      n := TrimRightCuts(s[..|s| - 1]);
      assert s[n..] == s[..|s| - 1][n..] + [s[|s| - 1]];
    }
  }

  /** Only quotes are cut off, before and behind. */
  lemma TrimCuts(s: string) returns (left: string, right: string)
    ensures s == left + Trim(s) + right && OnlyQuotes(left) && OnlyQuotes(right)
  {
    var n := TrimLeftCuts(s);
    var m := TrimRightCuts(TrimLeft(s));
    left, right := s[..n], TrimLeft(s)[m..];
  }

  lemma TrimUnquotes(s: string)
    ensures Trim(s) != "" ==> Unquoted(Trim(s))
  {
  }

  predicate AllUploaded(parts: seq<Part>) {
    forall i :: 0 <= i < |parts| ==> parts[i].status == Uploaded
  }

  function ToCompleted(parts: seq<Part>): (list: seq<CompletedPart>)
    ensures |list| == |parts|
    ensures forall i :: 0 <= i < |list| ==> list[i] == CompletedPart(parts[i].number, parts[i].etag)
  {
    seq(|parts|, i requires 0 <= i < |parts| => CompletedPart(parts[i].number, parts[i].etag))
  }

  function Goto(s: State, id: nat, c: Client): State {
    s.(clients := s.clients[id := c])
  }

  /** UPDATE upload_sessions SET status = to WHERE id = ? AND status = from */
  function Transition(s: State, from: Status, to: Status): State {
    if s.session.status == from then s.(session := s.session.(status := to)) else s
  }

  function SaveSession(s: State, row: Session): State { s.(session := row) }

  function SavePart(s: State, row: Part): State
    requires 1 <= row.number <= |s.parts|
  {
    s.(parts := s.parts[row.number - 1 := row])
  }

  /** What a complete request does with the session it has read. */
  function AfterCompleteRead(session: Session, parts: seq<Part>): Client {
    if session.status != InProgress || !AllUploaded(parts) then Done else CompleteReady(session, parts)
  }

  /** Request steps that only read: where the request at `c` may go on the rows it finds. */
  predicate Reads(s: State, c: Client, d: Client) {
    match c
    case CompleteStart => d == AfterCompleteRead(s.session, s.parts)
    case CompleteStored(session) => d == CompleteVideo(session)
    case CompleteVideo(session) => d == CompleteSaving(session)
    case UrlStart(n) =>
      Active(s.session.status) && 1 <= n <= s.session.totalParts && d == UrlChecked(s.session.status, n)
    case UrlChecked(status, n) =>
      1 <= n <= |s.parts| && s.parts[n - 1].status != Uploaded && d == UrlRead(status, s.parts[n - 1])
    case UrlRead(status, part) => d.UrlSigned? && d == UrlSigned(status, part.(url := d.part.url))
    case ConfirmStart(n, etag) => Active(s.session.status) && d == ConfirmChecked(n, etag)
    case ConfirmChecked(n, etag) =>
      1 <= n <= |s.parts| && s.parts[n - 1].status != Uploaded && etag != "" && d == ConfirmRead(s.parts[n - 1], etag)
    case AbortStart => s.session.status != Aborted && d == AbortRead(s.session)
    case AbortRead(session) => d == AbortSaving(session)
    case JanitorStart => Active(s.session.status) && d == JanitorRead(s.session)
    case JanitorRead(session) => d == JanitorSaving(session)
    case _ => false
  }

  /** Request steps that write: the effect `e` on the tables or on storage, and where the request is then. */
  predicate Writes(s: State, c: Client, e: State, d: Client) {
    match c
    case CompleteReady(session, parts) =>
      && s.session.status == InProgress && e == Transition(s, InProgress, Completing)
      && (d == CompleteLocked(session, parts) || d == Done)
    case CompleteLocked(session, parts) =>
      var called := s.(calls := s.calls + [ToCompleted(parts)]);
      || (e == called.(completions := s.completions + 1) && d == CompleteStored(session))
      || (e == called && d == CompleteFailed)
    case CompleteFailed => e == Transition(s, Completing, InProgress) && d == Done
    case CompleteSaving(session) =>
      d == CompletePublishing
      && (e == s || (e.session.completedAt.Some?
                     && e == SaveSession(s, session.(status := Completed, completedAt := e.session.completedAt))))
    case UrlSigned(status, part) =>
      d == (if status == Initiated then UrlMarking else Done)
      && (e == s || (1 <= part.number <= |s.parts| && e == SavePart(s, part)))
    case UrlMarking => e == Transition(s, Initiated, InProgress) && d == Done
    case ConfirmRead(part, etag) =>
      1 <= part.number <= |s.parts| && e == SavePart(s, part.(etag := etag, status := Uploaded)) && d == ConfirmCounting
    case AbortSaving(session) => e == SaveSession(s, session.(status := Aborted)) && d == Done
    case JanitorSaving(session) => e == SaveSession(s, session.(status := Expired)) && d == Done
    case _ => false
  }

  /** One step of request `id`: a read, a write, or the end of the request without an effect. */
  ghost predicate Step(s: State, id: nat, t: State)
    requires id in s.clients
  {
    || t == Goto(s, id, Done)
    || (exists d :: Reads(s, s.clients[id], d) && t == Goto(s, id, d))
    || (exists e, d :: Writes(s, s.clients[id], e, d) && t == Goto(e, id, d))
  }

  /** The first state of a request. */
  ghost predicate Entry(c: Client) {
    c.CompleteStart? || c.UrlStart? || c.AbortStart? || c.JanitorStart?
    || (c.ConfirmStart? && exists raw :: Trims(raw, c.etag))
  }

  /** A new request arrives, or one of the running requests makes a step. */
  ghost predicate Next(s: State, t: State) {
    || (exists id: nat, c: Client :: id !in s.clients && Entry(c) && t == Goto(s, id, c))
    || (exists id: nat :: id in s.clients && Step(s, id, t))
  }

  function NewParts(n: nat): seq<Part> {
    seq(n, i requires 0 <= i < n => Part(i + 1, Pending, "", ""))
  }

  /** A session as InitChunkedUpload creates it. */
  predicate Init(s: State) {
    var n := s.session.totalParts;
    n >= 1 && s == State(Session(Initiated, n, None), NewParts(n), [], 0, map[])
  }

  ghost predicate Behaviour(states: seq<State>) {
    && states != [] && Init(states[0])
    && forall i {:trigger StepAt(states, i)} :: 0 <= i < |states| - 1 ==> StepAt(states, i)
  }

  ghost predicate StepAt(states: seq<State>, i: nat)
    requires i < |states| - 1
  {
    Next(states[i], states[i + 1])
  }

  /** Between its transition to completing and its exit. */
  predicate Critical(c: Client) {
    || c.CompleteLocked? || c.CompleteFailed? || c.CompleteStored? || c.CompleteVideo?
    || c.CompleteSaving? || c.CompletePublishing?
  }

  predicate CriticalAt(s: State, id: nat) { id in s.clients && Critical(s.clients[id]) }

  /** Critical, and the storage call has succeeded. */
  predicate HasStored(c: Client) {
    c.CompleteStored? || c.CompleteVideo? || c.CompleteSaving? || c.CompletePublishing?
  }

  predicate PartsOk(parts: seq<Part>, n: nat) {
    && |parts| == n
    && forall i :: 0 <= i < n ==>
         parts[i].number == i + 1 && (parts[i].status == Uploaded ==> Unquoted(parts[i].etag))
  }

  /** The rows a request holds are rows this session once had. */
  predicate ClientOk(c: Client, n: nat) {
    match c
    case CompleteReady(session, parts) => session.totalParts == n && PartsOk(parts, n) && AllUploaded(parts)
    case CompleteLocked(session, parts) => session.totalParts == n && PartsOk(parts, n) && AllUploaded(parts)
    case CompleteStored(session) => session.totalParts == n
    case CompleteVideo(session) => session.totalParts == n
    case CompleteSaving(session) => session.totalParts == n
    case UrlRead(_, part) => part.status == Pending
    case UrlSigned(_, part) => part.status == Pending
    case ConfirmStart(_, etag) => etag == "" || Unquoted(etag)
    case ConfirmChecked(_, etag) => etag == "" || Unquoted(etag)
    case ConfirmRead(_, etag) => Unquoted(etag)
    case AbortRead(session) => session.totalParts == n
    case AbortSaving(session) => session.totalParts == n
    case JanitorRead(session) => session.totalParts == n
    case JanitorSaving(session) => session.totalParts == n
    case _ => true
  }

  /** A part list with numbers exactly 1..n ascending, each with an ETag. */
  predicate FullList(list: seq<CompletedPart>, n: nat) {
    |list| == n && forall i :: 0 <= i < n ==> list[i].number == i + 1 && Unquoted(list[i].etag)
  }

  ghost predicate Rows(s: State) {
    var n := s.session.totalParts;
    && PartsOk(s.parts, n)
    && (forall id :: id in s.clients ==> ClientOk(s.clients[id], n))
    && (forall k :: 0 <= k < |s.calls| ==> FullList(s.calls[k], n))
  }

  /** Mutual exclusion of completers, and at most one success. */
  ghost predicate Exclusive(s: State) {
    && (forall i, j :: i in s.clients && j in s.clients && Critical(s.clients[i]) && Critical(s.clients[j]) ==> i == j)
    && (forall i :: i in s.clients && Critical(s.clients[i]) ==>
          !Active(s.session.status) && (HasStored(s.clients[i]) <==> s.completions == 1))
    && (s.completions > 0 ==> !Active(s.session.status))
    && s.completions <= 1
    && (s.session.status == Completed ==> s.completions == 1)
  }

  /** Blind saves included, every step keeps the part rows sound. */
  lemma StepParts(s: State, id: nat, t: State)
    requires PartsOk(s.parts, s.session.totalParts) && id in s.clients && Step(s, id, t)
    requires ClientOk(s.clients[id], s.session.totalParts)
    ensures t.session.totalParts == s.session.totalParts && PartsOk(t.parts, t.session.totalParts)
  {
  }

  /** The rows a request reads are sound, and it keeps them as they are. */
  lemma StepClient(s: State, id: nat, t: State)
    requires PartsOk(s.parts, s.session.totalParts) && id in s.clients && Step(s, id, t)
    requires ClientOk(s.clients[id], s.session.totalParts)
    ensures t.clients == s.clients[id := t.clients[id]] && ClientOk(t.clients[id], s.session.totalParts)
  {
  }

  lemma StepCalls(s: State, id: nat, t: State)
    requires id in s.clients && Step(s, id, t) && ClientOk(s.clients[id], s.session.totalParts)
    ensures t.calls == s.calls || exists list :: FullList(list, s.session.totalParts) && t.calls == s.calls + [list]
  {
    match s.clients[id] {
      case CompleteLocked(_, parts) => assert FullList(ToCompleted(parts), s.session.totalParts);
      case _ =>
    }
  }

  lemma StepRows(s: State, id: nat, t: State)
    requires Rows(s) && id in s.clients && Step(s, id, t)
    ensures Rows(t) && t.session.totalParts == s.session.totalParts
  {
    assert ClientOk(s.clients[id], s.session.totalParts);
    StepParts(s, id, t);
    StepClient(s, id, t);
    StepCalls(s, id, t);
  }

  /** A request that does not own the session leaves it owned, and leaves terminal statuses terminal. */
  lemma OutsideStep(s: State, id: nat, t: State)
    requires id in s.clients && Step(s, id, t) && !Critical(s.clients[id]) && !s.clients[id].CompleteReady?
    ensures t.completions == s.completions && t.clients == s.clients[id := t.clients[id]] && !Critical(t.clients[id])
    ensures !Active(s.session.status) ==> !Active(t.session.status)
    ensures t.session.status == Completed ==> s.session.status == Completed
    ensures Terminal(s.session.status) ==> Terminal(t.session.status)
  {
  }

  lemma AcquireStep(s: State, id: nat, t: State)
    requires Exclusive(s) && id in s.clients && Step(s, id, t) && s.clients[id].CompleteReady?
    ensures Exclusive(t)
    ensures Terminal(s.session.status) ==> Terminal(t.session.status)
    ensures t.completions == s.completions
  {
  }

  /** The storage call of the completer that owns the session, and its way back when that fails. */
  lemma StorageStep(s: State, id: nat, t: State)
    requires Exclusive(s) && id in s.clients && Step(s, id, t)
    requires s.clients[id].CompleteLocked? || s.clients[id].CompleteFailed?
    ensures Exclusive(t)
    ensures Terminal(s.session.status) ==> Terminal(t.session.status)
    ensures s.completions <= t.completions
  {
    assert forall i :: i in t.clients && i != id ==> t.clients[i] == s.clients[i] && !Critical(t.clients[i]);
  }

  /** What it records afterwards. */
  lemma RecordStep(s: State, id: nat, t: State)
    requires Exclusive(s) && id in s.clients && Step(s, id, t) && HasStored(s.clients[id])
    ensures Exclusive(t)
    ensures Terminal(s.session.status) ==> Terminal(t.session.status)
    ensures s.completions <= t.completions
  {
    assert forall i :: i in t.clients && i != id ==> t.clients[i] == s.clients[i] && !Critical(t.clients[i]);
  }

  lemma StepExclusive(s: State, id: nat, t: State)
    requires Exclusive(s) && id in s.clients && Step(s, id, t)
    ensures Exclusive(t)
    ensures Terminal(s.session.status) ==> Terminal(t.session.status)
    ensures s.completions <= t.completions
  {
    if HasStored(s.clients[id]) {
      RecordStep(s, id, t);
    } else if Critical(s.clients[id]) {
      StorageStep(s, id, t);
    } else if s.clients[id].CompleteReady? {
      AcquireStep(s, id, t);
    } else {
      OutsideStep(s, id, t);
    }
  }

  lemma ArrivalKeeps(s: State, id: nat, c: Client)
    requires Rows(s) && Exclusive(s) && id !in s.clients && Entry(c)
    ensures Rows(Goto(s, id, c)) && Exclusive(Goto(s, id, c))
  {
    if c.ConfirmStart? {
      var raw :| Trims(raw, c.etag);
      TrimUnquotes(raw);
    }
  }

  lemma NextKeeps(s: State, t: State)
    requires Rows(s) && Exclusive(s) && Next(s, t)
    ensures Rows(t) && Exclusive(t) && t.session.totalParts == s.session.totalParts
    ensures Terminal(s.session.status) ==> Terminal(t.session.status)
    ensures s.completions <= t.completions
  {
    if id: nat :| id in s.clients && Step(s, id, t) {
      StepRows(s, id, t);
      StepExclusive(s, id, t);
    } else {
      var id: nat, c :| id !in s.clients && Entry(c) && t == Goto(s, id, c);
      ArrivalKeeps(s, id, c);
    }
  }

  lemma {:induction false} BehaviourKeeps(states: seq<State>, k: nat)
    requires Behaviour(states) && k < |states|
    ensures Rows(states[k]) && Exclusive(states[k]) && states[k].session.totalParts == states[0].session.totalParts
  {
    if k > 0 {
      BehaviourKeeps(states, k - 1);
      assert StepAt(states, k - 1);
      NextKeeps(states[k - 1], states[k]);
    }
  }

  /**
    Under every interleaving at most one completer is between its transition and its exit, and
    CompleteMultipartUpload succeeds at most once; a row that says completed is one it succeeded for.
  */
  lemma CompletesAtMostOnce(states: seq<State>, k: nat, i: nat, j: nat)
    requires Behaviour(states) && k < |states|
    ensures states[k].completions <= 1
    ensures CriticalAt(states[k], i) && CriticalAt(states[k], j) ==> i == j
    ensures states[k].session.status == Completed ==> states[k].completions == 1
  {
    BehaviourKeeps(states, k);
  }

  /** Terminal statuses are closed: a session that has ended never becomes active or completing again. */
  lemma {:induction false} TerminalIsForever(states: seq<State>, j: nat, k: nat)
    requires Behaviour(states) && j <= k < |states|
    ensures Terminal(states[j].session.status) ==> Terminal(states[k].session.status)
    ensures states[j].completions <= states[k].completions
  {
    if j < k {
      TerminalIsForever(states, j, k - 1);
      BehaviourKeeps(states, k - 1);
      assert StepAt(states, k - 1);
      NextKeeps(states[k - 1], states[k]);
    }
  }

  /**
    Every CompleteMultipartUpload call lists the parts 1..TotalParts in ascending order, each with an
    ETag, and every part row that is marked uploaded has one.
  */
  lemma CompletionLists(states: seq<State>, k: nat)
    requires Behaviour(states) && k < |states|
    ensures forall c :: 0 <= c < |states[k].calls| ==> FullList(states[k].calls[c], states[0].session.totalParts)
    ensures forall i :: 0 <= i < |states[k].parts| && states[k].parts[i].status == Uploaded ==>
              Unquoted(states[k].parts[i].etag)
  {
    BehaviourKeeps(states, k);
  }

  /** The part row `n` is marked as uploaded. */
  predicate Marked(s: State, n: nat) { 1 <= n <= |s.parts| && s.parts[n - 1].status == Uploaded }

  /** A part-URL request is about to save the row `n` as it was before. */
  predicate StaleSave(s: State, id: nat, n: nat) {
    id in s.clients && s.clients[id].UrlSigned? && s.clients[id].part.number == n
  }

  /**
    A part that is marked uploaded is not always so: a request for its URL that has read the row
    before can still save it as pending.  This is the only way: some request can take the mark away
    in its next step if and only if it is such a request.
  */
  lemma MarkCanBeLost(s: State, id: nat, n: nat)
    requires Rows(s) && Marked(s, n) && id in s.clients
    ensures (exists t :: Step(s, id, t) && !Marked(t, n)) <==> StaleSave(s, id, n)
  {
    assert ClientOk(s.clients[id], s.session.totalParts);
    if StaleSave(s, id, n) {
      var c := s.clients[id];
      var e, d := SavePart(s, c.part), if c.status == Initiated then UrlMarking else Done;
      assert Writes(s, c, e, d);
      assert Step(s, id, Goto(e, id, d)) && !Marked(Goto(e, id, d), n);
    } else {
      forall t | Step(s, id, t) ensures Marked(t, n) {
        MarkStays(s, id, t, n);
      }
    }
  }

  lemma MarkStays(s: State, id: nat, t: State, n: nat)
    requires Rows(s) && Marked(s, n) && id in s.clients && Step(s, id, t) && !StaleSave(s, id, n)
    ensures Marked(t, n)
  {
  }

  /** No part-URL request is about to save the row. */
  ghost predicate NoStaleSave(s: State, n: nat) { forall id :: !StaleSave(s, id, n) }

  lemma NextKeepsMark(s: State, t: State, n: nat)
    requires Rows(s) && Marked(s, n) && Next(s, t) && NoStaleSave(s, n)
    ensures Marked(t, n)
  {
    if id: nat :| id in s.clients && Step(s, id, t) {
      MarkStays(s, id, t, n);
    }
  }

  /** Without such requests at any time in between, an uploaded part stays uploaded. */
  lemma {:induction false} MarkIsKept(states: seq<State>, j: nat, k: nat, n: nat)
    requires Behaviour(states) && j <= k < |states| && Marked(states[j], n)
    requires forall i {:trigger states[i]} :: j <= i < k ==> NoStaleSave(states[i], n)
    ensures Marked(states[k], n)
  {
    if j < k {
      MarkIsKept(states, j, k - 1, n);
      BehaviourKeeps(states, k - 1);
      assert StepAt(states, k - 1);
      NextKeepsMark(states[k - 1], states[k], n);
    }
  }

  lemma Longer(states: seq<State>, t: State)
    requires Behaviour(states) && Next(states[|states| - 1], t)
    ensures Behaviour(states + [t])
  {
    forall i | 0 <= i < |states| ensures StepAt(states + [t], i) {
      assert i < |states| - 1 ==> StepAt(states, i);
    }
  }

  lemma Arrives(states: seq<State>, id: nat, c: Client) returns (more: seq<State>, t: State)
    requires Behaviour(states) && id !in states[|states| - 1].clients && Entry(c)
    ensures more == states + [t] && t == Goto(states[|states| - 1], id, c) && Behaviour(more)
  {
    t, more := Goto(states[|states| - 1], id, c), states + [Goto(states[|states| - 1], id, c)];
    Longer(states, t);
  }

  lemma ReadsOn(states: seq<State>, id: nat, d: Client) returns (more: seq<State>, t: State)
    requires Behaviour(states)
    requires var s := states[|states| - 1]; id in s.clients && Reads(s, s.clients[id], d)
    ensures more == states + [t] && t == Goto(states[|states| - 1], id, d) && Behaviour(more)
  {
    t, more := Goto(states[|states| - 1], id, d), states + [Goto(states[|states| - 1], id, d)];
    assert Step(states[|states| - 1], id, t);
    Longer(states, t);
  }

  lemma WritesOn(states: seq<State>, id: nat, e: State, d: Client) returns (more: seq<State>, t: State)
    requires Behaviour(states)
    requires var s := states[|states| - 1]; id in s.clients && Writes(s, s.clients[id], e, d)
    ensures more == states + [t] && t == Goto(e, id, d) && Behaviour(more)
  {
    t, more := Goto(e, id, d), states + [Goto(e, id, d)];
    assert Step(states[|states| - 1], id, t);
    Longer(states, t);
  }

  const PENDING_PART := Part(1, Pending, "", "")

  /** A request has signed a URL for the only part. */
  lemma UrlIsSigned() returns (states: seq<State>, s: State)
    ensures Behaviour(states) && s == states[|states| - 1]
    ensures s == State(Session(Initiated, 1, None), [PENDING_PART], [], 0, map[0 := UrlSigned(Initiated, PENDING_PART)])
  {
    s := State(Session(Initiated, 1, None), NewParts(1), [], 0, map[]);
    states := [s];
    assert s.parts == [PENDING_PART];
    states, s := Arrives(states, 0, UrlStart(1));
    states, s := ReadsOn(states, 0, UrlChecked(Initiated, 1));
    states, s := ReadsOn(states, 0, UrlRead(Initiated, PENDING_PART));
    states, s := ReadsOn(states, 0, UrlSigned(Initiated, PENDING_PART));
    assert s.clients == map[0 := UrlSigned(Initiated, PENDING_PART)];
  }

  /** Another request has read the part to confirm it. */
  lemma ConfirmHasRead() returns (states: seq<State>, s: State)
    ensures Behaviour(states) && s == states[|states| - 1]
    ensures s == State(Session(Initiated, 1, None), [PENDING_PART], [], 0,
                       map[0 := UrlSigned(Initiated, PENDING_PART), 1 := ConfirmRead(PENDING_PART, "e")])
  {
    states, s := UrlIsSigned();
    assert Trims("e", "e");
    states, s := Arrives(states, 1, ConfirmStart(1, "e"));
    states, s := ReadsOn(states, 1, ConfirmChecked(1, "e"));
    states, s := ReadsOn(states, 1, ConfirmRead(PENDING_PART, "e"));
  }

  /** A behaviour in which a confirmed part is pending again. */
  lemma ConfirmationUndone() returns (states: seq<State>, k: nat)
    ensures Behaviour(states) && k < |states| && Marked(states[k], 1) && !Marked(states[|states| - 1], 1)
  {
    var s;
    states, s := ConfirmHasRead();
    states, s := WritesOn(states, 1, SavePart(s, Part(1, Uploaded, "e", "")), ConfirmCounting);
    k := |states| - 1;
    states, s := WritesOn(states, 0, SavePart(s, PENDING_PART), UrlMarking);
  }
}
