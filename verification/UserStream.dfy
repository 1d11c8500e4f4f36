/**
  The identity service's user stream: the two read-only queries of the user repository and the
  keyset loop that pages through them.  The table may change between two page reads, so the stream
  is described by the list of tables its reads have seen.
*/
module UserStream {
  import opened Wrappers
  import Keyset

  const UUID_COUNT: nat := 0x1_0000_0000_0000_0000_0000_0000_0000_0000
  const DEFAULT_STREAM_BATCH_SIZE: nat := 500

  /** A UUID, as the 128-bit number whose order is PostgreSQL's order on `uuid`. */
  type Id = x: nat | x < UUID_COUNT

  /** A cursor is the last id seen; `None` is the empty string. */
  type Cursor = Option<Id>

  datatype User = User(email: string, name: string, role: string, deleted: bool)
  type Table = map<Id, User>

  datatype UserRecord = UserRecord(id: Id, email: string, name: string, role: string)

  predicate IdBefore(a: Id, b: Id) { a < b }

  predicate After(cursor: Cursor, id: Id) { cursor.None? || cursor.value < id }

  function ToRecord(id: Id, u: User): UserRecord {
    UserRecord(id, u.email, u.name, u.role)
  }

  /** The rows both queries select: not soft-deleted, and of the role unless the role is empty. */
  function Matching(t: Table, role: string): set<Id> {
    set id | id in t && !t[id].deleted && (role == "" || t[id].role == role)
  }

  /** A record that shows the row of a matching user. */
  predicate Shows(t: Table, role: string, rec: UserRecord) {
    rec.id in Matching(t, role) && rec == ToRecord(rec.id, t[rec.id])
  }

  function Records(t: Table, ids: seq<Id>): (r: seq<UserRecord>)
    requires forall id :: id in ids ==> id in t
    ensures |r| == |ids|
    ensures forall i :: 0 <= i < |r| ==> r[i] == ToRecord(ids[i], t[ids[i]])
  {
    seq(|ids|, i requires 0 <= i < |ids| => ToRecord(ids[i], t[ids[i]]))
  }

  lemma IdsAreOrdered()
    ensures Keyset.StrictOrder(IdBefore)
  {
  }

  /** WHERE id > c ORDER BY id ASC LIMIT n */
  function PageIds(ids: set<Id>, cursor: Cursor, limit: nat): (s: seq<Id>)
    ensures forall k :: k in s ==> k in ids
  {
    IdsAreOrdered();
    Keyset.Page(IdBefore, ids, cursor, limit)
  }

  /** SELECT ... WHERE deleted_at IS NULL [AND role = r] [AND id > c] ORDER BY id ASC LIMIT n */
  function ListUsers(t: Table, role: string, cursor: Cursor, limit: nat): seq<UserRecord> {
    Records(t, PageIds(Matching(t, role), cursor, limit))
  }

  function CountUsers(t: Table, role: string): nat { |Matching(t, role)| }

  predicate Ascending(recs: seq<UserRecord>) {
    forall i, j :: 0 <= i < j < |recs| ==> recs[i].id < recs[j].id
  }

  predicate Sent(recs: seq<UserRecord>, id: Id) {
    exists i :: 0 <= i < |recs| && recs[i].id == id
  }

  /** The record is a row that one of the page reads saw while it matched. */
  predicate Genuine(rec: UserRecord, role: string, seen: seq<Table>) {
    exists k :: 0 <= k < |seen| && Shows(seen[k], role, rec)
  }

  predicate MatchedThroughout(id: Id, role: string, seen: seq<Table>) {
    forall k :: 0 <= k < |seen| ==> id in Matching(seen[k], role)
  }

  /** The stream has gone past `id`: it ended normally, or sent `id` or a later one. */
  predicate Reached(sent: seq<UserRecord>, ended: bool, id: Id) {
    ended || (sent != [] && id <= sent[|sent| - 1].id)
  }

  datatype ReadResult = Saw(table: Table) | Failed

  /** What the world answers: page reads, the state of the stream context, and the sends. */
  datatype ServerEnv = ServerEnv(
    read: nat -> ReadResult,
    cancelled: nat -> bool,
    sendFails: nat -> bool)

  function PageSize(requested: int): (n: nat)
    ensures n > 0 && (requested <= 0 ==> n == 500) && (requested > 0 ==> n == requested)
  {
    if requested <= 0 then DEFAULT_STREAM_BATCH_SIZE else requested
  }

  /** What one page of ids is, in terms of the id set. */
  ghost predicate IsIdPage(page: seq<Id>, ids: set<Id>, cursor: Cursor, limit: nat) {
    && |page| <= limit
    && (forall i, j :: 0 <= i < j < |page| ==> page[i] < page[j])
    && (forall k :: k in page ==> k in ids && After(cursor, k))
    && (forall k :: k in ids && After(cursor, k) ==>
          k in page || (page != [] && |page| == limit && page[|page| - 1] < k))
  }

  lemma PageIdsIsPage(ids: set<Id>, cursor: Cursor, limit: nat)
    requires limit > 0
    ensures IsIdPage(PageIds(ids, cursor, limit), ids, cursor, limit)
  {
    IdsAreOrdered();
    var page := PageIds(ids, cursor, limit);
    var keys := Keyset.Beyond(IdBefore, ids, cursor);
    assert forall i, j :: 0 <= i < j < |page| ==> IdBefore(page[i], page[j]);
    forall k | k in page ensures k in ids && After(cursor, k) {
      assert k in Keyset.Sort(IdBefore, keys);
    }
    forall k | k in ids && After(cursor, k)
      ensures k in page || (page != [] && |page| == limit && page[|page| - 1] < k)
    {
      Keyset.PageHasNoGaps(IdBefore, ids, cursor, limit, k);
    }
  }

  /**
    What one page read returns, in terms of the table it read: rows of matching users beyond the
    cursor in id order, leaving out such a user only when the page is full and stops before it.
  */
  ghost predicate IsPage(page: seq<UserRecord>, t: Table, role: string, cursor: Cursor, limit: nat) {
    && |page| <= limit && Ascending(page)
    && (forall i :: 0 <= i < |page| ==> Shows(t, role, page[i]) && After(cursor, page[i].id))
    && (forall id: Id {:trigger Sent(page, id)} :: id in Matching(t, role) && After(cursor, id) ==>
          Sent(page, id) || (page != [] && |page| == limit && page[|page| - 1].id < id))
  }

  lemma RecordsArePage(ids: seq<Id>, t: Table, role: string, cursor: Cursor, limit: nat)
    requires IsIdPage(ids, Matching(t, role), cursor, limit)
    ensures IsPage(Records(t, ids), t, role, cursor, limit)
  {
    var page := Records(t, ids);
    forall i | 0 <= i < |page| ensures Shows(t, role, page[i]) && After(cursor, page[i].id) && page[i].id == ids[i] {
      assert ids[i] in ids;
    }
    forall id: Id | id in Matching(t, role) && After(cursor, id) && id in ids ensures Sent(page, id) {
      var i :| 0 <= i < |ids| && ids[i] == id;
      assert page[i].id == id;
    }
  }

  /** The repository's query returns such a page. */
  lemma ListUsersIsPage(t: Table, role: string, cursor: Cursor, limit: nat)
    requires limit > 0
    ensures IsPage(ListUsers(t, role, cursor, limit), t, role, cursor, limit)
  {
    PageIdsIsPage(Matching(t, role), cursor, limit);
    RecordsArePage(PageIds(Matching(t, role), cursor, limit), t, role, cursor, limit);
  }

  /** Increasing ids beyond the start cursor, each row as one of the reads saw it. */
  predicate Sound(sent: seq<UserRecord>, start: Cursor, role: string, seen: seq<Table>) {
    && Ascending(sent)
    && (forall i :: 0 <= i < |sent| ==> After(start, sent[i].id) && Genuine(sent[i], role, seen))
  }

  /** No gaps: a user that matched at every read is sent before the stream passes it or ends. */
  ghost predicate Complete(sent: seq<UserRecord>, start: Cursor, role: string, seen: seq<Table>, ended: bool) {
    forall id: Id {:trigger MatchedThroughout(id, role, seen)} ::
      MatchedThroughout(id, role, seen) && After(start, id) && Reached(sent, ended, id) ==> Sent(sent, id)
  }

  function LastCursor(sent: seq<UserRecord>, start: Cursor): Cursor {
    if sent == [] then start else Some(sent[|sent| - 1].id)
  }

  lemma SendSound(sent: seq<UserRecord>, start: Cursor, role: string, seen: seq<Table>, t: Table,
                  limit: nat, page: seq<UserRecord>, i: nat)
    requires Sound(sent, start, role, seen)
    requires IsPage(page, t, role, LastCursor(sent, start), limit) && i <= |page|
    ensures Sound(sent + page[..i], start, role, seen + [t])
  {
    var now := sent + page[..i];
    forall j | 0 <= j < |now| ensures After(start, now[j].id) && Genuine(now[j], role, seen + [t]) {
      if j < |sent| {
        var k :| 0 <= k < |seen| && Shows(seen[k], role, sent[j]);
        assert (seen + [t])[k] == seen[k];
      } else {
        assert (seen + [t])[|seen|] == t && now[j] == page[j - |sent|];
      }
    }
  }

  /** A user that matches throughout is either already sent, or in the next page, or behind it. */
  lemma SendComplete(sent: seq<UserRecord>, start: Cursor, role: string, seen: seq<Table>, t: Table,
                     limit: nat, page: seq<UserRecord>, i: nat)
    requires Complete(sent, start, role, seen, false)
    requires IsPage(page, t, role, LastCursor(sent, start), limit) && i <= |page|
    ensures Complete(sent + page[..i], start, role, seen + [t], i == |page| < limit)
  {
    var now := sent + page[..i];
    forall id: Id | MatchedThroughout(id, role, seen + [t]) && After(start, id) && Reached(now, i == |page| < limit, id)
      ensures Sent(now, id)
    {
      assert (seen + [t])[|seen|] == t;
      assert forall k :: 0 <= k < |seen| ==> (seen + [t])[k] == seen[k];
      assert MatchedThroughout(id, role, seen);
      if Reached(sent, false, id) {
        var j :| 0 <= j < |sent| && sent[j].id == id;
        assert now[j].id == id;
      } else {
        var inPage := Sent(page, id);
        assert i > 0 ==> now[|now| - 1] == page[i - 1];
        var j :| 0 <= j < |page| && page[j].id == id;
        assert now[|sent| + j].id == id;
      }
    }
  }

  /** How many records so many full pages hold. */
  function FullPages(pages: nat, size: nat): nat {
    if pages == 0 then 0 else FullPages(pages - 1, size) + size
  }

  /** One page read. */
  method FetchPage(t: Table, role: string, cursor: Cursor, limit: nat) returns (users: seq<UserRecord>)
    requires limit > 0
    ensures IsPage(users, t, role, cursor, limit)
  {
    users := ListUsers(t, role, cursor, limit);
    ListUsersIsPage(t, role, cursor, limit);
  }

  /** Sends one page, stopping at the first send that fails; `delivered` is how many went out. */
  method SendPage(users: seq<UserRecord>, already: nat, env: ServerEnv) returns (delivered: nat)
    ensures delivered <= |users|
    ensures forall k :: already <= k < already + delivered ==> !env.sendFails(k)
    ensures delivered < |users| ==> env.sendFails(already + delivered)
  {
    delivered := 0;
    while delivered < |users|
      invariant delivered <= |users| && forall k :: already <= k < already + delivered ==> !env.sendFails(k)
    {
      if env.sendFails(already + delivered) {
        return;
      }
      delivered := delivered + 1;
    }
  }

  /** One page: the query behind the cursor, and the sends of its rows. */
  method StreamPage(t: Table, role: string, cursor: Cursor, limit: nat, already: nat, env: ServerEnv,
                    ghost sent: seq<UserRecord>, ghost start: Cursor, ghost seen: seq<Table>)
    returns (users: seq<UserRecord>, delivered: nat)
    requires limit > 0 && already == |sent| && cursor == LastCursor(sent, start)
    requires Sound(sent, start, role, seen) && Complete(sent, start, role, seen, false)
    ensures delivered <= |users| <= limit
    ensures forall k :: already <= k < already + delivered ==> !env.sendFails(k)
    ensures delivered < |users| ==> env.sendFails(already + delivered)
    ensures users != [] ==> After(cursor, users[|users| - 1].id)
    ensures Sound(sent + users[..delivered], start, role, seen + [t])
    ensures Complete(sent + users[..delivered], start, role, seen + [t], delivered == |users| < limit)
  {
    users := FetchPage(t, role, cursor, limit);
    delivered := SendPage(users, already, env);
    SendSound(sent, start, role, seen, t, limit, users, delivered);
    SendComplete(sent, start, role, seen, t, limit, users, delivered);
  }

  /** None of the calls that were made has failed: so many page reads and so many sends. */
  ghost predicate Worked(env: ServerEnv, seen: seq<Table>, sent: seq<UserRecord>) {
    && (forall k :: 0 <= k < |seen| ==> !env.cancelled(k) && env.read(k) == Saw(seen[k]))
    && (forall k :: 0 <= k < |sent| ==> !env.sendFails(k))
  }

  /**
    Sends, page by page, the users beyond the start cursor.  `sent` is what reached the stream and
    `seen` the tables the page reads saw, whether or not the call ended in an error.  It ends in an
    error only if its context has ended, or the next page read or the next send fails.
  */
  method StreamUsers(role: string, start: Cursor, requested: int, env: ServerEnv)
    returns (sent: seq<UserRecord>, seen: seq<Table>, ok: bool)
    ensures Sound(sent, start, role, seen)
    ensures Complete(sent, start, role, seen, ok)
    ensures Worked(env, seen, sent)
    ensures !ok ==> env.cancelled(|seen|) || env.read(|seen|).Failed? || env.sendFails(|sent|)
    ensures ok ==> seen != [] && FullPages(|seen| - 1, PageSize(requested)) <= |sent|
    ensures ok ==> |sent| < FullPages(|seen|, PageSize(requested))
  {
    var batchSize := PageSize(requested);
    var cursor := start;
    sent := [];
    seen := [];
    while true
      invariant Sound(sent, start, role, seen)
      invariant Complete(sent, start, role, seen, false)
      invariant Worked(env, seen, sent)
      invariant cursor == LastCursor(sent, start)
      invariant |sent| == FullPages(|seen|, batchSize)
      decreases UUID_COUNT - if cursor.None? then -1 else cursor.value
    {
      if env.cancelled(|seen|) {
        return sent, seen, false;
      }
      var result := env.read(|seen|);
      if result.Failed? {
        return sent, seen, false;
      }
      var users, delivered := StreamPage(result.table, role, cursor, batchSize, |sent|, env, sent, start, seen);
      sent, seen := sent + users[..delivered], seen + [result.table];
      if delivered < |users| {
        return sent, seen, false;
      }
      if |users| == 0 {
        break;
      }
      cursor := Some(users[|users| - 1].id);
      if |users| < batchSize {
        break;
      }
    }
    ok := true;
  }

  /** The user of the record is in the table, not deleted, of the role if one is asked for, and as the record says. */
  predicate IsRow(rec: UserRecord, t: Table, role: string) {
    && rec.id in t && !t[rec.id].deleted && (role == "" || t[rec.id].role == role)
    && rec.email == t[rec.id].email && rec.name == t[rec.id].name && rec.role == t[rec.id].role
  }

  /** What was sent was such a row at one of the page reads. */
  lemma SentIsARow(sent: seq<UserRecord>, start: Cursor, role: string, seen: seq<Table>, i: nat)
    requires Sound(sent, start, role, seen) && i < |sent|
    ensures exists k :: 0 <= k < |seen| && IsRow(sent[i], seen[k], role)
  {
    assert Genuine(sent[i], role, seen);
    var k :| 0 <= k < |seen| && Shows(seen[k], role, sent[i]);
    assert IsRow(sent[i], seen[k], role);
  }

  /** And who is not left out: users not deleted, and of the role if one was asked for. */
  lemma WhoMatches(id: Id, role: string, seen: seq<Table>)
    requires forall k :: 0 <= k < |seen| ==>
               id in seen[k] && !seen[k][id].deleted && (role == "" || seen[k][id].role == role)
    ensures MatchedThroughout(id, role, seen)
  {
  }

  predicate Unchanging(seen: seq<Table>, t: Table) {
    forall k :: 0 <= k < |seen| ==> seen[k] == t
  }

  /** `all` is the whole query without a limit: every matching user beyond the cursor, in id order. */
  ghost predicate Lists(all: seq<UserRecord>, t: Table, role: string, cursor: Cursor) {
    && Ascending(all)
    && (forall i :: 0 <= i < |all| ==> Shows(t, role, all[i]) && After(cursor, all[i].id))
    && (forall id: Id {:trigger Sent(all, id)} :: id in Matching(t, role) && After(cursor, id) ==> Sent(all, id))
  }

  /** CountUsers counts what the unlimited query lists. */
  lemma ListedCount(all: seq<UserRecord>, t: Table, role: string)
    requires Lists(all, t, role, None)
    ensures |all| == CountUsers(t, role)
  {
    var ids := seq(|all|, i requires 0 <= i < |all| => all[i].id);
    forall id: Id ensures id in ids <==> id in Matching(t, role) {
      if id in Matching(t, role) {
        assert Sent(all, id);
        var i :| 0 <= i < |all| && all[i].id == id;
        assert ids[i] == id;
      }
    }
    SortedSize(ids, Matching(t, role));
  }

  lemma {:induction false} SortedSize(ids: seq<Id>, members: set<Id>)
    requires forall i, j :: 0 <= i < j < |ids| ==> ids[i] < ids[j]
    requires forall id :: id in ids <==> id in members
    ensures |ids| == |members|
  {
    if ids == [] {
      assert members == {};
    } else {
      var last := ids[|ids| - 1];
      assert last in ids;
      assert ids == ids[..|ids| - 1] + [last];
      assert forall id :: id in ids[..|ids| - 1] ==> id in ids && id != last;
      SortedSize(ids[..|ids| - 1], members - {last});
    }
  }

  /** On a table that does not change, every record sent is a row of that table. */
  lemma SentRow(sent: seq<UserRecord>, start: Cursor, role: string, seen: seq<Table>, t: Table, i: nat)
    requires Sound(sent, start, role, seen) && Unchanging(seen, t) && i < |sent|
    ensures Shows(t, role, sent[i]) && After(start, sent[i].id)
  {
    assert Genuine(sent[i], role, seen);
    var k :| 0 <= k < |seen| && Shows(seen[k], role, sent[i]);
    assert seen[k] == t;
  }

  /** On a table that does not change, every user the stream has reached has been sent. */
  lemma ReachedIsSent(sent: seq<UserRecord>, start: Cursor, role: string, seen: seq<Table>, ended: bool,
                      t: Table, id: Id)
    requires Complete(sent, start, role, seen, ended) && Unchanging(seen, t)
    requires id in Matching(t, role) && After(start, id) && Reached(sent, ended, id)
    ensures Sent(sent, id)
  {
    assert MatchedThroughout(id, role, seen);
  }

  /** Nothing is skipped: if the streams agree on the first `i` records, they agree on the next. */
  lemma NextInOrder(sent: seq<UserRecord>, all: seq<UserRecord>, i: nat)
    requires Ascending(sent) && Ascending(all)
    requires i < |sent| && i <= |all| && forall j :: 0 <= j < i ==> sent[j].id == all[j].id
    requires Sent(all, sent[i].id)
    requires i < |all| && all[i].id <= sent[i].id ==> Sent(sent, all[i].id)
    ensures i < |all| && sent[i].id == all[i].id
  {
    var p :| 0 <= p < |all| && all[p].id == sent[i].id;
    assert forall j :: 0 <= j < i ==> all[j].id < all[p].id;
    if all[i].id < all[p].id {
      assert false;
    }
  }

  /** The first `i` records sent are the first `i` records of the unlimited query. */
  lemma {:induction false} SentInOrder(sent: seq<UserRecord>, start: Cursor, role: string, seen: seq<Table>,
                                       ended: bool, t: Table, all: seq<UserRecord>, i: nat)
    requires Sound(sent, start, role, seen) && Complete(sent, start, role, seen, ended)
    requires Unchanging(seen, t) && Lists(all, t, role, start) && i <= |sent|
    ensures i <= |all| && forall j :: 0 <= j < i ==> sent[j].id == all[j].id
  {
    if i > 0 {
      SentInOrder(sent, start, role, seen, ended, t, all, i - 1);
      SentRow(sent, start, role, seen, t, i - 1);
      assert Sent(all, sent[i - 1].id);
      if i - 1 < |all| && all[i - 1].id <= sent[i - 1].id {
        ReachedIsSent(sent, start, role, seen, ended, t, all[i - 1].id);
      }
      NextInOrder(sent, all, i - 1);
    }
  }

  /**
    On a table that does not change, what a stream has sent is a prefix of the matching users beyond
    the cursor, and all of them when it ends normally.
  */
  lemma FixedTableStream(sent: seq<UserRecord>, start: Cursor, role: string, seen: seq<Table>, ended: bool, t: Table,
                         all: seq<UserRecord>)
    requires Sound(sent, start, role, seen) && Complete(sent, start, role, seen, ended)
    requires Unchanging(seen, t) && Lists(all, t, role, start)
    ensures sent <= all
    ensures ended ==> sent == all
  {
    SentInOrder(sent, start, role, seen, ended, t, all, |sent|);
    forall i | 0 <= i < |sent| ensures sent[i] == all[i] {
      SentRow(sent, start, role, seen, t, i);
    }
    if ended && |sent| < |all| {
      ReachedIsSent(sent, start, role, seen, ended, t, all[|sent|].id);
      assert false;
    }
  }

  /** From the empty cursor, a stream over an unchanging table sends exactly CountUsers records. */
  lemma FixedTableCount(sent: seq<UserRecord>, role: string, seen: seq<Table>, t: Table)
    requires Sound(sent, None, role, seen) && Complete(sent, None, role, seen, true)
    requires Unchanging(seen, t)
    ensures |sent| == CountUsers(t, role)
  {
    forall i | 0 <= i < |sent| ensures Shows(t, role, sent[i]) {
      SentRow(sent, None, role, seen, t, i);
    }
    forall id: Id | id in Matching(t, role) ensures Sent(sent, id) {
      ReachedIsSent(sent, None, role, seen, true, t, id);
    }
    ListedCount(sent, t, role);
  }

  lemma SentOnce(recs: seq<UserRecord>, id: Id) returns (i: nat)
    requires Ascending(recs) && Sent(recs, id)
    ensures i < |recs| && recs[i].id == id && forall j :: 0 <= j < |recs| && j != i ==> recs[j].id != id
  {
    i :| 0 <= i < |recs| && recs[i].id == id;
    assert forall j :: 0 <= j < |recs| && j != i ==> recs[j].id < recs[i].id || recs[i].id < recs[j].id;
  }

  /** Exactly once: a user that matched throughout has one and only one record in a finished stream. */
  lemma ExactlyOnce(sent: seq<UserRecord>, start: Cursor, role: string, seen: seq<Table>, id: Id) returns (i: nat)
    requires Sound(sent, start, role, seen) && Complete(sent, start, role, seen, true)
    requires MatchedThroughout(id, role, seen) && After(start, id)
    ensures i < |sent| && sent[i].id == id && forall j :: 0 <= j < |sent| && j != i ==> sent[j].id != id
  {
    i := SentOnce(sent, id);
  }
}
