/**
  User preferences behind a cache.  Calls do not overlap; times are seconds.  The service keeps its
  whole past of table snapshots as `history`, so that an answer can be compared with the table as
  it stood when the answer was cached.
*/
module PreferenceCache {
  import opened Wrappers

  const TTL := 300

  const PROMOTION := "promotion_campaign"

  datatype Key = Key(user: string, event: string, channel: string)

  datatype Pref = Pref(enabled: bool, deleted: bool)

  type Table = map<Key, Pref>

  datatype Item = Item(event: string, channel: string, enabled: bool)

  datatype Entry = Entry(items: seq<Item>, expiresAt: int)

  /** The table from a time on. */
  datatype Snapshot = Snapshot(table: Table, from: int)

  predicate Visible(t: Table, k: Key) { k in t && !t[k].deleted }

  /** SELECT enabled WHERE user, event and channel match AND deleted_at IS NULL; true without a row. */
  function Lookup(t: Table, k: Key): bool {
    if Visible(t, k) then t[k].enabled else true
  }

  /** INSERT ... ON CONFLICT (user_id, event_type, channel) DO UPDATE SET enabled */
  function Upsert(t: Table, k: Key, enabled: bool): Table {
    t[k := Pref(enabled, k in t && t[k].deleted)]
  }

  function UpsertAll(t: Table, user: string, items: seq<Item>): Table {
    if items == [] then t
    else
      var item := items[|items| - 1];
      Upsert(UpsertAll(t, user, items[..|items| - 1]), Key(user, item.event, item.channel), item.enabled)
  }

  predicate IsFor(item: Item, k: Key) { item.event == k.event && item.channel == k.channel }

  /** The items are the user's visible rows, in any order. */
  ghost predicate ListsRows(items: seq<Item>, t: Table, user: string) {
    && (forall i {:trigger items[i]} :: 0 <= i < |items| ==>
          var k := Key(user, items[i].event, items[i].channel); Visible(t, k) && t[k].enabled == items[i].enabled)
    && (forall k {:trigger Visible(t, k)} :: Visible(t, k) && k.user == user ==> Listed(items, k))
  }

  predicate Listed(items: seq<Item>, k: Key) { exists i :: 0 <= i < |items| && IsFor(items[i], k) }

  predicate OnlyPromotions(t: Table) { forall k :: k in t ==> k.event == PROMOTION }

  predicate AllPromotions(items: seq<Item>) { forall i :: 0 <= i < |items| ==> items[i].event == PROMOTION }

  /** The first item for the key decides; no item means enabled. */
  function Scan(items: seq<Item>, k: Key): bool {
    if items == [] then true
    else if IsFor(items[0], k) then items[0].enabled
    else Scan(items[1..], k)
  }

  lemma {:induction false} ScanFinds(items: seq<Item>, k: Key)
    ensures Listed(items, k) ==>
              exists i :: 0 <= i < |items| && IsFor(items[i], k) && Scan(items, k) == items[i].enabled
    ensures !Listed(items, k) ==> Scan(items, k)
  {
    if items != [] && !IsFor(items[0], k) {
      ScanFinds(items[1..], k);
      if Listed(items, k) {
        var i :| 0 <= i < |items| && IsFor(items[i], k);
        assert IsFor(items[1..][i - 1], k);
        var j :| 0 <= j < |items[1..]| && IsFor(items[1..][j], k) && Scan(items[1..], k) == items[1..][j].enabled;
        assert IsFor(items[j + 1], k) && Scan(items, k) == items[j + 1].enabled;
      }
    }
  }

  /** A scan of the listed rows answers like the look-up in the table. */
  lemma ScanIsLookup(items: seq<Item>, t: Table, k: Key)
    requires ListsRows(items, t, k.user)
    ensures Scan(items, k) == Lookup(t, k)
  {
    ScanFinds(items, k);
    if Listed(items, k) {
      var i :| 0 <= i < |items| && IsFor(items[i], k) && Scan(items, k) == items[i].enabled;
      assert Key(k.user, items[i].event, items[i].channel) == k;
    } else {
      assert !Visible(t, k);
    }
  }

  /** Saving changes nothing for another user. */
  lemma {:induction false} OtherUsersKept(t: Table, user: string, items: seq<Item>, k: Key)
    requires k.user != user
    ensures var u := UpsertAll(t, user, items); (k in u <==> k in t) && (k in t ==> u[k] == t[k])
  {
    if items != [] {
      OtherUsersKept(t, user, items[..|items| - 1], k);
    }
  }

  /** The saved value that stands for the key: the last one in the request. */
  function LastFor(items: seq<Item>, k: Key): Option<bool> {
    if items == [] then None
    else if IsFor(items[|items| - 1], k) then Some(items[|items| - 1].enabled)
    else LastFor(items[..|items| - 1], k)
  }

  /**
    After a request the last item for a key decides, unless the row is soft-deleted: saving does
    not bring it back, and the look-up goes on answering true.
  */
  lemma {:induction false} SavedIsFound(t: Table, user: string, items: seq<Item>, k: Key)
    requires k.user == user
    ensures var u := UpsertAll(t, user, items);
      && ((k in u && u[k].deleted) <==> (k in t && t[k].deleted))
      && Lookup(u, k) == if k in t && t[k].deleted then true
                         else if LastFor(items, k).Some? then LastFor(items, k).value else Lookup(t, k)
  {
    if items != [] {
      SavedIsFound(t, user, items[..|items| - 1], k);
    }
  }

  /** A snapshot that still held at the time `at` or later. */
  predicate HeldAt(history: seq<Snapshot>, i: int, at: int) {
    0 <= i < |history| && (i + 1 == |history| || history[i + 1].from >= at)
  }

  /** The answer is that of the table as it stood at some moment from `since` on. */
  ghost predicate AnswersSince(history: seq<Snapshot>, since: int, k: Key, answer: bool) {
    exists i :: HeldAt(history, i, since) && answer == Lookup(history[i].table, k)
  }

  /** The entry lists the rows of a table that held when the entry was made. */
  ghost predicate Backed(history: seq<Snapshot>, e: Entry, user: string) {
    exists i :: HeldAt(history, i, e.expiresAt - TTL) && ListsRows(e.items, history[i].table, user)
  }

  lemma BackedStays(history: seq<Snapshot>, e: Entry, user: string, s: Snapshot)
    requires Backed(history, e, user) && e.expiresAt - TTL <= s.from
    ensures Backed(history + [s], e, user)
  {
    var i :| HeldAt(history, i, e.expiresAt - TTL) && ListsRows(e.items, history[i].table, user);
    assert HeldAt(history + [s], i, e.expiresAt - TTL) && (history + [s])[i] == history[i];
  }

  lemma EntryAnswers(history: seq<Snapshot>, e: Entry, k: Key, now: int)
    requires Backed(history, e, k.user) && now <= e.expiresAt
    ensures AnswersSince(history, now - TTL, k, Scan(e.items, k))
  {
    var i :| HeldAt(history, i, e.expiresAt - TTL) && ListsRows(e.items, history[i].table, k.user);
    ScanIsLookup(e.items, history[i].table, k);
    assert HeldAt(history, i, now - TTL);
  }

  lemma CurrentAnswers(history: seq<Snapshot>, since: int, k: Key)
    requires history != []
    ensures AnswersSince(history, since, k, Lookup(history[|history| - 1].table, k))
  {
    assert HeldAt(history, |history| - 1, since);
  }

  lemma RowsKept(items: seq<Item>, t: Table, u: string, k: Key, enabled: bool)
    requires ListsRows(items, t, u) && k.user != u
    ensures ListsRows(items, Upsert(t, k, enabled), u)
  {
    assert forall other: Key :: other.user == u ==> (Visible(Upsert(t, k, enabled), other) <==> Visible(t, other));
  }

  /** Whether Redis answers a read, the database a query, and whether a new entry reaches Redis. */
  datatype ReadEnv = ReadEnv(read: bool, queried: bool, stored: bool)

  /** Whether each row is saved, and the entry deleted. */
  datatype SaveEnv = SaveEnv(saved: nat -> bool, deleted: bool)

  class PreferenceService {
    var table: Table
    var cache: map<string, Entry>
    ghost var history: seq<Snapshot>
    ghost var clock: int
    ghost var clean: bool // so far every delete from the cache worked and no request stopped half-way

    constructor (table: Table, now: int)
      requires OnlyPromotions(table)
      ensures Valid() && this.table == table && clean && clock == now
    {
      this.table, cache := table, map[];
      history, clock, clean := [Snapshot(table, now)], now, true;
    }

    ghost predicate Valid()
      reads this
    {
      Past() && (clean ==> Fresh(None))
    }

    ghost predicate Past()
      reads this
    {
      && history != [] && history[|history| - 1].table == table && history[|history| - 1].from <= clock
      && OnlyPromotions(table)
      && forall u :: u in cache ==> cache[u].expiresAt - TTL <= clock && Backed(history, cache[u], u)
    }

    /** The cache shows the current table, but perhaps not for one user. */
    ghost predicate Fresh(except: Option<string>)
      reads this
    {
      forall u :: u in cache && Some(u) != except ==> ListsRows(cache[u].items, table, u)
    }

    /** Redis has an entry for the user that has not expired. */
    predicate Cached(now: int, user: string)
      reads this
    {
      user in cache && now <= cache[user].expiresAt
    }

    /** Redis answers with the entry, with a miss, or not at all. */
    method CacheGet(now: int, user: string, answered: bool) returns (e: Option<seq<Item>>)
      ensures e == if answered && Cached(now, user) then Some(cache[user].items) else None
    {
      e := if !answered || user !in cache || now > cache[user].expiresAt then None else Some(cache[user].items);
    }

    method GetByUserID(user: string) returns (items: seq<Item>)
      ensures ListsRows(items, table, user)
    {
      items := [];
      var rest := table.Keys;
      while rest != {}
        invariant rest <= table.Keys
        invariant forall i {:trigger items[i]} :: 0 <= i < |items| ==>
          var k := Key(user, items[i].event, items[i].channel);
          Visible(table, k) && table[k].enabled == items[i].enabled
        invariant forall k {:trigger Visible(table, k)} :: Visible(table, k) && k !in rest && k.user == user ==>
                  Listed(items, k)
        decreases rest
      {
        var k :| k in rest;
        ghost var before := items;
        if k.user == user && !table[k].deleted {
          items := items + [Item(k.event, k.channel, table[k].enabled)];
          assert IsFor(items[|before|], k);
        }
        forall other | Listed(before, other) ensures Listed(items, other) {
          var i :| 0 <= i < |before| && IsFor(before[i], other);
          assert IsFor(items[i], other);
        }
        rest := rest - {k};
      }
    }

    /** The cached rows, or those of the table, which are then cached for 300 seconds. */
    method GetPreferences(now: int, user: string, env: ReadEnv) returns (r: Option<seq<Item>>)
      requires Valid() && clock <= now
      modifies this`cache, this`clock
      ensures Valid() && clock == now
      ensures r.Some? <==> (env.read && old(Cached(now, user))) || env.queried
      ensures r.Some? && clean ==> ListsRows(r.value, table, user)
      ensures r.Some? ==> exists i :: HeldAt(history, i, now - 300) && ListsRows(r.value, history[i].table, user)
      ensures env.read && old(Cached(now, user)) ==> r == Some(old(cache)[user].items) && cache == old(cache)
      ensures r.Some? && !(env.read && old(Cached(now, user))) ==>
                && ListsRows(r.value, table, user)
                && cache == if env.stored then old(cache)[user := Entry(r.value, now + 300)] else old(cache)
      ensures r.None? ==> cache == old(cache)
    {
      clock := now;
      var cached := CacheGet(now, user, env.read);
      if cached.Some? {
        return cached;
      }
      if !env.queried {
        return None;
      }
      var items := GetByUserID(user);
      assert HeldAt(history, |history| - 1, now);
      if env.stored {
        cache := cache[user := Entry(items, now + TTL)];
      }
      return Some(items);
    }

    /** Only promotions can be switched off, and only by a row that is not soft-deleted. */
    method IsNotificationEnabled(now: int, k: Key, env: ReadEnv) returns (r: Option<bool>)
      requires Valid() && clock <= now
      modifies this`clock
      ensures Valid() && clock == now
      ensures r.Some? <==> k.event != "promotion_campaign" || (env.read && Cached(now, k.user)) || env.queried
      ensures k.event != "promotion_campaign" ==> r == Some(true)
      ensures r.Some? ==> AnswersSince(history, now - 300, k, r.value)
      ensures r.Some? && (clean || !(env.read && Cached(now, k.user))) ==>
                r.value == (k in table && !table[k].deleted ==> table[k].enabled)
    {
      clock := now;
      CurrentAnswers(history, now - TTL, k);
      if k.event != PROMOTION {
        return Some(true);
      }
      var cached := CacheGet(now, k.user, env.read);
      if cached.Some? {
        var enabled := FirstFor(cached.value, k);
        ScanAnswers(now, k);
        return Some(enabled);
      }
      r := IsEnabled(k, env.queried);
    }

    /** The query on the table. */
    method IsEnabled(k: Key, queried: bool) returns (r: Option<bool>)
      ensures r == if queried then Some(k in table && !table[k].deleted ==> table[k].enabled) else None
    {
      r := if queried then Some(Lookup(table, k)) else None;
    }

    lemma ScanAnswers(now: int, k: Key)
      requires Valid() && Cached(now, k.user)
      ensures AnswersSince(history, now - TTL, k, Scan(cache[k.user].items, k))
      ensures clean ==> Scan(cache[k.user].items, k) == Lookup(table, k)
    {
      EntryAnswers(history, cache[k.user], k, now);
      if clean {
        ScanIsLookup(cache[k.user].items, table, k);
      }
    }

    method FirstFor(items: seq<Item>, k: Key) returns (enabled: bool)
      ensures enabled == Scan(items, k)
    {
      for i := 0 to |items|
        invariant Scan(items, k) == Scan(items[i..], k)
      {
        if IsFor(items[i], k) {
          return items[i].enabled;
        }
        assert items[i..][1..] == items[i + 1..];
      }
      enabled := true;
    }

    /** One row, as a new snapshot. */
    method UpsertRow(now: int, user: string, item: Item)
      requires Past() && clock == now && item.event == PROMOTION && (clean ==> Fresh(Some(user)))
      modifies this`table, this`history
      ensures Past() && table == Upsert(old(table), Key(user, item.event, item.channel), item.enabled)
      ensures clean ==> Fresh(Some(user))
    {
      ghost var was := table;
      table := Upsert(table, Key(user, item.event, item.channel), item.enabled);
      forall u | u in cache ensures Backed(history + [Snapshot(table, now)], cache[u], u) {
        BackedStays(history, cache[u], u, Snapshot(table, now));
      }
      history := history + [Snapshot(table, now)];
      forall u | u in cache && u != user && clean ensures ListsRows(cache[u].items, table, u) {
        RowsKept(cache[u].items, was, u, Key(user, item.event, item.channel), item.enabled);
      }
    }

    /**
      Without an error everything was saved; a request with another event type saves nothing.  The
      cache stays the table's unless a row is not saved or the delete fails.
    */
    method UpsertPreferences(now: int, user: string, items: seq<Item>, env: SaveEnv) returns (ok: bool)
      requires Valid() && clock <= now
      modifies this
      ensures Valid() && clock == now
      ensures ok <==> AllPromotions(items) && AllSaved(env, |items|)
      ensures ok ==> table == UpsertAll(old(table), user, items)
      ensures ok ==> clean == (old(clean) && env.deleted)
      ensures ok ==> cache == old(cache) - {user} || (!env.deleted && cache == old(cache))
      ensures !ok ==> cache == old(cache)
      ensures !AllPromotions(items) ==> table == old(table) && clean == old(clean)
      ensures !ok && AllPromotions(items) ==> SavedTo(env, old(table), table, user, items)
    {
      clock := now;
      for i := 0 to |items|
        invariant AllPromotions(items[..i])
      {
        if items[i].event != PROMOTION {
          return false;
        }
      }
      assert items[..|items|] == items;
      ok := UpsertRows(now, user, items, env);
      if ok {
        Invalidate(user, env.deleted);
      }
    }

    /** A failing delete may still take effect. */
    method Invalidate(user: string, deleted: bool)
      requires Past() && (clean ==> Fresh(Some(user)))
      modifies this`cache, this`clean
      ensures Valid() && clean == (old(clean) && deleted)
      ensures cache == old(cache) - {user} || (!deleted && cache == old(cache))
    {
      var gone: bool := *;
      if deleted || gone {
        cache := cache - {user};
      }
      clean := clean && deleted;
    }

    /** The rows one after the other, up to the first failure; the row that fails may still be saved. */
    method UpsertRows(now: int, user: string, items: seq<Item>, env: SaveEnv) returns (ok: bool)
      requires Valid() && clock == now && AllPromotions(items)
      modifies this`table, this`history, this`clean
      ensures Past() && (clean <==> old(clean) && ok) && (clean ==> Fresh(Some(user)))
      ensures ok <==> AllSaved(env, |items|)
      ensures ok ==> table == UpsertAll(old(table), user, items)
      ensures !ok ==> SavedTo(env, old(table), table, user, items)
    {
      assert items[..0] == [];
      for i := 0 to |items|
        invariant Past() && clean == old(clean) && (clean ==> Fresh(Some(user)))
        invariant table == UpsertAll(old(table), user, items[..i]) && AllSaved(env, i)
      {
        var saved: bool := *;
        if env.saved(i) || saved {
          UpsertRow(now, user, items[i]);
        }
        assert items[..i + 1][..i] == items[..i];
        if !env.saved(i) {
          assert FailsAt(env, old(table), table, user, items, i);
          clean := false;
          return false;
        }
      }
      assert items[..|items|] == items;
      ok := true;
    }
  }

  predicate AllSaved(env: SaveEnv, n: nat) { forall i :: 0 <= i < n ==> env.saved(i) }

  /** Item number `i` is the first that is not saved without an error. */
  predicate FailsAt(env: SaveEnv, before: Table, after: Table, user: string, items: seq<Item>, i: nat)
    requires i < |items|
  {
    && AllSaved(env, i) && !env.saved(i)
    && (after == UpsertAll(before, user, items[..i]) || after == UpsertAll(before, user, items[..i + 1]))
  }

  ghost predicate SavedTo(env: SaveEnv, before: Table, after: Table, user: string, items: seq<Item>) {
    exists i :: 0 <= i < |items| && FailsAt(env, before, after, user, items, i)
  }
}
