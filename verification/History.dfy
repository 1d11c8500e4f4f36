/**
  The notification history, newest first, one page at a time.  A cursor is the position of the last
  row of a page; the next page starts behind it.
*/
module History {
  import opened Wrappers
  import Keyset

  datatype Notification = Notification(
    user: string, status: string, channel: string, event: string, subject: string, recipient: string, createdAt: int)

  type Table = map<nat, Notification>

  datatype Key = Key(createdAt: int, id: nat)

  /** Empty strings and absent times filter nothing. */
  datatype Filter = Filter(user: string, status: string, channel: string, event: string, from: Option<int>,
                           to: Option<int>)

  datatype Item = Item(id: nat, status: string, channel: string, event: string, subject: string,
                       recipient: string, createdAt: int)

  datatype Response = Response(items: seq<Item>, next: Option<Key>, hasMore: bool)

  /** A field of a request that is absent, does not parse, or has a value. */
  datatype Field<T> = Absent | Malformed | Value(value: T)

  datatype Request = Request(
    user: string, status: string, channel: string, event: string,
    from: Field<int>, to: Field<int>, cursor: Field<Key>, limit: int)

  datatype Result = Ok(page: Response) | Err

  /** ORDER BY created_at DESC, id DESC */
  predicate Before(a: Key, b: Key) {
    a.createdAt > b.createdAt || (a.createdAt == b.createdAt && a.id > b.id)
  }

  lemma KeysAreOrdered()
    ensures Keyset.StrictOrder(Before)
  {
  }

  predicate Selects(f: Filter, n: Notification) {
    && n.user == f.user
    && (f.status == "" || n.status == f.status)
    && (f.channel == "" || n.channel == f.channel)
    && (f.event == "" || n.event == f.event)
    && (f.from.None? || n.createdAt >= f.from.value)
    && (f.to.None? || n.createdAt <= f.to.value)
  }

  /** The key is that of a selected row. */
  predicate Shown(t: Table, f: Filter, k: Key) {
    k.id in t && t[k.id].createdAt == k.createdAt && Selects(f, t[k.id])
  }

  function Keys(t: Table, f: Filter): (keys: set<Key>)
    ensures forall k :: k in keys <==> Shown(t, f, k)
  {
    set id | id in t && Selects(f, t[id]) :: Key(t[id].createdAt, id)
  }

  predicate InTable(t: Table, keys: seq<Key>) { forall i :: 0 <= i < |keys| ==> keys[i].id in t }

  function ToItem(id: nat, n: Notification): Item {
    Item(id, n.status, n.channel, n.event, n.subject, n.recipient, n.createdAt)
  }

  function Items(t: Table, keys: seq<Key>): (items: seq<Item>)
    requires InTable(t, keys)
    ensures |items| == |keys|
    ensures forall i :: 0 <= i < |items| ==> items[i] == ToItem(keys[i].id, t[keys[i].id])
  {
    seq(|keys|, i requires 0 <= i < |keys| => ToItem(keys[i].id, t[keys[i].id]))
  }

  predicate Behind(cursor: Option<Key>, k: Key) { cursor.None? || Before(cursor.value, k) }

  /** The filtered history behind a cursor: every selected row exactly once, in the order of the keys. */
  ghost predicate Lists(t: Table, f: Filter, cursor: Option<Key>, keys: seq<Key>) {
    && (forall i, j :: 0 <= i < j < |keys| ==> Before(keys[i], keys[j]))
    && (forall i :: 0 <= i < |keys| ==> Shown(t, f, keys[i]) && Behind(cursor, keys[i]))
    && (forall k {:trigger Shown(t, f, k)} :: Shown(t, f, k) && Behind(cursor, k) ==> k in keys)
  }

  function Limit(requested: int): (n: nat)
    ensures 1 <= n <= 100
  {
    if requested <= 0 then 20 else if requested > 100 then 100 else requested
  }

  /** The first page of a list of keys. */
  function Cut(t: Table, keys: seq<Key>, limit: nat): Response
    requires limit > 0 && InTable(t, keys)
  {
    if |keys| <= limit then Response(Items(t, keys), None, false)
    else Response(Items(t, keys[..limit]), Some(keys[limit - 1]), true)
  }

  /** The page behind a cursor. */
  ghost predicate IsPage(t: Table, f: Filter, cursor: Option<Key>, limit: nat, r: Response)
    requires limit > 0
  {
    exists rest {:trigger Lists(t, f, cursor, rest)} :: Lists(t, f, cursor, rest) && r == Cut(t, rest, limit)
  }

  /** The keys that are selected and lie behind the cursor. */
  function KeysBeyond(t: Table, f: Filter, cursor: Option<Key>): (keys: set<Key>)
    ensures forall k {:trigger k in keys} {:trigger Shown(t, f, k)} :: k in keys <==>
              Shown(t, f, k) && Behind(cursor, k)
  {
    Keyset.Beyond(Before, Keys(t, f), cursor)
  }

  /** A list is the sorted set of the keys. */
  lemma ListsSorts(t: Table, f: Filter, cursor: Option<Key>, keys: seq<Key>)
    ensures Lists(t, f, cursor, keys) <==> Keyset.Sorts(Before, KeysBeyond(t, f, cursor), keys)
  {
    if Keyset.Sorts(Before, KeysBeyond(t, f, cursor), keys) {
      assert forall i :: 0 <= i < |keys| ==> keys[i] in KeysBeyond(t, f, cursor);
    }
  }

  function SortedKeys(t: Table, f: Filter, cursor: Option<Key>): (keys: seq<Key>)
    ensures Lists(t, f, cursor, keys)
  {
    KeysAreOrdered();
    ListsSorts(t, f, cursor, Keyset.Sort(Before, KeysBeyond(t, f, cursor)));
    Keyset.Sort(Before, KeysBeyond(t, f, cursor))
  }

  /** WHERE ... AND (created_at, id) < cursor ORDER BY created_at DESC, id DESC LIMIT limit */
  method List(t: Table, f: Filter, cursor: Option<Key>, limit: nat) returns (keys: seq<Key>)
    ensures exists rest {:trigger Lists(t, f, cursor, rest)} ::
              Lists(t, f, cursor, rest) && keys == Keyset.Take(rest, limit)
  {
    keys := Keyset.Take(SortedKeys(t, f, cursor), limit);
  }

  predicate Rejected(req: Request) {
    req.from.Malformed? || req.to.Malformed? || req.cursor.Malformed?
  }

  function ToOption<T>(field: Field<T>): Option<T> {
    if field.Value? then Some(field.value) else None
  }

  function ToFilter(req: Request): Filter {
    Filter(req.user, req.status, req.channel, req.event, ToOption(req.from), ToOption(req.to))
  }

  /** A row that the request asks for: the user's own, by the request's filters, and older than its cursor. */
  predicate Wanted(req: Request, id: nat, n: Notification) {
    && n.user == req.user
    && (req.status != "" ==> n.status == req.status)
    && (req.channel != "" ==> n.channel == req.channel)
    && (req.event != "" ==> n.event == req.event)
    && (req.from.Value? ==> req.from.value <= n.createdAt)
    && (req.to.Value? ==> n.createdAt <= req.to.value)
    && (req.cursor.Value? ==>
          || n.createdAt < req.cursor.value.createdAt
          || (n.createdAt == req.cursor.value.createdAt && id < req.cursor.value.id))
  }

  /** The item shows the columns of a row that the request asks for. */
  predicate ShowsRow(t: Table, req: Request, item: Item) {
    && item.id in t && Wanted(req, item.id, t[item.id])
    && item.status == t[item.id].status && item.channel == t[item.id].channel && item.event == t[item.id].event
    && item.subject == t[item.id].subject && item.recipient == t[item.id].recipient
    && item.createdAt == t[item.id].createdAt
  }

  predicate Newer(item: Item, createdAt: int, id: nat) {
    item.createdAt > createdAt || (item.createdAt == createdAt && item.id > id)
  }

  /**
    The page shows the user's own rows, newest first; a row that it leaves out is older than all of
    them, and then the page is full, says that there are more, and has the position of its last row.
  */
  ghost predicate Shows(t: Table, req: Request, page: Response) {
    var n, limit := |page.items|, if req.limit <= 0 then 20 else if req.limit > 100 then 100 else req.limit;
    && 1 <= limit && n <= limit && (page.hasMore ==> n == limit)
    && page.next == (if page.hasMore then Some(Key(page.items[n - 1].createdAt, page.items[n - 1].id)) else None)
    && (forall i :: 0 <= i < n ==> ShowsRow(t, req, page.items[i]))
    && (forall i, j :: 0 <= i < j < n ==> Newer(page.items[i], page.items[j].createdAt, page.items[j].id))
    && (forall id :: id in t && Wanted(req, id, t[id]) ==> HasOrFollows(page, id, t[id].createdAt))
  }

  /** The page has the row, or it says that there are more and the row is older than its last one. */
  predicate HasOrFollows(page: Response, id: nat, createdAt: int) {
    || (exists i :: 0 <= i < |page.items| && page.items[i].id == id)
    || (page.hasMore && page.items != [] && Newer(page.items[|page.items| - 1], createdAt, id))
  }

  lemma WantedKeys(t: Table, req: Request, k: Key)
    requires !Rejected(req)
    ensures Shown(t, ToFilter(req), k) && Behind(ToOption(req.cursor), k) <==>
      k.id in t && t[k.id].createdAt == k.createdAt && Wanted(req, k.id, t[k.id])
  {
  }

  /** Item number `i` shows the row of key number `i`. */
  lemma ItemShows(t: Table, req: Request, rest: seq<Key>, page: Response, i: nat)
    requires !Rejected(req) && Lists(t, ToFilter(req), ToOption(req.cursor), rest)
    requires page == Cut(t, rest, Limit(req.limit)) && i < |page.items|
    ensures i < |rest| && rest[i] == Key(page.items[i].createdAt, page.items[i].id)
    ensures ShowsRow(t, req, page.items[i])
  {
    WantedKeys(t, req, rest[i]);
  }

  lemma WantedListed(t: Table, req: Request, rest: seq<Key>, id: nat) returns (j: nat)
    requires !Rejected(req) && Lists(t, ToFilter(req), ToOption(req.cursor), rest)
    requires id in t && Wanted(req, id, t[id])
    ensures j < |rest| && rest[j] == Key(t[id].createdAt, id)
  {
    WantedKeys(t, req, Key(t[id].createdAt, id));
    j :| 0 <= j < |rest| && rest[j] == Key(t[id].createdAt, id);
  }

  lemma WantedShown(t: Table, req: Request, rest: seq<Key>, page: Response, id: nat)
    requires !Rejected(req) && Lists(t, ToFilter(req), ToOption(req.cursor), rest)
    requires page == Cut(t, rest, Limit(req.limit)) && id in t && Wanted(req, id, t[id])
    ensures HasOrFollows(page, id, t[id].createdAt)
  {
    var n := |page.items|;
    var j := WantedListed(t, req, rest, id);
    if j < n {
      ItemShows(t, req, rest, page, j);
    } else {
      ItemShows(t, req, rest, page, n - 1);
      assert Before(rest[n - 1], rest[j]);
    }
  }

  lemma ItemsDescend(t: Table, req: Request, rest: seq<Key>, page: Response, i: nat, j: nat)
    requires !Rejected(req) && Lists(t, ToFilter(req), ToOption(req.cursor), rest)
    requires page == Cut(t, rest, Limit(req.limit)) && i < j < |page.items|
    ensures Newer(page.items[i], page.items[j].createdAt, page.items[j].id)
  {
    ItemShows(t, req, rest, page, i);
    ItemShows(t, req, rest, page, j);
    assert Before(rest[i], rest[j]);
  }

  lemma PageShows(t: Table, req: Request, page: Response)
    requires !Rejected(req) && IsPage(t, ToFilter(req), ToOption(req.cursor), Limit(req.limit), page)
    ensures Shows(t, req, page)
  {
    var rest :| Lists(t, ToFilter(req), ToOption(req.cursor), rest) && page == Cut(t, rest, Limit(req.limit));
    forall i | 0 <= i < |page.items|
      ensures ShowsRow(t, req, page.items[i]) && rest[i] == Key(page.items[i].createdAt, page.items[i].id)
    {
      ItemShows(t, req, rest, page, i);
    }
    forall id | id in t && Wanted(req, id, t[id]) ensures HasOrFollows(page, id, t[id].createdAt) {
      WantedShown(t, req, rest, page, id);
    }
    forall i, j | 0 <= i < j < |page.items| ensures Newer(page.items[i], page.items[j].createdAt, page.items[j].id) {
      ItemsDescend(t, req, rest, page, i, j);
    }
  }

  /** `failed` stands for a failing query. */
  method ListNotifications(t: Table, req: Request, failed: bool) returns (r: Result)
    ensures r.Err? <==> Rejected(req) || failed
    ensures r.Ok? ==> IsPage(t, ToFilter(req), ToOption(req.cursor), Limit(req.limit), r.page)
    ensures r.Ok? ==> Shows(t, req, r.page)
  {
    var limit := req.limit;
    if limit <= 0 {
      limit := 20;
    }
    if limit > 100 {
      limit := 100;
    }
    var filter := Filter(req.user, req.status, req.channel, req.event, None, None);
    if !req.from.Absent? {
      if req.from.Malformed? {
        return Err;
      }
      filter := filter.(from := Some(req.from.value));
    }
    if !req.to.Absent? {
      if req.to.Malformed? {
        return Err;
      }
      filter := filter.(to := Some(req.to.value));
    }
    var cursor := None;
    if !req.cursor.Absent? {
      if req.cursor.Malformed? {
        return Err;
      }
      cursor := Some(req.cursor.value);
    }
    if failed {
      return Err;
    }
    var page := FetchPage(t, filter, cursor, limit);
    PageShows(t, req, page);
    r := Ok(page);
  }

  /** One row more than the limit tells whether there are more. */
  lemma CutOfTake(t: Table, rest: seq<Key>, limit: nat, rows: seq<Key>)
    requires limit > 0 && InTable(t, rest) && rows == Keyset.Take(rest, limit + 1)
    ensures InTable(t, rows)
    ensures Cut(t, rest, limit) == if |rows| > limit then Response(Items(t, rows[..limit]), Some(rows[limit - 1]), true)
                                   else Response(Items(t, rows), None, false)
  {
    assert |rows| > limit ==> rows[..limit] == rest[..limit];
  }

  lemma PageOfTake(t: Table, f: Filter, cursor: Option<Key>, limit: nat, rows: seq<Key>)
    requires limit > 0
    requires exists rest {:trigger Lists(t, f, cursor, rest)} ::
               Lists(t, f, cursor, rest) && rows == Keyset.Take(rest, limit + 1)
    ensures InTable(t, rows)
    ensures IsPage(t, f, cursor, limit,
                   if |rows| > limit then Response(Items(t, rows[..limit]), Some(rows[limit - 1]), true)
                   else Response(Items(t, rows), None, false))
  {
    var rest :| Lists(t, f, cursor, rest) && rows == Keyset.Take(rest, limit + 1);
    CutOfTake(t, rest, limit, rows);
  }

  /** ListNotifications from its query on. */
  method FetchPage(t: Table, filter: Filter, cursor: Option<Key>, limit: nat) returns (page: Response)
    requires limit > 0
    ensures IsPage(t, filter, cursor, limit, page)
  {
    var rows := List(t, filter, cursor, limit + 1);
    PageOfTake(t, filter, cursor, limit, rows);
    var hasMore := |rows| > limit;
    if hasMore {
      rows := rows[..limit];
    }
    var items := CopyRows(t, rows);
    var next := None;
    if hasMore && |rows| > 0 {
      next := Some(rows[|rows| - 1]);
    }
    page := Response(items, next, hasMore);
  }

  method CopyRows(t: Table, rows: seq<Key>) returns (items: seq<Item>)
    requires InTable(t, rows)
    ensures items == Items(t, rows)
  {
    var a := new Item[|rows|](i => Item(0, "", "", "", "", "", 0));
    for i := 0 to |rows|
      invariant forall j :: 0 <= j < i ==> a[j] == ToItem(rows[j].id, t[rows[j].id])
    {
      a[i] := ToItem(rows[i].id, t[rows[i].id]);
    }
    items := a[..];
  }

  /** The later table holds all rows of the earlier one as they were, and otherwise only newer rows. */
  predicate OnlyNewer(t: Table, later: Table) {
    && (forall id :: id in t ==> id in later && later[id] == t[id])
    && (forall id, oldId :: id in later && id !in t && oldId in t ==> later[id].createdAt > t[oldId].createdAt)
  }

  /** Pages fetched one after the other, each with the cursor of the page before, on the table of its time. */
  ghost predicate Walk(tables: seq<Table>, f: Filter, limit: nat, pages: seq<Response>)
    requires limit > 0
  {
    && |tables| == |pages| > 0
    && IsPage(tables[0], f, None, limit, pages[0])
    && (forall k {:trigger Continues(tables, f, limit, pages, k)} :: 0 < k < |pages| ==>
          Continues(tables, f, limit, pages, k))
  }

  /** The page number `k` was asked for with the cursor of the page before it. */
  ghost predicate Continues(tables: seq<Table>, f: Filter, limit: nat, pages: seq<Response>, k: nat)
    requires limit > 0 && |tables| == |pages| && 0 < k < |pages|
  {
    && OnlyNewer(tables[0], tables[k]) && pages[k - 1].next.Some?
    && IsPage(tables[k], f, pages[k - 1].next, limit, pages[k])
  }

  lemma ListsUnique(t: Table, f: Filter, cursor: Option<Key>, a: seq<Key>, b: seq<Key>)
    requires Lists(t, f, cursor, a) && Lists(t, f, cursor, b)
    ensures a == b
  {
    KeysAreOrdered();
    ListsSorts(t, f, cursor, a);
    ListsSorts(t, f, cursor, b);
    Keyset.SortsUnique(Before, KeysBeyond(t, f, cursor), a, b);
  }

  /** Behind a row are the rows that follow it. */
  lemma ListsSuffix(t: Table, f: Filter, full: seq<Key>, to: nat)
    requires Lists(t, f, None, full) && 0 < to <= |full|
    ensures Lists(t, f, Some(full[to - 1]), full[to..])
  {
    KeysAreOrdered();
    ListsSorts(t, f, None, full);
    Keyset.SuffixSorts(Before, KeysBeyond(t, f, None), full, to - 1);
    assert Keyset.Beyond(Before, KeysBeyond(t, f, None), Some(full[to - 1])) == KeysBeyond(t, f, Some(full[to - 1]));
    ListsSorts(t, f, Some(full[to - 1]), full[to..]);
  }

  lemma NewIsNewer(t: Table, later: Table, oldId: nat, id: nat)
    requires OnlyNewer(t, later) && oldId in t && id in later && id !in t
    ensures later[id].createdAt > t[oldId].createdAt
  {
  }

  /** Behind a row that was there from the start nothing has changed. */
  lemma ListsLater(t: Table, later: Table, f: Filter, c: Key, rest: seq<Key>)
    requires OnlyNewer(t, later) && Shown(t, f, c) && Lists(t, f, Some(c), rest)
    ensures Lists(later, f, Some(c), rest)
  {
    forall k | Shown(later, f, k) && Before(c, k) ensures Shown(t, f, k) {
      if k.id !in t {
        NewIsNewer(t, later, c.id, k.id);
      }
    }
    assert forall i :: 0 <= i < |rest| ==> Shown(t, f, rest[i]) && Shown(later, f, rest[i]);
  }

  lemma CutLater(t: Table, later: Table, rest: seq<Key>, limit: nat)
    requires OnlyNewer(t, later) && limit > 0 && InTable(t, rest) && InTable(later, rest)
    ensures Cut(later, rest, limit) == Cut(t, rest, limit)
  {
    var shown := if |rest| <= limit then rest else rest[..limit];
    assert Items(later, shown) == Items(t, shown);
  }

  /** A page is cut from the list behind its cursor. */
  lemma PageIs(t: Table, f: Filter, cursor: Option<Key>, rest: seq<Key>, limit: nat, page: Response)
    requires limit > 0 && Lists(t, f, cursor, rest) && IsPage(t, f, cursor, limit, page)
    ensures page == Cut(t, rest, limit)
  {
    var other :| Lists(t, f, cursor, other) && page == Cut(t, other, limit);
    ListsUnique(t, f, cursor, rest, other);
  }

  /** The page behind a row of the first table is the same on a later one. */
  lemma NextPage(t: Table, later: Table, f: Filter, full: seq<Key>, to: nat, limit: nat, page: Response)
    requires limit > 0 && Lists(t, f, None, full) && 0 < to <= |full| && OnlyNewer(t, later)
    requires IsPage(later, f, Some(full[to - 1]), limit, page)
    ensures page == Cut(t, full[to..], limit)
  {
    ListsSuffix(t, f, full, to);
    ListsLater(t, later, f, full[to - 1], full[to..]);
    PageIs(later, f, Some(full[to - 1]), full[to..], limit, page);
    CutLater(t, later, full[to..], limit);
  }

  /** Where the page number `k` starts. */
  function Offset(k: nat, limit: nat): nat {
    if k == 0 then 0 else Offset(k - 1, limit) + limit
  }

  /** The page number `k` is cut from the rows at its offset. */
  lemma {:induction false} PageNumber(tables: seq<Table>, f: Filter, limit: nat, pages: seq<Response>,
                                      full: seq<Key>, k: nat)
    requires limit > 0 && Walk(tables, f, limit, pages) && k < |pages| && Lists(tables[0], f, None, full)
    ensures InTable(tables[0], full)
    ensures Offset(k, limit) <= |full| && (k > 0 ==> Offset(k, limit) < |full|)
    ensures pages[k] == Cut(tables[0], full[Offset(k, limit)..], limit)
  {
    if k == 0 {
      PageIs(tables[0], f, None, full, limit, pages[0]);
      assert full[0..] == full;
    } else {
      PageNumber(tables, f, limit, pages, full, k - 1);
      CutNext(tables[0], full, Offset(k - 1, limit), limit);
      assert Continues(tables, f, limit, pages, k);
      NextPage(tables[0], tables[k], f, full, Offset(k, limit), limit, pages[k]);
    }
  }

  lemma CutNext(t: Table, full: seq<Key>, from: nat, limit: nat)
    requires limit > 0 && from <= |full| && InTable(t, full)
    ensures Cut(t, full[from..], limit).next == if from + limit < |full| then Some(full[from + limit - 1]) else None
  {
  }

  function Concat(pages: seq<Response>): seq<Item> {
    if pages == [] then [] else Concat(pages[..|pages| - 1]) + pages[|pages| - 1].items
  }

  function Min(a: int, b: int): int { if a < b then a else b }

  lemma ConcatStep(pages: seq<Response>, k: nat)
    requires 0 < k <= |pages|
    ensures Concat(pages[..k]) == Concat(pages[..k - 1]) + pages[k - 1].items
  {
    assert pages[..k][..k - 1] == pages[..k - 1];
  }

  /** The first `k` pages show the rows before the next page. */
  lemma {:induction false} WalkPrefix(tables: seq<Table>, f: Filter, limit: nat, pages: seq<Response>,
                                      full: seq<Key>, k: nat)
    requires limit > 0 && Walk(tables, f, limit, pages) && k <= |pages| && Lists(tables[0], f, None, full)
    ensures InTable(tables[0], full)
    ensures Concat(pages[..k]) == Items(tables[0], full[..Min(Offset(k, limit), |full|)])
  {
    if k > 0 {
      WalkPrefix(tables, f, limit, pages, full, k - 1);
      PageNumber(tables, f, limit, pages, full, k - 1);
      ConcatStep(pages, k);
      CutAppends(tables[0], full, Offset(k - 1, limit), limit);
    }
  }

  lemma ItemsAppend(t: Table, a: seq<Key>, b: seq<Key>)
    requires InTable(t, a) && InTable(t, b)
    ensures InTable(t, a + b) && Items(t, a) + Items(t, b) == Items(t, a + b)
  {
  }

  lemma CutShows(t: Table, rest: seq<Key>, limit: nat)
    requires limit > 0 && InTable(t, rest)
    ensures Cut(t, rest, limit).items == Items(t, rest[..Min(limit, |rest|)])
  {
    assert rest[..|rest|] == rest;
  }

  lemma CutAppends(t: Table, full: seq<Key>, from: nat, limit: nat)
    requires limit > 0 && from <= |full| && InTable(t, full)
    ensures Items(t, full[..from]) + Cut(t, full[from..], limit).items == Items(t, full[..Min(from + limit, |full|)])
  {
    var rest := full[from..];
    var shown := rest[..Min(limit, |rest|)];
    CutShows(t, rest, limit);
    ItemsAppend(t, full[..from], shown);
    assert full[..from] + shown == full[..Min(from + limit, |full|)];
  }

  /** How many pages a list of `n` rows takes. */
  function PageCount(n: nat, limit: nat): nat
    requires limit > 0
  {
    if n == 0 then 1 else (n + limit - 1) / limit
  }

  lemma {:induction false} PageCountIs(n: nat, limit: nat, p: nat)
    requires limit > 0 && p > 0 && (p == 1 || Offset(p - 1, limit) < n)
    ensures n <= Offset(p, limit) ==> PageCount(n, limit) == p
    ensures n > Offset(p, limit) ==> PageCount(n, limit) > p
  {
    if p == 1 {
      FewerThan(n, limit);
    } else {
      PageCountIs(n - limit, limit, p - 1);
      OneMore(n + limit - 1 - limit, limit);
    }
  }

  lemma OneMore(x: nat, limit: nat)
    requires limit > 0
    ensures (x + limit) / limit == x / limit + 1
  {
    var d := (x + limit) / limit - x / limit - 1;
    assert d * limit == ((x + limit) / limit) * limit - (x / limit) * limit - limit;
    assert d * limit == x % limit - (x + limit) % limit;
    MultipleIsFar(d, limit);
  }

  lemma {:induction false} MultipleIsFar(d: int, limit: nat)
    ensures d >= 1 ==> d * limit >= limit
    ensures d <= -1 ==> d * limit <= 0 - limit
    decreases if d < 0 then -d else d
  {
    if d > 1 {
      MultipleIsFar(d - 1, limit);
      assert d * limit == (d - 1) * limit + limit;
    } else if d < -1 {
      MultipleIsFar(d + 1, limit);
      assert d * limit == (d + 1) * limit - limit;
    }
  }

  lemma FewerThan(n: nat, limit: nat)
    requires limit > 0
    ensures n <= limit ==> PageCount(n, limit) == 1
    ensures n > limit ==> PageCount(n, limit) > 1
  {
    if n > limit {
      OneMore(n - 1, limit);
    } else if n > 0 {
      OneMore(n - 1, limit);
    }
  }

  lemma LastPage(tables: seq<Table>, f: Filter, limit: nat, pages: seq<Response>, full: seq<Key>)
    requires limit > 0 && Walk(tables, f, limit, pages) && Lists(tables[0], f, None, full)
    ensures |pages| == 1 || Offset(|pages| - 1, limit) < |full|
    ensures pages[|pages| - 1].hasMore <==> Offset(|pages|, limit) < |full|
    ensures pages[|pages| - 1].hasMore ==> pages[|pages| - 1].next.Some?
  {
    PageNumber(tables, f, limit, pages, full, |pages| - 1);
  }

  /**
    Following the cursors to the last page gives the whole filtered history as it was at the first
    page, in order, each row exactly once, however many newer rows arrive meanwhile.
  */
  lemma WalkIsTheHistory(tables: seq<Table>, f: Filter, limit: nat, pages: seq<Response>, full: seq<Key>)
    requires limit > 0 && Walk(tables, f, limit, pages) && !pages[|pages| - 1].hasMore
    requires Lists(tables[0], f, None, full)
    ensures InTable(tables[0], full) && Concat(pages) == Items(tables[0], full)
    ensures |pages| == PageCount(|full|, limit)
  {
    LastPage(tables, f, limit, pages, full);
    WalkPrefix(tables, f, limit, pages, full, |pages|);
    assert pages[..|pages|] == pages && full[..|full|] == full;
    PageCountIs(|full|, limit, |pages|);
  }

  /** A page that says there are more leads to a next one, and there are pages left. */
  lemma WalkGoesOn(tables: seq<Table>, f: Filter, limit: nat, pages: seq<Response>, full: seq<Key>)
    requires limit > 0 && Walk(tables, f, limit, pages) && pages[|pages| - 1].hasMore
    requires Lists(tables[0], f, None, full)
    ensures pages[|pages| - 1].next.Some? && |pages| < PageCount(|full|, limit)
  {
    LastPage(tables, f, limit, pages, full);
    PageCountIs(|full|, limit, |pages|);
  }
}
