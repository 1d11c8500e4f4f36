/**
  Keyset pagination over a finite set of keys, for any strict total order.  The user stream reads
  pages of ids in ascending order, the notification history reads pages of (created_at, id) pairs
  in descending order; both are instances of `Page`.
*/
module Keyset {
  import opened Wrappers

  ghost predicate StrictOrder<K(!new)>(lt: (K, K) -> bool) {
    && (forall x :: !lt(x, x))
    && (forall x, y, z :: lt(x, y) && lt(y, z) ==> lt(x, z))
    && (forall x, y :: x == y || lt(x, y) || lt(y, x))
  }

  ghost predicate Ordered<K>(lt: (K, K) -> bool, s: seq<K>) {
    forall i, j :: 0 <= i < j < |s| ==> lt(s[i], s[j])
  }

  /** The sequence is the set in its order, each key exactly once. */
  ghost predicate Sorts<K>(lt: (K, K) -> bool, keys: set<K>, s: seq<K>) {
    && Ordered(lt, s)
    && (forall i :: 0 <= i < |s| ==> s[i] in keys)
    && (forall k {:trigger k in keys} :: k in keys ==> k in s)
  }

  predicate IsFirst<K(==)>(lt: (K, K) -> bool, keys: set<K>, k: K) {
    k in keys && forall x :: x in keys ==> x == k || lt(k, x)
  }

  lemma FirstExists<K(!new)>(lt: (K, K) -> bool, keys: set<K>)
    requires StrictOrder(lt) && keys != {}
    ensures exists k :: IsFirst(lt, keys, k)
  {
    var x :| x in keys;
    if keys == {x} {
      assert IsFirst(lt, keys, x);
    } else {
      FirstExists(lt, keys - {x});
      var m :| IsFirst(lt, keys - {x}, m);
      var k := if lt(x, m) then x else m;
      forall y | y in keys ensures y == k || lt(k, y) {
        assert y == x || y in keys - {x};
      }
      assert IsFirst(lt, keys, k);
    }
  }

  /** The first key before the sorted rest is the sorted whole. */
  lemma FirstSorts<K(!new)>(lt: (K, K) -> bool, keys: set<K>, m: K, rest: seq<K>)
    requires IsFirst(lt, keys, m) && Sorts(lt, keys - {m}, rest)
    ensures Sorts(lt, keys, [m] + rest)
  {
    forall k | k in keys ensures k in [m] + rest {
      assert k == m || k in keys - {m};
    }
  }

  /** ORDER BY: the keys in their order, each exactly once. */
  function Sort<K(==,!new)>(lt: (K, K) -> bool, keys: set<K>): (s: seq<K>)
    requires StrictOrder(lt)
    ensures Sorts(lt, keys, s)
  {
    if keys == {} then []
    else
      FirstExists(lt, keys);
      var m :| IsFirst(lt, keys, m);
      FirstSorts(lt, keys, m, Sort(lt, keys - {m}));
      [m] + Sort(lt, keys - {m})
  }

  /** WHERE key > cursor; no cursor means from the start. */
  function Beyond<K(==)>(lt: (K, K) -> bool, keys: set<K>, cursor: Option<K>): set<K> {
    set k | k in keys && (cursor.None? || lt(cursor.value, k))
  }

  function Take<K>(s: seq<K>, limit: nat): seq<K> {
    if |s| <= limit then s else s[..limit]
  }

  /** WHERE key > cursor ORDER BY key LIMIT limit. */
  function Page<K(==,!new)>(lt: (K, K) -> bool, keys: set<K>, cursor: Option<K>, limit: nat): seq<K>
    requires StrictOrder(lt)
  {
    Take(Sort(lt, Beyond(lt, keys, cursor)), limit)
  }

  /** Only one sequence is the set in its order. */
  lemma {:induction false} SortsUnique<K(!new)>(lt: (K, K) -> bool, keys: set<K>, s: seq<K>, t: seq<K>)
    requires StrictOrder(lt) && Sorts(lt, keys, s) && Sorts(lt, keys, t)
    ensures s == t
  {
    EmptySorts(lt, keys, s);
    EmptySorts(lt, keys, t);
    if s != [] {
      SameFirst(lt, keys, s, t);
      TailSorts(lt, keys, s);
      TailSorts(lt, keys, t);
      SortsUnique(lt, keys - {s[0]}, s[1..], t[1..]);
      assert s == [s[0]] + s[1..] && t == [t[0]] + t[1..];
    }
  }

  lemma EmptySorts<K(!new)>(lt: (K, K) -> bool, keys: set<K>, s: seq<K>)
    requires Sorts(lt, keys, s)
    ensures s == [] <==> keys == {}
  {
    if s != [] {
      assert s[0] in keys;
    }
    if k :| k in keys {
      assert k in s;
    }
  }

  /** The first of the sorted keys is the first of the set. */
  lemma HeadIsFirst<K(!new)>(lt: (K, K) -> bool, keys: set<K>, s: seq<K>)
    requires Sorts(lt, keys, s) && s != []
    ensures IsFirst(lt, keys, s[0])
  {
    forall k | k in keys ensures k == s[0] || lt(s[0], k) {
      var i :| 0 <= i < |s| && s[i] == k;
    }
  }

  lemma SameFirst<K(!new)>(lt: (K, K) -> bool, keys: set<K>, s: seq<K>, t: seq<K>)
    requires StrictOrder(lt) && Sorts(lt, keys, s) && Sorts(lt, keys, t) && s != [] && t != []
    ensures s[0] == t[0]
  {
    HeadIsFirst(lt, keys, s);
    HeadIsFirst(lt, keys, t);
  }

  lemma TailSorts<K(!new)>(lt: (K, K) -> bool, keys: set<K>, s: seq<K>)
    requires StrictOrder(lt) && Sorts(lt, keys, s) && s != []
    ensures Sorts(lt, keys - {s[0]}, s[1..])
  {
    forall i | 0 <= i < |s[1..]| ensures s[1..][i] in keys - {s[0]} {
      assert s[1..][i] == s[i + 1] && lt(s[0], s[i + 1]);
    }
    forall k | k in keys - {s[0]} ensures k in s[1..] {
      assert k in keys;
      var i :| 0 <= i < |s| && s[i] == k;
      assert s[1..][i - 1] == k;
    }
  }

  /** Behind one of the sorted keys are the keys that follow it. */
  lemma SuffixSorts<K(!new)>(lt: (K, K) -> bool, keys: set<K>, full: seq<K>, i: nat)
    requires StrictOrder(lt) && Sorts(lt, keys, full) && i < |full|
    ensures Sorts(lt, Beyond(lt, keys, Some(full[i])), full[i + 1..])
  {
    var rest := full[i + 1..];
    forall j | 0 <= j < |rest| ensures rest[j] in Beyond(lt, keys, Some(full[i])) {
      assert rest[j] == full[i + 1 + j] && lt(full[i], full[i + 1 + j]);
    }
    forall k | k in Beyond(lt, keys, Some(full[i])) ensures k in rest {
      assert k in keys;
      var j :| 0 <= j < |full| && full[j] == k;
      NotBefore(lt, full, i, j);
      assert rest[j - i - 1] == k;
    }
  }

  lemma NotBefore<K(!new)>(lt: (K, K) -> bool, full: seq<K>, i: nat, j: nat)
    requires StrictOrder(lt) && Ordered(lt, full) && i < |full| && j < |full| && lt(full[i], full[j])
    ensures i < j
  {
  }

  /** Continuing from the i-th key of the full list leaves exactly the keys behind it. */
  lemma BeyondIsSuffix<K(!new)>(lt: (K, K) -> bool, keys: set<K>, i: nat)
    requires StrictOrder(lt) && i < |Sort(lt, keys)|
    ensures Sort(lt, Beyond(lt, keys, Some(Sort(lt, keys)[i]))) == Sort(lt, keys)[i + 1..]
  {
    var full := Sort(lt, keys);
    var rest := Beyond(lt, keys, Some(full[i]));
    SuffixSorts(lt, keys, full, i);
    SortsUnique(lt, rest, Sort(lt, rest), full[i + 1..]);
  }

  /** A page is the front of the sorted keys beyond the cursor. */
  lemma PageTakes<K(!new)>(lt: (K, K) -> bool, keys: set<K>, cursor: Option<K>, limit: nat) returns (all: seq<K>)
    requires StrictOrder(lt)
    ensures Sorts(lt, Beyond(lt, keys, cursor), all) && Page(lt, keys, cursor, limit) == Take(all, limit)
  {
    all := Sort(lt, Beyond(lt, keys, cursor));
  }

  /**
    No gaps: a page contains every key beyond the cursor up to its own last key, and a page that is
    not full contains every key beyond the cursor.
  */
  lemma PageHasNoGaps<K(!new)>(lt: (K, K) -> bool, keys: set<K>, cursor: Option<K>, limit: nat, k: K)
    requires StrictOrder(lt) && limit > 0
    requires k in Beyond(lt, keys, cursor)
    ensures var page := Page(lt, keys, cursor, limit);
            && page != []
            && (k in page <==> |page| < limit || k == page[|page| - 1] || lt(k, page[|page| - 1]))
  {
    var all := PageTakes(lt, keys, cursor, limit);
    var j :| 0 <= j < |all| && all[j] == k;
    InFront(lt, all, limit, j);
  }

  /** Which elements of an ordered sequence are in its front. */
  lemma InFront<K(!new)>(lt: (K, K) -> bool, all: seq<K>, limit: nat, j: nat)
    requires StrictOrder(lt) && Ordered(lt, all) && limit > 0 && j < |all|
    ensures var page := Take(all, limit);
            && page != []
            && (all[j] in page <==> |page| < limit || all[j] == page[|page| - 1] || lt(all[j], page[|page| - 1]))
  {
    var page := Take(all, limit);
    var last := |page| - 1;
    if j <= last {
      assert page[j] == all[j];
    } else {
      assert |page| == limit && lt(page[last], all[j]);
      assert forall i :: 0 <= i < |page| ==> lt(page[i], all[j]);
    }
  }
}
