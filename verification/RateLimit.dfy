/**
  The fixed-window rate limiter for one key.  Times and durations are milliseconds, the resolution
  of Redis; at the very instant a counter expires Redis may or may not still find it, and `gone`
  says which.
*/
module RateLimit {
  import opened Wrappers

  /** A request with the window it was counted in, its number there, and the answer. */
  datatype Entry = Entry(at: int, start: int, number: nat, allowed: bool)

  /** A limit, and the window as it is configured. */
  datatype Limits = Limits(limit: int, window: int)

  /** The whole seconds of a duration: what is left over is cut off, towards zero. */
  function WholeSeconds(window: int): int {
    if window < 0 then -((-window) / 1000) else window / 1000
  }

  /** The length of the windows that Redis counts. */
  function Window(l: Limits): int { 1000 * WholeSeconds(l.window) }

  /**
    The entry goes on with the window of the entry before it, or starts the next one.  A window
    lasts for its length from its first request on; without a length it is over at once.
  */
  predicate Follows(l: Limits, p: Entry, e: Entry) {
    && p.at <= e.at
    && (|| (Window(l) > 0 && e.at <= p.start + Window(l) && e.start == p.start && e.number == p.number + 1)
        || ((Window(l) <= 0 || e.at >= p.start + Window(l)) && e.start == e.at && e.number == 1))
  }

  predicate EntryOk(l: Limits, log: seq<Entry>, i: nat)
    requires i < |log|
  {
    && (if i == 0 then log[0].start == log[0].at && log[0].number == 1 else Follows(l, log[i - 1], log[i]))
    && (log[i].allowed <==> log[i].number <= l.limit)
  }

  /** All requests ever made, in order, as the windows and the limit say. */
  ghost predicate Counted(l: Limits, log: seq<Entry>) {
    forall i {:trigger EntryOk(l, log, i)} :: 0 <= i < |log| ==> EntryOk(l, log, i)
  }

  /** A counter that `INCR` has just created has no expiry. */
  datatype Counter = Counter(count: nat, expiresAt: Option<int>)

  datatype Result = Result(allowed: bool, remaining: int, resetIn: int)

  /** TTL in whole seconds, rounded to the nearest. */
  function Ttl(remaining: int): int { (remaining + 500) / 1000 }

  class RateLimiter {
    var counter: Option<Counter>
    const l: Limits
    ghost var log: seq<Entry>

    constructor (l: Limits)
      ensures Valid() && log == [] && this.l == l
    {
      this.l := l;
      counter, log := None, [];
    }

    ghost predicate Valid()
      reads this
    {
      && Counted(l, log)
      && (log == [] ==> counter.None?)
      && (log != [] ==> var e := log[|log| - 1];
           counter == if Window(l) > 0 then Some(Counter(e.number, Some(e.start + Window(l)))) else None)
    }

    /** INCR, EXPIRE when the counter is new, TTL; Redis runs the script as one step. */
    method RunScript(now: int, gone: bool, windowSecs: int) returns (current: nat, ttl: int, ghost e: Entry)
      requires Valid() && (log != [] ==> log[|log| - 1].at <= now) && windowSecs == WholeSeconds(l.window)
      modifies this`counter
      ensures e == Entry(now, e.start, current, current <= l.limit)
      ensures counter == if Window(l) > 0 then Some(Counter(current, Some(e.start + Window(l)))) else None
      ensures if log != [] then Follows(l, log[|log| - 1], e) else e.start == e.at && e.number == 1
      ensures ttl == if Window(l) > 0 then Ttl(e.start + Window(l) - now) else -2
      ensures e.start <= now <= e.start + (if Window(l) > 0 then Window(l) else 0)
    {
      if log != [] && Window(l) > 0 {
        InOrder(l, log, |log| - 1);
      }
      if counter.Some? && counter.value.expiresAt.Some? {
        var expiresAt := counter.value.expiresAt.value;
        if now > expiresAt || (now == expiresAt && gone) {
          counter := None;
        }
      }
      e := Entry(now, if counter.None? then now else log[|log| - 1].start, 0, false);
      counter := if counter.None? then Some(Counter(1, None))
                 else Some(counter.value.(count := counter.value.count + 1));
      current := counter.value.count;
      e := e.(number := current, allowed := current <= l.limit);
      if current == 1 {
        counter := if windowSecs > 0 then Some(counter.value.(expiresAt := Some(now + 1000 * windowSecs))) else None;
      }
      ttl := if counter.None? then -2
             else if counter.value.expiresAt.None? then -1
             else Ttl(counter.value.expiresAt.value - now);
    }

    method Allow(now: int, gone: bool) returns (r: Result)
      requires Valid() && (log != [] ==> log[|log| - 1].at <= now)
      modifies this
      ensures Valid() && |log| == |old(log)| + 1 && log[..|old(log)|] == old(log)
      ensures var e := log[|old(log)|];
        && e.at == now && r.allowed == e.allowed
        && r.remaining == (if e.number >= l.limit then 0 else l.limit - e.number)
        && (Window(l) > 0 ==> 0 <= r.resetIn <= WholeSeconds(l.window))
        && (Window(l) > 0 ==> -500 <= 1000 * r.resetIn - (e.start + Window(l) - now) <= 500)
        && (Window(l) <= 0 ==> r.resetIn == WholeSeconds(l.window))
    {
      var windowSecs := WholeSeconds(l.window);
      var current, ttl;
      ghost var e;
      current, ttl, e := RunScript(now, gone, windowSecs);
      Append(l, log, e);
      log := log + [e];
      if ttl < 0 {
        ttl := windowSecs;
      }
      var remaining := l.limit - current;
      if remaining < 0 {
        remaining := 0;
      }
      r := Result(current <= l.limit, remaining, ttl);
    }
  }

  /** The requests allowed in the window that starts at `start`. */
  function AllowedIn(log: seq<Entry>, start: int): nat {
    if log == [] then 0
    else
      var e := log[|log| - 1];
      AllowedIn(log[..|log| - 1], start) + if e.allowed && e.start == start then 1 else 0
  }

  /** The requests allowed from `from` on, before `until`. */
  function AllowedBetween(log: seq<Entry>, from: int, until: int): nat {
    if log == [] then 0
    else
      var e := log[|log| - 1];
      AllowedBetween(log[..|log| - 1], from, until) + if e.allowed && from <= e.at < until then 1 else 0
  }

  function AtLeastZero(n: int): nat { if n < 0 then 0 else n }

  function Min(a: int, b: int): int { if a < b then a else b }

  lemma CountedPrefix(l: Limits, log: seq<Entry>, n: nat)
    requires Counted(l, log) && n <= |log|
    ensures Counted(l, log[..n])
  {
    forall i | 0 <= i < n ensures EntryOk(l, log[..n], i) {
      assert EntryOk(l, log, i);
    }
  }

  lemma Append(l: Limits, log: seq<Entry>, e: Entry)
    requires Counted(l, log) && EntryOk(l, log + [e], |log|)
    ensures Counted(l, log + [e])
  {
    forall i | 0 <= i < |log| ensures EntryOk(l, log + [e], i) {
      assert EntryOk(l, log, i);
    }
  }

  /** Requests come in order, and windows are at least their length apart. */
  lemma {:induction false} InOrder(l: Limits, log: seq<Entry>, k: nat)
    requires Counted(l, log) && k < |log| && Window(l) > 0
    ensures var e := log[|log| - 1];
      && log[k].at <= e.at && log[k].start <= log[k].at && e.start <= e.at && e.number >= 1
      && (log[k].start == e.start || (log[k].start + Window(l) <= e.start && log[k].at <= e.start))
  {
    var n := |log| - 1;
    assert EntryOk(l, log, n);
    if n > 0 {
      CountedPrefix(l, log, n);
      InOrder(l, log[..n], if k < n then k else n - 1);
    }
  }

  /** In the current window there were as many requests as it counts, and the first ones were allowed. */
  lemma {:induction false} CurrentWindow(l: Limits, log: seq<Entry>)
    requires Counted(l, log) && log != [] && Window(l) > 0
    ensures var e := log[|log| - 1];
      && AllowedIn(log, e.start) == Min(e.number, AtLeastZero(l.limit))
      && (forall s :: s > e.start ==> AllowedIn(log, s) == 0)
  {
    var n := |log| - 1;
    if n > 0 {
      CountedPrefix(l, log, n);
      CurrentWindow(l, log[..n]);
      assert EntryOk(l, log, n);
      InOrder(l, log[..n], n - 1);
    } else {
      assert EntryOk(l, log, 0) && log[..0] == [];
    }
  }

  /** No window allows more than the limit. */
  lemma {:induction false} WindowBound(l: Limits, log: seq<Entry>, start: int)
    requires Counted(l, log) && Window(l) > 0
    ensures AllowedIn(log, start) <= AtLeastZero(l.limit)
  {
    if log != [] {
      var n := |log| - 1;
      CountedPrefix(l, log, n);
      WindowBound(l, log[..n], start);
      CurrentWindow(l, log);
    }
  }

  /** A refusal means that the current window has already allowed exactly the limit. */
  lemma RefusedMeansFull(l: Limits, log: seq<Entry>)
    requires Counted(l, log) && log != [] && Window(l) > 0 && !log[|log| - 1].allowed
    ensures AllowedIn(log[..|log| - 1], log[|log| - 1].start) == AtLeastZero(l.limit)
  {
    CurrentWindow(l, log);
    assert EntryOk(l, log, |log| - 1);
  }

  /** Where the current window begins in the log. */
  lemma {:induction false} CurrentStart(l: Limits, log: seq<Entry>) returns (i: nat)
    requires Counted(l, log) && log != [] && Window(l) > 0
    ensures var s := log[|log| - 1].start;
      && i < |log| && log[i].at == s && log[i].number == 1
      && (forall k :: i <= k < |log| ==> log[k].start == s)
      && (forall k :: 0 <= k < i ==> log[k].at <= s)
      && (i > 0 ==> log[i - 1].start + Window(l) <= s)
  {
    var n := |log| - 1;
    assert EntryOk(l, log, n);
    if n == 0 {
      i := 0;
    } else if log[n].number == 1 && log[n].start == log[n].at && log[n].at >= log[n - 1].start + Window(l) {
      i := n;
      forall k | 0 <= k < n ensures log[k].at <= log[n].at {
        InOrder(l, log, k);
      }
    } else {
      CountedPrefix(l, log, n);
      i := CurrentStart(l, log[..n]);
    }
  }

  lemma {:induction false} AllowedConcat(a: seq<Entry>, b: seq<Entry>, from: int, until: int)
    ensures AllowedBetween(a + b, from, until) == AllowedBetween(a, from, until) + AllowedBetween(b, from, until)
  {
    if b == [] {
      assert a + b == a;
    } else {
      AllowedConcat(a, b[..|b| - 1], from, until);
      assert (a + b)[..|a + b| - 1] == a + b[..|b| - 1];
    }
  }

  /** What one window allows is bounded by the limit, however one looks at a part of it. */
  lemma {:induction false} PartOfWindow(l: Limits, log: seq<Entry>, i: nat, from: int, until: int)
    requires Counted(l, log) && i < |log| && Window(l) > 0 && log[i].number == 1
    requires forall k :: i <= k < |log| ==> log[k].start == log[i].start
    ensures log[|log| - 1].number == |log| - i
    ensures AllowedBetween(log[i..], from, until) + (if log[i].at < from && l.limit >= 1 then 1 else 0)
      <= Min(|log| - i, AtLeastZero(l.limit))
  {
    var n := |log| - 1;
    assert EntryOk(l, log, n);
    if i < n {
      CountedPrefix(l, log, n);
      PartOfWindow(l, log[..n], i, from, until);
      assert log[..n][i..] == log[i..][..n - i];
      NotNew(l, log, n);
    } else {
      assert log[i..] == [log[i]] && [log[i]][..0] == [];
    }
  }

  /** An entry with the start of the one before it goes on with its window. */
  lemma NotNew(l: Limits, log: seq<Entry>, n: nat)
    requires Counted(l, log) && 0 < n < |log| && Window(l) > 0 && log[n].start == log[n - 1].start
    ensures log[n].number == log[n - 1].number + 1
  {
    assert EntryOk(l, log, n);
    CountedPrefix(l, log, n);
    InOrder(l, log[..n], n - 1);
  }

  /** Before an interval that begins after the current window only that window's later requests count. */
  lemma Early(l: Limits, log: seq<Entry>, from: int, until: int)
    requires Counted(l, log) && Window(l) > 0 && l.limit >= 1 && (log != [] ==> log[|log| - 1].start < from)
    ensures AllowedBetween(log, from, until) <= l.limit - 1
  {
    if log != [] {
      var i := CurrentStart(l, log);
      PartOfWindow(l, log, i, from, until);
      AllowedConcat(log[..i], log[i..], from, until);
      assert log[..i] + log[i..] == log;
      NoneBefore(log[..i], from, until);
    }
  }

  lemma {:induction false} NoneBefore(log: seq<Entry>, from: int, until: int)
    requires forall k :: 0 <= k < |log| ==> log[k].at < from || !log[k].allowed
    ensures AllowedBetween(log, from, until) == 0
  {
    if log != [] {
      NoneBefore(log[..|log| - 1], from, until);
    }
  }

  /** The windows before the current one, and what the current one adds to them at most. */
  lemma DropWindow(l: Limits, log: seq<Entry>, from: int, until: int) returns (rest: seq<Entry>)
    requires Counted(l, log) && log != [] && Window(l) > 0
    ensures Counted(l, rest) && |rest| < |log|
    ensures rest != [] ==> rest[|rest| - 1].start + Window(l) <= log[|log| - 1].start
    ensures AllowedBetween(log, from, until) <= AllowedBetween(rest, from, until) + AtLeastZero(l.limit)
  {
    var i := CurrentStart(l, log);
    rest := log[..i];
    CountedPrefix(l, log, i);
    PartOfWindow(l, log, i, from, until);
    AllowedConcat(rest, log[i..], from, until);
    assert rest + log[i..] == log;
  }

  /** The requests allowed in the interval of the configured length. */
  function AllowedWithin(l: Limits, log: seq<Entry>, from: int): nat {
    AllowedBetween(log, from, from + l.window)
  }

  /** The largest number of requests allowed within the configured window. */
  function MostAllowed(l: Limits): nat {
    if l.limit <= 0 then 0 else if l.window % 1000 == 0 then 2 * l.limit - 1 else 3 * l.limit - 1
  }

  /** Any interval as long as the configured window, of at least a second, sees at most so many. */
  lemma {:induction false} RateBound(l: Limits, log: seq<Entry>, from: int)
    requires Counted(l, log) && l.window >= 1000
    ensures AllowedWithin(l, log, from) <= MostAllowed(l)
  {
    var until := from + l.window;
    if l.limit <= 0 {
      NothingAllowed(l, log, from, until);
    } else if log != [] {
      var n := |log| - 1;
      InOrder(l, log, n);
      if log[n].at >= until {
        CountedPrefix(l, log, n);
        RateBound(l, log[..n], from);
      } else if log[n].start < from {
        Early(l, log, from, until);
      } else {
        var second := DropWindow(l, log, from, until);
        if second != [] && second[|second| - 1].start >= from {
          var third := DropWindow(l, second, from, until);
          Early(l, third, from, until);
        } else {
          Early(l, second, from, until);
        }
      }
    }
  }

  lemma {:induction false} NothingAllowed(l: Limits, log: seq<Entry>, from: int, until: int)
    requires Counted(l, log) && l.limit <= 0 && Window(l) > 0
    ensures AllowedBetween(log, from, until) == 0
  {
    forall k | 0 <= k < |log| ensures !log[k].allowed {
      assert EntryOk(l, log, k);
      CountedPrefix(l, log, k + 1);
      InOrder(l, log[..k + 1], k);
    }
    NoneBefore(log, from, until);
  }

  /** Requests number `first` and on, all at one time in one window. */
  function Burst(at: int, start: int, first: nat, count: nat): (burst: seq<Entry>)
    ensures |burst| == count
    ensures forall j :: 0 <= j < count ==> burst[j] == Entry(at, start, first + j, true)
  {
    seq(count, j requires 0 <= j < count => Entry(at, start, first + j, true))
  }

  lemma {:induction false} BurstCount(at: int, start: int, first: nat, count: nat, from: int, until: int)
    ensures AllowedBetween(Burst(at, start, first, count), from, until) == if from <= at < until then count else 0
  {
    if count > 0 {
      BurstCount(at, start, first, count - 1, from, until);
      assert Burst(at, start, first, count)[..count - 1] == Burst(at, start, first, count - 1);
    }
  }

  /** A log goes on with a burst, in its last window or in a new one. */
  lemma {:induction false} BurstCounted(l: Limits, log: seq<Entry>, at: int, start: int, first: nat, count: nat)
    requires Counted(l, log) && log != [] && Window(l) > 0 && first + count - 1 <= l.limit && log[|log| - 1].at <= at
    requires var e := log[|log| - 1];
      if first == 1 then start == at && at >= e.start + Window(l)
      else start == e.start && first == e.number + 1 && at <= start + Window(l)
    requires at <= start + Window(l)
    ensures Counted(l, log + Burst(at, start, first, count))
  {
    if count == 0 {
      assert log + Burst(at, start, first, 0) == log;
    } else {
      BurstCounted(l, log, at, start, first, count - 1);
      var before := log + Burst(at, start, first, count - 1);
      var e := Entry(at, start, first + count - 1, true);
      assert log + Burst(at, start, first, count) == before + [e];
      Append(l, before, e);
    }
  }

  /** What an interval sees of two bursts after a log. */
  lemma TwoBursts(log: seq<Entry>, at: int, n: nat, w: int, from: int, until: int)
    ensures AllowedBetween(log + Burst(at, at, 1, n) + Burst(at + w, at + w, 1, n), from, until)
      == AllowedBetween(log, from, until)
         + (if from <= at < until then n else 0) + if from <= at + w < until then n else 0
  {
    AllowedConcat(log, Burst(at, at, 1, n), from, until);
    AllowedConcat(log + Burst(at, at, 1, n), Burst(at + w, at + w, 1, n), from, until);
    BurstCount(at, at, 1, n, from, until);
    BurstCount(at + w, at + w, 1, n, from, until);
  }

  /** One request at time 0, and the others its window allows at a later time. */
  lemma FirstWindow(l: Limits, at: int) returns (log: seq<Entry>)
    requires l.window >= 1000 && l.limit >= 1 && 0 < at <= Window(l)
    ensures Counted(l, log) && log != [] && log[|log| - 1].at <= at && log[|log| - 1].start == 0
    ensures forall until :: until > at ==> AllowedBetween(log, at, until) == l.limit - 1
  {
    var a, b := Burst(0, 0, 1, 1), Burst(at, 0, 2, l.limit - 1);
    assert EntryOk(l, a, 0);
    BurstCounted(l, a, at, 0, 2, l.limit - 1);
    log := a + b;
    forall until | until > at ensures AllowedBetween(log, at, until) == l.limit - 1 {
      AllowedConcat(a, b, at, until);
      BurstCount(0, 0, 1, 1, at, until);
      BurstCount(at, 0, 2, l.limit - 1, at, until);
    }
  }

  /** The bound is reached: some log and interval see exactly so many requests allowed. */
  lemma BoundIsReached(l: Limits) returns (log: seq<Entry>, from: int)
    requires l.window >= 1000 && l.limit >= 1
    ensures Counted(l, log) && AllowedWithin(l, log, from) == MostAllowed(l)
  {
    var w, n := Window(l), l.limit;
    from := if l.window % 1000 == 0 then w else 2 * w - l.window + 1;
    var first := FirstWindow(l, from);
    BurstCounted(l, first, w, w, 1, n);
    BurstCounted(l, first + Burst(w, w, 1, n), w + w, w + w, 1, n);
    log := first + Burst(w, w, 1, n) + Burst(w + w, w + w, 1, n);
    TwoBursts(first, w, n, w, from, from + l.window);
  }

  /**
    Twice the limit is a bound for every interval of the configured length, of at least a second, if
    and only if that is whole seconds or the limit is at most one.
  */
  lemma TwiceTheLimit(l: Limits)
    requires l.window >= 1000
    ensures (forall log, from :: Counted(l, log) ==> AllowedWithin(l, log, from) <= 2 * AtLeastZero(l.limit))
      <==> l.window % 1000 == 0 || l.limit <= 1
  {
    if l.window % 1000 == 0 || l.limit <= 1 {
      forall log, from | Counted(l, log)
        ensures AllowedWithin(l, log, from) <= 2 * AtLeastZero(l.limit)
      {
        RateBound(l, log, from);
      }
    } else {
      var log, from := BoundIsReached(l);
    }
  }

  /** What is allowed from the request number `i`, the first of its window, until the configured window is over. */
  function AllowedFrom(l: Limits, log: seq<Entry>, i: nat): nat
    requires i < |log|
  {
    AllowedBetween(log[i..], log[i].at, log[i].at + l.window)
  }

  /** From the first request of a window on, the limit holds for whole seconds. */
  lemma {:induction false} WindowHolds(l: Limits, log: seq<Entry>, i: nat)
    requires Counted(l, log) && i < |log| && log[i].number == 1 && l.window >= 1000 && l.window % 1000 == 0
    ensures AllowedFrom(l, log, i) <= AtLeastZero(l.limit)
  {
    var n := |log| - 1;
    if n == i {
      PartOfWindow(l, log, i, log[i].at, log[i].at + l.window);
    } else if log[n].start == log[i].start {
      var j := CurrentStart(l, log);
      SameWindow(l, log, i, j);
      PartOfWindow(l, log, i, log[i].at, log[i].at + l.window);
    } else {
      InOrder(l, log, i);
      InOrder(l, log, n);
      FirstOfWindow(l, log, i);
      CountedPrefix(l, log, n);
      WindowHolds(l, log[..n], i);
      assert log[i..][..n - i] == log[..n][i..];
    }
  }

  lemma FirstOfWindow(l: Limits, log: seq<Entry>, i: nat)
    requires Counted(l, log) && i < |log| && log[i].number == 1 && Window(l) > 0
    ensures log[i].start == log[i].at
  {
    assert EntryOk(l, log, i);
    if i > 0 {
      CountedPrefix(l, log, i);
      InOrder(l, log[..i], i - 1);
    }
  }

  lemma SameWindow(l: Limits, log: seq<Entry>, i: nat, j: nat)
    requires Counted(l, log) && i < |log| && j < |log| && log[i].number == 1 && Window(l) > 0
    requires log[i].start == log[|log| - 1].start && (forall k :: j <= k < |log| ==> log[k].start == log[j].start)
    requires j > 0 ==> log[j - 1].start + Window(l) <= log[j].start
    ensures j <= i
  {
    if i < j {
      CountedPrefix(l, log, j);
      InOrder(l, log[..j], i);
    }
  }

  /**
    No window of the configured length, counted from the first request of a Redis window, allows
    more than the limit, if and only if the configured window is whole seconds or nothing is allowed.
  */
  lemma ConfiguredWindow(l: Limits)
    requires l.window >= 1000
    ensures (forall log: seq<Entry>, i :: Counted(l, log) && 0 <= i < |log| && log[i].number == 1 ==>
               AllowedFrom(l, log, i) <= AtLeastZero(l.limit))
      <==> l.window % 1000 == 0 || l.limit <= 0
  {
    if l.limit <= 0 {
      forall log: seq<Entry>, i | Counted(l, log) && 0 <= i < |log| && log[i].number == 1
        ensures AllowedFrom(l, log, i) == 0
      {
        NothingAllowed(l, log, log[i].at, log[i].at + l.window);
        AllowedConcat(log[..i], log[i..], log[i].at, log[i].at + l.window);
        assert log[..i] + log[i..] == log;
      }
    } else if l.window % 1000 == 0 {
      forall log: seq<Entry>, i | Counted(l, log) && 0 <= i < |log| && log[i].number == 1
        ensures AllowedFrom(l, log, i) <= AtLeastZero(l.limit)
      {
        WindowHolds(l, log, i);
      }
    } else {
      var log := OneTooMany(l);
      assert log[0].number == 1;
    }
  }

  /** The limit at once, and one more as soon as the counter has expired. */
  lemma OneTooMany(l: Limits) returns (log: seq<Entry>)
    requires l.window >= 1000 && l.window % 1000 != 0 && l.limit >= 1
    ensures Counted(l, log) && log != [] && log[0].number == 1 && AllowedFrom(l, log, 0) == l.limit + 1
  {
    var w := Window(l);
    var a, b, c := Burst(0, 0, 1, 1), Burst(0, 0, 2, l.limit - 1), Burst(w, w, 1, 1);
    assert EntryOk(l, a, 0);
    BurstCounted(l, a, 0, 0, 2, l.limit - 1);
    BurstCounted(l, a + b, w, w, 1, 1);
    log := a + b + c;
    AllowedConcat(a, b, 0, l.window);
    AllowedConcat(a + b, c, 0, l.window);
    BurstCount(0, 0, 1, 1, 0, l.window);
    BurstCount(0, 0, 2, l.limit - 1, 0, l.window);
    BurstCount(w, w, 1, 1, 0, l.window);
    assert log[0..] == log;
  }

  /** A window shorter than a second limits nothing: with a positive limit every request passes. */
  lemma ShortWindowLimitsNothing(l: Limits, log: seq<Entry>, i: nat)
    requires Counted(l, log) && i < |log| && l.window < 1000
    ensures log[i].allowed <==> l.limit >= 1
  {
    assert EntryOk(l, log, i);
  }
}
