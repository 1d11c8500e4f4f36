/**
  The circuit breaker around the mail server.  The specification is the history of calls alone: a
  call runs its operation unless enough runs in a row have failed, and then it takes more than
  `openDuration` and one call without effect before the next run.
*/
module CircuitBreaker {
  datatype Mode = Closed | Open | HalfOpen

  /** A call from the time it gets the lock to the time it ends; `ok` tells whether the operation would succeed. */
  datatype Call = Call(start: int, ok: bool, end: int)

  /** `Idle` is the call that only turns the open breaker half-open; its caller sees no error. */
  datatype Result = Refused | Idle | RanOk | RanFailed

  /** Calls hold the breaker's lock, so one starts after the one before has ended. */
  ghost predicate InTurn(calls: seq<Call>, i: nat)
    requires i < |calls|
  {
    calls[i].start <= calls[i].end && (i > 0 ==> calls[i - 1].end <= calls[i].start)
  }

  ghost predicate Serial(calls: seq<Call>) {
    forall i {:trigger InTurn(calls, i)} :: 0 <= i < |calls| ==> InTurn(calls, i)
  }

  /** The number of failing runs in a row that opens the breaker: the larger of 1 and `maxFailures`. */
  function Threshold(maxFailures: int): (n: nat)
    ensures n >= 1 && n >= maxFailures && (n == 1 || n == maxFailures)
  {
    if maxFailures < 1 then 1 else maxFailures
  }

  predicate Ran(r: Result) { r.RanOk? || r.RanFailed? }

  /** How many runs have failed since the last one that succeeded. */
  function Trailing(results: seq<Result>): nat {
    if results == [] then 0
    else
      var before := results[..|results| - 1];
      match results[|results| - 1]
      case RanOk => 0
      case RanFailed => Trailing(before) + 1
      case _ => Trailing(before)
  }

  /** When the last failing run ended. */
  function LastFailure(calls: seq<Call>, results: seq<Result>): int
    requires |calls| == |results|
  {
    if results == [] then 0
    else if results[|results| - 1].RanFailed? then calls[|results| - 1].end
    else LastFailure(calls[..|results| - 1], results[..|results| - 1])
  }

  predicate LastIdle(results: seq<Result>) { results != [] && results[|results| - 1] == Idle }

  /** What a call must come to after so many failing runs in a row. */
  function Outcome(maxFailures: int, openDuration: int, trailing: nat, lastFailure: int, idle: bool, c: Call): Result {
    if trailing >= Threshold(maxFailures) && !idle then
      if c.start - lastFailure > openDuration then Idle else Refused
    else if c.ok then RanOk
    else RanFailed
  }

  /** What a call must come to after this history. */
  function Expected(maxFailures: int, openDuration: int, calls: seq<Call>, results: seq<Result>, c: Call): Result
    requires |calls| == |results|
  {
    Outcome(maxFailures, openDuration, Trailing(results), LastFailure(calls, results), LastIdle(results), c)
  }

  /** The call came to what its history says. */
  ghost predicate CallOk(maxFailures: int, openDuration: int, calls: seq<Call>, results: seq<Result>, i: nat)
    requires |calls| == |results| && i < |calls|
  {
    results[i] == Expected(maxFailures, openDuration, calls[..i], results[..i], calls[i])
  }

  ghost predicate Behaves(maxFailures: int, openDuration: int, calls: seq<Call>, results: seq<Result>) {
    && |calls| == |results|
    && forall i {:trigger CallOk(maxFailures, openDuration, calls, results, i)} :: 0 <= i < |calls| ==>
         CallOk(maxFailures, openDuration, calls, results, i)
  }

  lemma SerialMore(calls: seq<Call>, c: Call)
    requires Serial(calls) && c.start <= c.end && (calls != [] ==> calls[|calls| - 1].end <= c.start)
    ensures Serial(calls + [c])
  {
    forall i | 0 <= i < |calls| ensures InTurn(calls + [c], i) {
      assert InTurn(calls, i);
    }
  }

  lemma BehavesMore(maxFailures: int, openDuration: int, calls: seq<Call>, results: seq<Result>, c: Call, r: Result)
    requires Behaves(maxFailures, openDuration, calls, results)
    requires r == Expected(maxFailures, openDuration, calls, results, c)
    ensures Behaves(maxFailures, openDuration, calls + [c], results + [r])
  {
    forall i | 0 <= i <= |calls| ensures CallOk(maxFailures, openDuration, calls + [c], results + [r], i) {
      assert (calls + [c])[..i] == calls[..i] && (results + [r])[..i] == results[..i];
      if i < |calls| {
        assert CallOk(maxFailures, openDuration, calls, results, i);
      } else {
        assert calls[..i] == calls && results[..i] == results;
      }
    }
  }

  /** What one more result does to the run of failures. */
  lemma TrailingMore(calls: seq<Call>, results: seq<Result>, c: Call, r: Result)
    requires |calls| == |results|
    ensures Trailing(results + [r]) == if r == RanOk then 0 else Trailing(results) + if r == RanFailed then 1 else 0
    ensures LastFailure(calls + [c], results + [r]) == if r == RanFailed then c.end else LastFailure(calls, results)
    ensures LastIdle(results + [r]) == (r == Idle)
  {
    assert (results + [r])[..|results|] == results && (calls + [c])[..|calls|] == calls;
  }

  class CircuitBreaker {
    var state: Mode
    var failureCount: int
    var lastFailureTime: int
    const openDuration: int
    const maxFailures: int
    ghost var calls: seq<Call>
    ghost var results: seq<Result>

    constructor (maxFailures: int, openDuration: int)
      ensures Valid() && calls == [] && this.maxFailures == maxFailures && this.openDuration == openDuration
    {
      this.maxFailures := maxFailures;
      this.openDuration := openDuration;
      state, failureCount, lastFailureTime := Closed, 0, 0;
      calls, results := [], [];
    }

    /** The fields are what the history says. */
    ghost predicate Valid()
      reads this
    {
      && Serial(calls) && Behaves(maxFailures, openDuration, calls, results)
      && Matches(Trailing(results), LastFailure(calls, results), LastIdle(results))
    }

    /** The fields, from the number of trailing failures, the last one's end and whether an idle call followed. */
    ghost predicate Matches(trailing: nat, lastFailure: int, idle: bool)
      reads this
    {
      && (state == Closed <==> trailing < Threshold(maxFailures))
      && (state == HalfOpen <==> trailing >= Threshold(maxFailures) && idle)
      && (idle ==> state == HalfOpen)
      && failureCount == (if state == Closed then trailing else Threshold(maxFailures))
      && (state != Closed ==> lastFailureTime == lastFailure)
    }

    /** The call comes after the ones so far. */
    ghost predicate Next(c: Call)
      reads this
    {
      c.start <= c.end && (calls != [] ==> calls[|calls| - 1].end <= c.start)
    }

    method Execute(c: Call) returns (r: Result)
      requires Valid() && Next(c)
      modifies this
      ensures Valid() && calls == old(calls) + [c] && results == old(results) + [r]
    {
      r := Locked(c, Trailing(results), LastFailure(calls, results), LastIdle(results));
      SerialMore(calls, c);
      BehavesMore(maxFailures, openDuration, calls, results, c, r);
      TrailingMore(calls, results, c, r);
      calls, results := calls + [c], results + [r];
    }

    /** Execute while it holds the lock. */
    method Locked(c: Call, ghost trailing: nat, ghost lastFailure: int, ghost idle: bool) returns (r: Result)
      requires Matches(trailing, lastFailure, idle)
      modifies this`state, this`failureCount, this`lastFailureTime
      ensures r == Outcome(maxFailures, openDuration, trailing, lastFailure, idle, c)
      ensures r == RanOk ==> Matches(0, lastFailure, false)
      ensures r == RanFailed ==> Matches(trailing + 1, c.end, false)
      ensures !Ran(r) ==> Matches(trailing, lastFailure, r == Idle)
    {
      match state {
        case Open =>
          if c.start - lastFailureTime > openDuration {
            state := HalfOpen;
            r := Idle;
          } else {
            r := Refused;
          }
        case HalfOpen =>
          if !c.ok {
            state := Open;
            lastFailureTime := c.end;
            r := RanFailed;
          } else {
            state := Closed;
            failureCount := 0;
            r := RanOk;
          }
        case Closed =>
          if !c.ok {
            failureCount := failureCount + 1;
            if failureCount >= maxFailures {
              state := Open;
              lastFailureTime := c.end;
            }
            r := RanFailed;
          } else {
            failureCount := 0;
            r := RanOk;
          }
      }
    }
  }

  /** A failing run at the threshold leaves the breaker closed off until the next run. */
  ghost predicate Opens(maxFailures: int, results: seq<Result>, i: nat) {
    i < |results| && results[i] == RanFailed && Trailing(results[..i + 1]) >= Threshold(maxFailures)
  }

  /** No run between the two positions. */
  ghost predicate Quiet(results: seq<Result>, i: int, j: int)
    requires 0 <= i <= j <= |results|
  {
    forall k :: i <= k < j ==> !Ran(results[k])
  }

  lemma {:induction false} QuietKeeps(calls: seq<Call>, results: seq<Result>, i: nat, j: nat)
    requires |calls| == |results| && i < j <= |results| && results[i] == RanFailed && Quiet(results, i + 1, j)
    ensures Trailing(results[..j]) == Trailing(results[..i + 1])
    ensures LastFailure(calls[..j], results[..j]) == calls[i].end
  {
    assert results[..j][..j - 1] == results[..j - 1] && calls[..j][..j - 1] == calls[..j - 1];
    if j > i + 1 {
      QuietKeeps(calls, results, i, j - 1);
    }
  }

  /** While the breaker is open no call runs, and a second idle call cannot follow the first. */
  lemma {:induction false} RefusedUntilIdle(maxFailures: int, openDuration: int, calls: seq<Call>,
                                            results: seq<Result>, i: nat, j: nat)
    requires Behaves(maxFailures, openDuration, calls, results) && Opens(maxFailures, results, i)
    requires i < j < |results| && Quiet(results, i + 1, j)
    ensures forall k :: i < k < j - 1 ==> results[k] == Refused
    ensures Ran(results[j]) <==> j > i + 1 && results[j - 1] == Idle
  {
    forall k | i < k <= j
      ensures Ran(results[k]) <==> k > i + 1 && results[k - 1] == Idle
      ensures results[k] == Idle ==> calls[k].start - calls[i].end > openDuration
    {
      QuietKeeps(calls, results, i, k);
      assert results[..k][k - 1] == results[k - 1];
      assert CallOk(maxFailures, openDuration, calls, results, k);
    }
    forall k | i < k < j - 1 ensures results[k] == Refused {
      assert !Ran(results[k + 1]);
    }
  }

  /**
    After a failure that opened the breaker, the next run comes right after the only idle call, all
    calls before that were refused, and the run starts more than `openDuration` after the failure.
  */
  lemma NextRun(maxFailures: int, openDuration: int, calls: seq<Call>, results: seq<Result>, i: nat, j: nat)
    requires Serial(calls) && Behaves(maxFailures, openDuration, calls, results) && Opens(maxFailures, results, i)
    requires i < j < |results| && Ran(results[j]) && Quiet(results, i + 1, j)
    ensures i + 1 < j && results[j - 1] == Idle && forall k :: i < k < j - 1 ==> results[k] == Refused
    ensures calls[j].start - calls[i].end > openDuration
  {
    RefusedUntilIdle(maxFailures, openDuration, calls, results, i, j);
    QuietKeeps(calls, results, i, j - 1);
    assert CallOk(maxFailures, openDuration, calls, results, j - 1);
    assert InTurn(calls, j - 1) && InTurn(calls, j);
  }

  /** The failures counted are all those since the last run that succeeded. */
  lemma {:induction false} TrailingMeans(results: seq<Result>) returns (from: nat)
    ensures from <= |results| && (from > 0 ==> results[from - 1] == RanOk) && RanOk !in results[from..]
    ensures multiset(results[from..])[RanFailed] == Trailing(results)
  {
    from := |results|;
    if results != [] && results[|results| - 1] != RanOk {
      var before := results[..|results| - 1];
      from := TrailingMeans(before);
      assert results[from..] == before[from..] + [results[|results| - 1]];
    } else {
      assert results[from..] == [];
    }
  }

  /**
    A call runs unless as many runs in a row have failed as open the breaker and no idle call came
    since; then it is refused for `openDuration` after the last failure.
  */
  lemma EveryCall(maxFailures: int, openDuration: int, calls: seq<Call>, results: seq<Result>, i: nat, from: nat)
    requires Behaves(maxFailures, openDuration, calls, results) && i < |calls|
    requires from <= i && (from > 0 ==> results[from - 1] == RanOk) && RanOk !in results[from..i]
    ensures var failures := multiset(results[from..i])[RanFailed];
      && (Ran(results[i]) <==> failures < 1 || failures < maxFailures || results[i - 1] == Idle)
      && (Ran(results[i]) ==> (results[i] == RanOk <==> calls[i].ok))
      && (!Ran(results[i]) ==>
            (results[i] == Refused <==> calls[i].start - LastFailure(calls[..i], results[..i]) <= openDuration))
  {
    assert CallOk(maxFailures, openDuration, calls, results, i);
    TrailingFrom(results[..i], from);
    assert results[..i][from..] == results[from..i];
  }

  lemma {:induction false} TrailingFrom(results: seq<Result>, from: nat)
    requires from <= |results| && (from > 0 ==> results[from - 1] == RanOk) && RanOk !in results[from..]
    ensures multiset(results[from..])[RanFailed] == Trailing(results)
  {
    if from < |results| {
      var before := results[..|results| - 1];
      assert results[from..] == before[from..] + [results[|results| - 1]];
      TrailingFrom(before, from);
    }
  }

  /** What the caller of the breaker gets: an error or none. */
  predicate NoError(r: Result) { r == Idle || r == RanOk }

  /**
    A caller that sees no error cannot tell: its operation has not run exactly when so many runs had
    failed in a row, more than `openDuration` before, and no other idle call came first.
  */
  lemma NoErrorWithoutRun(maxFailures: int, openDuration: int, calls: seq<Call>, results: seq<Result>, i: nat)
    requires Behaves(maxFailures, openDuration, calls, results) && i < |calls|
    ensures NoError(results[i]) && !Ran(results[i]) <==>
      && Trailing(results[..i]) >= Threshold(maxFailures) && !LastIdle(results[..i])
      && calls[i].start - LastFailure(calls[..i], results[..i]) > openDuration
  {
    assert CallOk(maxFailures, openDuration, calls, results, i);
  }

  /** Such a call can happen, whatever the threshold and the duration. */
  lemma IdleCallHappens(maxFailures: int, openDuration: int)
    ensures var n, last := Threshold(maxFailures), if openDuration < 0 then 0 else openDuration + 1;
      var calls := seq(n, i => Call(0, false, 0)) + [Call(last, true, last)];
      var results := seq(n, i => RanFailed) + [Idle];
      Serial(calls) && Behaves(maxFailures, openDuration, calls, results)
  {
    var n, last := Threshold(maxFailures), if openDuration < 0 then 0 else openDuration + 1;
    var calls := seq(n, i => Call(0, false, 0)) + [Call(last, true, last)];
    var results := seq(n, i => RanFailed) + [Idle];
    forall i | 0 <= i <= n
      ensures CallOk(maxFailures, openDuration, calls, results, i)
    {
      AllFailed(calls, results, n, i);
    }
  }

  lemma {:induction false} AllFailed(calls: seq<Call>, results: seq<Result>, n: nat, i: nat)
    requires |calls| == |results| && i <= n <= |results|
    requires forall k :: 0 <= k < n ==> results[k] == RanFailed && calls[k].end == 0
    ensures Trailing(results[..i]) == i && LastFailure(calls[..i], results[..i]) == 0
  {
    if i > 0 {
      assert results[..i][..i - 1] == results[..i - 1];
      AllFailed(calls, results, n, i - 1);
    }
  }
}
