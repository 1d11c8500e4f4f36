/**
  The daily scheduler.  Times are whole microseconds, the resolution at which the database keeps
  them; the user's zone is a fixed offset from UTC.
*/
module Scheduler {
  import opened Wrappers

  const SECOND := 1_000_000
  const MINUTE := 60 * SECOND
  const HOUR := 60 * MINUTE
  const DAY := 24 * HOUR

  const MIN_INT := -0x8000_0000_0000_0000
  const MAX_INT := 0x7fff_ffff_ffff_ffff

  predicate IsDigit(c: char) { '0' <= c <= '9' }

  /** The value of a string of digits. */
  function Digits(s: string): Option<nat> {
    if s == "" then None
    else if !IsDigit(s[|s| - 1]) then None
    else
      var d := (s[|s| - 1] - '0') as nat;
      if |s| == 1 then Some(d)
      else match Digits(s[..|s| - 1])
           case None => None
           case Some(n) => Some(10 * n + d)
  }

  /** Decimal digits after an optional sign, if the value fits 64 bits. */
  function Atoi(s: string): Option<int> {
    var signed := s != "" && (s[0] == '-' || s[0] == '+');
    match Digits(if signed then s[1..] else s)
    case None => None
    case Some(n) =>
      var v := if signed && s[0] == '-' then 0 - n else n;
      if MIN_INT <= v <= MAX_INT then Some(v) else None
  }

  /** The position of the first colon, or the length. */
  function Colon(s: string): (i: nat)
    ensures i <= |s| && ':' !in s[..i] && (i < |s| ==> s[i] == ':')
  {
    if s == "" || s[0] == ':' then 0
    else
      assert forall k :: 0 < k <= Colon(s[1..]) ==> s[k] == s[1..][k - 1];
      1 + Colon(s[1..])
  }

  /** Hour and minute of a send time: what is before and after its first colon. */
  function ParseSendTime(s: string): Option<(int, int)> {
    if Colon(s) == |s| then None
    else
      match (Atoi(s[..Colon(s)]), Atoi(s[Colon(s) + 1..]))
      case (Some(h), Some(m)) => Some((h, m))
      case _ => None
  }

  predicate ValidSendTime(s: string) {
    match ParseSendTime(s)
    case None => false
    case Some((h, m)) => 0 <= h <= 23 && 0 <= m <= 59
  }

  function Digit(n: nat): char
    requires n < 10
  {
    '0' + n as char
  }

  function TwoDigits(n: nat): string
    requires n < 100
  {
    [Digit(n / 10), Digit(n % 10)]
  }

  lemma TwoDigitsParse(n: nat)
    requires n < 100
    ensures Atoi(TwoDigits(n)) == Some(n) && ':' !in TwoDigits(n)
  {
    var s := TwoDigits(n);
    assert s[..1] == [Digit(n / 10)];
    assert Digits(s[..1]) == Some(n / 10);
    assert Digits(s) == Some(10 * (n / 10) + n % 10);
  }

  lemma {:induction false} ColonAfter(a: string, b: string)
    requires ':' !in a
    ensures Colon(a + ":" + b) == |a|
  {
    if a != "" {
      assert (a + ":" + b)[1..] == a[1..] + ":" + b;
      ColonAfter(a[1..], b);
    }
  }

  /** Every time of day in the documented HH:MM form is accepted and read back. */
  lemma HourMinuteRoundTrip(h: nat, m: nat)
    requires h <= 23 && m <= 59
    ensures var s := TwoDigits(h) + ":" + TwoDigits(m); ParseSendTime(s) == Some((h, m)) && ValidSendTime(s)
  {
    TwoDigitsParse(h);
    TwoDigitsParse(m);
    ColonAfter(TwoDigits(h), TwoDigits(m));
    var s := TwoDigits(h) + ":" + TwoDigits(m);
    assert s[..2] == TwoDigits(h) && s[3..] == TwoDigits(m);
  }

  /** The documented form: a time of day with two digits each. */
  predicate HourMinute(s: string) {
    exists h: nat, m: nat :: h <= 23 && m <= 59 && s == TwoDigits(h) + ":" + TwoDigits(m)
  }

  predicate TwoAreDigits(s: string) { |s| == 2 && IsDigit(s[0]) && IsDigit(s[1]) }

  /** Five characters, of which the middle one is a colon and the others are digits. */
  predicate HasForm(s: string) {
    |s| == 5 && s[2] == ':' && TwoAreDigits(s[..2]) && TwoAreDigits(s[3..])
  }

  lemma DigitsOfTwo(s: string)
    requires TwoAreDigits(s)
    ensures Atoi(s).Some? && 0 <= Atoi(s).value < 100 && s == TwoDigits(Atoi(s).value)
  {
    assert s[..1] == [s[0]];
    assert Digits(s[..1]) == Some((s[0] - '0') as nat);
    var n := 10 * (s[0] - '0') as int + (s[1] - '0') as int;
    assert Digits(s) == Some(n);
    assert n / 10 == (s[0] - '0') as int && n % 10 == (s[1] - '0') as int;
  }

  lemma TwoDigitsAreDigits(n: nat)
    requires n < 100
    ensures TwoAreDigits(TwoDigits(n))
  {
  }

  lemma FormIsHourMinute(s: string)
    requires ValidSendTime(s) && HasForm(s)
    ensures HourMinute(s)
  {
    var a, b := s[..2], s[3..];
    DigitsOfTwo(a);
    DigitsOfTwo(b);
    assert s == a + ":" + b;
    ColonAfter(a, b);
    assert s == TwoDigits(Atoi(a).value) + ":" + TwoDigits(Atoi(b).value);
  }

  /** Which of the accepted send times are in the documented form. */
  lemma DocumentedForm(s: string)
    requires ValidSendTime(s)
    ensures HourMinute(s) <==> HasForm(s)
  {
    if HasForm(s) {
      FormIsHourMinute(s);
    }
    if HourMinute(s) {
      var h: nat, m: nat :| h <= 23 && m <= 59 && s == TwoDigits(h) + ":" + TwoDigits(m);
      TwoDigitsAreDigits(h);
      TwoDigitsAreDigits(m);
      assert s[..2] == TwoDigits(h) && s[3..] == TwoDigits(m);
    }
  }

  /** The check is looser than the documented form: signs pass, and missing digits do. */
  lemma LooseFormAccepted()
    ensures ParseSendTime("+9:-0") == Some((9, 0)) && ValidSendTime("+9:-0") && !HourMinute("+9:-0")
  {
    assert Digits("9") == Some(9) && Digits("0") == Some(0);
    assert "+9"[1..] == "9" && "-0"[1..] == "0";
    ColonAfter("+9", "-0");
    assert "+9:-0" == "+9" + ":" + "-0";
    assert "+9:-0"[..2] == "+9" && "+9:-0"[3..] == "-0";
    DocumentedForm("+9:-0");
  }

  datatype Schedule = Schedule(event: string, enabled: bool, sendTime: string, offset: int, last: Option<int>)

  /** The number of the local day. */
  function Day(offset: int, t: int): int { (t + offset) / DAY }

  function DayStart(offset: int, day: int): int { day * DAY - offset }

  /** The send time on a local day. */
  function SendMoment(offset: int, day: int, hm: (int, int)): int {
    DayStart(offset, day) + hm.0 * HOUR + hm.1 * MINUTE
  }

  /** SELECT ... WHERE enabled AND (last_sent_at IS NULL OR last_sent_at < now - 20 hours) */
  predicate Candidate(s: Schedule, dbNow: int) {
    s.enabled && (s.last.None? || s.last.value < dbNow - 20 * HOUR)
  }

  predicate IsDue(s: Schedule, now: int) {
    match ParseSendTime(s.sendTime)
    case None => false
    case Some(hm) =>
      && now >= SendMoment(s.offset, Day(s.offset, now), hm)
      && !(s.last.Some? && Day(s.offset, s.last.value) == Day(s.offset, now))
  }

  datatype Send = Send(at: int, offset: int, sendTime: string, recorded: bool)

  /** One schedule, everything sent for it, and the time. */
  datatype State = State(schedule: Schedule, sends: seq<Send>, clock: int)

  /**
    A run reads the clock for its query and once more for its decisions; creating the notification
    may fail, and so may recording it.  Users edit the schedule between runs.
  */
  datatype Event =
    | Run(dbNow: int, now: int, created: bool, recorded: bool)
    | Edit(enabled: bool, sendTime: string, offset: int)

  predicate Sends(s: Schedule, e: Event) {
    e.Run? && e.created && Candidate(s, e.dbNow) && IsDue(s, e.now)
  }

  function Apply(s: State, e: Event): State {
    match e
    case Edit(enabled, sendTime, offset) =>
      s.(schedule := s.schedule.(enabled := enabled, sendTime := sendTime, offset := offset))
    case Run(_, now, _, recorded) =>
      if !Sends(s.schedule, e) then s.(clock := now)
      else
        State(if recorded then s.schedule.(last := Some(now)) else s.schedule,
              s.sends + [Send(now, s.schedule.offset, s.schedule.sendTime, recorded)], now)
  }

  /** One worker, and a clock that never goes back. */
  predicate Enabled(s: State, e: Event) {
    e.Run? ==> s.clock <= e.dbNow <= e.now
  }

  /** The state after a history of events, if the clock allows it. */
  function Execute(init: State, events: seq<Event>): Option<State> {
    if events == [] then Some(init)
    else
      match Execute(init, events[..|events| - 1])
      case None => None
      case Some(s) =>
        var e := events[|events| - 1];
        if Enabled(s, e) then Some(Apply(s, e)) else None
  }

  predicate Fresh(init: State) {
    init.sends == [] && (init.schedule.last.Some? ==> init.schedule.last.value <= init.clock)
  }

  /** Nothing lies in the future, and `last` is the time of the last send recorded. */
  ghost predicate Recorded(init: State, s: State) {
    && (forall i :: 0 <= i < |s.sends| ==> s.sends[i].at <= s.clock)
    && (s.schedule.last.Some? ==> s.schedule.last.value <= s.clock)
    && (forall i :: 0 <= i < |s.sends| && s.sends[i].recorded ==>
          s.schedule.last.Some? && s.sends[i].at <= s.schedule.last.value)
    && (s.schedule.last == init.schedule.last
        || exists k :: 0 <= k < |s.sends| && s.sends[k].recorded && s.schedule.last == Some(s.sends[k].at))
  }

  /** The second send is more than 20 hours after the first, and on a later day of its own zone. */
  predicate FarApart(a: Send, b: Send) {
    b.at - a.at > 20 * HOUR && Day(b.offset, a.at) < Day(b.offset, b.at)
  }

  /** The send is not before the send time of its local day. */
  predicate NotEarly(a: Send) {
    && ParseSendTime(a.sendTime).Some?
    && a.at >= SendMoment(a.offset, Day(a.offset, a.at), ParseSendTime(a.sendTime).value)
  }

  ghost predicate Safe(sends: seq<Send>) {
    && (forall i :: 0 <= i < |sends| ==> NotEarly(sends[i]))
    && (forall i, j :: 0 <= i < j < |sends| && sends[i].recorded ==> FarApart(sends[i], sends[j]))
  }

  lemma DayMonotone(offset: int, a: int, b: int)
    requires a <= b
    ensures Day(offset, a) <= Day(offset, b)
  {
  }

  lemma StepRecorded(init: State, s: State, e: Event)
    requires Recorded(init, s) && Enabled(s, e)
    ensures Recorded(init, Apply(s, e))
  {
    var t := Apply(s, e);
    if k :| 0 <= k < |s.sends| && s.sends[k].recorded && s.schedule.last == Some(s.sends[k].at) {
      assert t.sends[k].recorded;
    }
    assert Sends(s.schedule, e) && e.recorded ==>
      t.sends[|s.sends|].recorded && t.schedule.last == Some(t.sends[|s.sends|].at);
  }

  lemma StepSafe(init: State, s: State, e: Event)
    requires Recorded(init, s) && Safe(s.sends) && Enabled(s, e)
    ensures Safe(Apply(s, e).sends)
  {
    var t := Apply(s, e);
    if Sends(s.schedule, e) {
      assert NotEarly(t.sends[|s.sends|]);
      forall i | 0 <= i < |s.sends| && s.sends[i].recorded ensures FarApart(s.sends[i], t.sends[|s.sends|]) {
        DayMonotone(s.schedule.offset, s.sends[i].at, s.schedule.last.value);
        DayMonotone(s.schedule.offset, s.schedule.last.value, e.now);
      }
    }
  }

  lemma {:induction false} ExecuteSafe(init: State, events: seq<Event>, s: State)
    requires Fresh(init) && Execute(init, events) == Some(s)
    ensures Recorded(init, s) && Safe(s.sends)
  {
    if events != [] {
      var before := Execute(init, events[..|events| - 1]).value;
      ExecuteSafe(init, events[..|events| - 1], before);
      StepRecorded(init, before, events[|events| - 1]);
      StepSafe(init, before, events[|events| - 1]);
    }
  }

  /**
    Safety, over any runs and edits: whatever follows a recorded send is more than 20 hours later
    and on a later local day.
  */
  lemma SendsAreApart(init: State, events: seq<Event>, s: State, i: nat, j: nat)
    requires Fresh(init) && Execute(init, events) == Some(s)
    requires i < j < |s.sends| && s.sends[i].recorded
    ensures s.sends[j].at - s.sends[i].at > 72_000_000_000
    ensures var offset := s.sends[j].offset;
      (s.sends[i].at + offset) / 86_400_000_000 < (s.sends[j].at + offset) / 86_400_000_000
  {
    FarSends(init, events, s, i, j);
    FarApartMeans(s.sends[i], s.sends[j]);
  }

  lemma FarSends(init: State, events: seq<Event>, s: State, i: nat, j: nat)
    requires Fresh(init) && Execute(init, events) == Some(s)
    requires i < j < |s.sends| && s.sends[i].recorded
    ensures FarApart(s.sends[i], s.sends[j])
  {
    ExecuteSafe(init, events, s);
  }

  lemma FarApartMeans(a: Send, b: Send)
    requires FarApart(a, b)
    ensures b.at - a.at > 72_000_000_000
    ensures (a.at + b.offset) / 86_400_000_000 < (b.at + b.offset) / 86_400_000_000
  {
  }

  /** No send, recorded or not, precedes the send time of its local day. */
  lemma SendsAreNotEarly(init: State, events: seq<Event>, s: State, i: nat)
    requires Fresh(init) && Execute(init, events) == Some(s) && i < |s.sends|
    ensures ParseSendTime(s.sends[i].sendTime).Some?
    ensures var (h, m) := ParseSendTime(s.sends[i].sendTime).value;
      (s.sends[i].at + s.sends[i].offset) % 86_400_000_000 >= h * 3_600_000_000 + m * 60_000_000
  {
    ExecuteSafe(init, events, s);
    assert NotEarly(s.sends[i]);
    TimeOfDay(s.sends[i].offset, s.sends[i].at, ParseSendTime(s.sends[i].sendTime).value);
  }

  /** Not before the send time of the local day means not before it by the local clock. */
  lemma TimeOfDay(offset: int, t: int, hm: (int, int))
    ensures t >= SendMoment(offset, Day(offset, t), hm) <==>
      (t + offset) % 86_400_000_000 >= hm.0 * 3_600_000_000 + hm.1 * 60_000_000
  {
  }

  /** The event number `i` is the run that made the send number `k`. */
  ghost predicate MadeBy(init: State, events: seq<Event>, a: Send, k: nat, i: nat)
    requires i < |events| && Execute(init, events[..i]).Some?
  {
    var before := Execute(init, events[..i]).value;
    && |before.sends| == k
    && events[i].Run? && events[i].created && a == Send(events[i].now, before.schedule.offset,
                                                        before.schedule.sendTime, events[i].recorded)
    && before.schedule.enabled
    && (before.schedule.last.Some? ==> events[i].dbNow - before.schedule.last.value > 72_000_000_000)
  }

  /**
    Every send was made by a run of its own that found the schedule enabled, not sent in the 20
    hours before, and as the send says.
  */
  lemma {:induction false} SendsWhileEnabled(init: State, events: seq<Event>, s: State, k: nat) returns (i: nat)
    requires init.sends == [] && Execute(init, events) == Some(s) && k < |s.sends|
    ensures i < |events| && Execute(init, events[..i]).Some? && MadeBy(init, events, s.sends[k], k, i)
  {
    i := |events| - 1;
    var before := Execute(init, events[..i]).value;
    if k < |before.sends| {
      var n := i;
      i := SendsWhileEnabled(init, events[..n], before, k);
      assert events[..n][..i] == events[..i];
    }
  }

  /** No edits, and every write succeeds. */
  predicate AllRuns(events: seq<Event>) {
    forall i {:trigger events[i]} :: 0 <= i < |events| ==> events[i].Run? && events[i].created && events[i].recorded
  }

  predicate Within(e: Event, from: int, until: int) {
    e.Run? && from <= e.dbNow <= e.now < until
  }

  /** There is a whole run in every 60-second window of the day. */
  ghost predicate Dense(events: seq<Event>, start: int) {
    forall t {:trigger Covers(events, t)} :: start <= t <= start + DAY - MINUTE ==> Covers(events, t)
  }

  ghost predicate Covers(events: seq<Event>, t: int) {
    exists i :: 0 <= i < |events| && Within(events[i], t, t + MINUTE)
  }

  lemma {:induction false} PrefixRuns(init: State, events: seq<Event>, i: nat)
    requires Execute(init, events).Some? && i <= |events| && AllRuns(events)
    ensures Execute(init, events[..i]).Some?
    ensures var s, t := Execute(init, events[..i]).value, Execute(init, events).value;
            && s.sends <= t.sends
            && t.schedule == s.schedule.(last := t.schedule.last)
            && (forall k :: |s.sends| <= k < |t.sends| ==>
                  t.sends[k].recorded && t.sends[k].offset == s.schedule.offset)
  {
    if i == |events| {
      assert events[..i] == events;
    } else {
      PrefixRuns(init, events[..|events| - 1], i);
      assert events[..|events| - 1][..i] == events[..i];
    }
  }

  lemma AllRecorded(init: State, events: seq<Event>, s: State)
    requires Fresh(init) && Execute(init, events) == Some(s) && AllRuns(events)
    ensures forall k :: 0 <= k < |s.sends| ==> s.sends[k].recorded && s.sends[k].offset == init.schedule.offset
  {
    PrefixRuns(init, events, 0);
  }

  lemma SameSchedule(init: State, events: seq<Event>, s: State)
    requires Execute(init, events) == Some(s) && AllRuns(events)
    ensures s.schedule == init.schedule.(last := s.schedule.last)
  {
    PrefixRuns(init, events, 0);
  }

  /** A run on the day, late enough after the send time and the last send, leaves the day served. */
  lemma RunServes(init: State, s: State, e: Event, hm: (int, int), day: int, since: int)
    requires Recorded(init, s) && Enabled(s, e) && e.Run? && e.created && e.recorded
    requires s.schedule.enabled && ParseSendTime(s.schedule.sendTime) == Some(hm)
    requires Day(s.schedule.offset, e.now) == day && e.dbNow >= SendMoment(s.schedule.offset, day, hm)
    requires e.dbNow > since + 20 * HOUR
    requires s.schedule.last.Some? ==>
              s.schedule.last.value <= since || Day(s.schedule.offset, s.schedule.last.value) == day
    ensures var t := Apply(s, e);
      t.schedule.last.Some? && t.schedule.last.value <= e.now && Day(t.schedule.offset, t.schedule.last.value) == day
  {
  }

  /** Within the day, the last send recorded lies before `since` or on the day. */
  lemma LastBefore(init: State, s: State, sends: seq<Send>, offset: int, since: int, day: int)
    requires Recorded(init, s) && s.sends <= sends && s.clock < DayStart(offset, day) + DAY
    requires init.schedule.last.Some? ==> init.schedule.last.value <= since
    requires forall i :: 0 <= i < |sends| && sends[i].at < DayStart(offset, day) ==> sends[i].at <= since
    ensures s.schedule.last.Some? ==> s.schedule.last.value <= since || Day(offset, s.schedule.last.value) == day
  {
    if s.schedule.last.Some? && s.schedule.last != init.schedule.last {
      var k :| 0 <= k < |s.sends| && s.sends[k].recorded && s.schedule.last == Some(s.sends[k].at);
      assert sends[k] == s.sends[k];
      InDay(offset, s.sends[k].at, day);
    }
  }

  lemma InDay(offset: int, t: int, day: int)
    ensures Day(offset, t) == day <==> DayStart(offset, day) <= t < DayStart(offset, day) + DAY
  {
  }

  predicate SentOn(a: Send, offset: int, day: int, before: int) { Day(offset, a.at) == day && a.at < before }

  /** The states around one of the runs. */
  lemma Around(init: State, events: seq<Event>, s: State, i: nat) returns (before: State)
    requires Fresh(init) && Execute(init, events) == Some(s) && AllRuns(events) && i < |events|
    ensures Recorded(init, before) && Enabled(before, events[i])
    ensures before.schedule == init.schedule.(last := before.schedule.last)
    ensures before.sends <= s.sends && Apply(before, events[i]).sends <= s.sends
  {
    PrefixRuns(init, events, i);
    PrefixRuns(init, events, i + 1);
    assert events[..i + 1][..i] == events[..i];
    before := Execute(init, events[..i]).value;
    SameSchedule(init, events[..i], before);
    ExecuteSafe(init, events[..i], before);
  }

  /** The run number `i` finds the day served or serves it. */
  lemma ServedBy(init: State, events: seq<Event>, s: State, i: nat, hm: (int, int), day: int, since: int)
    returns (k: nat)
    requires Fresh(init) && Execute(init, events) == Some(s) && AllRuns(events) && i < |events|
    requires init.schedule.enabled && ParseSendTime(init.schedule.sendTime) == Some(hm)
    requires var z := init.schedule.offset;
      && Day(z, events[i].now) == day
      && SendMoment(z, day, hm) <= events[i].dbNow && since + 20 * HOUR < events[i].dbNow
      && since < DayStart(z, day)
      && (init.schedule.last.Some? ==> init.schedule.last.value <= since)
      && (forall j :: 0 <= j < |s.sends| && s.sends[j].at < DayStart(z, day) ==> s.sends[j].at <= since)
    ensures k < |s.sends| && s.sends[k].recorded && SentOn(s.sends[k], init.schedule.offset, day, events[i].now + 1)
  {
    var z := init.schedule.offset;
    var before := Around(init, events, s, i);
    InDay(z, events[i].now, day);
    LastBefore(init, before, s.sends, z, since, day);
    RunServes(init, before, events[i], hm, day, since);
    var after := Apply(before, events[i]);
    StepRecorded(init, before, events[i]);
    InDay(z, after.schedule.last.value, day);
    k :| 0 <= k < |after.sends| && after.sends[k].recorded && after.schedule.last == Some(after.sends[k].at);
    assert s.sends[k] == after.sends[k];
  }

  /** When the day's send is due if the send before was no later than `since`. */
  function DueFrom(offset: int, day: int, hm: (int, int), since: int): int {
    var moment, wait := SendMoment(offset, day, hm), since + 20 * HOUR + 1;
    if moment < wait then wait else moment
  }

  /** On a dense day there is a run within a minute of the time the send is due. */
  lemma RunInTime(events: seq<Event>, offset: int, day: int, hm: (int, int), since: int) returns (i: nat)
    requires Dense(events, DayStart(offset, day)) && since < DayStart(offset, day)
    requires 0 <= hm.0 <= 23 && 0 <= hm.1 <= 59
    ensures var t := DueFrom(offset, day, hm, since);
      i < |events| && Within(events[i], t, t + MINUTE) && Day(offset, events[i].now) == day
  {
    var t := DueFrom(offset, day, hm, since);
    assert Covers(events, t);
    i :| 0 <= i < |events| && Within(events[i], t, t + MINUTE);
    InDay(offset, events[i].now, day);
  }

  /** No day is served twice. */
  lemma OnlyOne(init: State, events: seq<Event>, s: State, day: int, k: nat)
    requires Fresh(init) && Execute(init, events) == Some(s) && AllRuns(events)
    requires k < |s.sends| && Day(init.schedule.offset, s.sends[k].at) == day
    ensures forall j :: 0 <= j < |s.sends| && Day(init.schedule.offset, s.sends[j].at) == day ==> j == k
  {
    ExecuteSafe(init, events, s);
    AllRecorded(init, events, s);
    assert forall j :: 0 <= j < k ==> FarApart(s.sends[j], s.sends[k]);
    assert forall j :: k < j < |s.sends| ==> FarApart(s.sends[k], s.sends[j]);
  }

  /**
    Liveness: with a whole run in every 60-second window of a local day and all writes succeeding,
    an enabled and validated schedule is sent exactly once on that day.  If the send before was no
    later than `since`, it is sent within a minute after both its send time and the end of the 20
    hours; as `since` may be any time before the day, a late send never starves the next day.
  */
  lemma EveryDayOnce(init: State, events: seq<Event>, s: State, day: int, since: int) returns (k: nat)
    requires Fresh(init) && Execute(init, events) == Some(s) && AllRuns(events)
    requires init.schedule.enabled && ValidSendTime(init.schedule.sendTime)
    requires var start := DayStart(init.schedule.offset, day);
      && since < start && Dense(events, start)
      && (init.schedule.last.Some? ==> init.schedule.last.value <= since)
      && (forall i :: 0 <= i < |s.sends| && s.sends[i].at < start ==> s.sends[i].at <= since)
    ensures var due := DueFrom(init.schedule.offset, day, ParseSendTime(init.schedule.sendTime).value, since);
      k < |s.sends| && SentOn(s.sends[k], init.schedule.offset, day, due + MINUTE)
    ensures forall i :: 0 <= i < |s.sends| && Day(init.schedule.offset, s.sends[i].at) == day ==> i == k
  {
    var hm := ParseSendTime(init.schedule.sendTime).value;
    var i := RunInTime(events, init.schedule.offset, day, hm, since);
    k := ServedBy(init, events, s, i, hm, day, since);
    OnlyOne(init, events, s, day, k);
  }
}
