/** Interval ticks, staleness, health over time, and how long the daemon sleeps. */
module ScheduleHealth {
  import opened Common
  import opened Scheduler

  // ---- interval ticks ----

  function Tick(anchor: Time, iv: nat, k: nat): Time {
    anchor + k * (iv * 60)
  }

  lemma DivBounds(m: nat, n: nat)
    requires n > 0
    ensures m / n * n <= m < m / n * n + n
  {
    assert m == m / n * n + m % n;
  }

  lemma Scale(a: nat, b: nat, c: nat)
    requires a <= b
    ensures a * c <= b * c
  {
  }

  /** The ticks that have passed after `d` seconds. */
  function Ticks(d: nat, iv: nat): nat
    requires iv > 0
  {
    d / 60 / iv
  }

  lemma TicksBound(d: nat, iv: nat)
    requires iv > 0
    ensures Ticks(d, iv) * (iv * 60) <= d < (Ticks(d, iv) + 1) * (iv * 60)
  {
    var m := d / 60;
    var k := m / iv;
    DivBounds(m, iv);
    assert k * (iv * 60) == k * iv * 60;
    assert (k + 1) * (iv * 60) == (k * iv + iv) * 60;
  }

  lemma TickOrder(a: Time, iv: nat, k: nat, j: nat)
    requires k < j
    ensures Tick(a, iv, k) + iv * 60 <= Tick(a, iv, j)
  {
    Scale(k + 1, j, iv * 60);
    assert (k + 1) * (iv * 60) == k * (iv * 60) + iv * 60;
  }

  lemma TickStep(anchor: Time, iv: nat, k: nat)
    ensures Tick(anchor, iv, k) == anchor + k * iv * 60
    ensures Tick(anchor, iv, k + 1) == Tick(anchor, iv, k) + iv * 60
    ensures k > 0 ==> Tick(anchor, iv, k) >= anchor + iv * 60
  {
    assert k * iv * 60 == k * (iv * 60);
    assert (k + 1) * (iv * 60) == k * (iv * 60) + iv * 60;
    if k > 0 {
      Scale(1, k, iv * 60);
    }
  }

  lemma ExpectedTick(iv: nat, now: Time, ls: Time)
    requires iv > 0 && ls <= now
    ensures ExpectedAt(Interval(iv), now, Some(ls)) == Some(Tick(ls, iv, Ticks(now - ls, iv)))
  {
    TickStep(ls, iv, Ticks(now - ls, iv));
  }

  lemma NextTick(iv: nat, now: Time, ls: Time)
    requires iv > 0 && ls <= now
    ensures NextOccurrence(Interval(iv), now, Some(ls)) == Some(Tick(ls, iv, Ticks(now - ls, iv) + 1))
  {
    var k := Ticks(now - ls, iv);
    TicksBound(now - ls, iv);
    TickStep(ls, iv, k);
    TickStep(ls, iv, k + 1);
  }

  lemma IntervalTicks(iv: nat, now: Time, ls: Time)
    requires iv > 0 && ls <= now
    ensures var k := Ticks(now - ls, iv);
      && ExpectedAt(Interval(iv), now, Some(ls)) == Some(Tick(ls, iv, k))
      && NextOccurrence(Interval(iv), now, Some(ls)) == Some(Tick(ls, iv, k + 1))
      && Tick(ls, iv, k) <= now < Tick(ls, iv, k) + iv * 60 == Tick(ls, iv, k + 1)
  {
    ExpectedTick(iv, now, ls);
    NextTick(iv, now, ls);
    TicksBound(now - ls, iv);
    TickStep(ls, iv, Ticks(now - ls, iv));
  }

  /** For a positive interval, the window that is due is the greatest tick that
      has come and the next one is the least tick to come, one interval later,
      exactly when the last success is not in the future. */
  lemma IntervalWindows(iv: nat, now: Time, ls: Time)
    requires iv > 0
    ensures var e, n := ExpectedAt(Interval(iv), now, Some(ls)).value, NextOccurrence(Interval(iv), now, Some(ls)).value;
      && n == e + iv * 60 && n > now
      && (e <= now <==> ls <= now)
      && (forall k: nat :: Tick(ls, iv, k) <= now ==> Tick(ls, iv, k) <= e)
      && (forall k: nat :: k > 0 && Tick(ls, iv, k) > now ==> n <= Tick(ls, iv, k))
  {
    if ls <= now {
      IntervalTicks(iv, now, ls);
      var k := Ticks(now - ls, iv);
      forall j: nat | Tick(ls, iv, j) <= now
        ensures Tick(ls, iv, j) <= Tick(ls, iv, k)
      {
        if j > k {
          TickOrder(ls, iv, k, j);
        } else {
          Scale(j, k, iv * 60);
        }
      }
      forall j: nat | j > 0 && Tick(ls, iv, j) > now
        ensures Tick(ls, iv, k + 1) <= Tick(ls, iv, j)
      {
        if j <= k {
          Scale(j, k, iv * 60);
        } else {
          Scale(k + 1, j, iv * 60);
        }
      }
    } else {
      FutureSuccess(iv, now, ls);
      forall j: nat | j > 0
        ensures ls + iv * 60 <= Tick(ls, iv, j)
      {
        Scale(1, j, iv * 60);
      }
    }
  }

  lemma FutureSuccess(iv: nat, now: Time, ls: Time)
    requires iv > 0 && ls > now
    ensures ExpectedAt(Interval(iv), now, Some(ls)) == Some(ls)
    ensures NextOccurrence(Interval(iv), now, Some(ls)) == Some(ls + iv * 60)
  {
    var m := Minutes(now - ls);
    assert m <= 0;
    assert m / iv <= 0 by {
      assert m == m / iv * iv + m % iv;
    }
  }

  // ---- staleness ----

  predicate IsStale(expected: Time, staleAfter: nat, now: Time) {
    Minutes(now - expected) > staleAfter
  }

  ghost predicate NeverGated(iv: nat, staleAfter: nat, ls: Time) {
    forall now: Time :: now >= ls ==> !IsStale(ExpectedAt(Interval(iv), now, Some(ls)).value, staleAfter, now)
  }

  /** A failing interval schedule goes on being retried for ever, never skipped
      as stale, exactly when its interval is at most a minute over the limit. */
  lemma NeverGatedIff(iv: nat, staleAfter: nat, ls: Time)
    requires iv > 0
    ensures NeverGated(iv, staleAfter, ls) <==> iv <= staleAfter + 1
  {
    if iv <= staleAfter + 1 {
      forall now: Time | now >= ls
        ensures !IsStale(ExpectedAt(Interval(iv), now, Some(ls)).value, staleAfter, now)
      {
        IntervalTicks(iv, now, ls);
      }
    } else {
      var now := ls + (iv - 1) * 60;
      IntervalTicks(iv, now, ls);
      var k := Ticks(now - ls, iv);
      if k > 0 {
        Scale(1, k, iv * 60);
      }
      assert k == 0;
      assert IsStale(ExpectedAt(Interval(iv), now, Some(ls)).value, staleAfter, now);
    }
  }

  // ---- health ----

  datatype Health = Fine | Degraded | Failing | Stale

  /** How bad it is. */
  function Rank(h: Health): nat {
    match h
    case Fine => 0
    case Degraded => 0
    case Failing => 1
    case Stale => 2
  }

  datatype WindowState = WindowState(attempts: nat, lastExit: Option<int>)

  /** The dispatch that succeeded is no failed attempt. */
  function FailedAttempts(ws: WindowState): nat {
    if ws.lastExit == Some(0) && ws.attempts > 0 then ws.attempts - 1 else ws.attempts
  }

  function FirstMissedWindow(s: Schedule, ls: Option<Time>): Option<Time> {
    if s.Interval? && s.minutes > 0 && ls.Some? then Some(ls.value + s.minutes * 60) else None
  }

  predicate Succeeded(ls: Option<Time>, expected: Time) {
    ls.Some? && ls.value >= expected
  }

  function HealthState(s: Schedule, staleAfter: nat, ls: Option<Time>, ws: Option<WindowState>, now: Time): Health {
    match ExpectedAt(s, now, ls)
    case None => if ls.None? then Stale else Fine
    case Some(exp) =>
      if Succeeded(ls, exp) then
        if ws.Some? && FailedAttempts(ws.value) > 0 then Degraded else Fine
      else
        var missed := FirstMissedWindow(s, ls);
        if IsStale(if missed.Some? then missed.value else exp, staleAfter, now) then Stale else Failing
  }

  lemma LaterTick(iv: nat, now: Time, later: Time, ls: Time)
    requires iv > 0 && now <= later
    ensures Succeeded(Some(ls), ExpectedAt(Interval(iv), later, Some(ls)).value) ==>
      Succeeded(Some(ls), ExpectedAt(Interval(iv), now, Some(ls)).value)
  {
    if now < ls {
      FutureSuccess(iv, now, ls);
    } else {
      IntervalTicks(iv, now, ls);
      IntervalTicks(iv, later, ls);
      var k, j := Ticks(now - ls, iv), Ticks(later - ls, iv);
      if j == 0 && k > 0 {
        Scale(1, k, iv * 60);
      }
      if j > 0 {
        Scale(1, j, iv * 60);
      }
    }
  }

  lemma MinutesGrow(a: int, b: int)
    requires a <= b
    ensures Minutes(a) <= Minutes(b)
  {
  }

  /** With the heartbeat and the window state left as they are, an interval
      schedule only ever gets worse. */
  lemma IntervalHealthWorsens(iv: nat, staleAfter: nat, ls: Option<Time>, ws: Option<WindowState>, now: Time, later: Time)
    requires now <= later
    ensures Rank(HealthState(Interval(iv), staleAfter, ls, ws, now)) <= Rank(HealthState(Interval(iv), staleAfter, ls, ws, later))
  {
    if iv > 0 && ls.Some? {
      LaterTick(iv, now, later, ls.value);
      MinutesGrow(now - (ls.value + iv * 60), later - (ls.value + iv * 60));
    }
  }

  /** Something failed in the window before the dispatch that succeeded. */
  predicate HadFailures(ws: Option<WindowState>) {
    ws.Some? && ws.value.attempts > if ws.value.lastExit == Some(0) then 1 else 0
  }

  lemma MinutesOver(d: int, limit: nat)
    ensures Minutes(d) > limit <==> d >= (limit + 1) * 60
  {
  }

  /** An interval schedule that never succeeded is stale. One that has succeeded at
      `ls` is fine, or degraded if something failed before, until its first tick
      after that; it is failing from there on, and stale from `staleAfter` whole
      minutes later, counted from that first tick. */
  lemma IntervalHealthIs(iv: nat, staleAfter: nat, ls: Time, ws: Option<WindowState>, now: Time)
    ensures HealthState(Interval(iv), staleAfter, Some(ls), ws, now) ==
      if iv == 0 || now < ls + iv * 60 then (if HadFailures(ws) then Degraded else Fine)
      else if now < ls + iv * 60 + (staleAfter + 1) * 60 then Failing else Stale
    ensures HealthState(Interval(iv), staleAfter, None, ws, now) == Stale
  {
    if iv > 0 {
      MinutesOver(now - (ls + iv * 60), staleAfter);
      if now < ls {
        FutureSuccess(iv, now, ls);
      } else {
        IntervalTicks(iv, now, ls);
        var k := Ticks(now - ls, iv);
        if k > 0 {
          Scale(1, k, iv * 60);
        }
      }
    }
  }

  /** `w` is the latest window of the day of `t` that has come. */
  ghost predicate LatestToday(weekdays: seq<nat>, hours: seq<nat>, minute: nat, t: Time, w: Time) {
    && IsWindow(weekdays, hours, minute, w) && Day(w) == Day(t) && w <= t
    && forall x :: IsWindow(weekdays, hours, minute, x) && Day(x) == Day(t) && x <= t ==> x <= w
  }

  /** A cron schedule is judged by the latest window of the day that has come:
      fine or degraded once it succeeded at or after it, else failing, and stale
      from `staleAfter` whole minutes later. Before the first window of a day it
      is fine, unless it never succeeded. */
  lemma CronHealthIs(weekdays: seq<nat>, hours: seq<nat>, minute: nat, staleAfter: nat, ls: Option<Time>, ws: Option<WindowState>, now: Time)
    ensures var h := HealthState(Cron(weekdays, hours, minute), staleAfter, ls, ws, now);
      && (!OpenedToday(weekdays, hours, minute, now) ==> h == if ls.None? then Stale else Fine)
      && forall w :: LatestToday(weekdays, hours, minute, now, w) ==>
           h == if ls.Some? && ls.value >= w then (if HadFailures(ws) then Degraded else Fine)
                else if now < w + (staleAfter + 1) * 60 then Failing else Stale
  {
    ExpectedIsLatest(weekdays, hours, minute, now);
    DueIffOpened(weekdays, hours, minute, now);
    forall w | LatestToday(weekdays, hours, minute, now, w)
      ensures CronExpectedAt(weekdays, hours, minute, now) == Some(w)
      ensures IsStale(w, staleAfter, now) <==> now >= w + (staleAfter + 1) * 60
    {
      MinutesOver(now - w, staleAfter);
    }
  }

  /** Some window of the day has come. */
  ghost predicate OpenedToday(weekdays: seq<nat>, hours: seq<nat>, minute: nat, t: Time) {
    exists w :: IsWindow(weekdays, hours, minute, w) && Day(w) == Day(t) && w <= t
  }

  /** A window that opened since `now` on the day of `later`, and is not stale by then. */
  ghost predicate Reopened(weekdays: seq<nat>, hours: seq<nat>, minute: nat, staleAfter: nat, now: Time, later: Time) {
    exists w :: IsWindow(weekdays, hours, minute, w) && Day(w) == Day(later) && now < w <= later && !IsStale(w, staleAfter, later)
  }

  lemma DueIffOpened(weekdays: seq<nat>, hours: seq<nat>, minute: nat, t: Time)
    ensures CronExpectedAt(weekdays, hours, minute, t).Some? <==> OpenedToday(weekdays, hours, minute, t)
  {
    ExpectedIsLatest(weekdays, hours, minute, t);
  }

  /** The window that is due only moves on, and to one that opened meanwhile. */
  lemma DueMovesOn(weekdays: seq<nat>, hours: seq<nat>, minute: nat, now: Time, later: Time)
    requires now <= later && CronExpectedAt(weekdays, hours, minute, later).Some?
    ensures var e, e' := CronExpectedAt(weekdays, hours, minute, now), CronExpectedAt(weekdays, hours, minute, later);
      && (e.Some? ==> e.value <= e'.value)
      && (e == e' || e'.value > now)
  {
    ExpectedIsLatest(weekdays, hours, minute, now);
    ExpectedIsLatest(weekdays, hours, minute, later);
  }

  lemma ReopenedIff(weekdays: seq<nat>, hours: seq<nat>, minute: nat, staleAfter: nat, now: Time, later: Time)
    requires now <= later
    ensures var e' := CronExpectedAt(weekdays, hours, minute, later);
      Reopened(weekdays, hours, minute, staleAfter, now, later) <==> e'.Some? && e'.value > now && !IsStale(e'.value, staleAfter, later)
  {
    ExpectedIsLatest(weekdays, hours, minute, later);
    if Reopened(weekdays, hours, minute, staleAfter, now, later) {
      var w :| IsWindow(weekdays, hours, minute, w) && Day(w) == Day(later) && now < w <= later && !IsStale(w, staleAfter, later);
      MinutesGrow(later - CronExpectedAt(weekdays, hours, minute, later).value, later - w);
    }
  }

  /** With the heartbeat and the window state left as they are, health improves
      by itself in two cases only, both of a cron schedule: something has
      succeeded once and no window of the day has come yet, or the health is
      stale and a window has opened since that is not. */
  lemma HealthWorsensIff(s: Schedule, staleAfter: nat, ls: Option<Time>, ws: Option<WindowState>, now: Time, later: Time)
    requires now <= later
    ensures var h := HealthState(s, staleAfter, ls, ws, now);
      Rank(h) <= Rank(HealthState(s, staleAfter, ls, ws, later)) <==>
        !(s.Cron? && ((Rank(h) > 0 && ls.Some? && !OpenedToday(s.weekdays, s.hours, s.minute, later)) ||
                      (h == Stale && Reopened(s.weekdays, s.hours, s.minute, staleAfter, now, later))))
  {
    match s
    case Interval(iv) => IntervalHealthWorsens(iv, staleAfter, ls, ws, now, later);
    case Expression =>
    case Cron(weekdays, hours, minute) =>
      DueIffOpened(weekdays, hours, minute, later);
      ReopenedIff(weekdays, hours, minute, staleAfter, now, later);
      var e, e' := CronExpectedAt(weekdays, hours, minute, now), CronExpectedAt(weekdays, hours, minute, later);
      hide CronExpectedAt, OpenedToday, Reopened;
      if e'.Some? {
        DueMovesOn(weekdays, hours, minute, now, later);
        MinutesGrow(now - e'.value, later - e'.value);
      }
  }

  /** So a failure of a cron schedule that has succeeded once is forgotten
      exactly until the first window of a later day: from midnight on, and all
      through a day without windows, it reads as fine. From that window on it is
      failing or stale again, by that day's latest window. */
  lemma CronFailureForgotten(weekdays: seq<nat>, hours: seq<nat>, minute: nat, staleAfter: nat, ls: Option<Time>, ws: Option<WindowState>, now: Time, later: Time)
    requires Rank(HealthState(Cron(weekdays, hours, minute), staleAfter, ls, ws, now)) > 0 && Day(later) > Day(now)
    ensures var h, due := HealthState(Cron(weekdays, hours, minute), staleAfter, ls, ws, later), CronExpectedAt(weekdays, hours, minute, later);
      && (h == Fine <==> ls.Some? && !OpenedToday(weekdays, hours, minute, later))
      && (OpenedToday(weekdays, hours, minute, later) ==> due.Some? && h == if IsStale(due.value, staleAfter, later) then Stale else Failing)
      && (ls.None? && !OpenedToday(weekdays, hours, minute, later) ==> h == Stale)
  {
    DueIffOpened(weekdays, hours, minute, later);
    if CronExpectedAt(weekdays, hours, minute, later).Some? {
      DueMovesOn(weekdays, hours, minute, now, later);
    }
  }

  // ---- the next event ----

  datatype Agent = Agent(schedule: Schedule, lastSuccess: Option<Time>)

  function ComputeNextEvent(agents: seq<Agent>, now: Time): Option<Time> {
    if agents == [] then None
    else
      var rest := ComputeNextEvent(agents[1..], now);
      match NextOccurrence(agents[0].schedule, now, agents[0].lastSuccess)
      case None => rest
      case Some(t) => if rest.Some? && rest.value <= t then rest else Some(t)
  }

  /** The instants at which an agent's schedule wants a run. */
  ghost predicate Wants(a: Agent, w: Time) {
    match a.schedule
    case Cron(weekdays, hours, minute) => IsWindow(weekdays, hours, minute, w)
    case Interval(iv) => iv > 0 && a.lastSuccess.Some? && exists k: nat :: k > 0 && w == Tick(a.lastSuccess.value, iv, k)
    case Expression => false
  }

  /** The next occurrence of this agent is nothing although a window is to come. */
  predicate Overlooked(a: Agent, now: Time) {
    a.schedule.Cron? && GivesUp(a.schedule.weekdays, a.schedule.hours, a.schedule.minute, now)
  }

  /** The next window of a cron schedule, over the hours that exist. */
  function NextWindow(s: Schedule, now: Time): Option<Time>
    requires s.Cron?
  {
    CronNextOccurrence(s.weekdays, RealHours(s.hours), s.minute, now)
  }

  ghost predicate OneSkipsNothing(a: Agent, now: Time, r: Option<Time>) {
    forall w :: Wants(a, w) && w > now ==> r.Some? && r.value <= w
  }

  lemma OccurrenceSkipsNothing(a: Agent, now: Time)
    ensures var r := NextOccurrence(a.schedule, now, a.lastSuccess);
      && (r.Some? ==> r.value > now)
      && (OneSkipsNothing(a, now, r) <==> !Overlooked(a, now))
  {
    match a.schedule
    case Cron(weekdays, hours, minute) =>
      NextIsLeast(weekdays, hours, minute, now);
      if Overlooked(a, now) {
        OverlookedWindow(a, now);
        assert Wants(a, NextWindow(a.schedule, now).value);
        GivingUpHidesWindows(weekdays, hours, minute, now);
      }
    case Interval(iv) =>
      if iv > 0 {
        IntervalWindows(iv, now, if a.lastSuccess.Some? then a.lastSuccess.value else now);
      }
    case Expression =>
  }

  lemma OverlookedWindow(a: Agent, now: Time)
    requires Overlooked(a, now)
    ensures var r := NextWindow(a.schedule, now);
      r.Some? && IsNext(a.schedule.weekdays, a.schedule.hours, a.schedule.minute, now, r.value)
  {
    RealHoursFindNext(a.schedule.weekdays, a.schedule.hours, a.schedule.minute, now);
    GivingUpHidesWindows(a.schedule.weekdays, a.schedule.hours, a.schedule.minute, now);
  }

  lemma {:induction false} NextEventIsLeast(agents: seq<Agent>, now: Time)
    ensures var r := ComputeNextEvent(agents, now);
      && (r.Some? ==> exists i :: 0 <= i < |agents| && NextOccurrence(agents[i].schedule, now, agents[i].lastSuccess) == r)
      && (forall i :: 0 <= i < |agents| ==> var t := NextOccurrence(agents[i].schedule, now, agents[i].lastSuccess);
            t.Some? ==> r.Some? && r.value <= t.value)
  {
    if agents != [] {
      NextEventIsLeast(agents[1..], now);
      var r, rest := ComputeNextEvent(agents, now), ComputeNextEvent(agents[1..], now);
      if r.Some? && r == rest {
        var i :| 0 <= i < |agents[1..]| && NextOccurrence(agents[1..][i].schedule, now, agents[1..][i].lastSuccess) == rest;
        assert agents[i + 1] == agents[1..][i];
      }
      forall i | 0 <= i < |agents| && NextOccurrence(agents[i].schedule, now, agents[i].lastSuccess).Some?
        ensures r.Some? && r.value <= NextOccurrence(agents[i].schedule, now, agents[i].lastSuccess).value
      {
        if i > 0 {
          assert agents[1..][i - 1] == agents[i];
        }
      }
    }
  }

  /** Some agent wakes the daemon by `t`. */
  predicate WokenBy(agents: seq<Agent>, now: Time, t: Time) {
    exists j :: 0 <= j < |agents| && var r := NextOccurrence(agents[j].schedule, now, agents[j].lastSuccess); r.Some? && r.value <= t
  }

  /** A daemon that sleeps until the next event never wakes in the past, and it
      oversleeps no window of any schedule exactly when every agent whose scan
      gives up is covered by another one that wakes the daemon in time. */
  lemma NextEventSkipsNothing(agents: seq<Agent>, now: Time)
    ensures var r := ComputeNextEvent(agents, now);
      && (r.Some? ==> r.value > now)
      && ((forall i :: 0 <= i < |agents| ==> OneSkipsNothing(agents[i], now, r)) <==>
          forall i :: 0 <= i < |agents| && Overlooked(agents[i], now) ==>
            NextWindow(agents[i].schedule, now).Some? && WokenBy(agents, now, NextWindow(agents[i].schedule, now).value))
  {
    NextEventIsLeast(agents, now);
    var r := ComputeNextEvent(agents, now);
    if r.Some? {
      var i :| 0 <= i < |agents| && NextOccurrence(agents[i].schedule, now, agents[i].lastSuccess) == r;
      OccurrenceSkipsNothing(agents[i], now);
    }
    forall i | 0 <= i < |agents|
      ensures OneSkipsNothing(agents[i], now, r) <==>
        (Overlooked(agents[i], now) ==> NextWindow(agents[i].schedule, now).Some? && WokenBy(agents, now, NextWindow(agents[i].schedule, now).value))
    {
      OneIsCovered(agents, now, i);
    }
  }

  lemma OneIsCovered(agents: seq<Agent>, now: Time, i: nat)
    requires i < |agents|
    ensures OneSkipsNothing(agents[i], now, ComputeNextEvent(agents, now)) <==>
      (Overlooked(agents[i], now) ==> NextWindow(agents[i].schedule, now).Some? && WokenBy(agents, now, NextWindow(agents[i].schedule, now).value))
  {
    NextEventIsLeast(agents, now);
    OccurrenceSkipsNothing(agents[i], now);
    if Overlooked(agents[i], now) {
      OverlookedWindow(agents[i], now);
      assert Wants(agents[i], NextWindow(agents[i].schedule, now).value);
    }
  }

  // ---- retries ----

  function ShouldRetry(attempts: nat, last: Option<Time>, backoffs: seq<nat>, now: Time): bool {
    last.None? || backoffs == [] ||
    Minutes(now - last.value) >= backoffs[Slot(attempts, backoffs)]
  }

  function Slot(attempts: nat, backoffs: seq<nat>): nat
    requires backoffs != []
    ensures Slot(attempts, backoffs) < |backoffs|
  {
    var n := if attempts > 0 then attempts - 1 else 0;
    if n < |backoffs| then n else |backoffs| - 1
  }

  /** After attempt `n` the retry is allowed exactly from the `n`-th backoff on,
      or the last one when there are fewer. */
  lemma RetryAllowedFrom(attempts: nat, last: Time, backoffs: seq<nat>, now: Time)
    requires backoffs != [] && now >= last
    ensures ShouldRetry(attempts, Some(last), backoffs, now) <==>
      now >= last + 60 * (if 1 <= attempts <= |backoffs| then backoffs[attempts - 1]
                          else if attempts == 0 then backoffs[0] else backoffs[|backoffs| - 1])
  {
  }
}
