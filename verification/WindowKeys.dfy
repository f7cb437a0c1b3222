/** Heartbeats, window files, and the key under which both sides look for a window. */
module WindowKeys {
  import opened Common
  import opened Scheduler
  import opened ScheduleHealth

  // ---- the heartbeat file ----

  datatype Heartbeat = Heartbeat(startedAt: Time, finishedAt: Option<Time>, exitCode: Option<int>,
                                 duration: Option<int>, lastSuccess: Option<Time>)

  function LastSuccess(hb: Option<Heartbeat>): Option<Time> {
    if hb.Some? then hb.value.lastSuccess else None
  }

  function Begun(prev: Option<Heartbeat>, start: Time): Heartbeat {
    Heartbeat(start, None, None, None, LastSuccess(prev))
  }

  /** A heartbeat that vanished meanwhile is rebuilt, without claiming a success. */
  function Finished(prev: Option<Heartbeat>, start: Time, finish: Time, exitCode: int): Heartbeat {
    var hb := if prev.Some? then prev.value else Heartbeat(start, None, None, None, None);
    hb.(finishedAt := Some(finish), exitCode := Some(exitCode), duration := Some(finish - start),
        lastSuccess := if exitCode == 0 then Some(finish) else hb.lastSuccess)
  }

  class HeartbeatFile {
    var record: Option<Heartbeat>

    method BeginHeartbeat(start: Time)
      modifies this
      ensures record == Some(Begun(old(record), start))
    {
      var prev := record;
      var hb := Heartbeat(start, None, None, None, None);
      if prev.Some? {
        hb := hb.(lastSuccess := prev.value.lastSuccess);
      }
      record := Some(hb);
    }

    method FinishHeartbeat(start: Time, finish: Time, exitCode: int)
      modifies this
      ensures record == Some(Finished(old(record), start, finish, exitCode))
    {
      var hb := Heartbeat(start, None, None, None, None);
      if record.Some? {
        hb := record.value;
      }
      hb := hb.(finishedAt := Some(finish), exitCode := Some(exitCode), duration := Some(finish - start));
      if exitCode == 0 {
        hb := hb.(lastSuccess := Some(finish));
      }
      record := Some(hb);
    }
  }

  // ---- the key ----

  /** Window files are named to the minute. */
  function Label(w: Time): Time {
    w - w % 60
  }

  /** The label is the start of the minute. */
  lemma LabelIs(w: Time)
    ensures Label(w) <= w < Label(w) + 60 && Label(w) % 60 == 0
  {
    assert w == w / 60 * 60 + w % 60;
  }

  function WindowKey(s: Schedule, ls: Option<Time>, lastDispatched: Option<Time>, now: Time): Option<Time> {
    match ExpectedAt(s, now, ls)
    case None => None
    case Some(expected) =>
      if !Succeeded(ls, expected) then Some(expected)
      else if lastDispatched.Some? && lastDispatched.value <= expected then lastDispatched
      else Some(expected)
  }

  // ---- runs ----

  /** One schedule's runs: started by hand, or dispatched by the daemon against
      the window that is due; finishing; writing the window file of a dispatched
      window; losing the heartbeat file. */
  datatype Event =
    | Start(now: Time)
    | Dispatch(now: Time)
    | Finish(now: Time, start: Time, exitCode: int)
    | Record(now: Time, w: Time)
    | Vanish(now: Time)

  /** `sent` are the windows dispatched so far, `files` the labels on disk. */
  datatype State = State(hb: Option<Heartbeat>, sent: set<Time>, files: set<Time>, clock: Time)

  function Step(s: Schedule, st: State, e: Event): Option<State> {
    if e.now < st.clock then None
    else match e
      case Start(now) => Some(st.(hb := Some(Begun(st.hb, now)), clock := now))
      case Dispatch(now) =>
        var expected := ExpectedAt(s, now, LastSuccess(st.hb));
        if expected.None? || expected.value > now || Succeeded(LastSuccess(st.hb), expected.value) then None
        else Some(st.(hb := Some(Begun(st.hb, now)), sent := st.sent + {expected.value}, clock := now))
      case Finish(now, start, exitCode) => Some(st.(hb := Some(Finished(st.hb, start, now, exitCode)), clock := now))
      case Record(now, w) => if w in st.sent then Some(st.(files := st.files + {Label(w)}, clock := now)) else None
      case Vanish(now) => Some(st.(hb := None, clock := now))
  }

  function Run(s: Schedule, events: seq<Event>, start: Time): Option<State> {
    if events == [] then Some(State(None, {}, {}, start))
    else match Run(s, events[..|events| - 1], start)
      case None => None
      case Some(st) => Step(s, st, events[|events| - 1])
  }

  /** When the latest run that exited 0 finished, unless the record was lost since. */
  function LatestSuccess(events: seq<Event>): Option<Time> {
    if events == [] then None
    else
      var n := |events| - 1;
      match events[n]
      case Finish(now, _, exitCode) => if exitCode == 0 then Some(now) else LatestSuccess(events[..n])
      case Vanish(_) => None
      case _ => LatestSuccess(events[..n])
  }

  /** Every dispatched window is a window of the schedule as it stands: for an
      interval, one before the last success or a tick counted from it. */
  ghost predicate SentOk(s: Schedule, ls: Option<Time>, w: Time) {
    match s
    case Cron(weekdays, hours, minute) => IsWindow(weekdays, hours, minute, w)
    case Interval(iv) => iv > 0 && (ls.Some? ==> w <= ls.value || exists k: nat :: w == Tick(ls.value, iv, k))
    case Expression => false
  }

  ghost predicate Inv(s: Schedule, st: State) {
    && (LastSuccess(st.hb).Some? ==> LastSuccess(st.hb).value <= st.clock)
    && (forall w :: w in st.sent ==> w <= st.clock && SentOk(s, LastSuccess(st.hb), w))
    && (forall f :: f in st.files ==> exists w :: w in st.sent && f == Label(w))
  }

  lemma DispatchOk(s: Schedule, ls: Option<Time>, now: Time)
    requires ExpectedAt(s, now, ls).Some? && !Succeeded(ls, ExpectedAt(s, now, ls).value) && (ls.Some? ==> ls.value <= now)
    ensures SentOk(s, ls, ExpectedAt(s, now, ls).value)
  {
    match s
    case Cron(weekdays, hours, minute) => ExpectedIsLatest(weekdays, hours, minute, now);
    case Interval(iv) => IntervalTicks(iv, now, ls.value);
    case Expression =>
  }

  lemma StepKeeps(s: Schedule, st: State, e: Event)
    requires Inv(s, st) && Step(s, st, e).Some?
    ensures Inv(s, Step(s, st, e).value)
  {
    var st' := Step(s, st, e).value;
    if e.Dispatch? {
      DispatchOk(s, LastSuccess(st.hb), e.now);
    }
    forall w | w in st'.sent
      ensures w <= st'.clock && SentOk(s, LastSuccess(st'.hb), w)
    {
      if w in st.sent {
        assert SentOk(s, LastSuccess(st.hb), w);
      }
    }
    forall f | f in st'.files
      ensures exists w :: w in st'.sent && f == Label(w)
    {
      if f in st.files {
        var w :| w in st.sent && f == Label(w);
        assert w in st'.sent;
      } else {
        assert e.w in st'.sent;
      }
    }
  }

  lemma {:induction false} RunKeeps(s: Schedule, events: seq<Event>, start: Time)
    requires Run(s, events, start).Some?
    ensures Inv(s, Run(s, events, start).value)
    ensures LastSuccess(Run(s, events, start).value.hb) == LatestSuccess(events)
    decreases |events|
  {
    if events != [] {
      var n := |events| - 1;
      RunKeeps(s, events[..n], start);
      StepKeeps(s, Run(s, events[..n], start).value, events[n]);
    }
  }

  /** The newest window file, as the readers look for it. */
  ghost predicate IsNewest(files: set<Time>, now: Time, d: Option<Time>) {
    if d.None? then forall f :: f in files ==> f > now
    else d.value in files && d.value <= now && forall f :: f in files && f <= now ==> f <= d.value
  }

  /** Once the window that is due has succeeded, no dispatched window is newer. */
  lemma SentBefore(s: Schedule, ls: Option<Time>, now: Time, w: Time)
    requires SentOk(s, ls, w) && w <= now && (ls.Some? ==> ls.value <= now)
    requires ExpectedAt(s, now, ls).Some? && Succeeded(ls, ExpectedAt(s, now, ls).value)
    ensures w <= ExpectedAt(s, now, ls).value
  {
    match s
    case Cron(weekdays, hours, minute) =>
      ExpectedIsLatest(weekdays, hours, minute, now);
      var e := CronExpectedAt(weekdays, hours, minute, now).value;
      if Day(w) != Day(now) {
        assert Day(w) < Day(e);
      }
    case Interval(iv) =>
      IntervalTicks(iv, now, ls.value);
      IntervalWindows(iv, now, ls.value);
      TickStep(ls.value, iv, Ticks(now - ls.value, iv));
  }

  /** Writer and readers agree: after any run, the record holds the latest
      success, and the key that is looked up is the window that is due while it
      is missed, and the newest window the daemon wrote once it has succeeded. */
  lemma KeysAgree(s: Schedule, events: seq<Event>, start: Time, now: Time, d: Option<Time>)
    requires Run(s, events, start).Some? && now >= Run(s, events, start).value.clock
    requires IsNewest(Run(s, events, start).value.files, now, d)
    ensures var st := Run(s, events, start).value;
      var ls := LastSuccess(st.hb);
      var e := ExpectedAt(s, now, ls);
      && ls == LatestSuccess(events)
      && WindowKey(s, ls, d, now) ==
         (if e.Some? && Succeeded(ls, e.value) && st.files != {} then d else e)
      && (st.files != {} ==> d.Some?)
  {
    RunKeeps(s, events, start);
    var st := Run(s, events, start).value;
    var ls := LastSuccess(st.hb);
    var e := ExpectedAt(s, now, ls);
    forall f | f in st.files
      ensures f <= now && (e.Some? && Succeeded(ls, e.value) ==> f <= e.value)
    {
      var w :| w in st.sent && f == Label(w);
      assert SentOk(s, ls, w);
      if e.Some? && Succeeded(ls, e.value) {
        SentBefore(s, ls, now, w);
      }
    }
    if st.files != {} {
      var f :| f in st.files;
    }
  }
}
