/** When a schedule is due. Local time counts seconds without daylight saving. */
module Scheduler {
  import opened Common

  type Time = int

  const DAY := 86400

  function Day(t: Time): int {
    t / DAY
  }

  function Hour(t: Time): nat {
    t % DAY / 3600
  }

  function Minute(t: Time): nat {
    t % 3600 / 60
  }

  /** Days from Sunday; the epoch was a Thursday. */
  function Weekday(day: int): nat {
    (day + 4) % 7
  }

  /** `with_ymd_and_hms` with zero seconds. */
  function At(day: int, hour: nat, minute: nat): Option<Time> {
    if hour < 24 && minute < 60 then Some(day * DAY + hour * 3600 + minute * 60) else None
  }

  /** `num_minutes` of a difference: whole minutes, toward zero. */
  function Minutes(seconds: int): int {
    if seconds >= 0 then seconds / 60 else -(-seconds / 60)
  }

  datatype Schedule =
    | Cron(weekdays: seq<nat>, hours: seq<nat>, minute: nat)
    | Interval(minutes: nat)
    | Expression

  // ---- the last window ----

  function Later(best: Option<nat>, h: nat): Option<nat> {
    match best
    case Some(prev) => if prev > h then best else Some(h)
    case None => Some(h)
  }

  predicate Passed(h: nat, minute: nat, now: Time) {
    h < Hour(now) || (h == Hour(now) && minute <= Minute(now))
  }

  /** The latest of the hours that have passed today. */
  function LastHour(hours: seq<nat>, minute: nat, now: Time): Option<nat> {
    if hours == [] then None
    else
      var n := |hours| - 1;
      var best := LastHour(hours[..n], minute, now);
      if Passed(hours[n], minute, now) then Later(best, hours[n]) else best
  }

  function CronExpectedAt(weekdays: seq<nat>, hours: seq<nat>, minute: nat, now: Time): Option<Time> {
    if Weekday(Day(now)) !in weekdays then None
    else match LastHour(hours, minute, now)
      case None => None
      case Some(h) => At(Day(now), h, minute)
  }

  method ComputeCronExpectedAt(weekdays: seq<nat>, hours: seq<nat>, minute: nat, now: Time) returns (r: Option<Time>)
    ensures r == CronExpectedAt(weekdays, hours, minute, now)
  {
    if Weekday(Day(now)) !in weekdays {
      return None;
    }
    var lastH: Option<nat> := None;
    var i := 0;
    while i < |hours|
      invariant 0 <= i <= |hours|
      invariant lastH == LastHour(hours[..i], minute, now)
    {
      var h := hours[i];
      assert hours[..i + 1][..i] == hours[..i];
      if Passed(h, minute, now) {
        lastH := Later(lastH, h);
      }
      i := i + 1;
    }
    assert hours[..i] == hours;
    if lastH.None? {
      return None;
    }
    return At(Day(now), lastH.value, minute);
  }

  /** The rolling tick for intervals; a zero interval never comes due. */
  function ExpectedAt(s: Schedule, now: Time, lastSuccess: Option<Time>): Option<Time> {
    match s
    case Cron(weekdays, hours, minute) => CronExpectedAt(weekdays, hours, minute, now)
    case Interval(iv) =>
      if lastSuccess.None? then None
      else if iv == 0 then lastSuccess
      else
        var ticks := Minutes(now - lastSuccess.value) / iv;
        Some(lastSuccess.value + (if ticks > 0 then ticks else 0) * iv * 60)
    case Expression => None
  }

  // ---- the next window ----

  function InsertHour(hours: seq<nat>, h: nat): seq<nat> {
    if hours == [] || h <= hours[0] then [h] + hours else [hours[0]] + InsertHour(hours[1..], h)
  }

  function SortHours(hours: seq<nat>): seq<nat> {
    if hours == [] then [] else InsertHour(SortHours(hours[1..]), hours[0])
  }

  datatype Scan = Hit(at: Time) | Invalid | Nothing

  /** The first of the hours, on one day, whose window is after `now`. */
  function ScanHours(hours: seq<nat>, day: int, minute: nat, now: Time): Scan {
    if hours == [] then Nothing
    else match At(day, hours[0], minute)
      case None => Invalid
      case Some(t) => if t > now then Hit(t) else ScanHours(hours[1..], day, minute, now)
  }

  /** From day `offset` after today until the same weekday next week. */
  function ScanDays(weekdays: seq<nat>, hours: seq<nat>, minute: nat, now: Time, offset: nat): Option<Time>
    requires offset <= 8
    decreases 8 - offset
  {
    if offset == 8 then None
    else if Weekday(Day(now) + offset) !in weekdays then ScanDays(weekdays, hours, minute, now, offset + 1)
    else match ScanHours(hours, Day(now) + offset, minute, now)
      case Hit(t) => Some(t)
      case Invalid => None
      case Nothing => ScanDays(weekdays, hours, minute, now, offset + 1)
  }

  function CronNextOccurrence(weekdays: seq<nat>, hours: seq<nat>, minute: nat, now: Time): Option<Time> {
    if weekdays == [] || hours == [] then None
    else ScanDays(weekdays, SortHours(hours), minute, now, 0)
  }

  method ComputeCronNextOccurrence(weekdays: seq<nat>, hours: seq<nat>, minute: nat, now: Time) returns (r: Option<Time>)
    ensures r == CronNextOccurrence(weekdays, hours, minute, now)
  {
    if weekdays == [] || hours == [] {
      return None;
    }
    var sortedHours := SortHours(hours);
    var offset := 0;
    while offset < 8
      invariant 0 <= offset <= 8
      invariant CronNextOccurrence(weekdays, hours, minute, now) == ScanDays(weekdays, sortedHours, minute, now, offset)
    {
      var day := Day(now) + offset;
      if Weekday(day) in weekdays {
        var i := 0;
        assert sortedHours[0..] == sortedHours;
        while i < |sortedHours|
          invariant 0 <= i <= |sortedHours|
          invariant ScanHours(sortedHours, day, minute, now) == ScanHours(sortedHours[i..], day, minute, now)
        {
          assert sortedHours[i..][1..] == sortedHours[i + 1..];
          var candidate := At(day, sortedHours[i], minute);
          if candidate.None? {
            return None;
          }
          if candidate.value > now {
            return candidate;
          }
          i := i + 1;
        }
      }
      offset := offset + 1;
    }
    return None;
  }

  function NextOccurrence(s: Schedule, now: Time, lastSuccess: Option<Time>): Option<Time> {
    match s
    case Cron(weekdays, hours, minute) => CronNextOccurrence(weekdays, hours, minute, now)
    case Interval(iv) =>
      if iv == 0 then None
      else
        var anchor := if lastSuccess.Some? then lastSuccess.value else now;
        if anchor + iv * 60 > now then Some(anchor + iv * 60)
        else Some(anchor + (Minutes(now - anchor) / iv + 1) * iv * 60)
    case Expression => None
  }

  // ---- what a cron schedule means ----

  /** The instants the schedule names. */
  predicate IsWindow(weekdays: seq<nat>, hours: seq<nat>, minute: nat, t: Time) {
    Weekday(Day(t)) in weekdays && Hour(t) in hours && Minute(t) == minute && t % 60 == 0
  }

  predicate ValidCron(weekdays: seq<nat>, hours: seq<nat>, minute: nat) {
    && minute < 60 && hours != [] && (forall i :: 0 <= i < |hours| ==> hours[i] < 24)
    && exists i :: 0 <= i < |weekdays| && weekdays[i] < 7
  }

  lemma Split(q: int, r: int, n: nat)
    requires 0 <= r < n
    ensures (q * n + r) / n == q && (q * n + r) % n == r
  {
    var x := q * n + r;
    assert (x / n - q) * n == r - x % n;
    Small(x / n - q, n);
  }

  /** A multiple of `n` below `n` in size is zero. */
  lemma Small(k: int, n: int)
    requires n >= 0
    ensures k >= 1 ==> k * n >= n
    ensures k <= -1 ==> k * n <= -n
  {
  }

  lemma AtFields(day: int, hour: nat, minute: nat)
    requires hour < 24 && minute < 60
    ensures var t := At(day, hour, minute).value; Day(t) == day && Hour(t) == hour && Minute(t) == minute && t % 60 == 0
  {
    Split(day, hour * 3600 + minute * 60, DAY);
    Split(hour, minute * 60, 3600);
    Split(day * 24 + hour, minute * 60, 3600);
    Split(minute, 0, 60);
    Split(day * 1440 + hour * 60 + minute, 0, 60);
  }

  lemma HourOfDay(t: Time)
    ensures t % DAY % 3600 == t % 3600
  {
    var d, h, s := t / DAY, t % DAY / 3600, t % DAY % 3600;
    assert t == (d * 24 + h) * 3600 + s;
  }

  lemma FieldsAt(t: Time)
    ensures Hour(t) < 24 && Minute(t) < 60
    ensures At(Day(t), Hour(t), Minute(t)) == Some(t - t % 60)
  {
    HourOfDay(t);
    MinuteOfHour(t);
    assert t == Day(t) * DAY + Hour(t) * 3600 + t % 3600;
  }

  lemma MinuteOfHour(t: Time)
    ensures t % 3600 == Minute(t) * 60 + t % 60
  {
    var h, s := t / 3600, t % 3600;
    assert t == (h * 60 + s / 60) * 60 + s % 60;
  }

  /** A time reads as its day, hour, minute and second, and the weekdays go round
      from the Thursday of the epoch. */
  lemma ClockReads(t: Time)
    ensures t == Day(t) * 86400 + Hour(t) * 3600 + Minute(t) * 60 + t % 60
    ensures Hour(t) < 24 && Minute(t) < 60
    ensures Weekday(0) == 4 && Weekday(Day(t) + 1) == (Weekday(Day(t)) + 1) % 7
  {
    hide Hour, Minute, Day;
    FieldsAt(t);
  }

  /** Hour and minute decide which instants of the day have passed. */
  lemma PassedIs(h: nat, minute: nat, now: Time)
    requires h < 24 && minute < 60
    ensures Passed(h, minute, now) <==> At(Day(now), h, minute).value <= now
  {
    FieldsAt(now);
  }

  lemma {:induction false} LastHourIs(hours: seq<nat>, minute: nat, now: Time)
    ensures var r := LastHour(hours, minute, now);
      && (r.Some? ==> r.value in hours && Passed(r.value, minute, now))
      && (forall i :: 0 <= i < |hours| && Passed(hours[i], minute, now) ==> r.Some? && hours[i] <= r.value)
    decreases |hours|
  {
    if hours != [] {
      LastHourIs(hours[..|hours| - 1], minute, now);
    }
  }

  /** `expected_at` is the latest window of the day that has come, if any has. */
  lemma ExpectedIsLatest(weekdays: seq<nat>, hours: seq<nat>, minute: nat, now: Time)
    ensures var r := CronExpectedAt(weekdays, hours, minute, now);
      && (r.Some? ==> IsWindow(weekdays, hours, minute, r.value) && r.value <= now && Day(r.value) == Day(now))
      && (forall w :: IsWindow(weekdays, hours, minute, w) && w <= now && Day(w) == Day(now) ==> r.Some? && w <= r.value)
  {
    LastHourIs(hours, minute, now);
    FieldsAt(now);
    var r := CronExpectedAt(weekdays, hours, minute, now);
    if r.Some? {
      var h := LastHour(hours, minute, now).value;
      AtFields(Day(now), h, minute);
      PassedIs(h, minute, now);
    }
    forall w | IsWindow(weekdays, hours, minute, w) && w <= now && Day(w) == Day(now)
      ensures r.Some? && w <= r.value
    {
      FieldsAt(w);
      PassedIs(Hour(w), minute, now);
    }
  }

  /** At the instant a window opens, that window is the one that is due. */
  lemma WindowIsDue(weekdays: seq<nat>, hours: seq<nat>, minute: nat, w: Time)
    requires IsWindow(weekdays, hours, minute, w)
    ensures CronExpectedAt(weekdays, hours, minute, w) == Some(w)
  {
    ExpectedIsLatest(weekdays, hours, minute, w);
  }

  // ---- the scan finds the next window ----

  predicate Ascending(hours: seq<nat>) {
    forall i, j :: 0 <= i < j < |hours| ==> hours[i] <= hours[j]
  }

  lemma {:induction false} InsertHourKeeps(hours: seq<nat>, h: nat)
    requires Ascending(hours)
    ensures Ascending(InsertHour(hours, h)) && forall x :: x in InsertHour(hours, h) <==> x in hours || x == h
    decreases |hours|
  {
    if hours != [] && h > hours[0] {
      InsertHourKeeps(hours[1..], h);
      var rest := InsertHour(hours[1..], h);
      forall i | 0 <= i < |rest|
        ensures hours[0] <= rest[i]
      {
        assert rest[i] in rest;
      }
      assert hours == [hours[0]] + hours[1..];
    }
  }

  lemma {:induction false} SortHoursKeeps(hours: seq<nat>)
    ensures Ascending(SortHours(hours)) && forall x :: x in SortHours(hours) <==> x in hours
  {
    if hours != [] {
      SortHoursKeeps(hours[1..]);
      InsertHourKeeps(SortHours(hours[1..]), hours[0]);
      assert hours == [hours[0]] + hours[1..];
    }
  }

  /** An hour that does not exist stops the scan of its day, and only then. */
  lemma {:induction false} ScanHoursFinds(hours: seq<nat>, day: int, minute: nat, now: Time)
    requires Ascending(hours)
    ensures match ScanHours(hours, day, minute, now)
      case Hit(t) =>
        && t > now && (exists h :: h in hours && At(day, h, minute) == Some(t))
        && forall h :: h in hours && At(day, h, minute).Some? && At(day, h, minute).value > now ==> t <= At(day, h, minute).value
      case Invalid =>
        && (exists h :: h in hours && At(day, h, minute) == None)
        && forall h :: h in hours && At(day, h, minute).Some? ==> At(day, h, minute).value <= now
      case Nothing => forall h :: h in hours ==> At(day, h, minute).Some? && At(day, h, minute).value <= now
    decreases |hours|
  {
    if hours != [] {
      assert hours == [hours[0]] + hours[1..];
      var first := At(day, hours[0], minute);
      if first == None || first.value > now {
        forall h | h in hours && At(day, h, minute).Some?
          ensures first.Some? && first.value <= At(day, h, minute).value
        {
          var i :| 0 <= i < |hours| && hours[i] == h;
        }
      } else {
        ScanHoursFinds(hours[1..], day, minute, now);
      }
    }
  }

  /** No window of the schedule lies after `now` and before day `offset` from today. */
  ghost predicate NoneBefore(weekdays: seq<nat>, hours: seq<nat>, minute: nat, now: Time, offset: nat) {
    forall w :: IsWindow(weekdays, hours, minute, w) && w > now ==> Day(w) >= Day(now) + offset
  }

  lemma WindowAt(weekdays: seq<nat>, hours: seq<nat>, minute: nat, w: Time)
    requires IsWindow(weekdays, hours, minute, w)
    ensures At(Day(w), Hour(w), minute) == Some(w)
  {
    FieldsAt(w);
  }

  lemma DayPasses(weekdays: seq<nat>, hours: seq<nat>, sorted: seq<nat>, minute: nat, now: Time, offset: nat)
    requires NoneBefore(weekdays, hours, minute, now, offset) && forall x :: x in sorted <==> x in hours
    requires var day := Day(now) + offset;
      Weekday(day) !in weekdays || forall h :: h in sorted && At(day, h, minute).Some? ==> At(day, h, minute).value <= now
    ensures NoneBefore(weekdays, hours, minute, now, offset + 1)
  {
    forall w | IsWindow(weekdays, hours, minute, w) && w > now
      ensures Day(w) >= Day(now) + offset + 1
    {
      FieldsAt(w);
      WindowAt(weekdays, hours, minute, w);
    }
  }

  lemma HitIsNext(weekdays: seq<nat>, hours: seq<nat>, sorted: seq<nat>, minute: nat, now: Time, offset: nat, t: Time)
    requires NoneBefore(weekdays, hours, minute, now, offset) && forall x :: x in sorted <==> x in hours
    requires Ascending(sorted) && Weekday(Day(now) + offset) in weekdays
    requires ScanHours(sorted, Day(now) + offset, minute, now) == Hit(t)
    ensures IsNext(weekdays, hours, minute, now, t)
  {
    var day := Day(now) + offset;
    ScanHoursFinds(sorted, day, minute, now);
    var h :| h in sorted && At(day, h, minute) == Some(t);
    AtFields(day, h, minute);
    forall w | IsWindow(weekdays, hours, minute, w) && w > now
      ensures t <= w
    {
      WindowAt(weekdays, hours, minute, w);
      if Day(w) == day {
        assert Hour(w) in sorted;
      } else {
        FieldsAt(w);
      }
    }
  }

  /** `t` is the first window after `now`. */
  ghost predicate IsNext(weekdays: seq<nat>, hours: seq<nat>, minute: nat, now: Time, t: Time) {
    && t > now && IsWindow(weekdays, hours, minute, t)
    && forall w :: IsWindow(weekdays, hours, minute, w) && w > now ==> t <= w
  }

  /** The first window after `now`, or nothing when there is none. */
  ghost predicate FindsNext(weekdays: seq<nat>, hours: seq<nat>, minute: nat, now: Time, r: Option<Time>) {
    match r
    case Some(t) => IsNext(weekdays, hours, minute, now, t)
    case None => forall w :: IsWindow(weekdays, hours, minute, w) ==> w <= now
  }

  /** Today is a scheduled day, every hour that exists has had its window, and
      there is an hour that does not exist. */
  predicate GivesUp(weekdays: seq<nat>, hours: seq<nat>, minute: nat, now: Time) {
    && minute < 60 && Weekday(Day(now)) in weekdays
    && (exists i :: 0 <= i < |hours| && hours[i] >= 24)
    && (exists i :: 0 <= i < |hours| && hours[i] < 24)
    && forall i :: 0 <= i < |hours| && hours[i] < 24 ==> At(Day(now), hours[i], minute).value <= now
  }

  /** A window on the day after today or later, for an hour that exists. */
  lemma WindowOn(weekdays: seq<nat>, hours: seq<nat>, minute: nat, now: Time, offset: nat, h: nat) returns (w: Time)
    requires offset > 0 && Weekday(Day(now) + offset) in weekdays && h in hours && h < 24 && minute < 60
    ensures IsWindow(weekdays, hours, minute, w) && w > now && At(Day(now) + offset, h, minute) == Some(w)
  {
    AtFields(Day(now) + offset, h, minute);
    w := At(Day(now) + offset, h, minute).value;
    FieldsAt(now);
  }

  /** A day that stops the scan leaves no window to be found, unless it is today. */
  lemma InvalidIsLast(weekdays: seq<nat>, hours: seq<nat>, sorted: seq<nat>, minute: nat, now: Time, offset: nat)
    requires Ascending(sorted) && forall x :: x in sorted <==> x in hours
    requires Weekday(Day(now) + offset) in weekdays && ScanHours(sorted, Day(now) + offset, minute, now) == Invalid
    requires offset == 0 ==> !GivesUp(weekdays, hours, minute, now)
    ensures forall w :: !IsWindow(weekdays, hours, minute, w)
  {
    var day := Day(now) + offset;
    ScanHoursFinds(sorted, day, minute, now);
    forall w | IsWindow(weekdays, hours, minute, w)
      ensures false
    {
      FieldsAt(w);
      assert Hour(w) in sorted;
      if offset > 0 {
        var later := WindowOn(weekdays, hours, minute, now, offset, Hour(w));
      } else {
        var bad :| bad in sorted && At(day, bad, minute) == None;
        var i :| 0 <= i < |hours| && hours[i] == bad;
        var j :| 0 <= j < |hours| && hours[j] == Hour(w);
        assert hours[i] >= 24 && hours[j] < 24;
        forall k | 0 <= k < |hours| && hours[k] < 24
          ensures At(Day(now), hours[k], minute).value <= now
        {
          assert hours[k] in sorted;
        }
      }
    }
  }

  lemma {:induction false} ScanDaysFinds(weekdays: seq<nat>, hours: seq<nat>, sorted: seq<nat>, minute: nat, now: Time, offset: nat)
    requires offset <= 8 && NoneBefore(weekdays, hours, minute, now, offset)
    requires Ascending(sorted) && forall x :: x in sorted <==> x in hours
    requires !GivesUp(weekdays, hours, minute, now)
    ensures var r := ScanDays(weekdays, sorted, minute, now, offset);
      FindsNext(weekdays, hours, minute, now, r) || (r == None && NoneBefore(weekdays, hours, minute, now, 8))
    decreases 8 - offset
  {
    if offset < 8 {
      var day := Day(now) + offset;
      hide ScanHours, GivesUp, NoneBefore, IsWindow;
      if Weekday(day) !in weekdays {
        DayPasses(weekdays, hours, sorted, minute, now, offset);
        ScanDaysFinds(weekdays, hours, sorted, minute, now, offset + 1);
      } else {
        match ScanHours(sorted, day, minute, now)
        case Hit(t) => HitIsNext(weekdays, hours, sorted, minute, now, offset, t);
        case Invalid => InvalidIsLast(weekdays, hours, sorted, minute, now, offset);
        case Nothing =>
          ScanHoursFinds(sorted, day, minute, now);
          DayPasses(weekdays, hours, sorted, minute, now, offset);
          ScanDaysFinds(weekdays, hours, sorted, minute, now, offset + 1);
      }
    }
  }

  /** Within the next seven days every weekday comes round. */
  lemma WeekdayComes(today: int, weekday: nat) returns (offset: nat)
    requires weekday < 7
    ensures 1 <= offset <= 7 && Weekday(today + offset) == weekday
  {
    offset := (weekday + 7 - Weekday(today)) % 7;
    if offset == 0 {
      offset := 7;
    }
  }

  /** Windows come round within a week. */
  lemma WindowWithinWeek(weekdays: seq<nat>, hours: seq<nat>, minute: nat, now: Time, weekday: nat, h: nat) returns (w: Time)
    requires weekday in weekdays && weekday < 7 && h in hours && h < 24 && minute < 60
    ensures IsWindow(weekdays, hours, minute, w) && w > now && Day(w) < Day(now) + 8
  {
    var offset := WeekdayComes(Day(now), weekday);
    w := WindowOn(weekdays, hours, minute, now, offset, h);
    AtFields(Day(now) + offset, h, minute);
  }

  /** Eight days without a window mean that there is none. */
  lemma NoneAtAll(weekdays: seq<nat>, hours: seq<nat>, minute: nat, now: Time)
    requires NoneBefore(weekdays, hours, minute, now, 8)
    ensures forall w :: !IsWindow(weekdays, hours, minute, w)
  {
    forall w | IsWindow(weekdays, hours, minute, w)
      ensures false
    {
      FieldsAt(w);
      var again := WindowWithinWeek(weekdays, hours, minute, now, Weekday(Day(w)), Hour(w));
    }
  }

  /** When the scan gives up it finds nothing, although a window is to come. */
  lemma GivingUpHidesWindows(weekdays: seq<nat>, hours: seq<nat>, minute: nat, now: Time)
    requires GivesUp(weekdays, hours, minute, now)
    ensures CronNextOccurrence(weekdays, hours, minute, now) == None
    ensures exists w :: IsWindow(weekdays, hours, minute, w) && w > now && Day(w) < Day(now) + 8
  {
    var sorted := SortHours(hours);
    SortHoursKeeps(hours);
    ScanHoursFinds(sorted, Day(now), minute, now);
    var i :| 0 <= i < |hours| && hours[i] >= 24;
    assert hours[i] in sorted;
    assert At(Day(now), hours[i], minute) == None;
    forall h | h in sorted && At(Day(now), h, minute).Some?
      ensures At(Day(now), h, minute).value <= now
    {
      var k :| 0 <= k < |hours| && hours[k] == h;
    }
    assert ScanHours(sorted, Day(now), minute, now) == Invalid;
    var j :| 0 <= j < |hours| && hours[j] < 24;
    var w := WindowWithinWeek(weekdays, hours, minute, now, Weekday(Day(now)), hours[j]);
  }

  /** For every schedule, the eight-day scan returns the first window after `now`,
      or nothing when there is none, exactly when it does not give up on an hour
      that does not exist. */
  lemma NextIsLeast(weekdays: seq<nat>, hours: seq<nat>, minute: nat, now: Time)
    ensures FindsNext(weekdays, hours, minute, now, CronNextOccurrence(weekdays, hours, minute, now)) <==>
      !GivesUp(weekdays, hours, minute, now)
  {
    if GivesUp(weekdays, hours, minute, now) {
      GivingUpHidesWindows(weekdays, hours, minute, now);
    } else if weekdays != [] && hours != [] {
      SortHoursKeeps(hours);
      forall w | IsWindow(weekdays, hours, minute, w) && w > now
        ensures Day(w) >= Day(now) + 0
      {
      }
      ScanDaysFinds(weekdays, hours, SortHours(hours), minute, now, 0);
      if NoneBefore(weekdays, hours, minute, now, 8) {
        NoneAtAll(weekdays, hours, minute, now);
      }
    }
  }

  /** A valid schedule always has a next window, and it is found. */
  lemma ValidFindsNext(weekdays: seq<nat>, hours: seq<nat>, minute: nat, now: Time)
    requires ValidCron(weekdays, hours, minute)
    ensures var r := CronNextOccurrence(weekdays, hours, minute, now);
      r.Some? && IsNext(weekdays, hours, minute, now, r.value)
  {
    NextIsLeast(weekdays, hours, minute, now);
    var i :| 0 <= i < |weekdays| && weekdays[i] < 7;
    assert hours[0] in hours;
    var w := WindowWithinWeek(weekdays, hours, minute, now, weekdays[i], hours[0]);
  }

  // ---- the hours that exist ----

  function RealHours(hours: seq<nat>): seq<nat> {
    if hours == [] then []
    else if hours[0] < 24 then [hours[0]] + RealHours(hours[1..]) else RealHours(hours[1..])
  }

  lemma {:induction false} RealHoursAre(hours: seq<nat>)
    ensures forall h :: h in RealHours(hours) <==> h in hours && h < 24
  {
    if hours != [] {
      RealHoursAre(hours[1..]);
      assert hours == [hours[0]] + hours[1..];
    }
  }

  /** Without the hours that do not exist the same windows are found, always. */
  lemma RealHoursFindNext(weekdays: seq<nat>, hours: seq<nat>, minute: nat, now: Time)
    ensures FindsNext(weekdays, hours, minute, now, CronNextOccurrence(weekdays, RealHours(hours), minute, now))
  {
    var valid := RealHours(hours);
    RealHoursAre(hours);
    NextIsLeast(weekdays, valid, minute, now);
    assert forall i :: 0 <= i < |valid| ==> valid[i] in valid;
    forall w
      ensures IsWindow(weekdays, hours, minute, w) <==> IsWindow(weekdays, valid, minute, w)
    {
      FieldsAt(w);
    }
  }

  /** At nine every day and at an hour that does not exist: at noon the scan
      finds nothing, and tomorrow at nine there is a window. */
  lemma InvalidHourHidesWindows(now: Time)
    requires Hour(now) == 12
    ensures var all := [0, 1, 2, 3, 4, 5, 6];
      && CronNextOccurrence(all, [9, 24], 0, now) == None
      && IsWindow(all, [9, 24], 0, (Day(now) + 1) * DAY + 9 * 3600) && (Day(now) + 1) * DAY + 9 * 3600 > now
  {
    var all: seq<nat> := [0, 1, 2, 3, 4, 5, 6];
    FieldsAt(now);
    assert forall d :: d in all <==> 0 <= d < 7;
    var hours: seq<nat> := [9, 24];
    assert hours[0] == 9 && hours[1] == 24;
    assert GivesUp(all, hours, 0, now);
    GivingUpHidesWindows(all, hours, 0, now);
    var w := WindowOn(all, hours, 0, now, 1, 9);
  }
}
