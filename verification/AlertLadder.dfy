/** How often an ongoing alert may speak. */
module AlertLadder {
  import opened Common
  import Text

  const HOUR := 3600

  const BACKOFF_SECONDS: seq<int> := [HOUR, 6 * HOUR, 24 * HOUR]

  datatype Episode = Episode(first: int, last: int, count: nat)

  /** The step of the ladder after `count` notifications. */
  function Backoff(count: nat): int {
    if count <= 1 then BACKOFF_SECONDS[0] else if count == 2 then BACKOFF_SECONDS[1] else BACKOFF_SECONDS[2]
  }

  /** A clock that went back lets the alert speak. */
  predicate ShouldNotify(episode: Option<Episode>, now: int) {
    match episode
    case None => true
    case Some(e) => now < e.last || now - e.last >= Backoff(e.count)
  }

  function Recorded(episode: Option<Episode>, now: int): Episode {
    match episode
    case None => Episode(now, now, 1)
    case Some(e) => e.(last := now, count := e.count + 1)
  }

  function AlertKey(agent: string, schedule: string, event: string): string {
    agent + "/" + schedule + "/" + event
  }

  function PairPrefix(agent: string, schedule: string): string {
    agent + "/" + schedule + "/"
  }

  datatype Alert = Alert(agent: string, schedule: string, event: string)
  {
    function Key(): string {
      AlertKey(agent, schedule, event)
    }

    predicate Of(agent: string, schedule: string) {
      this.agent == agent && this.schedule == schedule
    }

    predicate NoSlash() {
      SlashFree(agent) && SlashFree(schedule) && SlashFree(event)
    }
  }

  predicate SlashFree(s: string) {
    '/' !in s
  }

  function OfPair(episodes: map<string, Episode>, agent: string, schedule: string): set<string> {
    set k | k in episodes && PairPrefix(agent, schedule) <= k
  }

  /** What `clear_pair` leaves of a table. */
  function Cleared(episodes: map<string, Episode>, agent: string, schedule: string): map<string, Episode> {
    episodes - OfPair(episodes, agent, schedule)
  }

  class NotifyDedup {
    var episodes: map<string, Episode>

    constructor ()
      ensures episodes == map[]
    {
      episodes := map[];
    }

    method Record(key: string, now: int) returns (e: Episode)
      modifies this
      ensures e == Recorded(if key in old(episodes) then Some(old(episodes)[key]) else None, now)
      ensures episodes == old(episodes)[key := e]
    {
      e := if key in episodes then episodes[key] else Episode(now, now, 0);
      e := e.(last := now, count := e.count + 1);
      episodes := episodes[key := e];
    }

    method ClearPair(agent: string, schedule: string) returns (cleared: bool)
      modifies this
      ensures episodes == Cleared(old(episodes), agent, schedule)
      ensures cleared <==> OfPair(old(episodes), agent, schedule) != {}
    {
      var doomed := OfPair(episodes, agent, schedule);
      cleared := doomed != {};
      var left := doomed;
      while left != {}
        invariant left <= doomed
        invariant episodes == old(episodes) - (doomed - left)
        decreases |left|
      {
        var k :| k in left;
        episodes := episodes - {k};
        left := left - {k};
      }
    }
  }

  // ---- the spacing of one episode ----

  /** The episode after notifications at these times. */
  function After(times: seq<int>): Option<Episode> {
    if times == [] then None else Some(Recorded(After(times[..|times| - 1]), times[|times| - 1]))
  }

  /** A run with a clock that does not go back, recording only what was allowed. */
  ghost predicate Spoken(times: seq<int>) {
    && (forall i, j :: 0 <= i < j < |times| ==> times[i] <= times[j])
    && (forall i :: 0 <= i < |times| ==> ShouldNotify(After(times[..i]), times[i]))
  }

  lemma {:induction false} AfterIs(times: seq<int>)
    requires times != []
    ensures After(times) == Some(Episode(times[0], times[|times| - 1], |times|))
    decreases |times|
  {
    var n := |times| - 1;
    if n == 0 {
      assert times[..0] == [];
    } else {
      AfterIs(times[..n]);
    }
  }

  lemma Gap(times: seq<int>, i: nat)
    requires Spoken(times) && 0 < i < |times|
    ensures times[i] >= times[i - 1] + Backoff(i)
  {
    AfterIs(times[..i]);
    assert ShouldNotify(After(times[..i]), times[i]);
  }

  /** The `n`-th notification of an episode, from the third on, comes no earlier
      than seven hours and a day for each one after the third since the first. */
  lemma {:induction false} LadderHolds(times: seq<int>, n: nat)
    requires Spoken(times) && 3 <= n <= |times|
    ensures times[n - 1] >= times[0] + 7 * HOUR + 24 * HOUR * (n - 3)
    decreases n
  {
    if n == 3 {
      Gap(times, 1);
      Gap(times, 2);
    } else {
      LadderHolds(times, n - 1);
      Gap(times, n - 1);
    }
  }

  /** The wait is never longer than a day. When the clock does not go back it is
      exactly an hour after the first notification of an episode, six hours after
      the second, and a day after every later one. */
  lemma SpeaksAgain(times: seq<int>, now: int)
    requires times != []
    ensures now >= times[|times| - 1] + 24 * HOUR ==> ShouldNotify(After(times), now)
    ensures now >= times[|times| - 1] ==> (ShouldNotify(After(times), now) <==>
      now - times[|times| - 1] >= if |times| == 1 then 3600 else if |times| == 2 then 21600 else 86400)
    ensures now < times[|times| - 1] ==> ShouldNotify(After(times), now)
  {
    AfterIs(times);
  }

  // ---- clearing a pair ----

  /** For pairs without slashes, clearing one fits none of the other's alerts. */
  lemma PairsApart(agent: string, schedule: string, other: string, otherSchedule: string, event: string)
    requires SlashFree(agent) && SlashFree(schedule) && SlashFree(other) && SlashFree(otherSchedule)
    ensures PairPrefix(agent, schedule) <= AlertKey(other, otherSchedule, event) <==> agent == other && schedule == otherSchedule
  {
    var x, y := schedule + "/" + "", otherSchedule + "/" + event;
    assert PairPrefix(agent, schedule) == agent + "/" + x;
    assert AlertKey(other, otherSchedule, event) == other + "/" + y;
    if agent + "/" + x <= other + "/" + y {
      Text.CutAtFirst('/', agent, x, other, y);
      Text.CutAtFirst('/', schedule, "", otherSchedule, event);
    }
  }

  lemma KeySlashes(a: Alert, i: nat)
    requires a.NoSlash() && i < |a.Key()|
    ensures a.Key()[i] == '/' <==> i == |a.agent| || i == |a.agent| + 1 + |a.schedule|
  {
    var n, m := |a.agent|, |a.agent| + 1 + |a.schedule|;
    assert a.Key()[i] == if i < n then a.agent[i] else if i == n then '/' else if i < m then a.schedule[i - n - 1]
                         else if i == m then '/' else a.event[i - m - 1];
  }

  /** Of all pairs, only its own fits a key with two slashes in it. */
  lemma OwnPrefix(a: Alert, agent: string, schedule: string)
    requires a.NoSlash() && PairPrefix(agent, schedule) <= a.Key()
    ensures a.Of(agent, schedule)
  {
    var prefix, key := PairPrefix(agent, schedule), a.Key();
    var n, m := |agent|, |agent| + 1 + |schedule|;
    assert prefix[n] == '/' == key[n] && prefix[m] == '/' == key[m];
    KeySlashes(a, n);
    KeySlashes(a, m);
    assert agent == prefix[..n] == key[..n] == a.agent;
    assert schedule == prefix[n + 1..m] == key[n + 1..m] == a.schedule;
  }

  lemma CutAtSlash(s: string) returns (x: string, y: string)
    requires !SlashFree(s)
    ensures s == x + "/" + y
  {
    var i :| 0 <= i < |s| && s[i] == '/';
    x, y := s[..i], s[i + 1..];
  }

  /** Where a slash is to be found, a shorter cut of the key is another pair. */
  lemma AnotherPrefix(a: Alert) returns (agent: string, schedule: string)
    requires !a.NoSlash()
    ensures !a.Of(agent, schedule) && PairPrefix(agent, schedule) <= a.Key()
  {
    if !SlashFree(a.agent) {
      agent, schedule := CutAtSlash(a.agent);
      assert a.Key() == PairPrefix(agent, schedule) + (a.schedule + "/" + a.event);
    } else if !SlashFree(a.schedule) {
      agent := a.agent;
      var rest;
      schedule, rest := CutAtSlash(a.schedule);
      assert a.Key() == PairPrefix(agent, schedule) + (rest + "/" + a.event);
    } else {
      var cut, rest := CutAtSlash(a.event);
      agent, schedule := a.agent, a.schedule + "/" + cut;
      assert a.Key() == PairPrefix(agent, schedule) + rest;
    }
  }

  /** An alert can be cleared along with another pair exactly when there is a
      slash in one of its three names. */
  lemma ClearsExactlyThePair(a: Alert)
    ensures (exists agent, schedule :: !a.Of(agent, schedule) && PairPrefix(agent, schedule) <= a.Key()) <==> !a.NoSlash()
  {
    if a.NoSlash() {
      forall agent, schedule | PairPrefix(agent, schedule) <= a.Key()
        ensures a.Of(agent, schedule)
      {
        OwnPrefix(a, agent, schedule);
      }
    } else {
      var agent, schedule := AnotherPrefix(a);
    }
  }

  function Keys(alerts: set<Alert>): set<string> {
    set a | a in alerts :: a.Key()
  }

  /** Clearing the pair ends no alert of another pair. */
  ghost predicate SparesOthers(episodes: map<string, Episode>, alerts: set<Alert>, agent: string, schedule: string) {
    forall a :: a in alerts && !a.Of(agent, schedule) ==> a.Key() in Cleared(episodes, agent, schedule)
  }

  /** On a table of these alerts, clearing a pair always ends the pair's own and
      spares the others exactly when none of them has its prefix. */
  lemma ClearPairSparesIff(episodes: map<string, Episode>, alerts: set<Alert>, agent: string, schedule: string)
    requires episodes.Keys == Keys(alerts)
    ensures forall a :: a in alerts && a.Of(agent, schedule) ==> a.Key() !in Cleared(episodes, agent, schedule)
    ensures SparesOthers(episodes, alerts, agent, schedule) <==>
      forall a :: a in alerts && PairPrefix(agent, schedule) <= a.Key() ==> a.Of(agent, schedule)
  {
    forall a | a in alerts
      ensures a.Key() in Cleared(episodes, agent, schedule) <==> !(PairPrefix(agent, schedule) <= a.Key())
      ensures a.Of(agent, schedule) ==> PairPrefix(agent, schedule) <= a.Key()
    {
      assert a.Key() in Keys(alerts);
      assert PairPrefix(a.agent, a.schedule) + a.event == a.Key();
    }
  }

  /** So a table is safe whatever pair is cleared exactly when no name in it has
      a slash. */
  lemma EveryClearSparesIff(episodes: map<string, Episode>, alerts: set<Alert>)
    requires episodes.Keys == Keys(alerts)
    ensures (forall agent, schedule :: SparesOthers(episodes, alerts, agent, schedule)) <==>
      forall a :: a in alerts ==> a.NoSlash()
  {
    if forall a :: a in alerts ==> a.NoSlash() {
      forall agent, schedule
        ensures SparesOthers(episodes, alerts, agent, schedule)
      {
        forall a | a in alerts && PairPrefix(agent, schedule) <= a.Key()
          ensures a.Of(agent, schedule)
        {
          OwnPrefix(a, agent, schedule);
        }
        ClearPairSparesIff(episodes, alerts, agent, schedule);
      }
    } else {
      var a :| a in alerts && !a.NoSlash();
      var agent, schedule := AnotherPrefix(a);
      ClearPairSparesIff(episodes, alerts, agent, schedule);
    }
  }
}
