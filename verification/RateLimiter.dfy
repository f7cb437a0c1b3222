/** The per-sender sliding window of the inbound chat. */
module RateLimiter {
  import opened Common

  /** Nanoseconds of a monotonic clock. */
  type Time = nat

  const WINDOW: nat := 60_000_000_000

  datatype Attempt = Attempt(user: int, at: Time)

  /** `now.duration_since(t) < window`; the difference never goes below zero. */
  predicate Recent(hit: Attempt, now: Time) {
    now < hit.at + WINDOW
  }

  function Prune(hits: seq<Attempt>, now: Time): (r: seq<Attempt>)
    ensures |r| <= |hits|
  {
    if hits == [] then []
    else
      var n := |hits| - 1;
      Prune(hits[..n], now) + if Recent(hits[n], now) then [hits[n]] else []
  }

  function CountOf(hits: seq<Attempt>, user: int): nat {
    if hits == [] then 0
    else
      var n := |hits| - 1;
      CountOf(hits[..n], user) + if hits[n].user == user then 1 else 0
  }

  class RateLimiter {
    const perMinute: nat
    var hits: seq<Attempt>

    constructor (perMinute: nat)
      ensures this.perMinute == perMinute && hits == []
    {
      this.perMinute := perMinute;
      hits := [];
    }

    method CheckAt(user: int, now: Time) returns (allowed: bool)
      modifies this
      ensures (hits, allowed) == Check(perMinute, old(hits), user, now)
    {
      var kept: seq<Attempt> := [];
      var count := 0;
      var i := 0;
      while i < |hits|
        invariant 0 <= i <= |hits| && hits == old(hits)
        invariant kept == Prune(hits[..i], now)
      {
        assert hits[..i + 1][..i] == hits[..i];
        if Recent(hits[i], now) {
          kept := kept + [hits[i]];
        }
        i := i + 1;
      }
      assert hits[..i] == hits;
      hits := kept;
      i := 0;
      while i < |hits|
        invariant 0 <= i <= |hits| && hits == kept
        invariant count == CountOf(hits[..i], user)
      {
        assert hits[..i + 1][..i] == hits[..i];
        if hits[i].user == user {
          count := count + 1;
        }
        i := i + 1;
      }
      assert hits[..i] == hits;
      if count >= perMinute {
        return false;
      }
      hits := hits + [Attempt(user, now)];
      return true;
    }
  }

  /** One attempt against the pruned list. */
  function Check(perMinute: nat, hits: seq<Attempt>, user: int, now: Time): (seq<Attempt>, bool) {
    var kept := Prune(hits, now);
    if CountOf(kept, user) >= perMinute then (kept, false) else (kept + [Attempt(user, now)], true)
  }

  /** The same attempt against everything ever accepted. */
  predicate Allowed(perMinute: nat, accepted: seq<Attempt>, user: int, now: Time) {
    CountOf(Prune(accepted, now), user) < perMinute
  }

  /** What a run of attempts leaves in the list, and which of them were accepted. */
  function Run(perMinute: nat, attempts: seq<Attempt>): (seq<Attempt>, seq<Attempt>) {
    if attempts == [] then ([], [])
    else
      var a := attempts[|attempts| - 1];
      var (hits, accepted) := Run(perMinute, attempts[..|attempts| - 1]);
      var (hits', ok) := Check(perMinute, hits, a.user, a.at);
      (hits', if ok then accepted + [a] else accepted)
  }

  predicate InOrder(attempts: seq<Attempt>) {
    forall i, j :: 0 <= i < j < |attempts| ==> attempts[i].at <= attempts[j].at
  }

  // ---- forgetting old hits changes no verdict ----

  lemma {:induction false} PruneTwice(hits: seq<Attempt>, now: Time, later: Time)
    requires now <= later
    ensures Prune(Prune(hits, now), later) == Prune(hits, later)
    decreases |hits|
  {
    if hits != [] {
      var n := |hits| - 1;
      PruneTwice(hits[..n], now, later);
      if Recent(hits[n], now) {
        PruneSnoc(Prune(hits[..n], now), hits[n], later);
      } else {
        assert Prune(hits, now) == Prune(hits[..n], now);
      }
    }
  }

  lemma PruneSnoc(hits: seq<Attempt>, a: Attempt, now: Time)
    ensures Prune(hits + [a], now) == Prune(hits, now) + if Recent(a, now) then [a] else []
  {
    assert (hits + [a])[..|hits|] == hits;
  }

  /** The list holds exactly the accepted hits that were recent at the last attempt. */
  lemma {:induction false} ListIsPruned(perMinute: nat, attempts: seq<Attempt>, now: Time)
    requires InOrder(attempts) && (attempts != [] ==> attempts[|attempts| - 1].at <= now)
    ensures Prune(Run(perMinute, attempts).0, now) == Prune(Run(perMinute, attempts).1, now)
    decreases |attempts|
  {
    if attempts != [] {
      var n := |attempts| - 1;
      var a := attempts[n];
      var (hits, accepted) := Run(perMinute, attempts[..n]);
      ListIsPruned(perMinute, attempts[..n], a.at);
      PruneTwice(hits, a.at, now);
      PruneTwice(accepted, a.at, now);
      PruneSnoc(Prune(hits, a.at), a, now);
      PruneSnoc(accepted, a, now);
    }
  }

  /** Over any run with a clock that does not go back, an attempt is allowed
      exactly when fewer than `perMinute` of that user's accepted hits, of all
      there ever were, are under sixty seconds old. */
  lemma ForgettingIsSafe(perMinute: nat, attempts: seq<Attempt>, user: int, now: Time)
    requires InOrder(attempts) && (attempts != [] ==> attempts[|attempts| - 1].at <= now)
    ensures Check(perMinute, Run(perMinute, attempts).0, user, now).1 <==>
            Allowed(perMinute, Run(perMinute, attempts).1, user, now)
  {
    ListIsPruned(perMinute, attempts, now);
  }

  // ---- what a refusal means, hit by hit ----

  /** The places in the history of one user's hits that are under sixty seconds old. */
  function RecentOf(accepted: seq<Attempt>, user: int, now: Time): set<nat> {
    set i: nat | i < |accepted| && accepted[i].user == user && now < accepted[i].at + 60_000_000_000
  }

  lemma {:induction false} CountIsByPlace(accepted: seq<Attempt>, user: int, now: Time)
    ensures CountOf(Prune(accepted, now), user) == |RecentOf(accepted, user, now)|
    decreases |accepted|
  {
    if accepted == [] {
      assert RecentOf(accepted, user, now) == {};
    } else {
      var n := |accepted| - 1;
      var before := RecentOf(accepted[..n], user, now);
      CountIsByPlace(accepted[..n], user, now);
      CountSnoc(Prune(accepted[..n], now), accepted[n], user);
      if accepted[n].user == user && now < accepted[n].at + 60_000_000_000 {
        assert RecentOf(accepted, user, now) == before + {n};
      } else {
        assert RecentOf(accepted, user, now) == before;
        assert Prune(accepted[..n], now) + [] == Prune(accepted[..n], now);
      }
    }
  }

  /** Over any run, an attempt is refused exactly when at least `perMinute` of
      all the hits ever accepted are this very user's and under sixty seconds old. */
  lemma RefusedIff(perMinute: nat, attempts: seq<Attempt>, user: int, now: Time)
    requires InOrder(attempts) && (attempts != [] ==> attempts[|attempts| - 1].at <= now)
    ensures !Check(perMinute, Run(perMinute, attempts).0, user, now).1 <==>
            |RecentOf(Run(perMinute, attempts).1, user, now)| >= perMinute
  {
    ForgettingIsSafe(perMinute, attempts, user, now);
    CountIsByPlace(Run(perMinute, attempts).1, user, now);
  }

  // ---- the limit holds in every span ----

  /** One user's accepted hits in `[from, from + WINDOW)`. */
  function InSpan(accepted: seq<Attempt>, user: int, from: Time): nat {
    if accepted == [] then 0
    else
      var n := |accepted| - 1;
      InSpan(accepted[..n], user, from) +
      if accepted[n].user == user && from <= accepted[n].at < from + WINDOW then 1 else 0
  }

  lemma CountSnoc(hits: seq<Attempt>, a: Attempt, user: int)
    ensures CountOf(hits + [a], user) == CountOf(hits, user) + if a.user == user then 1 else 0
  {
    assert (hits + [a])[..|hits|] == hits;
  }

  /** Everything in a span that reaches up to now is still recent. */
  lemma {:induction false} SpanIsRecent(accepted: seq<Attempt>, user: int, from: Time, now: Time)
    requires now < from + WINDOW
    ensures InSpan(accepted, user, from) <= CountOf(Prune(accepted, now), user)
    decreases |accepted|
  {
    if accepted != [] {
      var n := |accepted| - 1;
      SpanIsRecent(accepted[..n], user, from, now);
      if Recent(accepted[n], now) {
        CountSnoc(Prune(accepted[..n], now), accepted[n], user);
      } else {
        assert Prune(accepted, now) == Prune(accepted[..n], now);
      }
    }
  }

  /** No half-open sixty-second span holds more accepted hits of one user than
      the limit, whatever the others send. */
  lemma {:induction false} LimitHolds(perMinute: nat, attempts: seq<Attempt>, user: int, from: Time)
    requires InOrder(attempts)
    ensures InSpan(Run(perMinute, attempts).1, user, from) <= perMinute
    decreases |attempts|
  {
    if attempts != [] {
      var n := |attempts| - 1;
      var a := attempts[n];
      var (hits, accepted) := Run(perMinute, attempts[..n]);
      LimitHolds(perMinute, attempts[..n], user, from);
      ForgettingIsSafe(perMinute, attempts[..n], a.user, a.at);
      assert (accepted + [a])[..|accepted|] == accepted;
      if a.user == user && from <= a.at < from + WINDOW {
        SpanIsRecent(accepted, user, from, a.at);
      }
    }
  }
}
