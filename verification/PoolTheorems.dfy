/** The promises of the pool, as theorems about every reachable state and every run. */
module PoolTheorems {
  import opened Common
  import opened PoolModel
  import opened PoolInvariant
  import opened PoolFrame
  import opened PoolSafety
  import Channel
  import PoolRetirement

  // ---- the ceiling on live instances ----

  ghost predicate OfAgent(s: Pool, p: ProcId, agent: string) {
    p in s.procs && s.procs[p].cell in s.cells && s.cells[s.procs[p].cell].key.agent == agent
  }

  /** The live processes of an agent: spawning, serving or in their grace period. */
  ghost function AliveOf(s: Pool, agent: string): set<ProcId> {
    set p | p in s.procs && s.procs[p].alive && OfAgent(s, p, agent)
  }

  /** Live processes whose cell the pool has already given up. */
  ghost function Stranded(s: Pool, agent: string): set<ProcId> {
    set p | p in AliveOf(s, agent) && s.cells[s.procs[p].cell].state == Stopped
  }

  /** A live process is in the current entry of its key, unless the reaper is the one killing it. */
  lemma AliveIsCurrent(cfg: Config, s: Pool, p: ProcId)
    requires Reachable(cfg, s) && p in s.procs && s.procs[p].alive
    ensures s.procs[p].cell in s.cells && s.cells[s.procs[p].cell].hosted == Some(p)
    ensures IsCurrent(s, s.procs[p].cell) || s.cells[s.procs[p].cell].state == Stopped
    ensures s.cells[s.procs[p].cell].state == Stopped ==> s.procs[p].claim == ByReaper
  {
    ReachableInv(cfg, s);
    assert ProcOk(cfg, s, p);
    assert CellOk(cfg, s, s.procs[p].cell);
  }

  /** Distinct processes with distinct keys in the map are at most as many as the keys. */
  lemma {:induction false} CountByKey(s: Pool, ps: set<ProcId>, keys: set<SlotKey>)
    requires forall p :: p in ps ==> p in s.procs && s.procs[p].cell in s.cells && s.cells[s.procs[p].cell].key in keys
    requires forall p, q :: p in ps && q in ps && s.cells[s.procs[p].cell].key == s.cells[s.procs[q].cell].key ==> p == q
    ensures |ps| <= |keys|
    decreases |ps|
  {
    if ps != {} {
      var p :| p in ps;
      CountByKey(s, ps - {p}, keys - {s.cells[s.procs[p].cell].key});
    }
  }

  lemma CountBound(cfg: Config, s: Pool, agent: string)
    requires Reachable(cfg, s)
    ensures |AgentKeys(s.slots, agent)| <= cfg.maxInstances(agent)
  {
    ReachableInv(cfg, s);
  }

  lemma OwnedCount(s: Pool, agent: string)
    requires forall p :: p in AliveOf(s, agent) ==>
      s.cells[s.procs[p].cell].hosted == Some(p) && (IsCurrent(s, s.procs[p].cell) || p in Stranded(s, agent))
    ensures |AliveOf(s, agent) - Stranded(s, agent)| <= |AgentKeys(s.slots, agent)|
    ensures |AliveOf(s, agent)| == |AliveOf(s, agent) - Stranded(s, agent)| + |Stranded(s, agent)|
  {
    var owned := AliveOf(s, agent) - Stranded(s, agent);
    CountByKey(s, owned, AgentKeys(s.slots, agent));
    assert AliveOf(s, agent) == owned + Stranded(s, agent);
  }

  /** `max_instances` bounds the live processes the pool still owns, in every
      reachable state; any process beyond it is one the reaper is killing. */
  lemma CeilingHolds(cfg: Config, s: Pool, agent: string)
    requires Reachable(cfg, s)
    ensures |AliveOf(s, agent) - Stranded(s, agent)| <= cfg.maxInstances(agent)
    ensures |AliveOf(s, agent)| <= cfg.maxInstances(agent) + |Stranded(s, agent)|
    ensures forall p :: p in Stranded(s, agent) ==> s.procs[p].claim == ByReaper
  {
    forall p | p in AliveOf(s, agent)
      ensures IsCurrent(s, s.procs[p].cell) || (s.procs[p].claim == ByReaper && p in Stranded(s, agent))
      ensures s.cells[s.procs[p].cell].hosted == Some(p)
      ensures p in Stranded(s, agent) ==> s.procs[p].claim == ByReaper
    {
      AliveIsCurrent(cfg, s, p);
    }
    OwnedCount(s, agent);
    CountBound(cfg, s, agent);
  }

  // ---- drain ----

  /** When a drain is about to give up the allocation lock, nothing in its scope
      is left in the map, and every process in its scope that is still alive is
      in the reaper's hands. */
  lemma DrainComplete(cfg: Config, s: Pool, t: TaskId, scope: Option<string>)
    requires Reachable(cfg, s) && t in s.tasks
    requires s.tasks[t].job == Drain(scope) && s.tasks[t].pc == DrainLoop({})
    ensures s.alloc == Some(t)
    ensures forall k :: k in s.slots ==> scope != None && scope != Some(k.agent)
    ensures forall p ::
      p in s.procs && s.procs[p].alive && s.procs[p].cell in s.cells && (scope == None || scope == Some(s.cells[s.procs[p].cell].key.agent)) ==>
        s.procs[p].claim == ByReaper
    ensures scope == None ==> s.slots == map[]
  {
    ReachableInv(cfg, s);
    assert TaskOk(cfg, s, t);
    forall p | p in s.procs && s.procs[p].alive && s.procs[p].cell in s.cells && InScope(scope, s.cells[s.procs[p].cell].key)
      ensures s.procs[p].claim == ByReaper
    {
      AliveIsCurrent(cfg, s, p);
    }
  }

  // ---- eviction ----

  /** Each pass of the eviction loop finds strictly fewer entries than the one
      before, and below the ceiling it inserts. */
  lemma EvictionFalls(cfg: Config, s: Pool, t: TaskId, bound: Option<nat>, ch: Choice)
    requires Reachable(cfg, s) && t in s.tasks && s.tasks[t].pc == Room(bound) && RunTask(cfg, s, t, ch).Some?
    requires s.tasks[t].job.Request? && cfg.maxInstances(s.tasks[t].job.key.agent) >= 1
    ensures var s' := RunTask(cfg, s, t, ch).value;
      var left := |AgentKeys(s.slots, s.tasks[t].job.key.agent)|;
      && (bound.Some? ==> left < bound.value)
      && if left < cfg.maxInstances(s.tasks[t].job.key.agent)
         then s'.tasks[t].pc.CellWait? && s'.tasks[t].job.key in s'.slots && s'.alloc == None
         else s'.tasks[t].pc.RetWait? && s'.tasks[t].pc.after == EvictAgain(left) && left > 0
  {
    ReachableInv(cfg, s);
    assert TaskOk(cfg, s, t);
  }

  // ---- delivery ----

  /** The bytes of one request reach at most one process, and a request that is
      about to be written has reached none. */
  lemma AtMostOnce(cfg: Config, s: Pool, t: TaskId)
    requires Reachable(cfg, s)
    ensures forall p, q :: (t, p) in s.delivered && (t, q) in s.delivered ==> p == q
    ensures t in s.tasks && (s.tasks[t].pc.Begin? || s.tasks[t].pc.WantAlloc?) ==> Unsent(s, t)
  {
    ReachableInv(cfg, s);
    if t in s.tasks {
      assert TaskOk(cfg, s, t);
    } else {
      assert forall d :: d in s.delivered ==> d.0 in s.tasks;
      assert forall p :: (t, p) in s.delivered ==> (t, p).0 in s.tasks;
    }
  }

  // ---- instances ----

  ghost function InService(s: Pool): set<ProcId> {
    set p | p in s.procs && (s.procs[p].phase == Serving || s.procs[p].phase.Reaped?)
  }

  ghost function RecycledProcs(s: Pool): set<ProcId> {
    set p | p in s.procs && s.procs[p].phase == Recycled
  }

  lemma AuditEntry(cfg: Config, s: Pool, p: ProcId)
    requires Reachable(cfg, s)
    ensures s.started[p] == if p in InService(s) + RecycledProcs(s) then 1 else 0
    ensures s.recycled[p] == if p in RecycledProcs(s) then 1 else 0
  {
    ReachableInv(cfg, s);
    if p in s.procs {
      assert ProcOk(cfg, s, p);
    }
  }

  /** Every started instance is recycled exactly once: the audit log balances
      against the instances in service at every moment. */
  lemma AuditBalances(cfg: Config, s: Pool)
    requires Reachable(cfg, s)
    ensures |s.started| == |s.recycled| + |InService(s)|
    ensures forall p :: s.recycled[p] <= s.started[p] <= 1
  {
    var serving, recycled := InService(s), RecycledProcs(s);
    forall p
      ensures s.started[p] == multiset(serving + recycled)[p] <= 1
      ensures s.recycled[p] == multiset(recycled)[p] <= s.started[p]
    {
      AuditEntry(cfg, s, p);
    }
    assert s.started == multiset(serving + recycled);
    assert s.recycled == multiset(recycled);
    assert |serving + recycled| == |serving| + |recycled|;
  }

  /** Whoever holds a retiring cell is retiring the process in it. */
  lemma HolderRetires(cfg: Config, s: Pool, t: TaskId, c: CellId, p: ProcId)
    requires t in s.tasks && TaskCell(cfg, s, t) && HeldCell(s.tasks[t].pc) == Some(c)
    requires c in s.cells && s.cells[c].state == Retiring && s.cells[c].hosted == Some(p)
    ensures PoolRetirement.Retires(s, t, c, p)
  {
  }

  /** An instance in service is live in the map, or it is in the map and the task
      that holds its cell is at the kill of this very process, or it waits for
      the sweep that found it dead. */
  lemma InServiceWhere(cfg: Config, s: Pool, p: ProcId)
    requires Reachable(cfg, s) && p in InService(s)
    ensures var c := s.procs[p].cell;
      && c in s.cells
      && match s.cells[c].state
         case Live(q) => q == p && IsCurrent(s, c)
         case Retiring => s.cells[c].lock.Some? && PoolRetirement.Retires(s, s.cells[c].lock.value, c, p) && IsCurrent(s, c)
         case Starting => false
         case Stopped => s.procs[p].phase.Reaped? && !(s.procs[p].alive && s.procs[p].claim != ByReaper)
  {
    ReachableInv(cfg, s);
    assert ProcOk(cfg, s, p);
    var c := s.procs[p].cell;
    assert CellOk(cfg, s, c);
    if s.cells[c].state == Retiring {
      assert s.cells[c].lock != None;
      var t := s.cells[c].lock.value;
      assert TaskOk(cfg, s, t);
      HolderRetires(cfg, s, t, c, p);
    }
  }

  /** `Retiring` is never what a task finds in a cell it has just locked, and a
      reservation it finds has never hosted a process. */
  lemma RetiringIsNeverSeen(cfg: Config, s: Pool, t: TaskId)
    requires Reachable(cfg, s) && t in s.tasks && (s.tasks[t].pc.Inspect? || s.tasks[t].pc.RetClaim?)
    ensures var c := s.tasks[t].pc.c;
      c in s.cells && s.cells[c].state != Retiring && (s.cells[c].state == Starting ==> s.cells[c].hosted == None)
  {
    ReachableInv(cfg, s);
    assert TaskOk(cfg, s, t);
  }

  /** No instance answers more requests than its quota. */
  lemma QuotaHolds(cfg: Config, s: Pool, p: ProcId)
    requires Reachable(cfg, s) && p in s.procs
    ensures s.procs[p].cell in s.cells
    ensures var quota := cfg.maxInvocations(s.cells[s.procs[p].cell].key.agent); quota > 0 ==> |s.procs[p].chan.log| <= quota
  {
    ReachableInv(cfg, s);
    assert ProcOk(cfg, s, p);
  }

  lemma OpenIsHeld(cfg: Config, s: Pool, c: CellId, p: ProcId)
    requires c in s.cells && CellOk(cfg, s, c) && s.cells[c].state == Live(p) && p in s.procs && s.procs[p].chan.open
    ensures s.cells[c].lock.Some? && s.cells[c].lock.value in s.tasks
    ensures HeldCell(s.tasks[s.cells[c].lock.value].pc) == Some(c)
  {
  }

  lemma HolderAsks(cfg: Config, s: Pool, t: TaskId, c: CellId, p: ProcId)
    requires t in s.tasks && TaskCell(cfg, s, t) && HeldCell(s.tasks[t].pc) == Some(c)
    requires c in s.cells && s.cells[c].state == Live(p) && s.cells[c].hosted == Some(p) && p in s.procs && s.procs[p].chan.open
    ensures (s.tasks[t].pc.Write? || s.tasks[t].pc.Read?) && s.tasks[t].pc.p == p && Asking(cfg, s, t, c, p)
  {
  }

  /** An instance in the map with an unanswered request is held by the task that
      asked it, so no other request is ever sent after an unanswered one. */
  lemma OneInFlight(cfg: Config, s: Pool, c: CellId, p: ProcId)
    requires Reachable(cfg, s) && c in s.cells && s.cells[c].state == Live(p) && p in s.procs && s.procs[p].chan.open
    ensures s.cells[c].lock.Some? && s.cells[c].lock.value in s.tasks
    ensures var t := s.cells[c].lock.value;
      && (s.tasks[t].pc.Write? || s.tasks[t].pc.Read?) && s.tasks[t].pc.p == p
      && |s.procs[p].askers| == s.procs[p].chan.asked > 0 && s.procs[p].askers[s.procs[p].chan.asked - 1] == t
  {
    ReachableInv(cfg, s);
    assert CellOk(cfg, s, c);
    OpenIsHeld(cfg, s, c, p);
    var t := s.cells[c].lock.value;
    assert TaskOk(cfg, s, t);
    HolderAsks(cfg, s, t, c, p);
  }
}
