/** No reachable state of the pool has tasks blocked on each other. */
module PoolProgress {
  import opened Common
  import opened PoolModel
  import opened PoolInvariant
  import opened PoolFrame
  import opened PoolSafety
  import Channel

  ghost predicate CanRun(cfg: Config, s: Pool, t: TaskId) {
    exists ch :: RunTask(cfg, s, t, ch).Some?
  }

  /** The owner of the lock the task waits for, if somebody holds it. */
  ghost function Blocker(s: Pool, t: TaskId): Option<TaskId>
    requires t in s.tasks
  {
    match s.tasks[t].pc
    case WantAlloc => s.alloc
    case RetWait(c, _) => if c in s.cells then s.cells[c].lock else None
    case CellWait(c) => if c in s.cells then s.cells[c].lock else None
    case pc => if WantsMap(pc) then s.mapLock else None
  }

  predicate WantsMap(pc: Pc) {
    pc.WantMap? || pc.ForgetWait? || pc.TouchWait? || pc.DrainWait? || pc.SweepWait?
  }

  predicate WantsCell(pc: Pc) {
    pc.RetWait? || pc.CellWait?
  }

  /** The lock order: the allocation lock is asked for with empty hands, a cell
      never while holding the map, the map never while holding a cell. */
  lemma LockOrder(cfg: Config, s: Pool, t: TaskId)
    requires Reachable(cfg, s) && t in s.tasks
    ensures s.tasks[t].pc == WantAlloc ==>
      s.alloc != Some(t) && s.mapLock != Some(t) && forall c :: c in s.cells ==> s.cells[c].lock != Some(t)
    ensures WantsCell(s.tasks[t].pc) ==> s.mapLock != Some(t) && forall c :: c in s.cells ==> s.cells[c].lock != Some(t)
    ensures WantsMap(s.tasks[t].pc) ==> forall c :: c in s.cells ==> s.cells[c].lock != Some(t)
  {
    hide Reachable;
    LocksHeld(cfg, s, t);
  }

  lemma LocksHeld(cfg: Config, s: Pool, t: TaskId)
    requires Reachable(cfg, s) && t in s.tasks
    ensures TaskLocks(s, t)
    ensures forall c :: c in s.cells && s.cells[c].lock == Some(t) ==> HeldCell(s.tasks[t].pc) == Some(c)
  {
    ReachableInv(cfg, s);
    assert TaskOk(cfg, s, t);
    forall c | c in s.cells && s.cells[c].lock == Some(t)
      ensures HeldCell(s.tasks[t].pc) == Some(c)
    {
      assert CellOk(cfg, s, c);
    }
  }

  lemma {:induction false} FreshId(ids: set<nat>) returns (n: nat)
    ensures n !in ids
  {
    n := Above(ids);
  }

  lemma {:induction false} Above(ids: set<nat>) returns (n: nat)
    ensures forall i :: i in ids ==> i < n
    decreases |ids|
  {
    if ids == {} {
      n := 0;
    } else {
      var i :| i in ids;
      var m := Above(ids - {i});
      n := if i < m then m else i + 1;
      forall j | j in ids
        ensures j < n
      {
        assert j == i || j in ids - {i};
      }
    }
  }

  lemma {:induction false} LeastRecentlyUsed(slots: map<SlotKey, Entry>, keys: set<SlotKey>) returns (k: SlotKey)
    requires keys != {} && keys <= slots.Keys
    ensures k in keys && forall l :: l in keys ==> slots[k].lastUsed <= slots[l].lastUsed
    decreases |keys|
  {
    k :| k in keys;
    if keys != {k} {
      var m := LeastRecentlyUsed(slots, keys - {k});
      if slots[m].lastUsed < slots[k].lastUsed {
        k := m;
      }
    }
  }

  lemma RoomRuns(cfg: Config, s: Pool, t: TaskId)
    requires t in s.tasks && s.tasks[t].pc.Room? && s.tasks[t].job.Request?
    ensures CanRun(cfg, s, t)
  {
    var agent := s.tasks[t].job.key.agent;
    var mine := AgentKeys(s.slots, agent);
    var ch := Go;
    if |mine| < cfg.maxInstances(agent) {
      var c := FreshId(s.cells.Keys);
      ch := NewCell(c);
    } else if mine != {} {
      var k := LeastRecentlyUsed(s.slots, mine);
      ch := Victim(k);
    }
    assert MakeRoom(cfg, s, t, s.tasks[t].pc.bound, ch).Some?;
    assert RunTask(cfg, s, t, ch).Some?;
  }

  /** A choice that always lets a task go on once it holds what it needs. */
  ghost function Onward(s: Pool, t: TaskId): Choice
    requires t in s.tasks
  {
    match s.tasks[t].pc
    case Spawn(_) => Fail
    case Handshake(_, _) => Fail
    case Write(_, _, _) => Fail
    case Read(_, _) => Pick(0)
    case _ => Go
  }

  lemma MapHolderRuns(cfg: Config, s: Pool, t: TaskId)
    requires t in s.tasks && HoldsMap(s.tasks[t].pc) && TaskShape(s, t) && TaskCell(cfg, s, t) && TaskSlots(s, t)
    requires forall k :: k in s.slots ==> SlotOk(s, k)
    requires forall c :: c in s.cells && s.cells[c].state.Live? ==> s.cells[c].state.p in s.procs
    ensures CanRun(cfg, s, t)
  {
    if s.tasks[t].pc.Room? {
      RoomRuns(cfg, s, t);
    } else if s.tasks[t].pc.SweepIn? && s.tasks[t].pc.todo != {} {
      var k :| k in s.tasks[t].pc.todo;
      assert SlotOk(s, k);
      assert RunTask(cfg, s, t, Visit(k, false)).Some?;
    } else {
      if s.tasks[t].pc.InMap? && s.tasks[t].job.key in s.slots {
        assert SlotOk(s, s.tasks[t].job.key);
      }
      assert RunTask(cfg, s, t, Go).Some?;
    }
  }

  lemma CellHolderRuns(cfg: Config, s: Pool, t: TaskId)
    requires t in s.tasks && HeldCell(s.tasks[t].pc).Some? && TaskShape(s, t) && TaskCell(cfg, s, t)
    ensures CanRun(cfg, s, t)
  {
    assert RunTask(cfg, s, t, Onward(s, t)).Some?;
  }

  lemma FreeTaskRuns(cfg: Config, s: Pool, t: TaskId)
    requires t in s.tasks && TaskShape(s, t) && TaskCell(cfg, s, t) && TaskSlots(s, t) && TaskReaped(s, t)
    requires !HoldsMap(s.tasks[t].pc) && HeldCell(s.tasks[t].pc).None? && !s.tasks[t].pc.Done?
    requires Blocker(s, t).None?
    ensures CanRun(cfg, s, t)
  {
    var pc := s.tasks[t].pc;
    if pc.DrainLoop? && pc.rest != {} {
      var c :| c in pc.rest;
      assert RunTask(cfg, s, t, Pick(c)).Some?;
    } else if pc.SweepAudit? && pc.reaped != {} {
      var p :| p in pc.reaped;
      assert RunTask(cfg, s, t, Pick(p)).Some?;
    } else {
      assert RunTask(cfg, s, t, Go).Some?;
    }
  }

  lemma RunsUnlessBlocked(cfg: Config, s: Pool, t: TaskId)
    requires Reachable(cfg, s) && t in s.tasks && !s.tasks[t].pc.Done? && Blocker(s, t).None?
    ensures CanRun(cfg, s, t)
  {
    ReachableInv(cfg, s);
    assert TaskOk(cfg, s, t);
    if HoldsMap(s.tasks[t].pc) {
      forall c | c in s.cells && s.cells[c].state.Live?
        ensures s.cells[c].state.p in s.procs
      {
        assert CellOk(cfg, s, c);
      }
      MapHolderRuns(cfg, s, t);
    } else if HeldCell(s.tasks[t].pc).Some? {
      CellHolderRuns(cfg, s, t);
    } else {
      FreeTaskRuns(cfg, s, t);
    }
  }

  /** Who can be in the way: a holder of the map or of a cell waits for nothing,
      a holder of the allocation lock only for one of those. */
  lemma BlockerIs(cfg: Config, s: Pool, t: TaskId)
    requires Reachable(cfg, s) && t in s.tasks && Blocker(s, t).Some?
    ensures Blocker(s, t).value in s.tasks
    ensures var u := Blocker(s, t).value;
      if s.tasks[t].pc == WantAlloc then HoldsAlloc(s.tasks[u].pc)
      else HoldsMap(s.tasks[u].pc) || HeldCell(s.tasks[u].pc).Some?
  {
    ReachableInv(cfg, s);
    var u := Blocker(s, t).value;
    var pc := s.tasks[t].pc;
    if WantsCell(pc) {
      assert CellOk(cfg, s, pc.c);
    }
    assert TaskOk(cfg, s, u);
  }

  lemma HoldersAreFree(s: Pool, u: TaskId)
    requires u in s.tasks
    ensures HoldsMap(s.tasks[u].pc) || HeldCell(s.tasks[u].pc).Some? ==> Blocker(s, u) == None && !s.tasks[u].pc.Done?
    ensures HoldsAlloc(s.tasks[u].pc) ==> s.tasks[u].pc != WantAlloc && !s.tasks[u].pc.Done?
  {
  }

  /** In every reachable state an unfinished task can run, or the task it waits
      for can, or the one that task waits for: nothing is ever stuck. */
  lemma NoDeadlock(cfg: Config, s: Pool, t: TaskId)
    requires Reachable(cfg, s) && t in s.tasks && !s.tasks[t].pc.Done?
    ensures CanRun(cfg, s, t) ||
      (Blocker(s, t).Some? && Blocker(s, t).value in s.tasks &&
        var u := Blocker(s, t).value;
        CanRun(cfg, s, u) || (Blocker(s, u).Some? && CanRun(cfg, s, Blocker(s, u).value)))
  {
    if Blocker(s, t).None? {
      RunsUnlessBlocked(cfg, s, t);
    } else {
      BlockerIs(cfg, s, t);
      var u := Blocker(s, t).value;
      HoldersAreFree(s, u);
      if Blocker(s, u).None? {
        RunsUnlessBlocked(cfg, s, u);
      } else {
        BlockerIs(cfg, s, u);
        var w := Blocker(s, u).value;
        HoldersAreFree(s, w);
        RunsUnlessBlocked(cfg, s, w);
      }
    }
  }
}
