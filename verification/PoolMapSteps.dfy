/** The steps that read or change the slot map under its lock. */
module PoolMapSteps {
  import opened Common
  import opened PoolModel
  import opened PoolInvariant
  import opened PoolFrame
  import opened PoolSteps
  import Channel

  /** The step changes only entries, the task and the two pool-wide locks. */
  ghost predicate EditsMap(s: Pool, s': Pool, t: TaskId) {
    && s' == s.(tasks := s'.tasks, slots := s'.slots, alloc := s'.alloc, mapLock := s'.mapLock)
    && TasksStep(s, s', t) && SlotsStep(s, s', t)
    && s'.slots.Keys <= s.slots.Keys
    && HeldCell(s.tasks[t].pc) == None
  }

  lemma EditGlobals(cfg: Config, s: Pool, s': Pool, t: TaskId)
    requires Globals(cfg, s) && EditsMap(s, s', t)
    ensures Globals(cfg, s')
  {
    forall k | k in s'.slots
      ensures SlotOk(s', k)
    {
      assert SlotOk(s, k);
    }
    forall a: string
      ensures |AgentKeys(s'.slots, a)| <= cfg.maxInstances(a)
    {
      SmallerCount(s.slots, s'.slots, a);
    }
  }

  lemma EditElsewhere(cfg: Config, s: Pool, s': Pool, t: TaskId)
    requires EditsMap(s, s', t) && forall c :: c in s.cells ==> CellOk(cfg, s, c)
    ensures Guar(s, s', t)
    ensures forall c :: c in s'.cells ==> SameCell(s, s', t, c)
    ensures forall p :: p in s'.procs ==> SameProc(s, s', p)
  {
    forall c | c in s'.cells
      ensures SameCell(s, s', t, c)
    {
      assert CellOk(cfg, s, c);
    }
  }

  lemma EditKeeps(cfg: Config, s: Pool, s': Pool, t: TaskId)
    requires Inv(cfg, s) && EditsMap(s, s', t) && TaskOk(cfg, s', t)
    ensures Inv(cfg, s')
  {
    EditGlobals(cfg, s, s', t);
    EditElsewhere(cfg, s, s', t);
    Assemble(cfg, s, s', t, {}, {});
  }

  // ---- slot_for ----

  lemma LookUpBooks(cfg: Config, s: Pool, t: TaskId, b: Option<nat>)
    requires t in s.tasks && TaskOk(cfg, s, t) && s.tasks[t].pc == InMap(b) && LookUp(s, t, b).Some?
    ensures var s' := LookUp(s, t, b).value; TaskLocks(s', t) && TaskShape(s', t) && TaskSent(s', t) && TaskReaped(s', t)
  {
  }

  lemma LookUpEdits(cfg: Config, s: Pool, t: TaskId, b: Option<nat>)
    requires t in s.tasks && TaskLocks(s, t) && TaskSlots(s, t) && s.tasks[t].pc == InMap(b) && LookUp(s, t, b).Some?
    requires forall k :: k in s.slots ==> SlotOk(s, k)
    ensures var s' := LookUp(s, t, b).value; EditsMap(s, s', t) && TaskCell(cfg, s', t) && TaskSlots(s', t)
  {
    var s' := LookUp(s, t, b).value;
    var key := s.tasks[t].job.key;
    if key in s.slots {
      assert SlotOk(s, key);
      SmallerCount(s.slots, s'.slots, key.agent);
    }
  }

  lemma LookUpTask(cfg: Config, s: Pool, t: TaskId, b: Option<nat>)
    requires t in s.tasks && TaskOk(cfg, s, t) && s.tasks[t].pc == InMap(b) && LookUp(s, t, b).Some?
    requires forall k :: k in s.slots ==> SlotOk(s, k)
    ensures var s' := LookUp(s, t, b).value; EditsMap(s, s', t) && TaskOk(cfg, s', t)
  {
    hide LookUp, TaskLocks, TaskShape, TaskSent, TaskReaped, TaskSlots, TaskCell, EditsMap, SlotOk;
    LookUpBooks(cfg, s, t, b);
    LookUpEdits(cfg, s, t, b);
  }

  lemma RoomSteps(cfg: Config, s: Pool, t: TaskId, b: Option<nat>, ch: Choice)
    requires t in s.tasks && TaskLocks(s, t) && TaskShape(s, t) && TaskSent(s, t) && TaskReaped(s, t)
    requires s.tasks[t].pc == Room(b) && MakeRoom(cfg, s, t, b, ch).Some?
    requires |AgentKeys(s.slots, s.tasks[t].job.key.agent)| >= cfg.maxInstances(s.tasks[t].job.key.agent)
    ensures var s' := MakeRoom(cfg, s, t, b, ch).value;
      Moves(s, s', t) && TaskLocks(s', t) && TaskShape(s', t) && TaskSent(s', t) && TaskReaped(s', t)
  {
  }

  lemma RoomVictim(cfg: Config, s: Pool, t: TaskId, b: Option<nat>, ch: Choice)
    requires t in s.tasks && TaskSlots(s, t) && s.tasks[t].pc == Room(b) && MakeRoom(cfg, s, t, b, ch).Some?
    requires |AgentKeys(s.slots, s.tasks[t].job.key.agent)| >= cfg.maxInstances(s.tasks[t].job.key.agent)
    requires forall k :: k in s.slots ==> SlotOk(s, k)
    ensures var s' := MakeRoom(cfg, s, t, b, ch).value; t in s'.tasks && TaskSlots(s', t) && TaskCell(cfg, s', t)
  {
    var mine := AgentKeys(s.slots, s.tasks[t].job.key.agent);
    if mine != {} {
      assert ch.k in mine && SlotOk(s, ch.k);
    }
  }

  lemma RoomMoves(cfg: Config, s: Pool, t: TaskId, b: Option<nat>, ch: Choice)
    requires t in s.tasks && TaskOk(cfg, s, t) && s.tasks[t].pc == Room(b) && MakeRoom(cfg, s, t, b, ch).Some?
    requires |AgentKeys(s.slots, s.tasks[t].job.key.agent)| >= cfg.maxInstances(s.tasks[t].job.key.agent)
    requires forall k :: k in s.slots ==> SlotOk(s, k)
    ensures var s' := MakeRoom(cfg, s, t, b, ch).value; Moves(s, s', t) && TaskOk(cfg, s', t)
  {
    hide MakeRoom, TaskLocks, TaskShape, TaskSent, TaskReaped, TaskSlots, TaskCell, Moves, SlotOk;
    RoomSteps(cfg, s, t, b, ch);
    RoomVictim(cfg, s, t, b, ch);
  }

  // ---- the reservation ----

  lemma InsertCount(slots: map<SlotKey, Entry>, key: SlotKey, e: Entry, a: string)
    requires key !in slots
    ensures |AgentKeys(slots[key := e], a)| == |AgentKeys(slots, a)| + (if key.agent == a then 1 else 0)
  {
    var before, after := AgentKeys(slots, a), AgentKeys(slots[key := e], a);
    assert after == if key.agent == a then before + {key} else before;
  }

  lemma InsertGlobals(cfg: Config, s: Pool, t: TaskId, b: Option<nat>, ch: Choice)
    requires Globals(cfg, s) && t in s.tasks && TaskOk(cfg, s, t) && s.tasks[t].pc == Room(b) && MakeRoom(cfg, s, t, b, ch).Some?
    requires |AgentKeys(s.slots, s.tasks[t].job.key.agent)| < cfg.maxInstances(s.tasks[t].job.key.agent)
    ensures Globals(cfg, MakeRoom(cfg, s, t, b, ch).value)
  {
    var s' := MakeRoom(cfg, s, t, b, ch).value;
    var key := s.tasks[t].job.key;
    forall a: string
      ensures |AgentKeys(s'.slots, a)| <= cfg.maxInstances(a)
    {
      InsertCount(s.slots, key, Entry(ch.c, s.clock), a);
    }
    forall k | k in s'.slots
      ensures SlotOk(s', k)
    {
      if k != key {
        assert SlotOk(s, k);
      }
    }
  }

  lemma InsertGuar(cfg: Config, s: Pool, t: TaskId, b: Option<nat>, ch: Choice)
    requires t in s.tasks && TaskLocks(s, t) && TaskSlots(s, t) && s.tasks[t].pc == Room(b) && MakeRoom(cfg, s, t, b, ch).Some?
    requires |AgentKeys(s.slots, s.tasks[t].job.key.agent)| < cfg.maxInstances(s.tasks[t].job.key.agent)
    requires forall c :: c in s.cells ==> CellOk(cfg, s, c)
    ensures var s' := MakeRoom(cfg, s, t, b, ch).value;
      && Guar(s, s', t)
      && (forall c :: c in s'.cells && c != ch.c ==> SameCell(s, s', t, c))
  {
    var s' := MakeRoom(cfg, s, t, b, ch).value;
    forall c | c in s'.cells && c != ch.c
      ensures SameCell(s, s', t, c)
    {
      assert CellOk(cfg, s, c);
    }
  }

  lemma InsertTask(cfg: Config, s: Pool, t: TaskId, b: Option<nat>, ch: Choice)
    requires t in s.tasks && TaskOk(cfg, s, t) && s.tasks[t].pc == Room(b) && MakeRoom(cfg, s, t, b, ch).Some?
    requires |AgentKeys(s.slots, s.tasks[t].job.key.agent)| < cfg.maxInstances(s.tasks[t].job.key.agent)
    ensures var s' := MakeRoom(cfg, s, t, b, ch).value; TaskOk(cfg, s', t) && CellOk(cfg, s', ch.c)
  {
  }

  lemma InsertElsewhere(cfg: Config, s: Pool, t: TaskId, b: Option<nat>, ch: Choice)
    requires t in s.tasks && TaskLocks(s, t) && TaskSlots(s, t) && s.tasks[t].pc == Room(b) && MakeRoom(cfg, s, t, b, ch).Some?
    requires |AgentKeys(s.slots, s.tasks[t].job.key.agent)| < cfg.maxInstances(s.tasks[t].job.key.agent)
    requires forall p :: p in s.procs ==> ProcOk(cfg, s, p)
    ensures var s' := MakeRoom(cfg, s, t, b, ch).value; forall p :: p in s'.procs ==> SameProc(s, s', p)
  {
    forall p | p in s.procs
      ensures SameProc(s, MakeRoom(cfg, s, t, b, ch).value, p)
    {
      assert ProcOk(cfg, s, p);
    }
  }

  // ---- forget_slot, touch ----

  lemma ForgetBooks(cfg: Config, s: Pool, t: TaskId, c: CellId, a: After)
    requires t in s.tasks && TaskLocks(s, t) && TaskReaped(s, t) && s.tasks[t].pc == ForgetIn(c, a) && Forget(s, t, c, a).Some?
    ensures var s' := Forget(s, t, c, a).value; t in s'.tasks && TaskLocks(s', t) && TaskReaped(s', t)
  {
  }

  lemma ForgetShape(cfg: Config, s: Pool, t: TaskId, c: CellId, a: After)
    requires t in s.tasks && TaskShape(s, t) && TaskSent(s, t) && s.tasks[t].pc == ForgetIn(c, a) && Forget(s, t, c, a).Some?
    ensures var s' := Forget(s, t, c, a).value; t in s'.tasks && TaskShape(s', t) && TaskSent(s', t) && TaskCell(cfg, s', t)
  {
  }

  lemma ForgetTask(cfg: Config, s: Pool, t: TaskId, c: CellId, a: After)
    requires t in s.tasks && TaskOk(cfg, s, t) && s.tasks[t].pc == ForgetIn(c, a) && Forget(s, t, c, a).Some?
    requires forall k :: k in s.slots ==> SlotOk(s, k)
    ensures var s' := Forget(s, t, c, a).value; EditsMap(s, s', t) && TaskOk(cfg, s', t)
  {
    assert s.cells[c].state == Stopped;
    hide Forget, TaskLocks, TaskShape, TaskSent, TaskReaped, TaskSlots, TaskCell, EditsMap;
    ForgetBooks(cfg, s, t, c, a);
    ForgetShape(cfg, s, t, c, a);
    ForgetSlots(s, t, c, a);
  }

  /** The cell just retired is out of the map, which is what the loop it belongs to waits for. */
  lemma ForgetSlots(s: Pool, t: TaskId, c: CellId, a: After)
    requires t in s.tasks && TaskSlots(s, t) && TaskLocks(s, t) && s.tasks[t].pc == ForgetIn(c, a) && Forget(s, t, c, a).Some?
    requires s.cells[c].state == Stopped && forall k :: k in s.slots ==> SlotOk(s, k)
    ensures TaskSlots(Forget(s, t, c, a).value, t) && EditsMap(s, Forget(s, t, c, a).value, t)
  {
    var s' := Forget(s, t, c, a).value;
    var key := s.cells[c].key;
    if s.tasks[t].job.Drain? && a.NextVictim? {
      forall k | k in s'.slots && InScope(s.tasks[t].job.scope, k)
        ensures s'.slots[k].cell in a.rest
      {
        assert SlotOk(s, k);
      }
    }
    if s.tasks[t].job.Request? {
      var agent := s.tasks[t].job.key.agent;
      SmallerCount(s.slots, s'.slots, agent);
      if a.EvictAgain? {
        assert Evicting(s, agent, c, a.bound);
        assert key in s.slots ==> key !in s'.slots && |AgentKeys(s'.slots, agent)| < |AgentKeys(s.slots, agent)|;
      }
    }
  }

  lemma TouchBooks(s: Pool, t: TaskId, o: Outcome)
    requires t in s.tasks && TaskLocks(s, t) && TaskReaped(s, t) && s.tasks[t].pc == TouchIn(o) && Touch(s, t, o).Some?
    ensures var s' := Touch(s, t, o).value; t in s'.tasks && TaskLocks(s', t) && TaskReaped(s', t)
  {
  }

  lemma TouchShape(cfg: Config, s: Pool, t: TaskId, o: Outcome)
    requires t in s.tasks && TaskShape(s, t) && TaskSent(s, t) && s.tasks[t].pc == TouchIn(o) && Touch(s, t, o).Some?
    ensures var s' := Touch(s, t, o).value;
      t in s'.tasks && TaskShape(s', t) && TaskSent(s', t) && TaskCell(cfg, s', t) && TaskSlots(s', t)
  {
  }

  lemma TouchEdits(s: Pool, t: TaskId, o: Outcome)
    requires t in s.tasks && TaskLocks(s, t) && s.tasks[t].pc == TouchIn(o) && Touch(s, t, o).Some?
    ensures EditsMap(s, Touch(s, t, o).value, t)
  {
  }

  lemma TouchTask(cfg: Config, s: Pool, t: TaskId, o: Outcome)
    requires t in s.tasks && TaskOk(cfg, s, t) && s.tasks[t].pc == TouchIn(o) && Touch(s, t, o).Some?
    ensures var s' := Touch(s, t, o).value; EditsMap(s, s', t) && TaskOk(cfg, s', t)
  {
    hide Touch, TaskLocks, TaskShape, TaskSent, TaskReaped, TaskSlots, TaskCell, EditsMap;
    TouchBooks(s, t, o);
    TouchShape(cfg, s, t, o);
    TouchEdits(s, t, o);
  }

  // ---- reap_dead ----

  /** The sweep goes past an entry, or drops one that is already stopped. */
  ghost predicate Passes(s: Pool, s': Pool) {
    s'.cells == s.cells && s'.procs == s.procs
  }

  lemma ReapLocks(cfg: Config, s: Pool, t: TaskId, todo: set<SlotKey>, reaped: set<ProcId>, ch: Choice)
    requires t in s.tasks && TaskLocks(s, t)
    requires s.tasks[t].pc == SweepIn(todo, reaped) && Reap(s, t, todo, reaped, ch).Some?
    ensures var s' := Reap(s, t, todo, reaped, ch).value; t in s'.tasks && TaskLocks(s', t)
  {
  }

  lemma ReapGoesOn(cfg: Config, s: Pool, t: TaskId, todo: set<SlotKey>, reaped: set<ProcId>, ch: Choice)
    requires t in s.tasks && s.tasks[t].pc == SweepIn(todo, reaped) && Reap(s, t, todo, reaped, ch).Some?
    ensures var s' := Reap(s, t, todo, reaped, ch).value;
      && t in s'.tasks && s'.delivered == s.delivered && s'.tasks[t] == s.tasks[t].(pc := s'.tasks[t].pc)
      && (s'.tasks[t].pc.SweepIn? || s'.tasks[t].pc.SweepAudit?)
  {
  }

  lemma ReapShape(cfg: Config, s: Pool, t: TaskId, todo: set<SlotKey>, reaped: set<ProcId>, ch: Choice)
    requires t in s.tasks && TaskShape(s, t)
    requires s.tasks[t].pc == SweepIn(todo, reaped) && Reap(s, t, todo, reaped, ch).Some?
    ensures var s' := Reap(s, t, todo, reaped, ch).value; t in s'.tasks && TaskShape(s', t)
  {
    ReapGoesOn(cfg, s, t, todo, reaped, ch);
    hide Reap;
  }

  lemma ReapSent(cfg: Config, s: Pool, t: TaskId, todo: set<SlotKey>, reaped: set<ProcId>, ch: Choice)
    requires t in s.tasks && TaskSent(s, t)
    requires s.tasks[t].pc == SweepIn(todo, reaped) && Reap(s, t, todo, reaped, ch).Some?
    ensures var s' := Reap(s, t, todo, reaped, ch).value; t in s'.tasks && TaskSent(s', t)
  {
    ReapGoesOn(cfg, s, t, todo, reaped, ch);
    hide Reap;
  }

  lemma ReapBooks(cfg: Config, s: Pool, t: TaskId, todo: set<SlotKey>, reaped: set<ProcId>, ch: Choice)
    requires t in s.tasks && TaskLocks(s, t) && TaskShape(s, t) && TaskSent(s, t)
    requires s.tasks[t].pc == SweepIn(todo, reaped) && Reap(s, t, todo, reaped, ch).Some?
    ensures var s' := Reap(s, t, todo, reaped, ch).value; t in s'.tasks && TaskLocks(s', t) && TaskShape(s', t) && TaskSent(s', t)
  {
    hide Reap, TaskLocks, TaskShape, TaskSent;
    ReapLocks(cfg, s, t, todo, reaped, ch);
    ReapShape(cfg, s, t, todo, reaped, ch);
    ReapSent(cfg, s, t, todo, reaped, ch);
  }

  lemma ReapTodo(cfg: Config, s: Pool, t: TaskId, todo: set<SlotKey>, reaped: set<ProcId>, ch: Choice)
    requires t in s.tasks && TaskSlots(s, t) && s.tasks[t].pc == SweepIn(todo, reaped) && Reap(s, t, todo, reaped, ch).Some?
    ensures var s' := Reap(s, t, todo, reaped, ch).value; t in s'.tasks && TaskSlots(s', t) && TaskCell(cfg, s', t)
  {
  }

  lemma ReapLists(cfg: Config, s: Pool, t: TaskId, todo: set<SlotKey>, reaped: set<ProcId>, ch: Choice)
    requires t in s.tasks && TaskReaped(s, t) && s.tasks[t].pc == SweepIn(todo, reaped) && Reap(s, t, todo, reaped, ch).Some?
    ensures var s' := Reap(s, t, todo, reaped, ch).value; t in s'.tasks && TaskReaped(s', t)
  {
  }

  lemma PassEdits(cfg: Config, s: Pool, t: TaskId, todo: set<SlotKey>, reaped: set<ProcId>, ch: Choice)
    requires t in s.tasks && TaskLocks(s, t) && s.tasks[t].pc == SweepIn(todo, reaped) && Reap(s, t, todo, reaped, ch).Some?
    requires Passes(s, Reap(s, t, todo, reaped, ch).value)
    ensures EditsMap(s, Reap(s, t, todo, reaped, ch).value, t)
  {
  }

  lemma ReapTask(cfg: Config, s: Pool, t: TaskId, todo: set<SlotKey>, reaped: set<ProcId>, ch: Choice)
    requires t in s.tasks && TaskOk(cfg, s, t) && s.tasks[t].pc == SweepIn(todo, reaped) && Reap(s, t, todo, reaped, ch).Some?
    ensures TaskOk(cfg, Reap(s, t, todo, reaped, ch).value, t)
  {
    hide Reap, TaskLocks, TaskShape, TaskSent, TaskReaped, TaskSlots, TaskCell;
    ReapBooks(cfg, s, t, todo, reaped, ch);
    ReapTodo(cfg, s, t, todo, reaped, ch);
    ReapLists(cfg, s, t, todo, reaped, ch);
  }

  /** The sweep takes the instance of a process it saw exited. */
  ghost predicate Takes(s: Pool, s': Pool, t: TaskId, k: SlotKey, c: CellId, p: ProcId) {
    && t in s.tasks && s.tasks[t].pc.SweepIn?
    && k in s.slots && s.slots[k].cell == c && c in s.cells
    && s.cells[c].lock == None && s.cells[c].state == Live(p) && p in s.procs && !s.procs[p].alive
    && s' == s.(slots := s.slots - {k}, cells := SetState(s, c, Stopped),
                procs := s.procs[p := s.procs[p].(phase := Reaped(t))],
                tasks := Goto(s, t, SweepIn(s.tasks[t].pc.todo - {k}, s.tasks[t].pc.reaped + {p})))
  }

  lemma TakeGuar(cfg: Config, s: Pool, s': Pool, t: TaskId, k: SlotKey, c: CellId, p: ProcId)
    requires Takes(s, s', t, k, c, p) && TaskLocks(s, t) && CellOk(cfg, s, c) && ProcOk(cfg, s, p)
    ensures Guar(s, s', t)
  {
  }

  lemma TakeObjects(cfg: Config, s: Pool, s': Pool, t: TaskId, k: SlotKey, c: CellId, p: ProcId)
    requires Takes(s, s', t, k, c, p) && CellOk(cfg, s, c) && ProcOk(cfg, s, p)
    ensures CellOk(cfg, s', c) && ProcOk(cfg, s', p)
  {
  }

  lemma TakeGlobals(cfg: Config, s: Pool, s': Pool, t: TaskId, k: SlotKey, c: CellId, p: ProcId)
    requires Takes(s, s', t, k, c, p) && Globals(cfg, s)
    ensures Globals(cfg, s')
  {
    forall l | l in s'.slots
      ensures SlotOk(s', l)
    {
      assert SlotOk(s, l);
    }
    forall a: string
      ensures |AgentKeys(s'.slots, a)| <= cfg.maxInstances(a)
    {
      SmallerCount(s.slots, s'.slots, a);
    }
  }

  lemma TakeElsewhere(cfg: Config, s: Pool, s': Pool, t: TaskId, k: SlotKey, c: CellId, p: ProcId)
    requires Takes(s, s', t, k, c, p) && TaskLocks(s, t) && CellOk(cfg, s, c) && ProcOk(cfg, s, p)
    requires forall d :: d in s.cells ==> CellOk(cfg, s, d)
    requires forall q :: q in s.procs ==> ProcOk(cfg, s, q)
    ensures forall d :: d in s'.cells && d != c ==> SameCell(s, s', t, d)
    ensures forall q :: q in s'.procs && q != p ==> SameProc(s, s', q)
  {
    forall d | d in s'.cells && d != c
      ensures SameCell(s, s', t, d)
    {
      assert CellOk(cfg, s, d);
    }
    forall q | q in s'.procs && q != p
      ensures SameProc(s, s', q)
    {
      assert ProcOk(cfg, s, q);
    }
  }

  lemma AuditReapedBooks(s: Pool, t: TaskId, reaped: set<ProcId>, ch: Choice)
    requires t in s.tasks && TaskLocks(s, t) && TaskShape(s, t) && TaskSent(s, t)
    requires s.tasks[t].pc == SweepAudit(reaped) && AuditReaped(s, t, reaped, ch).Some?
    ensures var s' := AuditReaped(s, t, reaped, ch).value; TaskLocks(s', t) && TaskShape(s', t) && TaskSent(s', t)
  {
  }

  lemma AuditReapedLists(cfg: Config, s: Pool, t: TaskId, reaped: set<ProcId>, ch: Choice)
    requires t in s.tasks && TaskReaped(s, t) && s.tasks[t].pc == SweepAudit(reaped) && AuditReaped(s, t, reaped, ch).Some?
    ensures var s' := AuditReaped(s, t, reaped, ch).value; t in s'.tasks && TaskReaped(s', t)
  {
  }

  lemma AuditReapedFree(cfg: Config, s: Pool, t: TaskId, reaped: set<ProcId>, ch: Choice)
    requires t in s.tasks && s.tasks[t].pc == SweepAudit(reaped) && AuditReaped(s, t, reaped, ch).Some?
    ensures var s' := AuditReaped(s, t, reaped, ch).value; t in s'.tasks && TaskSlots(s', t) && TaskCell(cfg, s', t)
  {
  }

  lemma AuditReapedTask(cfg: Config, s: Pool, t: TaskId, reaped: set<ProcId>, ch: Choice)
    requires t in s.tasks && TaskOk(cfg, s, t) && s.tasks[t].pc == SweepAudit(reaped) && AuditReaped(s, t, reaped, ch).Some?
    ensures TaskOk(cfg, AuditReaped(s, t, reaped, ch).value, t)
  {
    hide AuditReaped, TaskLocks, TaskShape, TaskSent, TaskReaped, TaskSlots, TaskCell;
    AuditReapedBooks(s, t, reaped, ch);
    AuditReapedLists(cfg, s, t, reaped, ch);
    AuditReapedFree(cfg, s, t, reaped, ch);
  }
}
