/** Every step of the pool keeps the invariant. */
module PoolSteps {
  // For each kind of step, a lemma about the task, cell and process it touches; the
  // frame lemmas do the rest.

  import opened Common
  import opened PoolModel
  import opened PoolInvariant
  import opened PoolFrame
  import Channel

  /** The step leaves everything but the task and the two pool-wide locks alone. */
  ghost predicate Moves(s: Pool, s': Pool, t: TaskId) {
    && s' == s.(tasks := s'.tasks, alloc := s'.alloc, mapLock := s'.mapLock)
    && TasksStep(s, s', t)
    && HeldCell(s'.tasks[t].pc) == HeldCell(s.tasks[t].pc)
  }

  lemma MovedCell(cfg: Config, s: Pool, s': Pool, t: TaskId, c: CellId)
    requires Moves(s, s', t) && c in s.cells && CellOk(cfg, s, c)
    ensures CellOk(cfg, s', c)
  {
  }

  lemma MoveGuar(s: Pool, s': Pool, t: TaskId)
    requires Moves(s, s', t)
    ensures Guar(s, s', t)
  {
  }

  lemma MovedRest(cfg: Config, s: Pool, s': Pool, t: TaskId)
    requires Inv(cfg, s) && Moves(s, s', t)
    ensures Globals(cfg, s') && t in s'.tasks
    ensures forall c :: c in s'.cells ==> c in s.cells && CellOk(cfg, s', c)
    ensures forall p :: p in s'.procs ==> SameProc(s, s', p)
  {
    forall c | c in s.cells
      ensures CellOk(cfg, s', c)
    {
      MovedCell(cfg, s, s', t, c);
    }
  }

  lemma MoveKeeps(cfg: Config, s: Pool, s': Pool, t: TaskId)
    requires Inv(cfg, s) && Moves(s, s', t) && TaskOk(cfg, s', t)
    ensures Inv(cfg, s')
  {
    hide Inv, Moves, TaskOk, CellOk, ProcOk, Globals, Guar, SameCell, SameProc;
    MoveGuar(s, s', t);
    MovedRest(cfg, s, s', t);
    Assemble(cfg, s, s', t, s.cells.Keys, {});
  }

  // ---- waiting for a lock ----

  lemma TakeAllocTask(cfg: Config, s: Pool, t: TaskId)
    requires t in s.tasks && TaskOk(cfg, s, t) && s.tasks[t].pc == WantAlloc && TakeAlloc(s, t).Some?
    ensures var s' := TakeAlloc(s, t).value; Moves(s, s', t) && TaskOk(cfg, s', t)
  {
  }

  /** Taking the map lock on the way from one program point to the next. */
  ghost predicate MapWait(pc: Pc, pc': Pc, keys: set<SlotKey>) {
    match pc
    case WantMap(b) => pc' == InMap(b)
    case ForgetWait(c, a) => pc' == ForgetIn(c, a)
    case TouchWait(o) => pc' == TouchIn(o)
    case DrainWait => pc' == DrainIn
    case SweepWait => pc' == SweepIn(keys, {})
    case _ => false
  }

  lemma TakeMapMoves(cfg: Config, s: Pool, t: TaskId, pc: Pc)
    requires t in s.tasks && TaskLocks(s, t) && MapWait(s.tasks[t].pc, pc, s.slots.Keys) && TakeMap(s, t, pc).Some?
    ensures var s' := TakeMap(s, t, pc).value; Moves(s, s', t) && TaskLocks(s', t)
  {
  }

  lemma TakeMapFits(cfg: Config, s: Pool, t: TaskId, pc: Pc)
    requires t in s.tasks && TaskShape(s, t) && TaskCell(cfg, s, t) && TaskReaped(s, t)
    requires MapWait(s.tasks[t].pc, pc, s.slots.Keys) && TakeMap(s, t, pc).Some?
    ensures var s' := TakeMap(s, t, pc).value;
      s'.tasks[t] == s.tasks[t].(pc := pc) && TaskShape(s', t) && TaskCell(cfg, s', t) && TaskReaped(s', t)
  {
  }

  lemma TakeMapTask(cfg: Config, s: Pool, t: TaskId, pc: Pc)
    requires t in s.tasks && TaskOk(cfg, s, t) && MapWait(s.tasks[t].pc, pc, s.slots.Keys) && TakeMap(s, t, pc).Some?
    ensures var s' := TakeMap(s, t, pc).value; Moves(s, s', t) && TaskOk(cfg, s', t)
  {
    TakeMapMoves(cfg, s, t, pc);
    TakeMapFits(cfg, s, t, pc);
    hide TaskLocks, TaskShape, TaskReaped, TaskCell, Moves;
    var s' := TakeMap(s, t, pc).value;
    assert TaskSent(s', t);
    assert TaskSlots(s', t);
  }

  // ---- drain ----

  lemma SnapshotTask(cfg: Config, s: Pool, t: TaskId)
    requires t in s.tasks && TaskOk(cfg, s, t) && s.tasks[t].pc == DrainIn && Snapshot(s, t).Some?
    requires forall k :: k in s.slots ==> SlotOk(s, k)
    ensures var s' := Snapshot(s, t).value; Moves(s, s', t) && TaskOk(cfg, s', t)
  {
    var s' := Snapshot(s, t).value;
    var cells := ScopeCells(s.slots, s.tasks[t].job.scope);
    assert cells <= s.cells.Keys by {
      forall c | c in cells
        ensures c in s.cells
      {
        var k :| k in s.slots && s.slots[k].cell == c;
        assert SlotOk(s, k);
      }
    }
  }

  lemma DrainNextMoves(cfg: Config, s: Pool, t: TaskId, rest: set<CellId>, ch: Choice)
    requires t in s.tasks && TaskLocks(s, t) && TaskReaped(s, t) && s.tasks[t].pc == DrainLoop(rest) && DrainNext(s, t, rest, ch).Some?
    ensures var s' := DrainNext(s, t, rest, ch).value; Moves(s, s', t) && TaskLocks(s', t) && TaskReaped(s', t)
  {
  }

  lemma DrainNextFits(cfg: Config, s: Pool, t: TaskId, rest: set<CellId>, ch: Choice)
    requires t in s.tasks && TaskShape(s, t) && TaskSent(s, t) && TaskSlots(s, t) && s.tasks[t].pc == DrainLoop(rest) && DrainNext(s, t, rest, ch).Some?
    ensures var s' := DrainNext(s, t, rest, ch).value; t in s'.tasks && TaskShape(s', t) && TaskSent(s', t)
  {
  }

  lemma DrainNextSlots(cfg: Config, s: Pool, t: TaskId, rest: set<CellId>, ch: Choice)
    requires t in s.tasks && TaskShape(s, t) && TaskSlots(s, t) && s.tasks[t].pc == DrainLoop(rest) && DrainNext(s, t, rest, ch).Some?
    ensures var s' := DrainNext(s, t, rest, ch).value; t in s'.tasks && TaskCell(cfg, s', t) && TaskSlots(s', t)
  {
    if rest != {} {
      assert rest - {ch.id} + {ch.id} == rest;
    }
  }

  lemma DrainNextTask(cfg: Config, s: Pool, t: TaskId, rest: set<CellId>, ch: Choice)
    requires t in s.tasks && TaskOk(cfg, s, t) && s.tasks[t].pc == DrainLoop(rest) && DrainNext(s, t, rest, ch).Some?
    ensures var s' := DrainNext(s, t, rest, ch).value; Moves(s, s', t) && TaskOk(cfg, s', t)
  {
    hide DrainNext, TaskLocks, TaskShape, TaskSent, TaskReaped, TaskSlots, TaskCell, Moves;
    DrainNextMoves(cfg, s, t, rest, ch);
    DrainNextFits(cfg, s, t, rest, ch);
    DrainNextSlots(cfg, s, t, rest, ch);
  }

  // ---- work on one cell under its lock ----

  ghost predicate ProcsOfCell(s: Pool, s': Pool, t: TaskId, c: CellId) {
    && s.procs.Keys <= s'.procs.Keys
    && (forall p :: p in s.procs && s.procs[p].cell != c ==> s'.procs[p] == s.procs[p])
    && (forall p :: p in s.procs ==> ProcStep(s, s.procs[p], s'.procs[p], t))
    && (forall p :: p in s'.procs && p !in s.procs ==> s'.procs[p].phase == Booting && s'.procs[p].cell == c)
  }

  /** The step changes one cell that is free or held by the task, and only processes spawned for it. */
  ghost predicate WorksOn(s: Pool, s': Pool, t: TaskId, c: CellId) {
    && s' == s.(tasks := s'.tasks, cells := s'.cells, procs := s'.procs, delivered := s'.delivered,
                started := s'.started, recycled := s'.recycled)
    && TasksStep(s, s', t)
    && c in s.cells && c in s'.cells && s'.cells == s.cells[c := s'.cells[c]]
    && CellStep(s.cells[c], s'.cells[c], t)
    && (s.cells[c].lock == None || s.cells[c].lock == Some(t))
    && ProcsOfCell(s, s', t, c)
    && SentStep(s, s', t) && AuditStep(s, s')
    && (HeldCell(s.tasks[t].pc) == None || HeldCell(s.tasks[t].pc) == Some(c))
    && (forall p :: p !in s'.procs ==> s'.started[p] == s.started[p] && s'.recycled[p] == s.recycled[p])
  }

  lemma WorkGuar(s: Pool, s': Pool, t: TaskId, c: CellId)
    requires WorksOn(s, s', t, c)
    ensures Guar(s, s', t)
  {
    forall d | d in s.cells
      ensures CellStep(s.cells[d], s'.cells[d], t)
    {
    }
  }

  lemma WorkGlobals(cfg: Config, s: Pool, s': Pool, t: TaskId, c: CellId)
    requires WorksOn(s, s', t, c) && Globals(cfg, s)
    ensures Globals(cfg, s')
  {
    forall k | k in s'.slots
      ensures SlotOk(s', k)
    {
      assert SlotOk(s, k);
    }
  }

  lemma WorkElsewhere(cfg: Config, s: Pool, s': Pool, t: TaskId, c: CellId)
    requires WorksOn(s, s', t, c)
    requires forall d :: d in s.cells ==> CellOk(cfg, s, d)
    ensures forall d :: d in s'.cells && d != c ==> SameCell(s, s', t, d)
    ensures forall p :: p in s'.procs && s'.procs[p].cell != c ==> SameProc(s, s', p)
  {
    forall d | d in s'.cells && d != c
      ensures SameCell(s, s', t, d)
    {
      assert CellOk(cfg, s, d);
    }
    forall p | p in s'.procs && s'.procs[p].cell != c
      ensures SameProc(s, s', p)
    {
      assert p in s.procs;
      assert ProcStep(s, s.procs[p], s'.procs[p], t);
    }
  }

  lemma WorkParts(cfg: Config, s: Pool, s': Pool, t: TaskId, c: CellId)
    requires Inv(cfg, s) && WorksOn(s, s', t, c)
    ensures Globals(cfg, s) && t in s'.tasks && c in s'.cells && forall d :: d in s.cells ==> CellOk(cfg, s, d)
  {
  }

  lemma WorkKeeps(cfg: Config, s: Pool, s': Pool, t: TaskId, c: CellId)
    requires Inv(cfg, s) && WorksOn(s, s', t, c)
    requires TaskOk(cfg, s', t) && CellOk(cfg, s', c)
    requires forall p :: p in s'.procs && s'.procs[p].cell == c ==> ProcOk(cfg, s', p)
    ensures Inv(cfg, s')
  {
    hide Inv, WorksOn, TaskOk, CellOk, ProcOk, Globals, Guar, SameCell, SameProc;
    WorkParts(cfg, s, s', t, c);
    WorkGuar(s, s', t, c);
    WorkGlobals(cfg, s, s', t, c);
    WorkElsewhere(cfg, s, s', t, c);
    Assemble(cfg, s, s', t, {c}, set p | p in s'.procs && s'.procs[p].cell == c);
  }
}
