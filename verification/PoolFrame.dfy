/** What one task's step may do to the others, and why their invariants stand. */
module PoolFrame {
  import opened Common
  import opened PoolModel
  import opened PoolInvariant
  import Channel

  ghost predicate OwnLock(before: Option<TaskId>, after: Option<TaskId>, t: TaskId) {
    before == after || ((before == None || before == Some(t)) && (after == None || after == Some(t)))
  }

  /** Only the holder of a cell changes it, and `Stopped` is for good. */
  ghost predicate CellStep(before: Cell, after: Cell, t: TaskId) {
    && before.key == after.key
    && OwnLock(before.lock, after.lock, t)
    && (before == after || before.lock == None || before.lock == Some(t))
    && (before.state == Stopped ==> after.state == Stopped)
    && (before.hosted.Some? ==> after.hosted == before.hosted)
  }

  /** Only the holder of a process's cell changes it, until the cell is stopped. */
  ghost predicate ProcStep(s: Pool, before: Proc, after: Proc, t: TaskId) {
    && before.cell == after.cell
    && before.chan.log <= after.chan.log
    && before.askers <= after.askers
    && (before == after || before.cell !in s.cells || s.cells[before.cell].state == Stopped
        || s.cells[before.cell].lock == None || s.cells[before.cell].lock == Some(t))
    && (after.phase.Reaped? && after.phase.sweeper != t ==> after.phase == before.phase)
    && (before.phase.Reaped? && before.phase.sweeper != t ==> after.phase == before.phase)
  }

  ghost predicate SlotsStep(s: Pool, s': Pool, t: TaskId) {
    && (s.slots == s'.slots || s.mapLock == Some(t))
    && (s'.slots.Keys <= s.slots.Keys || s.alloc == Some(t))
    && (forall k :: k in s.slots && k in s'.slots ==> s'.slots[k].cell == s.slots[k].cell)
    && (forall k :: k in s.slots && k !in s'.slots && s.slots[k].cell in s'.cells ==>
          s'.cells[s.slots[k].cell].state == Stopped)
  }

  ghost predicate AuditStep(s: Pool, s': Pool) {
    forall p :: p in s.procs && p in s'.procs && s'.procs[p].phase == s.procs[p].phase ==>
      s'.started[p] == s.started[p] && s'.recycled[p] == s.recycled[p]
  }

  ghost predicate TasksStep(s: Pool, s': Pool, t: TaskId) {
    && s'.tasks.Keys == s.tasks.Keys
    && t in s.tasks
    && (forall u :: u in s.tasks && u != t ==> s'.tasks[u] == s.tasks[u])
    && OwnLock(s.alloc, s'.alloc, t) && OwnLock(s.mapLock, s'.mapLock, t)
  }

  ghost predicate CellsStep(s: Pool, s': Pool, t: TaskId) {
    && s.cells.Keys <= s'.cells.Keys
    && (forall c :: c in s.cells ==> CellStep(s.cells[c], s'.cells[c], t))
  }

  ghost predicate ProcsStep(s: Pool, s': Pool, t: TaskId) {
    && s.procs.Keys <= s'.procs.Keys
    && (forall p :: p in s.procs ==> ProcStep(s, s.procs[p], s'.procs[p], t))
    && (forall p :: p in s'.procs && p !in s.procs ==> s'.procs[p].phase == Booting)
  }

  ghost predicate SentStep(s: Pool, s': Pool, t: TaskId) {
    && s.delivered <= s'.delivered
    && (forall d :: d in s'.delivered ==> d in s.delivered || d.0 == t)
  }

  ghost predicate Guar(s: Pool, s': Pool, t: TaskId) {
    && TasksStep(s, s', t) && CellsStep(s, s', t) && ProcsStep(s, s', t)
    && SlotsStep(s, s', t) && SentStep(s, s', t) && AuditStep(s, s')
  }

  lemma SmallerCount(slots: map<SlotKey, Entry>, slots': map<SlotKey, Entry>, a: string)
    requires slots'.Keys <= slots.Keys
    ensures AgentKeys(slots', a) <= AgentKeys(slots, a)
    ensures |AgentKeys(slots', a)| <= |AgentKeys(slots, a)|
    ensures forall k :: k in slots && k !in slots' && k.agent == a ==> |AgentKeys(slots', a)| < |AgentKeys(slots, a)|
  {
    var before, after := AgentKeys(slots, a), AgentKeys(slots', a);
    SubsetCard(after, before);
    forall k | k in slots && k !in slots' && k.agent == a
      ensures |after| < |before|
    {
      SubsetCard(after, before - {k});
    }
  }

  lemma {:induction false} SubsetCard<T>(a: set<T>, b: set<T>)
    requires a <= b
    ensures |a| <= |b|
    decreases |a|
  {
    if a != {} {
      var x :| x in a;
      SubsetCard(a - {x}, b - {x});
    }
  }

  // ---- another task ----

  lemma OtherLocks(s: Pool, s': Pool, t: TaskId, u: TaskId)
    requires TasksStep(s, s', t) && CellsStep(s, s', t) && u in s.tasks && u != t && TaskLocks(s, u)
    ensures TaskLocks(s', u)
  {
  }

  lemma OtherShape(s: Pool, s': Pool, t: TaskId, u: TaskId)
    requires TasksStep(s, s', t) && ProcsStep(s, s', t) && u in s.tasks && u != t && TaskShape(s, u)
    ensures TaskShape(s', u)
  {
    var r := Result(s.tasks[u].pc);
    if r.Some? && r.value.Answered? {
      assert ProcStep(s, s.procs[r.value.p], s'.procs[r.value.p], t);
    }
  }

  lemma OtherSent(s: Pool, s': Pool, t: TaskId, u: TaskId)
    requires TasksStep(s, s', t) && SentStep(s, s', t) && u in s.tasks && u != t && TaskSent(s, u)
    ensures TaskSent(s', u)
  {
    assert forall q :: (u, q) in s'.delivered ==> (u, q) in s.delivered;
  }

  lemma OtherReaped(s: Pool, s': Pool, t: TaskId, u: TaskId)
    requires TasksStep(s, s', t) && ProcsStep(s, s', t) && u in s.tasks && u != t && TaskReaped(s, u)
    ensures TaskReaped(s', u)
  {
    forall p | p in s.procs
      ensures s'.procs[p].phase == Reaped(u) <==> s.procs[p].phase == Reaped(u)
    {
      assert ProcStep(s, s.procs[p], s'.procs[p], t);
    }
  }

  /** The cell a task holds, and the process in it, are out of reach of the others. */
  lemma HeldUnchanged(s: Pool, s': Pool, t: TaskId, u: TaskId)
    requires TasksStep(s, s', t) && CellsStep(s, s', t) && ProcsStep(s, s', t)
    requires u in s.tasks && u != t && TaskLocks(s, u) && HeldCell(s.tasks[u].pc).Some?
    ensures var c := HeldCell(s.tasks[u].pc).value;
      && c in s.cells && c in s'.cells && s'.cells[c] == s.cells[c]
      && forall p :: p in s.procs && s.procs[p].cell == c && s.cells[c].state != Stopped ==>
           p in s'.procs && s'.procs[p] == s.procs[p]
  {
    var c := HeldCell(s.tasks[u].pc).value;
    assert CellStep(s.cells[c], s'.cells[c], t);
    forall p | p in s.procs && s.procs[p].cell == c && s.cells[c].state != Stopped
      ensures p in s'.procs && s'.procs[p] == s.procs[p]
    {
      assert ProcStep(s, s.procs[p], s'.procs[p], t);
    }
  }

  lemma OtherCell(cfg: Config, s: Pool, s': Pool, t: TaskId, u: TaskId)
    requires TasksStep(s, s', t) && CellsStep(s, s', t) && ProcsStep(s, s', t)
    requires u in s.tasks && u != t && TaskLocks(s, u) && TaskCell(cfg, s, u)
    ensures TaskCell(cfg, s', u)
  {
    var pc := s.tasks[u].pc;
    if HeldCell(pc).Some? {
      HeldUnchanged(s, s', t, u);
    } else if pc.RetWait? || pc.CellWait? || pc.ForgetWait? || pc.ForgetIn? {
      assert CellStep(s.cells[pc.c], s'.cells[pc.c], t);
    }
  }

  lemma OtherSlots(s: Pool, s': Pool, t: TaskId, u: TaskId)
    requires TasksStep(s, s', t) && CellsStep(s, s', t) && SlotsStep(s, s', t)
    requires u in s.tasks && u != t && TaskLocks(s, u) && TaskSlots(s, u)
    ensures TaskSlots(s', u)
  {
    var pc := s.tasks[u].pc;
    var job := s.tasks[u].job;
    if HoldsAlloc(pc) {
      assert s'.slots.Keys <= s.slots.Keys;
      if job.Request? {
        SmallerCount(s.slots, s'.slots, job.key.agent);
        if Pending(pc).Some? && Pending(pc).value.EvictAgain? {
          var c := RetiringCell(pc);
          assert CellStep(s.cells[c], s'.cells[c], t);
        }
      }
    }
  }

  lemma OtherTask(cfg: Config, s: Pool, s': Pool, t: TaskId, u: TaskId)
    requires Guar(s, s', t) && u in s.tasks && u != t && TaskOk(cfg, s, u)
    ensures TaskOk(cfg, s', u)
  {
    OtherLocks(s, s', t, u);
    OtherShape(s, s', t, u);
    OtherSent(s, s', t, u);
    OtherReaped(s, s', t, u);
    OtherCell(cfg, s, s', t, u);
    OtherSlots(s, s', t, u);
  }

  // ---- cells and processes the step does not touch ----

  ghost predicate SameCell(s: Pool, s': Pool, t: TaskId, c: CellId) {
    && c in s.cells && c in s'.cells && s'.cells[c] == s.cells[c] && s.cells[c].lock != Some(t)
    && (s.cells[c].state != Stopped && s.cells[c].hosted.Some?
          && s.cells[c].hosted.value in s.procs && s.cells[c].hosted.value in s'.procs ==>
          s'.procs[s.cells[c].hosted.value] == s.procs[s.cells[c].hosted.value])
  }

  lemma UntouchedCell(cfg: Config, s: Pool, s': Pool, t: TaskId, c: CellId)
    requires TasksStep(s, s', t) && SlotsStep(s, s', t) && ProcsStep(s, s', t) && SameCell(s, s', t, c)
    requires CellOk(cfg, s, c)
    ensures CellOk(cfg, s', c)
  {
  }

  ghost predicate SameProc(s: Pool, s': Pool, p: ProcId) {
    && p in s.procs && p in s'.procs && s'.procs[p] == s.procs[p]
    && (s.procs[p].cell in s.cells && s.procs[p].cell in s'.cells ==>
          s'.cells[s.procs[p].cell].state == s.cells[s.procs[p].cell].state)
  }

  lemma UntouchedProc(cfg: Config, s: Pool, s': Pool, t: TaskId, p: ProcId)
    requires TasksStep(s, s', t) && CellsStep(s, s', t) && AuditStep(s, s') && SameProc(s, s', p)
    requires ProcOk(cfg, s, p)
    ensures ProcOk(cfg, s', p)
  {
    assert CellStep(s.cells[s.procs[p].cell], s'.cells[s.procs[p].cell], t);
  }

  /** The parts of the invariant that a step of `t` on cells `cs` and processes `ps` can disturb. */
  lemma Assemble(cfg: Config, s: Pool, s': Pool, t: TaskId, cs: set<CellId>, ps: set<ProcId>)
    requires Inv(cfg, s) && Guar(s, s', t) && Globals(cfg, s') && TaskOk(cfg, s', t)
    requires forall c :: c in s'.cells ==> if c in cs then CellOk(cfg, s', c) else SameCell(s, s', t, c)
    requires forall p :: p in s'.procs ==> if p in ps then ProcOk(cfg, s', p) else SameProc(s, s', p)
    ensures Inv(cfg, s')
  {
    forall u | u in s'.tasks
      ensures TaskOk(cfg, s', u)
    {
      if u != t {
        OtherTask(cfg, s, s', t, u);
      }
    }
    forall c | c in s'.cells
      ensures CellOk(cfg, s', c)
    {
      if c !in cs {
        UntouchedCell(cfg, s, s', t, c);
      }
    }
    forall p | p in s'.procs
      ensures ProcOk(cfg, s', p)
    {
      if p !in ps {
        UntouchedProc(cfg, s, s', t, p);
      }
    }
  }
}
