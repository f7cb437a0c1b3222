/** What holds in every reachable state of the pool. */
module PoolInvariant {
  import opened Common
  import opened PoolModel
  import Channel

  // ---- locks ----

  function HeldCell(pc: Pc): Option<CellId> {
    match pc
    case RetClaim(c, _) => Some(c)
    case Kill(c, _, _) => Some(c)
    case Grace(c, _, _) => Some(c)
    case Settle(c, _, _) => Some(c)
    case Inspect(c) => Some(c)
    case Spawn(c) => Some(c)
    case Handshake(c, _) => Some(c)
    case Begin(c, _) => Some(c)
    case Write(c, _, _) => Some(c)
    case Read(c, _) => Some(c)
    case Reply(c, _, _) => Some(c)
    case _ => None
  }

  ghost predicate HoldsMap(pc: Pc) {
    pc.InMap? || pc.Room? || pc.ForgetIn? || pc.TouchIn? || pc.DrainIn? || pc.SweepIn?
  }

  /** What the task does once its present retirement is over. */
  function Pending(pc: Pc): Option<After> {
    match pc
    case RetWait(_, a) => Some(a)
    case RetClaim(_, a) => Some(a)
    case Kill(_, _, a) => Some(a)
    case Grace(_, _, a) => Some(a)
    case Settle(_, _, a) => Some(a)
    case ForgetWait(_, a) => Some(a)
    case ForgetIn(_, a) => Some(a)
    case _ => None
  }

  ghost predicate UnderAlloc(after: After) {
    after.EvictAgain? || after.NextVictim?
  }

  ghost predicate HoldsAlloc(pc: Pc) {
    || pc.WantMap? || pc.InMap? || pc.Room? || pc.DrainWait? || pc.DrainIn? || pc.DrainLoop?
    || (Pending(pc).Some? && UnderAlloc(Pending(pc).value))
  }

  ghost predicate TaskLocks(s: Pool, t: TaskId)
    requires t in s.tasks
  {
    var pc := s.tasks[t].pc;
    && (HoldsAlloc(pc) <==> s.alloc == Some(t))
    && (HoldsMap(pc) <==> s.mapLock == Some(t))
    && (HeldCell(pc).Some? ==> HeldCell(pc).value in s.cells && s.cells[HeldCell(pc).value].lock == Some(t))
  }

  ghost predicate CellLock(s: Pool, c: CellId)
    requires c in s.cells
  {
    s.cells[c].lock.Some? ==>
      s.cells[c].lock.value in s.tasks && HeldCell(s.tasks[s.cells[c].lock.value].pc) == Some(c)
  }

  // ---- instances ----

  ghost predicate QuotaLeft(cfg: Config, s: Pool, p: ProcId)
    requires p in s.procs && s.procs[p].cell in s.cells
  {
    var quota := cfg.maxInvocations(s.cells[s.procs[p].cell].key.agent);
    quota > 0 ==> |s.procs[p].chan.log| < quota
  }

  ghost predicate WithinQuota(cfg: Config, s: Pool, p: ProcId)
    requires p in s.procs && s.procs[p].cell in s.cells
  {
    var quota := cfg.maxInvocations(s.cells[s.procs[p].cell].key.agent);
    quota > 0 ==> |s.procs[p].chan.log| <= quota
  }

  /** `c` is the cell that `p` was spawned for. */
  ghost predicate Owned(s: Pool, c: CellId, p: ProcId) {
    c in s.cells && p in s.procs && s.cells[c].hosted == Some(p) && s.procs[p].cell == c
  }

  /** Every request the instance was sent has its answer, and it may take another. */
  ghost predicate Idle(cfg: Config, s: Pool, c: CellId, p: ProcId) {
    Owned(s, c, p) && !s.procs[p].chan.open && QuotaLeft(cfg, s, p)
  }

  /** The request of `t` is the one in flight. */
  ghost predicate Asking(cfg: Config, s: Pool, t: TaskId, c: CellId, p: ProcId) {
    && Owned(s, c, p) && s.cells[c].state == Live(p) && QuotaLeft(cfg, s, p)
    && s.procs[p].chan.open && |s.procs[p].askers| == s.procs[p].chan.asked > 0
    && s.procs[p].askers[s.procs[p].chan.asked - 1] == t
  }

  /** What a task finds in a cell whose lock it just took. */
  ghost predicate Acquired(cfg: Config, s: Pool, c: CellId)
    requires c in s.cells
  {
    match s.cells[c].state
    case Starting => s.cells[c].hosted == None
    case Live(p) => Idle(cfg, s, c, p)
    case Retiring => false
    case Stopped => true
  }

  ghost predicate OutcomeOk(s: Pool, t: TaskId, o: Outcome) {
    o.Answered? ==>
      && o.p in s.procs
      && 1 <= o.id <= |s.procs[o.p].chan.log| && o.id <= |s.procs[o.p].askers|
      && s.procs[o.p].chan.log[o.id - 1] == Channel.Answer(o.id, o.item)
      && s.procs[o.p].askers[o.id - 1] == t
  }

  ghost predicate TaskCell(cfg: Config, s: Pool, t: TaskId)
    requires t in s.tasks
  {
    match s.tasks[t].pc
    case RetWait(c, _) => c in s.cells
    case CellWait(c) => c in s.cells
    case RetClaim(c, _) => c in s.cells && Acquired(cfg, s, c)
    case Inspect(c) => c in s.cells && Acquired(cfg, s, c)
    case Kill(c, p, _) => Owned(s, c, p) && Leaving(s, c) && s.procs[p].claim != ByPool
    case Grace(c, p, _) => Owned(s, c, p) && Leaving(s, c) && s.procs[p].claim == ByPool
    case Settle(c, p, _) => Owned(s, c, p) && Leaving(s, c) && (s.procs[p].alive ==> s.procs[p].claim == ByReaper)
    case ForgetWait(c, _) => c in s.cells && s.cells[c].state == Stopped
    case ForgetIn(c, _) => c in s.cells && s.cells[c].state == Stopped
    case Spawn(c) => c in s.cells && s.cells[c].state == Starting && s.cells[c].hosted == None
    case Handshake(c, p) =>
      Owned(s, c, p) && s.cells[c].state == Starting && s.procs[p].claim != ByPool && s.procs[p].chan.asked == 0
    case Begin(c, p) => Idle(cfg, s, c, p) && s.cells[c].state == Live(p)
    case Write(c, p, n) => Asking(cfg, s, t, c, p)
    case Read(c, p) => Asking(cfg, s, t, c, p)
    case Reply(c, p, o) =>
      && Owned(s, c, p) && s.cells[c].state == Live(p) && !s.procs[p].chan.open && o.Answered? && o.p == p
    case _ => true
  }

  /** A cell on its way to `Stopped`. */
  ghost predicate Leaving(s: Pool, c: CellId)
    requires c in s.cells
  {
    s.cells[c].state == Starting || s.cells[c].state == Retiring
  }

  // ---- the shape of a task's own state ----

  ghost predicate AfterFits(job: Job, after: After) {
    match after
    case NextVictim(_) => job.Drain?
    case _ => job.Request?
  }

  ghost predicate PcFits(job: Job, pc: Pc) {
    match pc
    case WantAlloc => !job.Sweep?
    case DrainWait => job.Drain?
    case DrainIn => job.Drain?
    case DrainLoop(_) => job.Drain?
    case SweepWait => job.Sweep?
    case SweepIn(_, _) => job.Sweep?
    case SweepAudit(_) => job.Sweep?
    case Done(_) => true
    case Write(_, _, n) => job.Request? && n <= job.size
    case _ => if Pending(pc).Some? then AfterFits(job, Pending(pc).value) else job.Request?
  }

  function Result(pc: Pc): Option<Outcome> {
    match pc
    case TouchWait(o) => Some(o)
    case TouchIn(o) => Some(o)
    case Reply(_, _, o) => Some(o)
    case Done(o) => Some(o)
    case _ => if Pending(pc).Some? && Pending(pc).value.Finish? then Some(Pending(pc).value.o) else None
  }

  ghost predicate TaskShape(s: Pool, t: TaskId)
    requires t in s.tasks
  {
    var task := s.tasks[t];
    && task.attempt <= 1
    && (task.job.Request? ==> task.job.size > 0)
    && PcFits(task.job, task.pc)
    && (Result(task.pc).Some? ==> OutcomeOk(s, t, Result(task.pc).value))
  }

  // ---- delivery ----

  /** Nothing of the request has reached any process. */
  ghost predicate Unsent(s: Pool, t: TaskId) {
    forall q :: (t, q) !in s.delivered
  }

  ghost predicate SentOnlyTo(s: Pool, t: TaskId, p: ProcId) {
    forall q :: (t, q) in s.delivered ==> q == p
  }

  ghost predicate SentOnce(s: Pool, t: TaskId) {
    forall q, r :: (t, q) in s.delivered && (t, r) in s.delivered ==> q == r
  }

  ghost predicate TaskSent(s: Pool, t: TaskId)
    requires t in s.tasks
  {
    match s.tasks[t].pc
    case Write(_, p, n) => if n == 0 then Unsent(s, t) else SentOnlyTo(s, t, p)
    case Read(_, p) => SentOnlyTo(s, t, p)
    case pc => if Result(pc).Some? then SentOnce(s, t) else Unsent(s, t)
  }

  // ---- the map, under the allocation lock ----

  /** The victim leaves the map before the task counts again. */
  ghost predicate Evicting(s: Pool, agent: string, c: CellId, bound: nat) {
    && c in s.cells
    && s.cells[c].key.agent == agent
    && if s.cells[c].key in s.slots then s.slots[s.cells[c].key].cell == c && |AgentKeys(s.slots, agent)| <= bound
       else |AgentKeys(s.slots, agent)| < bound
  }

  /** Every entry the drain has to remove is still ahead of it. */
  ghost predicate Covers(s: Pool, scope: Option<string>, cells: set<CellId>) {
    && cells <= s.cells.Keys
    && forall k :: k in s.slots && InScope(scope, k) ==> s.slots[k].cell in cells
  }

  ghost predicate Counted(s: Pool, job: Job, bound: Option<nat>) {
    job.Request? && bound.Some? ==> |AgentKeys(s.slots, job.key.agent)| < bound.value
  }

  function RetiringCell(pc: Pc): CellId {
    match pc
    case RetWait(c, _) => c
    case RetClaim(c, _) => c
    case Kill(c, _, _) => c
    case Grace(c, _, _) => c
    case Settle(c, _, _) => c
    case ForgetWait(c, _) => c
    case ForgetIn(c, _) => c
    case _ => 0
  }

  ghost predicate TaskSlots(s: Pool, t: TaskId)
    requires t in s.tasks
  {
    var job := s.tasks[t].job;
    match s.tasks[t].pc
    case WantMap(b) => Counted(s, job, b)
    case InMap(b) => Counted(s, job, b)
    case Room(b) => Counted(s, job, b) && (job.Request? ==> job.key !in s.slots)
    case DrainLoop(rest) => job.Drain? ==> Covers(s, job.scope, rest)
    case SweepIn(todo, _) => todo <= s.slots.Keys
    case pc =>
      if Pending(pc).None? then true
      else match Pending(pc).value
        case EvictAgain(b) => job.Request? ==> Evicting(s, job.key.agent, RetiringCell(pc), b)
        case NextVictim(rest) => job.Drain? ==> Covers(s, job.scope, rest + {RetiringCell(pc)})
        case _ => true
  }

  function ReapedBy(pc: Pc): set<ProcId> {
    match pc
    case SweepIn(_, reaped) => reaped
    case SweepAudit(reaped) => reaped
    case _ => {}
  }

  ghost predicate TaskReaped(s: Pool, t: TaskId)
    requires t in s.tasks
  {
    && (forall p :: p in ReapedBy(s.tasks[t].pc) ==> p in s.procs && s.procs[p].phase == Reaped(t))
    && (forall p :: p in s.procs && s.procs[p].phase == Reaped(t) ==> p in ReapedBy(s.tasks[t].pc))
  }

  // ---- the whole ----

  ghost predicate TaskOk(cfg: Config, s: Pool, t: TaskId)
    requires t in s.tasks
  {
    && TaskLocks(s, t) && TaskShape(s, t) && TaskCell(cfg, s, t)
    && TaskSent(s, t) && TaskSlots(s, t) && TaskReaped(s, t)
  }

  ghost predicate IsCurrent(s: Pool, c: CellId)
    requires c in s.cells
  {
    s.cells[c].key in s.slots && s.slots[s.cells[c].key].cell == c
  }

  ghost predicate CellOk(cfg: Config, s: Pool, c: CellId)
    requires c in s.cells
  {
    var cell := s.cells[c];
    && CellLock(s, c)
    && (cell.state != Stopped ==> IsCurrent(s, c))
    && (cell.state.Live? ==> cell.hosted == Some(cell.state.p))
    && (cell.state == Retiring ==> cell.hosted.Some?)
    && (cell.hosted.Some? ==> Owned(s, c, cell.hosted.value))
    && (cell.lock == None ==> Acquired(cfg, s, c))
  }

  /** The phase of a process, read off its cell. */
  ghost predicate PhaseFits(s: Pool, p: ProcId)
    requires p in s.procs && s.procs[p].cell in s.cells
  {
    match s.cells[s.procs[p].cell].state
    case Starting => s.procs[p].phase == Booting
    case Live(_) => s.procs[p].phase == Serving && s.procs[p].claim != ByPool
    case Retiring => s.procs[p].phase == Serving
    case Stopped => s.procs[p].phase != Booting && s.procs[p].phase != Serving
  }

  /** At most one request is in flight, and every earlier one has its answer. */
  ghost predicate Ledger(pr: Proc) {
    |pr.askers| == pr.chan.asked == |pr.chan.log| + (if pr.chan.open then 1 else 0)
  }

  ghost predicate ProcOk(cfg: Config, s: Pool, p: ProcId)
    requires p in s.procs
  {
    var pr := s.procs[p];
    && Owned(s, pr.cell, p)
    && (pr.alive && pr.claim != ByReaper ==> s.cells[pr.cell].state != Stopped)
    && PhaseFits(s, p)
    && (pr.phase.Reaped? ==> pr.phase.sweeper in s.tasks)
    && Ledger(pr)
    && WithinQuota(cfg, s, p)
    && s.started[p] == (if pr.phase == Booting || pr.phase == Aborted then 0 else 1)
    && s.recycled[p] == (if pr.phase == Recycled then 1 else 0)
  }

  ghost predicate SlotOk(s: Pool, k: SlotKey)
    requires k in s.slots
  {
    s.slots[k].cell in s.cells && s.cells[s.slots[k].cell].key == k
  }

  ghost predicate Globals(cfg: Config, s: Pool) {
    && (forall k :: k in s.slots ==> SlotOk(s, k))
    && (forall a: string :: |AgentKeys(s.slots, a)| <= cfg.maxInstances(a))
    && (s.alloc.Some? ==> s.alloc.value in s.tasks)
    && (s.mapLock.Some? ==> s.mapLock.value in s.tasks)
    && (forall d :: d in s.delivered ==> d.0 in s.tasks)
    && (forall p :: p !in s.procs ==> s.started[p] == 0 && s.recycled[p] == 0)
  }

  ghost predicate Inv(cfg: Config, s: Pool) {
    && Globals(cfg, s)
    && (forall t :: t in s.tasks ==> TaskOk(cfg, s, t))
    && (forall c :: c in s.cells ==> CellOk(cfg, s, c))
    && (forall p :: p in s.procs ==> ProcOk(cfg, s, p))
  }
}
