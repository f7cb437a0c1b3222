/** The steps that work on one cell under its lock. */
module PoolCellSteps {
  import opened Common
  import opened PoolModel
  import opened PoolInvariant
  import opened PoolFrame
  import opened PoolSteps
  import Channel

  // ---- the task's own bookkeeping across such a step ----

  /** The lists the task keeps of entries and reaped processes. */
  ghost predicate Books(s: Pool, t: TaskId)
    requires t in s.tasks
  {
    TaskSlots(s, t) && TaskReaped(s, t)
  }

  ghost predicate NoNewReaped(s: Pool, s': Pool, t: TaskId)
    requires t in s.tasks && t in s'.tasks
  {
    && ReapedBy(s.tasks[t].pc) == {} == ReapedBy(s'.tasks[t].pc)
    && forall p :: p in s'.procs && s'.procs[p].phase == Reaped(t) ==> p in s.procs && s.procs[p].phase == Reaped(t)
  }

  /** A retirement goes on, or a task without the allocation lock moves. */
  ghost predicate SameDuty(pc: Pc, pc': Pc) {
    || (Pending(pc).Some? && Pending(pc') == Pending(pc) && RetiringCell(pc') == RetiringCell(pc))
    || (!HoldsAlloc(pc') && !pc'.SweepIn?)
  }

  lemma BooksKept(s: Pool, s': Pool, t: TaskId, c: CellId)
    requires t in s.tasks && t in s'.tasks && s'.tasks[t].job == s.tasks[t].job && Books(s, t)
    requires s'.slots == s.slots && c in s.cells && s'.cells.Keys == s.cells.Keys
    requires forall d :: d in s.cells ==> s'.cells[d].key == s.cells[d].key
    requires SameDuty(s.tasks[t].pc, s'.tasks[t].pc)
    requires NoNewReaped(s, s', t)
    ensures Books(s', t)
  {
  }

  lemma ShapeKept(s: Pool, s': Pool, t: TaskId)
    requires t in s.tasks && t in s'.tasks && TaskShape(s, t) && s'.procs.Keys >= s.procs.Keys
    requires s'.tasks[t].job == s.tasks[t].job && s'.tasks[t].attempt <= 1
    requires forall p :: p in s.procs ==> s.procs[p].chan.log <= s'.procs[p].chan.log && s.procs[p].askers <= s'.procs[p].askers
    requires PcFits(s.tasks[t].job, s'.tasks[t].pc)
    requires Result(s'.tasks[t].pc) == Result(s.tasks[t].pc) || Result(s'.tasks[t].pc) == None
             || !Result(s'.tasks[t].pc).value.Answered?
    ensures TaskShape(s', t)
  {
  }

  lemma UnsentKept(s: Pool, s': Pool, t: TaskId)
    requires t in s'.tasks && s'.delivered == s.delivered && Unsent(s, t)
    ensures TaskSent(s', t)
  {
  }

  lemma SentKept(s: Pool, s': Pool, t: TaskId)
    requires t in s.tasks && t in s'.tasks && s'.delivered == s.delivered && TaskSent(s, t)
    requires Result(s'.tasks[t].pc).Some?
    ensures TaskSent(s', t)
  {
  }

  /** What a step on cell `c` relies on and has to leave behind. */
  ghost predicate At(cfg: Config, s: Pool, t: TaskId, c: CellId) {
    && t in s.tasks && TaskCell(cfg, s, t)
    && c in s.cells && CellOk(cfg, s, c)
    && forall p :: p in s.procs && s.procs[p].cell == c ==> ProcOk(cfg, s, p)
  }

  /** The step works on `c` alone. */
  ghost predicate Works(s: Pool, s': Pool, t: TaskId, c: CellId) {
    WorksOn(s, s', t, c) && NoNewReaped(s, s', t)
  }

  /** The step replaces the task, cell `c` and process `p`, and nothing else of the state. */
  ghost predicate Swaps(s: Pool, s': Pool, t: TaskId, c: CellId, p: ProcId) {
    && t in s.tasks && c in s.cells
    && t in s'.tasks && s'.tasks == s.tasks[t := s'.tasks[t]]
    && c in s'.cells && s'.cells == s.cells[c := s'.cells[c]]
    && (s'.procs == s.procs || (p in s'.procs && s'.procs == s.procs[p := s'.procs[p]]))
    && s'.slots == s.slots && s'.alloc == s.alloc && s'.mapLock == s.mapLock && s'.clock == s.clock
    && (s'.started == s.started || (p in s'.procs && s'.started == s.started + multiset{p}))
    && (s'.recycled == s.recycled || (p in s'.procs && s'.recycled == s.recycled + multiset{p}))
  }

  ghost predicate SwapOk(s: Pool, s': Pool, t: TaskId, c: CellId, p: ProcId)
    requires Swaps(s, s', t, c, p)
  {
    && CellStep(s.cells[c], s'.cells[c], t)
    && (s.cells[c].lock == None || s.cells[c].lock == Some(t))
    && (HeldCell(s.tasks[t].pc) == None || HeldCell(s.tasks[t].pc) == Some(c))
    && (p in s.procs && p in s'.procs && (s'.procs != s.procs || s'.started != s.started || s'.recycled != s.recycled) ==>
          && s.procs[p].cell == c && ProcStep(s, s.procs[p], s'.procs[p], t)
          && (s'.procs[p].phase.Reaped? ==> s.procs[p].phase == s'.procs[p].phase)
          && (s'.procs[p].phase == s.procs[p].phase ==> s'.started == s.started && s'.recycled == s.recycled))
    && (p !in s.procs && p in s'.procs ==> s'.procs[p].phase == Booting && s'.procs[p].cell == c)
    && (s'.delivered == s.delivered || s'.delivered == s.delivered + {(t, p)})
    && ReapedBy(s.tasks[t].pc) == {} && ReapedBy(s'.tasks[t].pc) == {}
  }

  lemma SwapWorks(s: Pool, s': Pool, t: TaskId, c: CellId, p: ProcId)
    requires Swaps(s, s', t, c, p) && SwapOk(s, s', t, c, p)
    ensures WorksOn(s, s', t, c) && NoNewReaped(s, s', t)
  {
    assert s' == s.(tasks := s'.tasks, cells := s'.cells, procs := s'.procs, delivered := s'.delivered,
                    started := s'.started, recycled := s'.recycled);
    assert AuditStep(s, s');
    assert ProcsOfCell(s, s', t, c);
  }

  /** A cell hosts one process at most. */
  lemma OneProc(cfg: Config, s: Pool, t: TaskId, c: CellId, p: ProcId)
    requires At(cfg, s, t, c) && Owned(s, c, p)
    ensures forall q :: q in s.procs && s.procs[q].cell == c ==> q == p
  {
    forall q | q in s.procs && s.procs[q].cell == c
      ensures q == p
    {
      assert ProcOk(cfg, s, q);
    }
  }

  lemma AtWhere(cfg: Config, s: Pool, t: TaskId, c: CellId)
    requires At(cfg, s, t, c)
    ensures t in s.tasks && c in s.cells
  {
  }

  lemma LockForRetireWorks(cfg: Config, s: Pool, t: TaskId, c: CellId, a: After)
    requires At(cfg, s, t, c) && TaskLocks(s, t) && s.tasks[t].pc == RetWait(c, a) && LockCell(s, t, c, RetClaim(c, a)).Some?
    ensures Works(s, LockCell(s, t, c, RetClaim(c, a)).value, t, c) && TaskLocks(LockCell(s, t, c, RetClaim(c, a)).value, t)
  {
    var s' := LockCell(s, t, c, RetClaim(c, a)).value;
    SwapWorks(s, s', t, c, 0);
  }

  lemma LockForRetireAt(cfg: Config, s: Pool, t: TaskId, c: CellId, a: After)
    requires At(cfg, s, t, c) && TaskLocks(s, t) && s.tasks[t].pc == RetWait(c, a) && LockCell(s, t, c, RetClaim(c, a)).Some?
    ensures At(cfg, LockCell(s, t, c, RetClaim(c, a)).value, t, c)
  {
  }

  lemma LockForRequestWorks(cfg: Config, s: Pool, t: TaskId, c: CellId)
    requires At(cfg, s, t, c) && TaskLocks(s, t) && s.tasks[t].pc == CellWait(c) && LockCell(s, t, c, Inspect(c)).Some?
    ensures Works(s, LockCell(s, t, c, Inspect(c)).value, t, c) && TaskLocks(LockCell(s, t, c, Inspect(c)).value, t)
  {
    var s' := LockCell(s, t, c, Inspect(c)).value;
    SwapWorks(s, s', t, c, 0);
  }

  lemma LockForRequestAt(cfg: Config, s: Pool, t: TaskId, c: CellId)
    requires At(cfg, s, t, c) && TaskLocks(s, t) && s.tasks[t].pc == CellWait(c) && LockCell(s, t, c, Inspect(c)).Some?
    ensures At(cfg, LockCell(s, t, c, Inspect(c)).value, t, c)
  {
  }

  lemma ClaimSlotWorks(cfg: Config, s: Pool, t: TaskId, c: CellId, a: After)
    requires At(cfg, s, t, c) && TaskLocks(s, t) && s.tasks[t].pc == RetClaim(c, a) && ClaimSlot(s, t, c, a).Some?
    ensures Works(s, ClaimSlot(s, t, c, a).value, t, c)
  {
    var s' := ClaimSlot(s, t, c, a).value;
    SwapWorks(s, s', t, c, 0);
  }

  lemma ClaimSlotLocks(cfg: Config, s: Pool, t: TaskId, c: CellId, a: After)
    requires t in s.tasks && TaskLocks(s, t) && s.tasks[t].pc == RetClaim(c, a) && ClaimSlot(s, t, c, a).Some?
    ensures TaskLocks(ClaimSlot(s, t, c, a).value, t)
  {
  }

  lemma ClaimSlotAt(cfg: Config, s: Pool, t: TaskId, c: CellId, a: After)
    requires At(cfg, s, t, c) && TaskLocks(s, t) && s.tasks[t].pc == RetClaim(c, a) && ClaimSlot(s, t, c, a).Some?
    ensures At(cfg, ClaimSlot(s, t, c, a).value, t, c)
  {
  }

  lemma TerminateWorks(cfg: Config, s: Pool, t: TaskId, c: CellId, p: ProcId, a: After)
    requires At(cfg, s, t, c) && TaskLocks(s, t) && s.tasks[t].pc == Kill(c, p, a) && Terminate(s, t, c, p, a).Some?
    ensures Works(s, Terminate(s, t, c, p, a).value, t, c)
  {
    var s' := Terminate(s, t, c, p, a).value;
    SwapWorks(s, s', t, c, p);
  }

  lemma TerminateLocks(cfg: Config, s: Pool, t: TaskId, c: CellId, p: ProcId, a: After)
    requires t in s.tasks && TaskLocks(s, t) && s.tasks[t].pc == Kill(c, p, a) && Terminate(s, t, c, p, a).Some?
    ensures TaskLocks(Terminate(s, t, c, p, a).value, t)
  {
  }

  lemma TerminateAt(cfg: Config, s: Pool, t: TaskId, c: CellId, p: ProcId, a: After)
    requires At(cfg, s, t, c) && TaskLocks(s, t) && s.tasks[t].pc == Kill(c, p, a) && Terminate(s, t, c, p, a).Some?
    ensures At(cfg, Terminate(s, t, c, p, a).value, t, c)
  {
  }

  lemma GraceOverWorks(cfg: Config, s: Pool, t: TaskId, c: CellId, p: ProcId, a: After)
    requires At(cfg, s, t, c) && TaskLocks(s, t) && s.tasks[t].pc == Grace(c, p, a) && GraceOver(s, t, c, p, a).Some?
    ensures Works(s, GraceOver(s, t, c, p, a).value, t, c) && TaskLocks(GraceOver(s, t, c, p, a).value, t)
  {
    var s' := GraceOver(s, t, c, p, a).value;
    SwapWorks(s, s', t, c, p);
  }

  lemma GraceOverAt(cfg: Config, s: Pool, t: TaskId, c: CellId, p: ProcId, a: After)
    requires At(cfg, s, t, c) && TaskLocks(s, t) && s.tasks[t].pc == Grace(c, p, a) && GraceOver(s, t, c, p, a).Some?
    ensures At(cfg, GraceOver(s, t, c, p, a).value, t, c)
  {
  }

  lemma StopCellWorks(cfg: Config, s: Pool, t: TaskId, c: CellId, p: ProcId, a: After)
    requires At(cfg, s, t, c) && TaskLocks(s, t) && s.tasks[t].pc == Settle(c, p, a) && StopCell(s, t, c, p, a).Some?
    ensures Works(s, StopCell(s, t, c, p, a).value, t, c)
  {
    var s' := StopCell(s, t, c, p, a).value;
    SwapWorks(s, s', t, c, p);
  }

  lemma StopCellLocks(cfg: Config, s: Pool, t: TaskId, c: CellId, p: ProcId, a: After)
    requires t in s.tasks && TaskLocks(s, t) && s.tasks[t].pc == Settle(c, p, a) && StopCell(s, t, c, p, a).Some?
    ensures TaskLocks(StopCell(s, t, c, p, a).value, t)
  {
  }

  lemma StopCellAt(cfg: Config, s: Pool, t: TaskId, c: CellId, p: ProcId, a: After)
    requires At(cfg, s, t, c) && TaskLocks(s, t) && s.tasks[t].pc == Settle(c, p, a) && StopCell(s, t, c, p, a).Some?
    ensures At(cfg, StopCell(s, t, c, p, a).value, t, c)
  {
  }

  lemma InspectCellWorks(cfg: Config, s: Pool, t: TaskId, c: CellId)
    requires At(cfg, s, t, c) && TaskLocks(s, t) && s.tasks[t].pc == Inspect(c) && InspectCell(s, t, c).Some?
    ensures Works(s, InspectCell(s, t, c).value, t, c)
  {
    var s' := InspectCell(s, t, c).value;
    SwapWorks(s, s', t, c, 0);
  }

  lemma InspectCellLocks(cfg: Config, s: Pool, t: TaskId, c: CellId)
    requires t in s.tasks && TaskLocks(s, t) && s.tasks[t].pc == Inspect(c) && InspectCell(s, t, c).Some?
    ensures TaskLocks(InspectCell(s, t, c).value, t)
  {
  }

  lemma InspectCellAt(cfg: Config, s: Pool, t: TaskId, c: CellId)
    requires At(cfg, s, t, c) && TaskLocks(s, t) && s.tasks[t].pc == Inspect(c) && InspectCell(s, t, c).Some?
    ensures At(cfg, InspectCell(s, t, c).value, t, c)
  {
  }

  lemma SpawnProcessSwaps(s: Pool, t: TaskId, c: CellId, ch: Choice)
    requires t in s.tasks && c in s.cells && TaskLocks(s, t) && s.tasks[t].pc == Spawn(c) && SpawnProcess(s, t, c, ch).Some?
    ensures var s' := SpawnProcess(s, t, c, ch).value; Swaps(s, s', t, c, if ch.NewProc? then ch.p else 0) && TaskLocks(s', t)
  {
  }

  lemma SpawnProcessSwapOk(cfg: Config, s: Pool, t: TaskId, c: CellId, ch: Choice)
    requires At(cfg, s, t, c) && TaskLocks(s, t) && s.tasks[t].pc == Spawn(c) && SpawnProcess(s, t, c, ch).Some?
    requires Swaps(s, SpawnProcess(s, t, c, ch).value, t, c, if ch.NewProc? then ch.p else 0)
    ensures SwapOk(s, SpawnProcess(s, t, c, ch).value, t, c, if ch.NewProc? then ch.p else 0)
  {
  }

  lemma SpawnProcessWorks(cfg: Config, s: Pool, t: TaskId, c: CellId, ch: Choice)
    requires At(cfg, s, t, c) && TaskLocks(s, t) && s.tasks[t].pc == Spawn(c) && SpawnProcess(s, t, c, ch).Some?
    ensures Works(s, SpawnProcess(s, t, c, ch).value, t, c) && TaskLocks(SpawnProcess(s, t, c, ch).value, t)
  {
    hide At, TaskLocks, SpawnProcess, Swaps, SwapOk;
    AtWhere(cfg, s, t, c);
    SpawnProcessSwaps(s, t, c, ch);
    SpawnProcessSwapOk(cfg, s, t, c, ch);
    SwapWorks(s, SpawnProcess(s, t, c, ch).value, t, c, (if ch.NewProc? then ch.p else 0));
  }

  lemma SpawnProcessAt(cfg: Config, s: Pool, t: TaskId, c: CellId, ch: Choice)
    requires At(cfg, s, t, c) && TaskLocks(s, t) && s.tasks[t].pc == Spawn(c) && SpawnProcess(s, t, c, ch).Some?
    requires forall p :: p !in s.procs ==> s.started[p] == 0 && s.recycled[p] == 0
    ensures At(cfg, SpawnProcess(s, t, c, ch).value, t, c)
  {
  }

  lemma ShakeHandsSwaps(s: Pool, t: TaskId, c: CellId, p: ProcId, ch: Choice)
    requires t in s.tasks && s.tasks[t].pc == Handshake(c, p) && ShakeHands(s, t, c, p, ch).Some?
    ensures Swaps(s, ShakeHands(s, t, c, p, ch).value, t, c, p)
  {
  }

  lemma ShakeHandsSwapOk(cfg: Config, s: Pool, t: TaskId, c: CellId, p: ProcId, ch: Choice)
    requires At(cfg, s, t, c) && TaskLocks(s, t) && s.tasks[t].pc == Handshake(c, p) && ShakeHands(s, t, c, p, ch).Some?
    requires Swaps(s, ShakeHands(s, t, c, p, ch).value, t, c, p)
    ensures SwapOk(s, ShakeHands(s, t, c, p, ch).value, t, c, p)
  {
  }

  lemma ShakeHandsWorks(cfg: Config, s: Pool, t: TaskId, c: CellId, p: ProcId, ch: Choice)
    requires At(cfg, s, t, c) && TaskLocks(s, t) && s.tasks[t].pc == Handshake(c, p) && ShakeHands(s, t, c, p, ch).Some?
    ensures Works(s, ShakeHands(s, t, c, p, ch).value, t, c)
  {
    hide At, TaskLocks, ShakeHands, Swaps, SwapOk;
    AtWhere(cfg, s, t, c);
    ShakeHandsSwaps(s, t, c, p, ch);
    ShakeHandsSwapOk(cfg, s, t, c, p, ch);
    SwapWorks(s, ShakeHands(s, t, c, p, ch).value, t, c, p);
  }

  lemma ShakeHandsLocks(cfg: Config, s: Pool, t: TaskId, c: CellId, p: ProcId, ch: Choice)
    requires t in s.tasks && TaskLocks(s, t) && s.tasks[t].pc == Handshake(c, p) && ShakeHands(s, t, c, p, ch).Some?
    ensures TaskLocks(ShakeHands(s, t, c, p, ch).value, t)
  {
  }

  lemma ShakeHandsFailsCell(cfg: Config, s: Pool, t: TaskId, c: CellId, p: ProcId, ch: Choice)
    requires At(cfg, s, t, c) && TaskLocks(s, t) && s.tasks[t].pc == Handshake(c, p) && ShakeHands(s, t, c, p, ch).Some?
    requires ch.Fail?
    ensures var s' := ShakeHands(s, t, c, p, ch).value; t in s'.tasks && TaskCell(cfg, s', t) && c in s'.cells && CellOk(cfg, s', c)
  {
    hide Channel.Step, Channel.Parse;
  }

  lemma ShakeHandsReadyCell(cfg: Config, s: Pool, t: TaskId, c: CellId, p: ProcId, ch: Choice)
    requires At(cfg, s, t, c) && TaskLocks(s, t) && s.tasks[t].pc == Handshake(c, p) && ShakeHands(s, t, c, p, ch).Some?
    requires !ch.Fail? && ShakeHands(s, t, c, p, ch).value.started != s.started
    ensures var s' := ShakeHands(s, t, c, p, ch).value; t in s'.tasks && TaskCell(cfg, s', t) && c in s'.cells && CellOk(cfg, s', c)
  {
    ReadTurns(s.procs[p].chan);
    hide Channel.Step, Channel.Parse;
  }

  lemma ShakeHandsWaitsCell(cfg: Config, s: Pool, t: TaskId, c: CellId, p: ProcId, ch: Choice)
    requires At(cfg, s, t, c) && TaskLocks(s, t) && s.tasks[t].pc == Handshake(c, p) && ShakeHands(s, t, c, p, ch).Some?
    requires !ch.Fail? && ShakeHands(s, t, c, p, ch).value.started == s.started
    ensures var s' := ShakeHands(s, t, c, p, ch).value; t in s'.tasks && TaskCell(cfg, s', t) && c in s'.cells && CellOk(cfg, s', c)
  {
    ReadTurns(s.procs[p].chan);
    hide Channel.Step, Channel.Parse;
  }

  lemma ShakeHandsCell(cfg: Config, s: Pool, t: TaskId, c: CellId, p: ProcId, ch: Choice)
    requires At(cfg, s, t, c) && TaskLocks(s, t) && s.tasks[t].pc == Handshake(c, p) && ShakeHands(s, t, c, p, ch).Some?
    ensures var s' := ShakeHands(s, t, c, p, ch).value; t in s'.tasks && TaskCell(cfg, s', t) && c in s'.cells && CellOk(cfg, s', c)
  {
    hide ShakeHands, TaskCell, CellOk, TaskLocks;
    if ch.Fail? {
      ShakeHandsFailsCell(cfg, s, t, c, p, ch);
    } else if ShakeHands(s, t, c, p, ch).value.started != s.started {
      ShakeHandsReadyCell(cfg, s, t, c, p, ch);
    } else {
      ShakeHandsWaitsCell(cfg, s, t, c, p, ch);
    }
  }

  lemma ShakeHandsProc(cfg: Config, s: Pool, t: TaskId, c: CellId, p: ProcId, ch: Choice)
    requires At(cfg, s, t, c) && TaskLocks(s, t) && s.tasks[t].pc == Handshake(c, p) && ShakeHands(s, t, c, p, ch).Some?
    ensures var s' := ShakeHands(s, t, c, p, ch).value; p in s'.procs && s'.procs == s.procs[p := s'.procs[p]] && ProcOk(cfg, s', p)
  {
    assert ProcOk(cfg, s, p);
  }

  lemma ShakeHandsProcs(cfg: Config, s: Pool, t: TaskId, c: CellId, p: ProcId, ch: Choice)
    requires At(cfg, s, t, c) && TaskLocks(s, t) && s.tasks[t].pc == Handshake(c, p) && ShakeHands(s, t, c, p, ch).Some?
    ensures var s' := ShakeHands(s, t, c, p, ch).value; forall q :: q in s'.procs && s'.procs[q].cell == c ==> ProcOk(cfg, s', q)
  {
    ShakeHandsProc(cfg, s, t, c, p, ch);
    OneProc(cfg, s, t, c, p);
    hide ProcOk, CellOk, TaskCell, TaskLocks, ShakeHands;
  }

  lemma ShakeHandsAt(cfg: Config, s: Pool, t: TaskId, c: CellId, p: ProcId, ch: Choice)
    requires At(cfg, s, t, c) && TaskLocks(s, t) && s.tasks[t].pc == Handshake(c, p) && ShakeHands(s, t, c, p, ch).Some?
    ensures At(cfg, ShakeHands(s, t, c, p, ch).value, t, c)
  {
    hide TaskLocks, ShakeHands, TaskCell, CellOk, ProcOk;
    ShakeHandsCell(cfg, s, t, c, p, ch);
    ShakeHandsProcs(cfg, s, t, c, p, ch);
  }

  lemma BeginExchangeWorks(cfg: Config, s: Pool, t: TaskId, c: CellId, p: ProcId, ch: Choice)
    requires At(cfg, s, t, c) && TaskLocks(s, t) && s.tasks[t].pc == Begin(c, p) && BeginExchange(s, t, c, p, ch).Some?
    ensures Works(s, BeginExchange(s, t, c, p, ch).value, t, c)
  {
    var s' := BeginExchange(s, t, c, p, ch).value;
    SwapWorks(s, s', t, c, p);
  }

  lemma BeginExchangeLocks(cfg: Config, s: Pool, t: TaskId, c: CellId, p: ProcId, ch: Choice)
    requires t in s.tasks && TaskLocks(s, t) && s.tasks[t].pc == Begin(c, p) && BeginExchange(s, t, c, p, ch).Some?
    ensures TaskLocks(BeginExchange(s, t, c, p, ch).value, t)
  {
  }

  lemma BeginExchangeCell(cfg: Config, s: Pool, t: TaskId, c: CellId, p: ProcId, ch: Choice)
    requires At(cfg, s, t, c) && TaskLocks(s, t) && s.tasks[t].pc == Begin(c, p) && BeginExchange(s, t, c, p, ch).Some?
    ensures var s' := BeginExchange(s, t, c, p, ch).value; t in s'.tasks && TaskCell(cfg, s', t) && c in s'.cells && CellOk(cfg, s', c)
  {
  }

  lemma BeginExchangeProcs(cfg: Config, s: Pool, t: TaskId, c: CellId, p: ProcId, ch: Choice)
    requires At(cfg, s, t, c) && TaskLocks(s, t) && s.tasks[t].pc == Begin(c, p) && BeginExchange(s, t, c, p, ch).Some?
    ensures var s' := BeginExchange(s, t, c, p, ch).value; forall q :: q in s'.procs && s'.procs[q].cell == c ==> ProcOk(cfg, s', q)
  {
  }

  lemma BeginExchangeAt(cfg: Config, s: Pool, t: TaskId, c: CellId, p: ProcId, ch: Choice)
    requires At(cfg, s, t, c) && TaskLocks(s, t) && s.tasks[t].pc == Begin(c, p) && BeginExchange(s, t, c, p, ch).Some?
    ensures At(cfg, BeginExchange(s, t, c, p, ch).value, t, c)
  {
    hide TaskLocks, BeginExchange, TaskCell, CellOk, ProcOk;
    BeginExchangeCell(cfg, s, t, c, p, ch);
    BeginExchangeProcs(cfg, s, t, c, p, ch);
  }

  lemma WriteSomeSwaps(s: Pool, t: TaskId, c: CellId, p: ProcId, n: nat, ch: Choice)
    requires t in s.tasks && c in s.cells && TaskLocks(s, t) && s.tasks[t].pc == Write(c, p, n) && WriteSome(s, t, c, p, n, ch).Some?
    ensures Swaps(s, WriteSome(s, t, c, p, n, ch).value, t, c, p) && TaskLocks(WriteSome(s, t, c, p, n, ch).value, t)
  {
  }

  lemma WriteSomeSwapOk(cfg: Config, s: Pool, t: TaskId, c: CellId, p: ProcId, n: nat, ch: Choice)
    requires At(cfg, s, t, c) && TaskLocks(s, t) && s.tasks[t].pc == Write(c, p, n) && WriteSome(s, t, c, p, n, ch).Some?
    requires Swaps(s, WriteSome(s, t, c, p, n, ch).value, t, c, p)
    ensures SwapOk(s, WriteSome(s, t, c, p, n, ch).value, t, c, p)
  {
  }

  lemma WriteSomeWorks(cfg: Config, s: Pool, t: TaskId, c: CellId, p: ProcId, n: nat, ch: Choice)
    requires At(cfg, s, t, c) && TaskLocks(s, t) && s.tasks[t].pc == Write(c, p, n) && WriteSome(s, t, c, p, n, ch).Some?
    ensures Works(s, WriteSome(s, t, c, p, n, ch).value, t, c) && TaskLocks(WriteSome(s, t, c, p, n, ch).value, t)
  {
    hide At, TaskLocks, WriteSome, Swaps, SwapOk;
    AtWhere(cfg, s, t, c);
    WriteSomeSwaps(s, t, c, p, n, ch);
    WriteSomeSwapOk(cfg, s, t, c, p, n, ch);
    SwapWorks(s, WriteSome(s, t, c, p, n, ch).value, t, c, p);
  }

  lemma WriteSomeCell(cfg: Config, s: Pool, t: TaskId, c: CellId, p: ProcId, n: nat, ch: Choice)
    requires At(cfg, s, t, c) && TaskLocks(s, t) && s.tasks[t].pc == Write(c, p, n) && WriteSome(s, t, c, p, n, ch).Some?
    ensures var s' := WriteSome(s, t, c, p, n, ch).value; t in s'.tasks && TaskCell(cfg, s', t) && c in s'.cells && CellOk(cfg, s', c)
  {
  }

  lemma WriteSomeProcs(cfg: Config, s: Pool, t: TaskId, c: CellId, p: ProcId, n: nat, ch: Choice)
    requires At(cfg, s, t, c) && TaskLocks(s, t) && s.tasks[t].pc == Write(c, p, n) && WriteSome(s, t, c, p, n, ch).Some?
    ensures var s' := WriteSome(s, t, c, p, n, ch).value; forall q :: q in s'.procs && s'.procs[q].cell == c ==> ProcOk(cfg, s', q)
  {
  }

  lemma WriteSomeAt(cfg: Config, s: Pool, t: TaskId, c: CellId, p: ProcId, n: nat, ch: Choice)
    requires At(cfg, s, t, c) && TaskLocks(s, t) && s.tasks[t].pc == Write(c, p, n) && WriteSome(s, t, c, p, n, ch).Some?
    ensures At(cfg, WriteSome(s, t, c, p, n, ch).value, t, c)
  {
    hide TaskLocks, WriteSome, TaskCell, CellOk, ProcOk;
    WriteSomeCell(cfg, s, t, c, p, n, ch);
    WriteSomeProcs(cfg, s, t, c, p, n, ch);
  }

  lemma ReadSomeSwaps(s: Pool, t: TaskId, c: CellId, p: ProcId, ch: Choice)
    requires t in s.tasks && c in s.cells && s.tasks[t].pc == Read(c, p) && ReadSome(s, t, c, p, ch).Some?
    ensures Swaps(s, ReadSome(s, t, c, p, ch).value, t, c, p)
  {
  }

  lemma ReadSomeSwapOk(cfg: Config, s: Pool, t: TaskId, c: CellId, p: ProcId, ch: Choice)
    requires At(cfg, s, t, c) && TaskLocks(s, t) && s.tasks[t].pc == Read(c, p) && ReadSome(s, t, c, p, ch).Some?
    requires Swaps(s, ReadSome(s, t, c, p, ch).value, t, c, p)
    ensures SwapOk(s, ReadSome(s, t, c, p, ch).value, t, c, p)
  {
    ReadIsHeld(cfg, s, t, c, p);
    hide At, TaskLocks;
  }

  lemma ReadIsHeld(cfg: Config, s: Pool, t: TaskId, c: CellId, p: ProcId)
    requires At(cfg, s, t, c) && TaskLocks(s, t) && s.tasks[t].pc == Read(c, p)
    ensures p in s.procs && s.procs[p].cell == c && s.cells[c].lock == Some(t) && s.cells[c].hosted == Some(p)
    ensures s.cells[c].state == Live(p) && !s.procs[p].phase.Reaped?
  {
  }

  lemma ReadSomeWorks(cfg: Config, s: Pool, t: TaskId, c: CellId, p: ProcId, ch: Choice)
    requires At(cfg, s, t, c) && TaskLocks(s, t) && s.tasks[t].pc == Read(c, p) && ReadSome(s, t, c, p, ch).Some?
    ensures Works(s, ReadSome(s, t, c, p, ch).value, t, c)
  {
    hide At, TaskLocks, ReadSome, Swaps, SwapOk;
    AtWhere(cfg, s, t, c);
    ReadSomeSwaps(s, t, c, p, ch);
    ReadSomeSwapOk(cfg, s, t, c, p, ch);
    SwapWorks(s, ReadSome(s, t, c, p, ch).value, t, c, p);
  }

  lemma ReadSomeLocks(cfg: Config, s: Pool, t: TaskId, c: CellId, p: ProcId, ch: Choice)
    requires t in s.tasks && TaskLocks(s, t) && s.tasks[t].pc == Read(c, p) && ReadSome(s, t, c, p, ch).Some?
    ensures TaskLocks(ReadSome(s, t, c, p, ch).value, t)
  {
  }

  /** Reading drops a line, or it closes the open request with an answer. */
  lemma ReadTurns(chan: Channel.State)
    requires Channel.Step(chan, Channel.Read).Some?
    ensures var chan' := Channel.Step(chan, Channel.Read).value;
      && chan'.asked == chan.asked
      && if |chan'.log| == |chan.log| then chan'.open == chan.open && chan'.log == chan.log
         else chan.open && !chan'.open && |chan'.log| == |chan.log| + 1
  {
  }

  ghost predicate ReadsAnswer(s: Pool, p: ProcId) {
    && p in s.procs && Channel.Step(s.procs[p].chan, Channel.Read).Some?
    && |Channel.Step(s.procs[p].chan, Channel.Read).value.log| != |s.procs[p].chan.log|
  }

  lemma ReadDropCell(cfg: Config, s: Pool, t: TaskId, c: CellId, p: ProcId, ch: Choice)
    requires At(cfg, s, t, c) && TaskLocks(s, t) && s.tasks[t].pc == Read(c, p) && ReadSome(s, t, c, p, ch).Some?
    requires !ch.Pick? && !ch.Fail? && !ReadsAnswer(s, p)
    ensures var s' := ReadSome(s, t, c, p, ch).value; t in s'.tasks && TaskCell(cfg, s', t) && c in s'.cells && CellOk(cfg, s', c)
  {
    ReadTurns(s.procs[p].chan);
    hide Channel.Step;
  }

  lemma ReadLateCell(cfg: Config, s: Pool, t: TaskId, c: CellId, p: ProcId, ch: Choice)
    requires At(cfg, s, t, c) && TaskLocks(s, t) && s.tasks[t].pc == Read(c, p) && ReadSome(s, t, c, p, ch).Some?
    requires !ch.Pick? && !ch.Fail? && ReadsAnswer(s, p) && s.procs[p].claim == ByReaper
    ensures var s' := ReadSome(s, t, c, p, ch).value; t in s'.tasks && TaskCell(cfg, s', t) && c in s'.cells && CellOk(cfg, s', c)
  {
    ReadTurns(s.procs[p].chan);
    hide Channel.Step;
  }

  lemma ReadAnswerCell(cfg: Config, s: Pool, t: TaskId, c: CellId, p: ProcId, ch: Choice)
    requires At(cfg, s, t, c) && TaskLocks(s, t) && s.tasks[t].pc == Read(c, p) && ReadSome(s, t, c, p, ch).Some?
    requires !ch.Pick? && !ch.Fail? && ReadsAnswer(s, p) && s.procs[p].claim != ByReaper
    ensures var s' := ReadSome(s, t, c, p, ch).value; t in s'.tasks && TaskCell(cfg, s', t) && c in s'.cells && CellOk(cfg, s', c)
  {
    ReadTurns(s.procs[p].chan);
    hide Channel.Step;
  }

  lemma ReadLineCell(cfg: Config, s: Pool, t: TaskId, c: CellId, p: ProcId, ch: Choice)
    requires At(cfg, s, t, c) && TaskLocks(s, t) && s.tasks[t].pc == Read(c, p) && ReadSome(s, t, c, p, ch).Some?
    requires !ch.Pick? && !ch.Fail?
    ensures var s' := ReadSome(s, t, c, p, ch).value; t in s'.tasks && TaskCell(cfg, s', t) && c in s'.cells && CellOk(cfg, s', c)
  {
    hide ReadSome, TaskCell, CellOk, TaskLocks, At;
    if ReadsAnswer(s, p) && s.procs[p].claim == ByReaper {
      ReadLateCell(cfg, s, t, c, p, ch);
    } else if ReadsAnswer(s, p) {
      ReadAnswerCell(cfg, s, t, c, p, ch);
    } else {
      ReadDropCell(cfg, s, t, c, p, ch);
    }
  }

  lemma ReadLineProc(cfg: Config, s: Pool, t: TaskId, c: CellId, p: ProcId, ch: Choice)
    requires At(cfg, s, t, c) && TaskLocks(s, t) && s.tasks[t].pc == Read(c, p) && ReadSome(s, t, c, p, ch).Some?
    requires !ch.Pick? && !ch.Fail?
    ensures var s' := ReadSome(s, t, c, p, ch).value; p in s'.procs && s'.procs == s.procs[p := s'.procs[p]] && ProcOk(cfg, s', p)
  {
    assert ProcOk(cfg, s, p);
  }

  lemma ReadLineProcs(cfg: Config, s: Pool, t: TaskId, c: CellId, p: ProcId, ch: Choice)
    requires At(cfg, s, t, c) && TaskLocks(s, t) && s.tasks[t].pc == Read(c, p) && ReadSome(s, t, c, p, ch).Some?
    requires !ch.Pick? && !ch.Fail?
    ensures var s' := ReadSome(s, t, c, p, ch).value; forall q :: q in s'.procs && s'.procs[q].cell == c ==> ProcOk(cfg, s', q)
  {
    ReadLineProc(cfg, s, t, c, p, ch);
    OneProc(cfg, s, t, c, p);
    hide ProcOk, CellOk, TaskCell, TaskLocks, ReadSome;
  }

  lemma ReadLineAt(cfg: Config, s: Pool, t: TaskId, c: CellId, p: ProcId, ch: Choice)
    requires At(cfg, s, t, c) && TaskLocks(s, t) && s.tasks[t].pc == Read(c, p) && ReadSome(s, t, c, p, ch).Some?
    requires !ch.Pick? && !ch.Fail?
    ensures At(cfg, ReadSome(s, t, c, p, ch).value, t, c)
  {
    hide TaskLocks, ReadSome, TaskCell, CellOk, ProcOk;
    ReadLineCell(cfg, s, t, c, p, ch);
    ReadLineProcs(cfg, s, t, c, p, ch);
  }

  lemma ReadEndsAt(cfg: Config, s: Pool, t: TaskId, c: CellId, p: ProcId, ch: Choice)
    requires At(cfg, s, t, c) && TaskLocks(s, t) && s.tasks[t].pc == Read(c, p) && ReadSome(s, t, c, p, ch).Some?
    requires ch.Pick? || ch.Fail?
    ensures At(cfg, ReadSome(s, t, c, p, ch).value, t, c)
  {
  }

  lemma SettledWorks(cfg: Config, s: Pool, t: TaskId, c: CellId, p: ProcId, o: Outcome)
    requires At(cfg, s, t, c) && TaskLocks(s, t) && s.tasks[t].pc == Reply(c, p, o) && Settled(cfg, s, t, c, p, o).Some?
    ensures Works(s, Settled(cfg, s, t, c, p, o).value, t, c) && TaskLocks(Settled(cfg, s, t, c, p, o).value, t)
  {
    var s' := Settled(cfg, s, t, c, p, o).value;
    SwapWorks(s, s', t, c, p);
  }

  lemma SettledAt(cfg: Config, s: Pool, t: TaskId, c: CellId, p: ProcId, o: Outcome)
    requires At(cfg, s, t, c) && TaskLocks(s, t) && s.tasks[t].pc == Reply(c, p, o) && Settled(cfg, s, t, c, p, o).Some?
    ensures At(cfg, Settled(cfg, s, t, c, p, o).value, t, c)
  {
  }
}
