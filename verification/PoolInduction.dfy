/** Every step of the pool keeps the invariant, and so does every run. */
module PoolInduction {
  import opened Common
  import opened PoolModel
  import opened PoolInvariant
  import opened PoolFrame
  import opened PoolSteps
  import opened PoolCellSteps
  import opened PoolTaskSteps
  import opened PoolMapSteps
  import Channel

  // ---- steps on one cell ----

  lemma Ready(cfg: Config, s: Pool, t: TaskId, c: CellId)
    requires Inv(cfg, s) && t in s.tasks && WorkCell(s.tasks[t].pc) == Some(c)
    ensures TaskLocks(s, t) && Rest(s, t) && At(cfg, s, t, c)
    ensures forall p :: p !in s.procs ==> s.started[p] == 0 && s.recycled[p] == 0
  {
    assert TaskOk(cfg, s, t);
    assert CellOk(cfg, s, c);
  }

  /** The cell the task waits for or works on. */
  function WorkCell(pc: Pc): Option<CellId> {
    if pc.CellWait? then Some(pc.c) else if Pending(pc).Some? then Some(RetiringCell(pc)) else HeldCell(pc)
  }

  /** How a request that has written nothing moves on. */
  ghost predicate EarlyMove(s: Pool, s': Pool, t: TaskId) {
    && t in s.tasks && t in s'.tasks && s.tasks[t].job.Request? && Unsent(s, t)
    && s'.delivered == s.delivered
    && s'.tasks[t].job == s.tasks[t].job && s'.tasks[t].attempt <= 1
    && var pc := s'.tasks[t].pc;
       || pc.WantAlloc? || pc.Inspect? || pc.Spawn? || pc.Handshake? || pc.Begin? || (pc.Write? && pc.n == 0)
       || pc == Done(DiedTwice)
       || (pc.Kill? && (pc.after == Retry || pc.after == Finish(SpawnFailed)))
       || (pc.ForgetWait? && pc.after == Finish(SpawnFailed))
  }

  lemma EarlyRest(s: Pool, s': Pool, t: TaskId, c: CellId)
    requires t in s.tasks && Rest(s, t) && Works(s, s', t, c) && EarlyMove(s, s', t)
    ensures Rest(s', t)
  {
    UnsentRest(s, s', t, c);
  }

  ghost predicate EarlyPc(pc: Pc) {
    pc.CellWait? || pc.Inspect? || pc.Spawn? || pc.Handshake? || pc.Begin?
  }

  lemma EarlyUnsent(s: Pool, t: TaskId)
    requires t in s.tasks && EarlyPc(s.tasks[t].pc) && Rest(s, t)
    ensures Unsent(s, t) && s.tasks[t].job.Request? && s.tasks[t].attempt <= 1
  {
  }

  lemma ShakeHandsEarly(s: Pool, t: TaskId, c: CellId, p: ProcId, ch: Choice)
    requires t in s.tasks && s.tasks[t].pc == Handshake(c, p) && ShakeHands(s, t, c, p, ch).Some?
    requires Unsent(s, t) && s.tasks[t].job.Request? && s.tasks[t].attempt <= 1
    ensures EarlyMove(s, ShakeHands(s, t, c, p, ch).value, t)
  {
  }

  lemma BeginExchangeEarly(s: Pool, t: TaskId, c: CellId, p: ProcId, ch: Choice)
    requires t in s.tasks && s.tasks[t].pc == Begin(c, p) && BeginExchange(s, t, c, p, ch).Some?
    requires Unsent(s, t) && s.tasks[t].job.Request? && s.tasks[t].attempt <= 1
    ensures EarlyMove(s, BeginExchange(s, t, c, p, ch).value, t)
  {
  }

  lemma FinishWork(cfg: Config, s: Pool, s': Pool, t: TaskId, c: CellId)
    requires Inv(cfg, s) && Works(s, s', t, c) && TaskLocks(s', t) && Rest(s', t) && At(cfg, s', t, c)
    ensures Inv(cfg, s')
  {
    WorkKeeps(cfg, s, s', t, c);
  }

  lemma EarlyFinish(cfg: Config, s: Pool, s': Pool, t: TaskId, c: CellId)
    requires Inv(cfg, s) && t in s.tasks && Rest(s, t) && Works(s, s', t, c) && EarlyMove(s, s', t)
    requires TaskLocks(s', t) && At(cfg, s', t, c)
    ensures Inv(cfg, s')
  {
    hide Inv, At, Works, TaskLocks, Rest, EarlyMove;
    EarlyRest(s, s', t, c);
    FinishWork(cfg, s, s', t, c);
  }

  /** How a retirement moves on. */
  ghost predicate RetireMove(s: Pool, s': Pool, t: TaskId) {
    && OnlyPc(s, s', t) && s'.delivered == s.delivered
    && Pending(s.tasks[t].pc).Some? && Pending(s'.tasks[t].pc) == Pending(s.tasks[t].pc)
    && RetiringCell(s'.tasks[t].pc) == RetiringCell(s.tasks[t].pc)
  }

  lemma RetireMoves(cfg: Config, s: Pool, t: TaskId, ch: Choice)
    requires t in s.tasks && RunTask(cfg, s, t, ch).Some?
    requires var pc := s.tasks[t].pc; pc.RetWait? || pc.RetClaim? || pc.Kill? || pc.Grace? || pc.Settle?
    ensures RetireMove(s, RunTask(cfg, s, t, ch).value, t)
  {
  }

  lemma EarlyMoves(cfg: Config, s: Pool, t: TaskId, ch: Choice)
    requires t in s.tasks && RunTask(cfg, s, t, ch).Some?
    requires var pc := s.tasks[t].pc; pc.CellWait? || pc.Inspect? || pc.Spawn?
    requires Unsent(s, t) && s.tasks[t].job.Request? && s.tasks[t].attempt <= 1
    ensures EarlyMove(s, RunTask(cfg, s, t, ch).value, t)
  {
  }

  lemma RetireFinish(cfg: Config, s: Pool, s': Pool, t: TaskId, c: CellId)
    requires Inv(cfg, s) && t in s.tasks && Rest(s, t) && Works(s, s', t, c) && RetireMove(s, s', t)
    requires TaskLocks(s', t) && At(cfg, s', t, c)
    ensures Inv(cfg, s')
  {
    hide Inv, At, Works, TaskLocks, Rest;
    RetireRest(s, s', t, c);
    FinishWork(cfg, s, s', t, c);
  }

  lemma RetWaitKeeps(cfg: Config, s: Pool, t: TaskId, c: CellId, a: After)
    requires Inv(cfg, s) && t in s.tasks && s.tasks[t].pc == RetWait(c, a) && LockCell(s, t, c, RetClaim(c, a)).Some?
    ensures Inv(cfg, LockCell(s, t, c, RetClaim(c, a)).value)
  {
    var s' := LockCell(s, t, c, RetClaim(c, a)).value;
    RetireMoves(cfg, s, t, Go);
    hide Inv, At, Works, TaskLocks, Rest, LockCell;
    Ready(cfg, s, t, c);
    LockForRetireWorks(cfg, s, t, c, a);
    LockForRetireAt(cfg, s, t, c, a);
    RetireFinish(cfg, s, s', t, c);
  }

  lemma ClaimSlotKeeps(cfg: Config, s: Pool, t: TaskId, c: CellId, a: After)
    requires Inv(cfg, s) && t in s.tasks && s.tasks[t].pc == RetClaim(c, a) && ClaimSlot(s, t, c, a).Some?
    ensures Inv(cfg, ClaimSlot(s, t, c, a).value)
  {
    var s' := ClaimSlot(s, t, c, a).value;
    RetireMoves(cfg, s, t, Go);
    hide Inv, At, Works, TaskLocks, Rest, ClaimSlot;
    Ready(cfg, s, t, c);
    ClaimSlotWorks(cfg, s, t, c, a);
    ClaimSlotLocks(cfg, s, t, c, a);
    ClaimSlotAt(cfg, s, t, c, a);
    RetireFinish(cfg, s, s', t, c);
  }

  lemma TerminateKeeps(cfg: Config, s: Pool, t: TaskId, c: CellId, p: ProcId, a: After)
    requires Inv(cfg, s) && t in s.tasks && s.tasks[t].pc == Kill(c, p, a) && Terminate(s, t, c, p, a).Some?
    ensures Inv(cfg, Terminate(s, t, c, p, a).value)
  {
    var s' := Terminate(s, t, c, p, a).value;
    RetireMoves(cfg, s, t, Go);
    hide Inv, At, Works, TaskLocks, Rest, Terminate;
    Ready(cfg, s, t, c);
    TerminateWorks(cfg, s, t, c, p, a);
    TerminateLocks(cfg, s, t, c, p, a);
    TerminateAt(cfg, s, t, c, p, a);
    RetireFinish(cfg, s, s', t, c);
  }

  lemma GraceOverKeeps(cfg: Config, s: Pool, t: TaskId, c: CellId, p: ProcId, a: After)
    requires Inv(cfg, s) && t in s.tasks && s.tasks[t].pc == Grace(c, p, a) && GraceOver(s, t, c, p, a).Some?
    ensures Inv(cfg, GraceOver(s, t, c, p, a).value)
  {
    var s' := GraceOver(s, t, c, p, a).value;
    RetireMoves(cfg, s, t, Go);
    hide Inv, At, Works, TaskLocks, Rest, GraceOver;
    Ready(cfg, s, t, c);
    GraceOverWorks(cfg, s, t, c, p, a);
    GraceOverAt(cfg, s, t, c, p, a);
    RetireFinish(cfg, s, s', t, c);
  }

  lemma StopCellKeeps(cfg: Config, s: Pool, t: TaskId, c: CellId, p: ProcId, a: After)
    requires Inv(cfg, s) && t in s.tasks && s.tasks[t].pc == Settle(c, p, a) && StopCell(s, t, c, p, a).Some?
    ensures Inv(cfg, StopCell(s, t, c, p, a).value)
  {
    var s' := StopCell(s, t, c, p, a).value;
    RetireMoves(cfg, s, t, Go);
    hide Inv, At, Works, TaskLocks, Rest, StopCell;
    Ready(cfg, s, t, c);
    StopCellWorks(cfg, s, t, c, p, a);
    StopCellLocks(cfg, s, t, c, p, a);
    StopCellAt(cfg, s, t, c, p, a);
    RetireFinish(cfg, s, s', t, c);
  }

  lemma CellWaitKeeps(cfg: Config, s: Pool, t: TaskId, c: CellId)
    requires Inv(cfg, s) && t in s.tasks && s.tasks[t].pc == CellWait(c) && LockCell(s, t, c, Inspect(c)).Some?
    ensures Inv(cfg, LockCell(s, t, c, Inspect(c)).value)
  {
    var s' := LockCell(s, t, c, Inspect(c)).value;
    hide Inv, At, Works, TaskLocks, Rest, EarlyMove, LockCell;
    Ready(cfg, s, t, c);
    LockForRequestWorks(cfg, s, t, c);
    LockForRequestAt(cfg, s, t, c);
    EarlyUnsent(s, t);
    EarlyMoves(cfg, s, t, Go);
    EarlyFinish(cfg, s, s', t, c);
  }

  lemma InspectCellKeeps(cfg: Config, s: Pool, t: TaskId, c: CellId)
    requires Inv(cfg, s) && t in s.tasks && s.tasks[t].pc == Inspect(c) && InspectCell(s, t, c).Some?
    ensures Inv(cfg, InspectCell(s, t, c).value)
  {
    var s' := InspectCell(s, t, c).value;
    hide Inv, At, Works, TaskLocks, Rest, EarlyMove, InspectCell;
    Ready(cfg, s, t, c);
    InspectCellWorks(cfg, s, t, c);
    InspectCellLocks(cfg, s, t, c);
    InspectCellAt(cfg, s, t, c);
    EarlyUnsent(s, t);
    EarlyMoves(cfg, s, t, Go);
    EarlyFinish(cfg, s, s', t, c);
  }

  lemma SpawnProcessKeeps(cfg: Config, s: Pool, t: TaskId, c: CellId, ch: Choice)
    requires Inv(cfg, s) && t in s.tasks && s.tasks[t].pc == Spawn(c) && SpawnProcess(s, t, c, ch).Some?
    ensures Inv(cfg, SpawnProcess(s, t, c, ch).value)
  {
    var s' := SpawnProcess(s, t, c, ch).value;
    assert RunTask(cfg, s, t, ch) == SpawnProcess(s, t, c, ch);
    hide Inv, At, Works, TaskLocks, Rest, EarlyMove, SpawnProcess, RunTask, Unsent;
    Ready(cfg, s, t, c);
    SpawnProcessWorks(cfg, s, t, c, ch);
    SpawnProcessAt(cfg, s, t, c, ch);
    EarlyUnsent(s, t);
    EarlyMoves(cfg, s, t, ch);
    EarlyFinish(cfg, s, s', t, c);
  }

  lemma ShakeHandsKeeps(cfg: Config, s: Pool, t: TaskId, c: CellId, p: ProcId, ch: Choice)
    requires Inv(cfg, s) && t in s.tasks && s.tasks[t].pc == Handshake(c, p) && ShakeHands(s, t, c, p, ch).Some?
    ensures Inv(cfg, ShakeHands(s, t, c, p, ch).value)
  {
    var s' := ShakeHands(s, t, c, p, ch).value;
    hide Inv, At, Works, TaskLocks, Rest, EarlyMove, ShakeHands;
    Ready(cfg, s, t, c);
    ShakeHandsWorks(cfg, s, t, c, p, ch);
    ShakeHandsLocks(cfg, s, t, c, p, ch);
    ShakeHandsAt(cfg, s, t, c, p, ch);
    EarlyUnsent(s, t);
    ShakeHandsEarly(s, t, c, p, ch);
    EarlyFinish(cfg, s, s', t, c);
  }

  lemma BeginExchangeKeeps(cfg: Config, s: Pool, t: TaskId, c: CellId, p: ProcId, ch: Choice)
    requires Inv(cfg, s) && t in s.tasks && s.tasks[t].pc == Begin(c, p) && BeginExchange(s, t, c, p, ch).Some?
    ensures Inv(cfg, BeginExchange(s, t, c, p, ch).value)
  {
    var s' := BeginExchange(s, t, c, p, ch).value;
    hide Inv, At, Works, TaskLocks, Rest, EarlyMove, BeginExchange;
    Ready(cfg, s, t, c);
    BeginExchangeWorks(cfg, s, t, c, p, ch);
    BeginExchangeLocks(cfg, s, t, c, p, ch);
    BeginExchangeAt(cfg, s, t, c, p, ch);
    EarlyUnsent(s, t);
    BeginExchangeEarly(s, t, c, p, ch);
    EarlyFinish(cfg, s, s', t, c);
  }

  lemma WriteSomeKeeps(cfg: Config, s: Pool, t: TaskId, c: CellId, p: ProcId, n: nat, ch: Choice)
    requires Inv(cfg, s) && t in s.tasks && s.tasks[t].pc == Write(c, p, n) && WriteSome(s, t, c, p, n, ch).Some?
    ensures Inv(cfg, WriteSome(s, t, c, p, n, ch).value)
  {
    var s' := WriteSome(s, t, c, p, n, ch).value;
    hide Inv, At, Works, TaskLocks, Rest, WriteSome;
    Ready(cfg, s, t, c);
    WriteSomeWorks(cfg, s, t, c, p, n, ch);
    WriteSomeAt(cfg, s, t, c, p, n, ch);
    WriteSomeRest(s, t, c, p, n, ch);
    FinishWork(cfg, s, s', t, c);
  }

  lemma ReadSomeKeeps(cfg: Config, s: Pool, t: TaskId, c: CellId, p: ProcId, ch: Choice)
    requires Inv(cfg, s) && t in s.tasks && s.tasks[t].pc == Read(c, p) && ReadSome(s, t, c, p, ch).Some?
    ensures Inv(cfg, ReadSome(s, t, c, p, ch).value)
  {
    var s' := ReadSome(s, t, c, p, ch).value;
    hide Inv, At, Works, TaskLocks, Rest, ReadSome;
    Ready(cfg, s, t, c);
    ReadSomeWorks(cfg, s, t, c, p, ch);
    ReadSomeLocks(cfg, s, t, c, p, ch);
    if ch.Pick? || ch.Fail? {
      ReadEndsAt(cfg, s, t, c, p, ch);
    } else {
      ReadLineAt(cfg, s, t, c, p, ch);
    }
    ReadSomeRest(cfg, s, t, c, p, ch);
    FinishWork(cfg, s, s', t, c);
  }

  lemma SettledKeeps(cfg: Config, s: Pool, t: TaskId, c: CellId, p: ProcId, o: Outcome)
    requires Inv(cfg, s) && t in s.tasks && s.tasks[t].pc == Reply(c, p, o) && Settled(cfg, s, t, c, p, o).Some?
    ensures Inv(cfg, Settled(cfg, s, t, c, p, o).value)
  {
    var s' := Settled(cfg, s, t, c, p, o).value;
    hide Inv, At, Works, TaskLocks, Rest, Settled;
    Ready(cfg, s, t, c);
    SettledWorks(cfg, s, t, c, p, o);
    SettledAt(cfg, s, t, c, p, o);
    SettledRest(cfg, s, t, c, p, o);
    FinishWork(cfg, s, s', t, c);
  }

  // ---- steps on the pool-wide locks and the map ----

  lemma TakeAllocKeeps(cfg: Config, s: Pool, t: TaskId)
    requires Inv(cfg, s) && t in s.tasks && s.tasks[t].pc == WantAlloc && TakeAlloc(s, t).Some?
    ensures Inv(cfg, TakeAlloc(s, t).value)
  {
    var s' := TakeAlloc(s, t).value;
    assert TaskOk(cfg, s, t);
    hide TaskOk, TakeAlloc, Moves;
    TakeAllocTask(cfg, s, t);
    MoveKeeps(cfg, s, s', t);
  }

  lemma TakeMapKeeps(cfg: Config, s: Pool, t: TaskId, pc: Pc)
    requires Inv(cfg, s) && t in s.tasks && MapWait(s.tasks[t].pc, pc, s.slots.Keys) && TakeMap(s, t, pc).Some?
    ensures Inv(cfg, TakeMap(s, t, pc).value)
  {
    assert TaskOk(cfg, s, t);
    hide TaskOk, TakeMap, Moves, MapWait;
    TakeMapTask(cfg, s, t, pc);
    MoveKeeps(cfg, s, TakeMap(s, t, pc).value, t);
  }

  lemma SnapshotKeeps(cfg: Config, s: Pool, t: TaskId)
    requires Inv(cfg, s) && t in s.tasks && s.tasks[t].pc == DrainIn && Snapshot(s, t).Some?
    ensures Inv(cfg, Snapshot(s, t).value)
  {
    var s' := Snapshot(s, t).value;
    assert TaskOk(cfg, s, t);
    hide TaskOk, Snapshot;
    SnapshotTask(cfg, s, t);
    MoveKeeps(cfg, s, s', t);
  }

  lemma DrainNextKeeps(cfg: Config, s: Pool, t: TaskId, rest: set<CellId>, ch: Choice)
    requires Inv(cfg, s) && t in s.tasks && s.tasks[t].pc == DrainLoop(rest) && DrainNext(s, t, rest, ch).Some?
    ensures Inv(cfg, DrainNext(s, t, rest, ch).value)
  {
    var s' := DrainNext(s, t, rest, ch).value;
    assert TaskOk(cfg, s, t);
    hide TaskOk, DrainNext, Moves;
    DrainNextTask(cfg, s, t, rest, ch);
    MoveKeeps(cfg, s, s', t);
  }

  lemma LookUpKeeps(cfg: Config, s: Pool, t: TaskId, b: Option<nat>)
    requires Inv(cfg, s) && t in s.tasks && s.tasks[t].pc == InMap(b) && LookUp(s, t, b).Some?
    ensures Inv(cfg, LookUp(s, t, b).value)
  {
    var s' := LookUp(s, t, b).value;
    assert TaskOk(cfg, s, t);
    hide TaskOk, LookUp;
    LookUpTask(cfg, s, t, b);
    EditKeeps(cfg, s, s', t);
  }

  lemma ForgetKeeps(cfg: Config, s: Pool, t: TaskId, c: CellId, a: After)
    requires Inv(cfg, s) && t in s.tasks && s.tasks[t].pc == ForgetIn(c, a) && Forget(s, t, c, a).Some?
    ensures Inv(cfg, Forget(s, t, c, a).value)
  {
    var s' := Forget(s, t, c, a).value;
    assert TaskOk(cfg, s, t);
    hide TaskOk, Forget;
    ForgetTask(cfg, s, t, c, a);
    EditKeeps(cfg, s, s', t);
  }

  lemma TouchKeeps(cfg: Config, s: Pool, t: TaskId, o: Outcome)
    requires Inv(cfg, s) && t in s.tasks && s.tasks[t].pc == TouchIn(o) && Touch(s, t, o).Some?
    ensures Inv(cfg, Touch(s, t, o).value)
  {
    var s' := Touch(s, t, o).value;
    assert TaskOk(cfg, s, t);
    hide TaskOk, Touch;
    TouchTask(cfg, s, t, o);
    EditKeeps(cfg, s, s', t);
  }

  lemma MakeRoomKeeps(cfg: Config, s: Pool, t: TaskId, b: Option<nat>, ch: Choice)
    requires Inv(cfg, s) && t in s.tasks && s.tasks[t].pc == Room(b) && MakeRoom(cfg, s, t, b, ch).Some?
    ensures Inv(cfg, MakeRoom(cfg, s, t, b, ch).value)
  {
    assert TaskOk(cfg, s, t);
    var agent := s.tasks[t].job.key.agent;
    if |AgentKeys(s.slots, agent)| < cfg.maxInstances(agent) {
      InsertKeeps(cfg, s, MakeRoom(cfg, s, t, b, ch).value, t, b, ch);
    } else {
      RoomMoves(cfg, s, t, b, ch);
      MoveKeeps(cfg, s, MakeRoom(cfg, s, t, b, ch).value, t);
    }
  }

  lemma InsertRest(cfg: Config, s: Pool, s': Pool, t: TaskId, b: Option<nat>, ch: Choice)
    requires Inv(cfg, s) && t in s.tasks && s.tasks[t].pc == Room(b) && MakeRoom(cfg, s, t, b, ch) == Some(s')
    requires |AgentKeys(s.slots, s.tasks[t].job.key.agent)| < cfg.maxInstances(s.tasks[t].job.key.agent)
    ensures Guar(s, s', t)
    ensures forall c :: c in s'.cells && c != ch.c ==> SameCell(s, s', t, c)
    ensures forall p :: p in s'.procs ==> SameProc(s, s', p)
  {
    assert TaskOk(cfg, s, t);
    InsertGuar(cfg, s, t, b, ch);
    InsertElsewhere(cfg, s, t, b, ch);
  }

  lemma InsertNew(cfg: Config, s: Pool, s': Pool, t: TaskId, b: Option<nat>, ch: Choice)
    requires Inv(cfg, s) && t in s.tasks && s.tasks[t].pc == Room(b) && MakeRoom(cfg, s, t, b, ch) == Some(s')
    requires |AgentKeys(s.slots, s.tasks[t].job.key.agent)| < cfg.maxInstances(s.tasks[t].job.key.agent)
    ensures ch.NewCell? && Globals(cfg, s') && t in s'.tasks && TaskOk(cfg, s', t) && ch.c in s'.cells && CellOk(cfg, s', ch.c)
  {
    assert TaskOk(cfg, s, t);
    InsertGlobals(cfg, s, t, b, ch);
    InsertTask(cfg, s, t, b, ch);
  }

  lemma AssembleInsert(cfg: Config, s: Pool, s': Pool, t: TaskId, c: CellId)
    requires Inv(cfg, s) && Guar(s, s', t) && Globals(cfg, s') && t in s'.tasks && TaskOk(cfg, s', t)
    requires c in s'.cells && CellOk(cfg, s', c)
    requires forall d :: d in s'.cells && d != c ==> SameCell(s, s', t, d)
    requires forall p :: p in s'.procs ==> SameProc(s, s', p)
    ensures Inv(cfg, s')
  {
    Assemble(cfg, s, s', t, {c}, {});
  }

  lemma InsertKeeps(cfg: Config, s: Pool, s': Pool, t: TaskId, b: Option<nat>, ch: Choice)
    requires Inv(cfg, s) && t in s.tasks && s.tasks[t].pc == Room(b) && MakeRoom(cfg, s, t, b, ch) == Some(s')
    requires |AgentKeys(s.slots, s.tasks[t].job.key.agent)| < cfg.maxInstances(s.tasks[t].job.key.agent)
    ensures Inv(cfg, s')
  {
    InsertRest(cfg, s, s', t, b, ch);
    InsertNew(cfg, s, s', t, b, ch);
    AssembleInsert(cfg, s, s', t, ch.c);
  }

  lemma ReapKeeps(cfg: Config, s: Pool, t: TaskId, todo: set<SlotKey>, reaped: set<ProcId>, ch: Choice)
    requires Inv(cfg, s) && t in s.tasks && s.tasks[t].pc == SweepIn(todo, reaped) && Reap(s, t, todo, reaped, ch).Some?
    ensures Inv(cfg, Reap(s, t, todo, reaped, ch).value)
  {
    assert TaskOk(cfg, s, t);
    ReapTask(cfg, s, t, todo, reaped, ch);
    if Passes(s, Reap(s, t, todo, reaped, ch).value) {
      PassEdits(cfg, s, t, todo, reaped, ch);
      EditKeeps(cfg, s, Reap(s, t, todo, reaped, ch).value, t);
    } else {
      var c, p := Taken(s, t, todo, reaped, ch);
      TakeKeeps(cfg, s, Reap(s, t, todo, reaped, ch).value, t, ch.k, c, p);
    }
  }

  lemma Taken(s: Pool, t: TaskId, todo: set<SlotKey>, reaped: set<ProcId>, ch: Choice) returns (c: CellId, p: ProcId)
    requires t in s.tasks && s.tasks[t].pc == SweepIn(todo, reaped) && Reap(s, t, todo, reaped, ch).Some?
    requires !Passes(s, Reap(s, t, todo, reaped, ch).value)
    ensures ch.Visit? && Takes(s, Reap(s, t, todo, reaped, ch).value, t, ch.k, c, p)
  {
    c := s.slots[ch.k].cell;
    p := s.cells[c].state.p;
  }

  /** What the invariant says of the objects a step touches. */
  lemma Parts(cfg: Config, s: Pool, t: TaskId, c: CellId, p: ProcId)
    requires Inv(cfg, s) && t in s.tasks && c in s.cells && p in s.procs
    ensures TaskLocks(s, t) && TaskReaped(s, t) && CellOk(cfg, s, c) && ProcOk(cfg, s, p) && Globals(cfg, s)
    ensures forall d :: d in s.cells ==> CellOk(cfg, s, d)
    ensures forall q :: q in s.procs ==> ProcOk(cfg, s, q)
  {
    assert TaskOk(cfg, s, t);
  }

  lemma TakesWhat(s: Pool, s': Pool, t: TaskId, k: SlotKey, c: CellId, p: ProcId)
    requires Takes(s, s', t, k, c, p)
    ensures t in s.tasks && t in s'.tasks && c in s.cells && c in s'.cells && p in s.procs && p in s'.procs
  {
  }

  lemma TakeKeeps(cfg: Config, s: Pool, s': Pool, t: TaskId, k: SlotKey, c: CellId, p: ProcId)
    requires Inv(cfg, s) && Takes(s, s', t, k, c, p) && TaskOk(cfg, s', t)
    ensures Inv(cfg, s')
  {
    hide Inv, Takes, TaskLocks, TaskReaped, TaskOk, CellOk, ProcOk, Globals, Guar, SameCell, SameProc;
    TakesWhat(s, s', t, k, c, p);
    Parts(cfg, s, t, c, p);
    TakeGuar(cfg, s, s', t, k, c, p);
    TakeObjects(cfg, s, s', t, k, c, p);
    TakeGlobals(cfg, s, s', t, k, c, p);
    TakeElsewhere(cfg, s, s', t, k, c, p);
    Assemble(cfg, s, s', t, {c}, {p});
  }

  lemma AuditReapedKeeps(cfg: Config, s: Pool, t: TaskId, reaped: set<ProcId>, ch: Choice)
    requires Inv(cfg, s) && t in s.tasks && s.tasks[t].pc == SweepAudit(reaped) && AuditReaped(s, t, reaped, ch).Some?
    ensures Inv(cfg, AuditReaped(s, t, reaped, ch).value)
  {
    assert TaskOk(cfg, s, t);
    AuditReapedTask(cfg, s, t, reaped, ch);
    AuditMoves(s, t, reaped, ch);
    if reaped == {} {
      MoveKeeps(cfg, s, AuditReaped(s, t, reaped, ch).value, t);
    } else {
      RecordKeeps(cfg, s, AuditReaped(s, t, reaped, ch).value, t, ch.id);
    }
  }

  lemma AuditMoves(s: Pool, t: TaskId, reaped: set<ProcId>, ch: Choice)
    requires t in s.tasks && TaskLocks(s, t) && s.tasks[t].pc == SweepAudit(reaped) && AuditReaped(s, t, reaped, ch).Some?
    ensures var s' := AuditReaped(s, t, reaped, ch).value;
      if reaped == {} then Moves(s, s', t) else ch.Pick? && Records(s, s', t, ch.id)
  {
  }

  /** The recycle of a reaped instance is written down. */
  ghost predicate Records(s: Pool, s': Pool, t: TaskId, p: ProcId) {
    && t in s.tasks && s.tasks[t].pc.SweepAudit? && p in s.tasks[t].pc.reaped && p in s.procs
    && s' == s.(procs := s.procs[p := s.procs[p].(phase := Recycled)], recycled := s.recycled + multiset{p},
                tasks := Goto(s, t, SweepAudit(s.tasks[t].pc.reaped - {p})))
  }

  lemma RecordGuar(cfg: Config, s: Pool, s': Pool, t: TaskId, p: ProcId)
    requires Records(s, s', t, p) && TaskReaped(s, t) && TaskLocks(s, t) && ProcOk(cfg, s, p)
    ensures Guar(s, s', t)
  {
  }

  lemma RecordProc(cfg: Config, s: Pool, s': Pool, t: TaskId, p: ProcId)
    requires Records(s, s', t, p) && TaskReaped(s, t) && ProcOk(cfg, s, p)
    ensures p in s'.procs && ProcOk(cfg, s', p) && s.cells[s.procs[p].cell].state == Stopped
  {
  }

  lemma RecordElsewhere(cfg: Config, s: Pool, s': Pool, t: TaskId, p: ProcId)
    requires Records(s, s', t, p) && TaskLocks(s, t) && Globals(cfg, s)
    requires Owned(s, s.procs[p].cell, p) && s.cells[s.procs[p].cell].state == Stopped
    requires forall c :: c in s.cells ==> CellOk(cfg, s, c)
    ensures Globals(cfg, s')
    ensures forall c :: c in s'.cells ==> SameCell(s, s', t, c)
    ensures forall q :: q in s'.procs && q != p ==> SameProc(s, s', q)
  {
    forall c | c in s'.cells
      ensures SameCell(s, s', t, c)
    {
      assert CellOk(cfg, s, c);
    }
    forall k | k in s'.slots
      ensures SlotOk(s', k)
    {
      assert SlotOk(s, k);
    }
  }

  lemma RecordsWhat(cfg: Config, s: Pool, s': Pool, t: TaskId, p: ProcId)
    requires Inv(cfg, s) && Records(s, s', t, p)
    ensures t in s.tasks && t in s'.tasks && p in s.procs && p in s'.procs
    ensures Owned(s, s.procs[p].cell, p) && s.procs[p].cell in s.cells
  {
    assert ProcOk(cfg, s, p);
  }

  lemma RecordKeeps(cfg: Config, s: Pool, s': Pool, t: TaskId, p: ProcId)
    requires Inv(cfg, s) && Records(s, s', t, p) && TaskOk(cfg, s', t)
    ensures Inv(cfg, s')
  {
    hide Inv, Records, TaskLocks, TaskReaped, TaskOk, CellOk, ProcOk, Globals, Guar, SameCell, SameProc, Owned;
    RecordsWhat(cfg, s, s', t, p);
    Parts(cfg, s, t, s.procs[p].cell, p);
    RecordGuar(cfg, s, s', t, p);
    RecordProc(cfg, s, s', t, p);
    RecordElsewhere(cfg, s, s', t, p);
    Assemble(cfg, s, s', t, {}, {p});
  }

  // ---- steps of the environment ----

  /** A process exits, is claimed by the reaper, or writes a line. */
  ghost predicate EnvStep(s: Pool, s': Pool) {
    && s' == s.(procs := s'.procs, clock := s'.clock)
    && s'.procs.Keys == s.procs.Keys
    && forall p :: p in s.procs ==> EnvProc(s.procs[p], s'.procs[p])
  }

  ghost predicate EnvProc(before: Proc, after: Proc) {
    && after.cell == before.cell && after.phase == before.phase && after.askers == before.askers
    && (after.alive ==> before.alive)
    && (after.claim == before.claim || (before.claim == Unclaimed && after.claim == ByReaper))
    && after.chan.log == before.chan.log && after.chan.asked == before.chan.asked && after.chan.open == before.chan.open
  }

  /** What a task keeps when no lock, cell, entry or delivery changes. */
  lemma SameBooks(s: Pool, s': Pool, t: TaskId)
    requires t in s.tasks && t in s'.tasks && s'.tasks[t] == s.tasks[t]
    requires s'.alloc == s.alloc && s'.mapLock == s.mapLock && s'.slots == s.slots && s'.cells == s.cells
    requires s'.delivered == s.delivered
    requires TaskLocks(s, t) && TaskSent(s, t) && TaskSlots(s, t)
    ensures TaskLocks(s', t) && TaskSent(s', t) && TaskSlots(s', t)
  {
  }

  lemma EnvShape(s: Pool, s': Pool, t: TaskId)
    requires EnvStep(s, s') && t in s.tasks && TaskShape(s, t) && TaskReaped(s, t)
    ensures TaskShape(s', t) && TaskReaped(s', t)
  {
    var r := Result(s.tasks[t].pc);
    if r.Some? && r.value.Answered? {
      assert EnvProc(s.procs[r.value.p], s'.procs[r.value.p]);
    }
  }

  lemma EnvTask(cfg: Config, s: Pool, s': Pool, t: TaskId)
    requires EnvStep(s, s') && t in s.tasks && TaskOk(cfg, s, t)
    ensures TaskOk(cfg, s', t)
  {
    EnvTaskCell(cfg, s, s', t);
    EnvShape(s, s', t);
    SameBooks(s, s', t);
  }

  lemma EnvTaskCell(cfg: Config, s: Pool, s': Pool, t: TaskId)
    requires EnvStep(s, s') && t in s.tasks && TaskCell(cfg, s, t)
    ensures TaskCell(cfg, s', t)
  {
    var pc := s.tasks[t].pc;
    if HeldCell(pc).Some? && s.cells[HeldCell(pc).value].hosted.Some? {
      var p := s.cells[HeldCell(pc).value].hosted.value;
      if p in s.procs {
        assert EnvProc(s.procs[p], s'.procs[p]);
      }
    }
  }

  lemma EnvCell(cfg: Config, s: Pool, s': Pool, c: CellId)
    requires EnvStep(s, s') && c in s.cells && CellOk(cfg, s, c)
    ensures CellOk(cfg, s', c)
  {
    if s.cells[c].hosted.Some? {
      assert EnvProc(s.procs[s.cells[c].hosted.value], s'.procs[s.cells[c].hosted.value]);
    }
  }

  lemma EnvKeeps(cfg: Config, s: Pool, s': Pool)
    requires Inv(cfg, s) && EnvStep(s, s')
    ensures Inv(cfg, s')
  {
    forall t | t in s'.tasks
      ensures TaskOk(cfg, s', t)
    {
      EnvTask(cfg, s, s', t);
    }
    forall c | c in s'.cells
      ensures CellOk(cfg, s', c)
    {
      EnvCell(cfg, s, s', c);
    }
    forall p | p in s'.procs
      ensures ProcOk(cfg, s', p)
    {
      assert ProcOk(cfg, s, p) && EnvProc(s.procs[p], s'.procs[p]);
    }
    EnvGlobals(cfg, s, s');
  }

  lemma EnvGlobals(cfg: Config, s: Pool, s': Pool)
    requires Globals(cfg, s) && EnvStep(s, s')
    ensures Globals(cfg, s')
  {
    forall k | k in s'.slots
      ensures SlotOk(s', k)
    {
      assert SlotOk(s, k);
    }
  }

  // ---- a call into the pool ----

  ghost predicate Arrives(s: Pool, s': Pool, t: TaskId, job: Job) {
    && t !in s.tasks && (job.Request? ==> job.size > 0)
    && s' == s.(tasks := s.tasks[t := Task(job, 0, if job.Sweep? then SweepWait else WantAlloc)])
  }

  lemma ArrivedTask(cfg: Config, s: Pool, s': Pool, t: TaskId, job: Job)
    requires Globals(cfg, s) && Arrives(s, s', t, job)
    requires forall p :: p in s.procs ==> ProcOk(cfg, s, p)
    ensures TaskOk(cfg, s', t)
  {
    forall p | p in s.procs
      ensures s.procs[p].phase != Reaped(t)
    {
      assert ProcOk(cfg, s, p);
    }
    assert forall q :: (t, q) in s.delivered ==> (t, q).0 in s.tasks;
  }

  lemma OldTask(cfg: Config, s: Pool, s': Pool, t: TaskId, job: Job, u: TaskId)
    requires Arrives(s, s', t, job) && u in s.tasks && TaskOk(cfg, s, u)
    ensures TaskOk(cfg, s', u)
  {
    SameBooks(s, s', u);
    OldTaskCell(cfg, s, s', t, job, u);
  }

  lemma OldTaskCell(cfg: Config, s: Pool, s': Pool, t: TaskId, job: Job, u: TaskId)
    requires Arrives(s, s', t, job) && u in s.tasks && TaskCell(cfg, s, u)
    ensures TaskCell(cfg, s', u)
  {
  }

  lemma ArriveTasks(cfg: Config, s: Pool, s': Pool, t: TaskId, job: Job)
    requires Inv(cfg, s) && Arrives(s, s', t, job)
    ensures forall u :: u in s'.tasks ==> TaskOk(cfg, s', u)
  {
    ArrivedTask(cfg, s, s', t, job);
    forall u | u in s.tasks
      ensures TaskOk(cfg, s', u)
    {
      OldTask(cfg, s, s', t, job, u);
    }
  }

  lemma ArriveObjects(cfg: Config, s: Pool, s': Pool, t: TaskId, job: Job)
    requires Inv(cfg, s) && Arrives(s, s', t, job)
    ensures forall c :: c in s'.cells ==> CellOk(cfg, s', c)
    ensures forall p :: p in s'.procs ==> ProcOk(cfg, s', p)
  {
    forall c | c in s'.cells
      ensures CellOk(cfg, s', c)
    {
      assert CellOk(cfg, s, c);
    }
    forall p | p in s'.procs
      ensures ProcOk(cfg, s', p)
    {
      assert ProcOk(cfg, s, p);
    }
  }

  lemma ArriveGlobals(cfg: Config, s: Pool, s': Pool, t: TaskId, job: Job)
    requires Globals(cfg, s) && Arrives(s, s', t, job)
    ensures Globals(cfg, s')
  {
    forall k | k in s'.slots
      ensures SlotOk(s', k)
    {
      assert SlotOk(s, k);
    }
  }

  lemma ArriveKeeps(cfg: Config, s: Pool, s': Pool, t: TaskId, job: Job)
    requires Inv(cfg, s) && Arrives(s, s', t, job)
    ensures Inv(cfg, s')
  {
    hide TaskOk, CellOk, ProcOk, Globals, Arrives;
    ArriveTasks(cfg, s, s', t, job);
    ArriveObjects(cfg, s, s', t, job);
    ArriveGlobals(cfg, s, s', t, job);
  }
}
