/** What every run of the pool keeps. */
module PoolSafety {
  import opened Common
  import opened PoolModel
  import opened PoolInvariant
  import opened PoolFrame
  import opened PoolSteps
  import opened PoolCellSteps
  import opened PoolInduction
  import Channel

  // ---- the invariant holds in every reachable state ----

  lemma SlotForKeeps(cfg: Config, s: Pool, t: TaskId, ch: Choice)
    requires Inv(cfg, s) && RunTask(cfg, s, t, ch).Some?
    requires var pc := s.tasks[t].pc; pc.WantAlloc? || pc.WantMap? || pc.InMap? || pc.Room?
    ensures Inv(cfg, RunTask(cfg, s, t, ch).value)
  {
    hide Inv, TakeAlloc, TakeMap, LookUp, MakeRoom;
    match s.tasks[t].pc
    case WantAlloc => TakeAllocKeeps(cfg, s, t);
    case WantMap(b) => TakeMapKeeps(cfg, s, t, InMap(b));
    case InMap(b) => LookUpKeeps(cfg, s, t, b);
    case Room(b) => MakeRoomKeeps(cfg, s, t, b, ch);
  }

  lemma RetireKeeps(cfg: Config, s: Pool, t: TaskId, ch: Choice)
    requires Inv(cfg, s) && RunTask(cfg, s, t, ch).Some? && Pending(s.tasks[t].pc).Some?
    ensures Inv(cfg, RunTask(cfg, s, t, ch).value)
  {
    hide Inv, LockCell, ClaimSlot, Terminate, GraceOver, StopCell, TakeMap, Forget;
    match s.tasks[t].pc
    case RetWait(c, a) => RetWaitKeeps(cfg, s, t, c, a);
    case RetClaim(c, a) => ClaimSlotKeeps(cfg, s, t, c, a);
    case Kill(c, p, a) => TerminateKeeps(cfg, s, t, c, p, a);
    case Grace(c, p, a) => GraceOverKeeps(cfg, s, t, c, p, a);
    case Settle(c, p, a) => StopCellKeeps(cfg, s, t, c, p, a);
    case ForgetWait(c, a) => TakeMapKeeps(cfg, s, t, ForgetIn(c, a));
    case ForgetIn(c, a) => ForgetKeeps(cfg, s, t, c, a);
  }

  lemma AttemptKeeps(cfg: Config, s: Pool, t: TaskId, ch: Choice)
    requires Inv(cfg, s) && RunTask(cfg, s, t, ch).Some? && EarlyPc(s.tasks[t].pc)
    ensures Inv(cfg, RunTask(cfg, s, t, ch).value)
  {
    hide Inv, LockCell, InspectCell, SpawnProcess, ShakeHands, BeginExchange;
    match s.tasks[t].pc
    case CellWait(c) => CellWaitKeeps(cfg, s, t, c);
    case Inspect(c) => InspectCellKeeps(cfg, s, t, c);
    case Spawn(c) => SpawnProcessKeeps(cfg, s, t, c, ch);
    case Handshake(c, p) => ShakeHandsKeeps(cfg, s, t, c, p, ch);
    case Begin(c, p) => BeginExchangeKeeps(cfg, s, t, c, p, ch);
  }

  lemma ExchangeKeeps(cfg: Config, s: Pool, t: TaskId, ch: Choice)
    requires Inv(cfg, s) && RunTask(cfg, s, t, ch).Some?
    requires var pc := s.tasks[t].pc; pc.Write? || pc.Read? || pc.Reply?
    ensures Inv(cfg, RunTask(cfg, s, t, ch).value)
  {
    hide Inv, WriteSome, ReadSome, Settled;
    match s.tasks[t].pc
    case Write(c, p, n) => WriteSomeKeeps(cfg, s, t, c, p, n, ch);
    case Read(c, p) => ReadSomeKeeps(cfg, s, t, c, p, ch);
    case Reply(c, p, o) => SettledKeeps(cfg, s, t, c, p, o);
  }

  lemma DrainKeeps(cfg: Config, s: Pool, t: TaskId, ch: Choice)
    requires Inv(cfg, s) && RunTask(cfg, s, t, ch).Some?
    requires var pc := s.tasks[t].pc; pc.DrainWait? || pc.DrainIn? || pc.DrainLoop?
    ensures Inv(cfg, RunTask(cfg, s, t, ch).value)
  {
    hide Inv, TakeMap, Snapshot, DrainNext;
    match s.tasks[t].pc
    case DrainWait => TakeMapKeeps(cfg, s, t, DrainIn);
    case DrainIn => SnapshotKeeps(cfg, s, t);
    case DrainLoop(rest) => DrainNextKeeps(cfg, s, t, rest, ch);
  }

  lemma TouchingKeeps(cfg: Config, s: Pool, t: TaskId, ch: Choice)
    requires Inv(cfg, s) && RunTask(cfg, s, t, ch).Some?
    requires var pc := s.tasks[t].pc; pc.TouchWait? || pc.TouchIn?
    ensures Inv(cfg, RunTask(cfg, s, t, ch).value)
  {
    hide Inv, TakeMap, Touch;
    match s.tasks[t].pc
    case TouchWait(o) => TakeMapKeeps(cfg, s, t, TouchIn(o));
    case TouchIn(o) => TouchKeeps(cfg, s, t, o);
  }

  lemma SweepKeeps(cfg: Config, s: Pool, t: TaskId, ch: Choice)
    requires Inv(cfg, s) && RunTask(cfg, s, t, ch).Some?
    requires var pc := s.tasks[t].pc; pc.SweepWait? || pc.SweepIn? || pc.SweepAudit?
    ensures Inv(cfg, RunTask(cfg, s, t, ch).value)
  {
    hide Inv, TakeMap, Reap, AuditReaped;
    match s.tasks[t].pc
    case SweepWait => TakeMapKeeps(cfg, s, t, SweepIn(s.slots.Keys, {}));
    case SweepIn(todo, reaped) => ReapKeeps(cfg, s, t, todo, reaped, ch);
    case SweepAudit(reaped) => AuditReapedKeeps(cfg, s, t, reaped, ch);
  }

  lemma RunKeeps(cfg: Config, s: Pool, t: TaskId, ch: Choice)
    requires Inv(cfg, s) && RunTask(cfg, s, t, ch).Some?
    ensures Inv(cfg, RunTask(cfg, s, t, ch).value)
  {
    hide Inv;
    var pc := s.tasks[t].pc;
    if Pending(pc).Some? {
      RetireKeeps(cfg, s, t, ch);
    } else if EarlyPc(pc) {
      AttemptKeeps(cfg, s, t, ch);
    } else if pc.Write? || pc.Read? || pc.Reply? {
      ExchangeKeeps(cfg, s, t, ch);
    } else if pc.WantAlloc? || pc.WantMap? || pc.InMap? || pc.Room? {
      SlotForKeeps(cfg, s, t, ch);
    } else if pc.SweepWait? || pc.SweepIn? || pc.SweepAudit? {
      SweepKeeps(cfg, s, t, ch);
    } else if pc.TouchWait? || pc.TouchIn? {
      TouchingKeeps(cfg, s, t, ch);
    } else {
      DrainKeeps(cfg, s, t, ch);
    }
  }

  lemma EnvironmentSteps(cfg: Config, s: Pool, step: Step)
    requires NextState(cfg, s, step).Some? && (step.Exit? || step.ReaperClaim? || step.Emit? || step.Tick?)
    ensures EnvStep(s, NextState(cfg, s, step).value)
  {
  }

  lemma StepKeepsInv(cfg: Config, s: Pool, step: Step)
    requires Inv(cfg, s) && NextState(cfg, s, step).Some?
    ensures Inv(cfg, NextState(cfg, s, step).value)
  {
    match step
    case Arrive(t, job) => ArriveKeeps(cfg, s, NextState(cfg, s, step).value, t, job);
    case Run(t, ch) => RunKeeps(cfg, s, t, ch);
    case _ =>
      EnvironmentSteps(cfg, s, step);
      EnvKeeps(cfg, s, NextState(cfg, s, step).value);
  }

  lemma InitInv(cfg: Config)
    ensures Inv(cfg, Empty)
  {
    forall a: string
      ensures |AgentKeys(Empty.slots, a)| == 0
    {
      assert AgentKeys(Empty.slots, a) == {};
    }
  }

  ghost predicate Reachable(cfg: Config, s: Pool) {
    exists run: seq<Pool>, steps: seq<Step> :: IsRun(cfg, run, steps) && s == run[|steps|]
  }

  lemma {:induction false} RunInv(cfg: Config, run: seq<Pool>, steps: seq<Step>, i: nat)
    requires IsRun(cfg, run, steps) && i <= |steps|
    ensures Inv(cfg, run[i])
  {
    if i == 0 {
      InitInv(cfg);
    } else {
      RunInv(cfg, run, steps, i - 1);
      assert NextState(cfg, run[i - 1], steps[i - 1]) == Some(run[i - 1 + 1]);
      StepKeepsInv(cfg, run[i - 1], steps[i - 1]);
    }
  }

  lemma ReachableInv(cfg: Config, s: Pool)
    requires Reachable(cfg, s)
    ensures Inv(cfg, s)
  {
    var run: seq<Pool>, steps: seq<Step> :| IsRun(cfg, run, steps) && s == run[|steps|];
    RunInv(cfg, run, steps, |steps|);
  }
}
