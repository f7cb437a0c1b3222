/** What becomes of a process while its cell is being retired. */
module PoolRetirement {
  import opened Common
  import opened PoolModel
  import opened PoolInvariant
  import opened PoolSafety
  import Channel

  // ---- what a step does to the processes it does not kill ----

  predicate Kills(pc: Pc, p: ProcId) {
    (pc.Kill? || pc.Grace?) && pc.p == p
  }

  /** The process stays in its phase, goes into service, or leaves service in the
      hands of the task: by its retirement, or by a sweep that found it dead. */
  predicate PhaseStep(pc: Pc, p: ProcId, before: Proc, after: Proc) {
    || after.phase == before.phase || after.phase == Serving
    || (pc.Settle? && pc.p == p) || (pc.SweepIn? && !before.alive) || (pc.SweepAudit? && p in pc.reaped)
  }

  predicate ProcQuiet(pc: Pc, p: ProcId, before: Proc, after: Proc) {
    && after.cell == before.cell && (after.alive ==> before.alive) && PhaseStep(pc, p, before, after)
    && (!Kills(pc, p) ==> after.alive == before.alive && after.claim == before.claim)
  }

  /** The step leaves the other tasks alone, and it neither claims nor kills any
      process but the one its task is killing. */
  ghost predicate Quiet(s: Pool, s': Pool, t: TaskId) {
    && t in s.tasks
    && s'.tasks.Keys == s.tasks.Keys && s'.tasks[t].job == s.tasks[t].job
    && (forall u :: u in s.tasks && u != t ==> u in s'.tasks && s'.tasks[u] == s.tasks[u])
    && (forall p :: p in s.procs ==> p in s'.procs && ProcQuiet(s.tasks[t].pc, p, s.procs[p], s'.procs[p]))
    && (forall p :: p in s'.procs && p !in s.procs ==> s'.procs[p].phase == Booting)
  }

  /** The step moves its task on, and the processes stay as they are. */
  ghost predicate Idles(s: Pool, s': Pool, t: TaskId) {
    t in s.tasks && t in s'.tasks && s'.tasks == s.tasks[t := s'.tasks[t]] && s'.tasks[t].job == s.tasks[t].job && s'.procs == s.procs
  }

  lemma IdleIsQuiet(s: Pool, s': Pool, t: TaskId)
    requires Idles(s, s', t)
    ensures Quiet(s, s', t)
  {
  }

  /** The step moves its task on, and changes or adds one process. */
  ghost predicate Changes(s: Pool, s': Pool, t: TaskId, p: ProcId) {
    && t in s.tasks && t in s'.tasks && s'.tasks == s.tasks[t := s'.tasks[t]] && s'.tasks[t].job == s.tasks[t].job
    && p in s'.procs && s'.procs == s.procs[p := s'.procs[p]]
    && if p in s.procs
       then ProcQuiet(s.tasks[t].pc, p, s.procs[p], s'.procs[p])
       else s'.procs[p].phase == Booting
  }

  lemma ChangeIsQuiet(s: Pool, s': Pool, t: TaskId, p: ProcId)
    requires Changes(s, s', t, p)
    ensures Quiet(s, s', t)
  {
  }

  lemma TakeAllocQuiet(s: Pool, t: TaskId)
    requires t in s.tasks && s.tasks[t].pc == WantAlloc && TakeAlloc(s, t).Some?
    ensures Idles(s, TakeAlloc(s, t).value, t)
  {
  }

  lemma TakeMapQuiet(s: Pool, t: TaskId, pc: Pc)
    requires t in s.tasks && TakeMap(s, t, pc).Some?
    ensures Idles(s, TakeMap(s, t, pc).value, t)
  {
  }

  lemma LookUpQuiet(s: Pool, t: TaskId, b: Option<nat>)
    requires t in s.tasks && s.tasks[t].pc == InMap(b) && LookUp(s, t, b).Some?
    ensures Idles(s, LookUp(s, t, b).value, t)
  {
  }

  lemma MakeRoomQuiet(cfg: Config, s: Pool, t: TaskId, b: Option<nat>, ch: Choice)
    requires t in s.tasks && s.tasks[t].pc == Room(b) && MakeRoom(cfg, s, t, b, ch).Some?
    ensures Idles(s, MakeRoom(cfg, s, t, b, ch).value, t)
  {
  }

  lemma LockCellQuiet(s: Pool, t: TaskId, c: CellId, pc: Pc)
    requires t in s.tasks && LockCell(s, t, c, pc).Some?
    ensures Idles(s, LockCell(s, t, c, pc).value, t)
  {
  }

  lemma ClaimSlotQuiet(s: Pool, t: TaskId, c: CellId, a: After)
    requires t in s.tasks && s.tasks[t].pc == RetClaim(c, a) && ClaimSlot(s, t, c, a).Some?
    ensures Idles(s, ClaimSlot(s, t, c, a).value, t)
  {
  }

  lemma TerminateQuiet(s: Pool, t: TaskId, c: CellId, p: ProcId, a: After)
    requires t in s.tasks && s.tasks[t].pc == Kill(c, p, a) && Terminate(s, t, c, p, a).Some?
    ensures var s' := Terminate(s, t, c, p, a).value; Idles(s, s', t) || Changes(s, s', t, p)
  {
  }

  lemma GraceOverQuiet(s: Pool, t: TaskId, c: CellId, p: ProcId, a: After)
    requires t in s.tasks && s.tasks[t].pc == Grace(c, p, a) && GraceOver(s, t, c, p, a).Some?
    ensures var s' := GraceOver(s, t, c, p, a).value; Idles(s, s', t) || Changes(s, s', t, p)
  {
  }

  lemma StopCellQuiet(s: Pool, t: TaskId, c: CellId, p: ProcId, a: After)
    requires t in s.tasks && s.tasks[t].pc == Settle(c, p, a) && StopCell(s, t, c, p, a).Some?
    ensures var s' := StopCell(s, t, c, p, a).value; Idles(s, s', t) || Changes(s, s', t, p)
  {
  }

  lemma ForgetQuiet(s: Pool, t: TaskId, c: CellId, a: After)
    requires t in s.tasks && s.tasks[t].pc == ForgetIn(c, a) && Forget(s, t, c, a).Some?
    ensures Idles(s, Forget(s, t, c, a).value, t)
  {
  }

  lemma InspectCellQuiet(s: Pool, t: TaskId, c: CellId)
    requires t in s.tasks && s.tasks[t].pc == Inspect(c) && InspectCell(s, t, c).Some?
    ensures Idles(s, InspectCell(s, t, c).value, t)
  {
  }

  lemma SpawnProcessQuiet(s: Pool, t: TaskId, c: CellId, ch: Choice)
    requires t in s.tasks && s.tasks[t].pc == Spawn(c) && SpawnProcess(s, t, c, ch).Some?
    ensures var s' := SpawnProcess(s, t, c, ch).value; Idles(s, s', t) || Changes(s, s', t, (if ch.NewProc? then ch.p else 0))
  {
  }

  lemma ShakeHandsQuiet(s: Pool, t: TaskId, c: CellId, p: ProcId, ch: Choice)
    requires t in s.tasks && s.tasks[t].pc == Handshake(c, p) && ShakeHands(s, t, c, p, ch).Some?
    ensures var s' := ShakeHands(s, t, c, p, ch).value; Idles(s, s', t) || Changes(s, s', t, p)
  {
  }

  lemma BeginExchangeQuiet(s: Pool, t: TaskId, c: CellId, p: ProcId, ch: Choice)
    requires t in s.tasks && s.tasks[t].pc == Begin(c, p) && BeginExchange(s, t, c, p, ch).Some?
    ensures var s' := BeginExchange(s, t, c, p, ch).value; Idles(s, s', t) || Changes(s, s', t, p)
  {
  }

  lemma WriteSomeQuiet(s: Pool, t: TaskId, c: CellId, p: ProcId, n: nat, ch: Choice)
    requires t in s.tasks && s.tasks[t].pc == Write(c, p, n) && WriteSome(s, t, c, p, n, ch).Some?
    ensures Idles(s, WriteSome(s, t, c, p, n, ch).value, t)
  {
  }

  lemma ReadSomeQuiet(s: Pool, t: TaskId, c: CellId, p: ProcId, ch: Choice)
    requires t in s.tasks && s.tasks[t].pc == Read(c, p) && ReadSome(s, t, c, p, ch).Some?
    ensures var s' := ReadSome(s, t, c, p, ch).value; Idles(s, s', t) || Changes(s, s', t, p)
  {
  }

  lemma SettledQuiet(cfg: Config, s: Pool, t: TaskId, c: CellId, p: ProcId, o: Outcome)
    requires t in s.tasks && s.tasks[t].pc == Reply(c, p, o) && Settled(cfg, s, t, c, p, o).Some?
    ensures Idles(s, Settled(cfg, s, t, c, p, o).value, t)
  {
  }

  lemma TouchQuiet(s: Pool, t: TaskId, o: Outcome)
    requires t in s.tasks && s.tasks[t].pc == TouchIn(o) && Touch(s, t, o).Some?
    ensures Idles(s, Touch(s, t, o).value, t)
  {
  }

  lemma SnapshotQuiet(s: Pool, t: TaskId)
    requires t in s.tasks && s.tasks[t].pc == DrainIn && Snapshot(s, t).Some?
    ensures Idles(s, Snapshot(s, t).value, t)
  {
  }

  lemma DrainNextQuiet(s: Pool, t: TaskId, rest: set<CellId>, ch: Choice)
    requires t in s.tasks && s.tasks[t].pc == DrainLoop(rest) && DrainNext(s, t, rest, ch).Some?
    ensures Idles(s, DrainNext(s, t, rest, ch).value, t)
  {
  }

  lemma ReapQuiet(s: Pool, t: TaskId, todo: set<SlotKey>, reaped: set<ProcId>, ch: Choice) returns (p: ProcId)
    requires t in s.tasks && s.tasks[t].pc == SweepIn(todo, reaped) && Reap(s, t, todo, reaped, ch).Some?
    ensures Idles(s, Reap(s, t, todo, reaped, ch).value, t) || Changes(s, Reap(s, t, todo, reaped, ch).value, t, p)
  {
    var s' := Reap(s, t, todo, reaped, ch).value;
    if todo != {} && s'.procs != s.procs {
      p := s.cells[s.slots[ch.k].cell].state.p;
    } else {
      p := 0;
    }
  }

  lemma AuditReapedQuiet(s: Pool, t: TaskId, reaped: set<ProcId>, ch: Choice)
    requires t in s.tasks && s.tasks[t].pc == SweepAudit(reaped) && AuditReaped(s, t, reaped, ch).Some?
    ensures var s' := AuditReaped(s, t, reaped, ch).value; Idles(s, s', t) || Changes(s, s', t, (if ch.Pick? then ch.id else 0))
  {
  }

  lemma TaskQuiet(cfg: Config, s: Pool, t: TaskId, ch: Choice)
    requires RunTask(cfg, s, t, ch).Some?
    ensures Quiet(s, RunTask(cfg, s, t, ch).value, t)
  {
    hide Quiet, Idles, Changes, TakeAlloc, TakeMap, LookUp, MakeRoom, LockCell, ClaimSlot, Terminate, GraceOver, StopCell, Forget, InspectCell,
         SpawnProcess, ShakeHands, BeginExchange, WriteSome, ReadSome, Settled, Touch, Snapshot, DrainNext, Reap, AuditReaped;
    var s' := RunTask(cfg, s, t, ch).value;
    var p: ProcId := 0;
    match s.tasks[t].pc {
      case WantAlloc => TakeAllocQuiet(s, t);
      case WantMap(b) => TakeMapQuiet(s, t, InMap(b));
      case InMap(b) => LookUpQuiet(s, t, b);
      case Room(b) => MakeRoomQuiet(cfg, s, t, b, ch);
      case RetWait(c, a) => LockCellQuiet(s, t, c, RetClaim(c, a));
      case RetClaim(c, a) => ClaimSlotQuiet(s, t, c, a);
      case Kill(c, q, a) =>
        TerminateQuiet(s, t, c, q, a);
        p := q;
      case Grace(c, q, a) =>
        GraceOverQuiet(s, t, c, q, a);
        p := q;
      case Settle(c, q, a) =>
        StopCellQuiet(s, t, c, q, a);
        p := q;
      case ForgetWait(c, a) => TakeMapQuiet(s, t, ForgetIn(c, a));
      case ForgetIn(c, a) => ForgetQuiet(s, t, c, a);
      case CellWait(c) => LockCellQuiet(s, t, c, Inspect(c));
      case Inspect(c) => InspectCellQuiet(s, t, c);
      case Spawn(c) =>
        SpawnProcessQuiet(s, t, c, ch);
        p := if ch.NewProc? then ch.p else 0;
      case Handshake(c, q) =>
        ShakeHandsQuiet(s, t, c, q, ch);
        p := q;
      case Begin(c, q) =>
        BeginExchangeQuiet(s, t, c, q, ch);
        p := q;
      case Write(c, q, n) => WriteSomeQuiet(s, t, c, q, n, ch);
      case Read(c, q) =>
        ReadSomeQuiet(s, t, c, q, ch);
        p := q;
      case Reply(c, q, o) => SettledQuiet(cfg, s, t, c, q, o);
      case TouchWait(o) => TakeMapQuiet(s, t, TouchIn(o));
      case TouchIn(o) => TouchQuiet(s, t, o);
      case DrainWait => TakeMapQuiet(s, t, DrainIn);
      case DrainIn => SnapshotQuiet(s, t);
      case DrainLoop(rest) => DrainNextQuiet(s, t, rest, ch);
      case SweepWait => TakeMapQuiet(s, t, SweepIn(s.slots.Keys, {}));
      case SweepIn(todo, reaped) => p := ReapQuiet(s, t, todo, reaped, ch);
      case SweepAudit(reaped) =>
        AuditReapedQuiet(s, t, reaped, ch);
        p := if ch.Pick? then ch.id else 0;
    }
    if Idles(s, s', t) {
      IdleIsQuiet(s, s', t);
    } else {
      ChangeIsQuiet(s, s', t, p);
    }
  }

  // ---- one retirement, whatever happens meanwhile ----

  /** Task `t` is killing `p`, which is in the cell `c` that `t` holds. */
  ghost predicate Retires(s: Pool, t: TaskId, c: CellId, p: ProcId) {
    t in s.tasks && var pc := s.tasks[t].pc; (pc.Kill? || pc.Grace? || pc.Settle?) && pc.c == c && pc.p == p
  }

  lemma RetiresWhat(cfg: Config, s: Pool, t: TaskId, c: CellId, p: ProcId)
    requires Inv(cfg, s) && Retires(s, t, c, p)
    ensures Owned(s, c, p) && s.cells[c].lock == Some(t) && TaskCell(cfg, s, t)
  {
    assert TaskOk(cfg, s, t);
  }

  /** Nobody else is killing it. */
  lemma OneKiller(cfg: Config, s: Pool, t: TaskId, c: CellId, p: ProcId, u: TaskId)
    requires Inv(cfg, s) && Retires(s, t, c, p) && u in s.tasks && u != t
    ensures !Kills(s.tasks[u].pc, p)
  {
    RetiresWhat(cfg, s, t, c, p);
    if Kills(s.tasks[u].pc, p) {
      RetiresWhat(cfg, s, u, s.tasks[u].pc.c, p);
    }
  }

  /** An arrival, or a step of the environment. */
  lemma Outside(cfg: Config, s: Pool, step: Step, t: TaskId, p: ProcId)
    requires t in s.tasks && p in s.procs && NextState(cfg, s, step).Some? && !step.Run?
    ensures var s' := NextState(cfg, s, step).value;
      && t in s'.tasks && s'.tasks[t] == s.tasks[t] && p in s'.procs
      && (s'.procs[p].alive <==> s.procs[p].alive && step != Exit(p))
      && (s'.procs[p].claim == s.procs[p].claim || s.procs[p].claim == Unclaimed)
  {
    hide RunTask, Channel.Step;
  }

  lemma QuietTask(s: Pool, s': Pool, t: TaskId)
    requires Quiet(s, s', t)
    ensures t in s.tasks
  {
  }

  lemma LeftAlone(s: Pool, s': Pool, u: TaskId, t: TaskId, p: ProcId)
    requires Quiet(s, s', u) && t in s.tasks && t != u && p in s.procs && !Kills(s.tasks[u].pc, p)
    ensures t in s'.tasks && s'.tasks[t] == s.tasks[t] && p in s'.procs
    ensures s'.procs[p].alive == s.procs[p].alive && s'.procs[p].claim == s.procs[p].claim
  {
  }

  lemma Meanwhile(cfg: Config, s: Pool, step: Step, t: TaskId, c: CellId, p: ProcId)
    requires Inv(cfg, s) && Retires(s, t, c, p) && NextState(cfg, s, step).Some? && !(step.Run? && step.t == t)
    ensures var s' := NextState(cfg, s, step).value;
      && t in s'.tasks && s'.tasks[t] == s.tasks[t] && p in s.procs && p in s'.procs
      && (s'.procs[p].alive <==> s.procs[p].alive && step != Exit(p))
      && (s'.procs[p].claim == s.procs[p].claim || s.procs[p].claim == Unclaimed)
  {
    RetiresWhat(cfg, s, t, c, p);
    if step.Run? {
      var u := step.t;
      assert NextState(cfg, s, step) == RunTask(cfg, s, u, step.ch);
      hide RunTask, NextState, Inv, Quiet;
      TaskQuiet(cfg, s, u, step.ch);
      QuietTask(s, NextState(cfg, s, step).value, u);
      OneKiller(cfg, s, t, c, p, u);
      LeftAlone(s, NextState(cfg, s, step).value, u, t, p);
    } else {
      Outside(cfg, s, step, t, p);
    }
  }

  /** The state of the process, given whether it was still running by itself. */
  ghost predicate Fate(s: Pool, t: TaskId, p: ProcId, running: bool)
    requires t in s.tasks && p in s.procs
  {
    if s.tasks[t].pc.Settle? then
      s.procs[p].claim != Unclaimed && (s.procs[p].alive <==> running && s.procs[p].claim == ByReaper)
    else s.procs[p].alive <==> running
  }

  lemma KillFate(cfg: Config, s: Pool, ch: Choice, t: TaskId, c: CellId, p: ProcId, running: bool)
    requires t in s.tasks && TaskCell(cfg, s, t) && p in s.procs && Retires(s, t, c, p) && Fate(s, t, p, running)
    requires RunTask(cfg, s, t, ch).Some? && Retires(RunTask(cfg, s, t, ch).value, t, c, p)
    ensures p in RunTask(cfg, s, t, ch).value.procs && Fate(RunTask(cfg, s, t, ch).value, t, p, running)
  {
  }

  lemma StepFate(cfg: Config, s: Pool, step: Step, t: TaskId, c: CellId, p: ProcId, running: bool)
    requires Inv(cfg, s) && Retires(s, t, c, p) && p in s.procs && Fate(s, t, p, running)
    requires NextState(cfg, s, step).Some? && Retires(NextState(cfg, s, step).value, t, c, p)
    ensures p in NextState(cfg, s, step).value.procs
    ensures Fate(NextState(cfg, s, step).value, t, p, running && step != Exit(p))
  {
    if step.Run? && step.t == t {
      RetiresWhat(cfg, s, t, c, p);
      hide Inv;
      KillFate(cfg, s, step.ch, t, c, p, running);
    } else {
      Meanwhile(cfg, s, step, t, c, p);
      hide Inv, NextState;
    }
  }

  ghost predicate InRetirement(run: seq<Pool>, t: TaskId, c: CellId, p: ProcId, i: nat, j: nat)
    requires i <= j < |run|
  {
    forall k :: i <= k <= j ==> Retires(run[k], t, c, p)
  }

  lemma RunStep(cfg: Config, run: seq<Pool>, steps: seq<Step>, i: nat)
    requires IsRun(cfg, run, steps) && i < |steps|
    ensures NextState(cfg, run[i], steps[i]) == Some(run[i + 1])
  {
  }

  /** While the retirement goes on, the process lives as long as it does not exit
      by itself, until the pool's own kill is over. */
  lemma {:induction false} RetirementFate(cfg: Config, run: seq<Pool>, steps: seq<Step>, t: TaskId, c: CellId, p: ProcId, i: nat, j: nat)
    requires IsRun(cfg, run, steps) && i <= j <= |steps| && InRetirement(run, t, c, p, i, j) && run[i].tasks[t].pc.Kill?
    ensures p in run[i].procs && p in run[j].procs
    ensures Fate(run[j], t, p, run[i].procs[p].alive && Exit(p) !in steps[i..j])
  {
    hide Inv, NextState, TaskCell;
    if i == j {
      RunInv(cfg, run, steps, i);
      RetiresWhat(cfg, run[i], t, c, p);
    } else {
      RetirementFate(cfg, run, steps, t, c, p, i, j - 1);
      RunInv(cfg, run, steps, j - 1);
      RunStep(cfg, run, steps, j - 1);
      hide IsRun;
      assert steps[i..j] == steps[i..j - 1] + [steps[j - 1]];
      hide Fate;
      StepFate(cfg, run[j - 1], steps[j - 1], t, c, p, run[i].procs[p].alive && Exit(p) !in steps[i..j - 1]);
    }
  }

  /** In every run, whatever other tasks, the process and the reaper do between
      the start of a retirement and its end: the step that frees the cell leaves
      the process alive exactly when the kill was the reaper's and the process,
      alive at the start, has not exited by itself. */
  lemma RetirementStrandsIff(cfg: Config, run: seq<Pool>, steps: seq<Step>, t: TaskId, ch: Choice, c: CellId, p: ProcId, i: nat, j: nat)
    requires IsRun(cfg, run, steps) && i <= j < |steps| && InRetirement(run, t, c, p, i, j)
    requires run[i].tasks[t].pc.Kill? && run[j].tasks[t].pc.Settle? && steps[j] == Run(t, ch)
    ensures p in run[i].procs && p in run[j].procs
    ensures var s' := run[j + 1];
      && c in s'.cells && s'.cells[c].state == Stopped && s'.cells[c].lock == None
      && p in s'.procs
      && (s'.procs[p].alive <==> run[j].procs[p].claim == ByReaper && run[i].procs[p].alive && Exit(p) !in steps[i..j])
  {
    RetirementFate(cfg, run, steps, t, c, p, i, j);
    RunStep(cfg, run, steps, j);
    hide IsRun;
    Frees(cfg, run[j], t, ch);
  }

  lemma Frees(cfg: Config, s: Pool, t: TaskId, ch: Choice)
    requires t in s.tasks && s.tasks[t].pc.Settle? && RunTask(cfg, s, t, ch).Some?
    ensures var c, p, s' := s.tasks[t].pc.c, s.tasks[t].pc.p, RunTask(cfg, s, t, ch).value;
      && c in s'.cells && s'.cells[c].state == Stopped && s'.cells[c].lock == None
      && p in s.procs && p in s'.procs && s'.procs[p].alive == s.procs[p].alive
  {
  }

  /** A retirement is never held up: the next step of its task is always possible. */
  lemma RetirementGoesOn(cfg: Config, s: Pool, t: TaskId, c: CellId, p: ProcId)
    requires Reachable(cfg, s) && Retires(s, t, c, p)
    ensures RunTask(cfg, s, t, Go).Some?
  {
    ReachableInv(cfg, s);
    RetiresWhat(cfg, s, t, c, p);
  }
}
