/** A drain retires nothing outside its scope. */
module PoolDrain {
  import opened Common
  import opened PoolModel
  import opened PoolInvariant
  import opened PoolSafety
  import Channel
  import PoolAnswers
  import PoolRetirement

  /** The cells a drain has still to retire, the one at hand among them. */
  function Ahead(pc: Pc): set<CellId> {
    if pc.DrainLoop? then pc.rest
    else if Pending(pc).Some? && Pending(pc).value.NextVictim? then Pending(pc).value.rest + {RetiringCell(pc)}
    else {}
  }

  /** The cell is of an agent that the drain is for: of any, or of the one that is forgotten. */
  ghost predicate ForDrain(s: Pool, scope: Option<string>, c: CellId) {
    c in s.cells && (scope == None || scope == Some(s.cells[c].key.agent))
  }

  ghost predicate Within(s: Pool, t: TaskId)
    requires t in s.tasks
  {
    s.tasks[t].job.Drain? ==> forall c :: c in Ahead(s.tasks[t].pc) ==> ForDrain(s, s.tasks[t].job.scope, c)
  }

  /** The task gets on with its drain: it takes nothing up that was not ahead of it. */
  ghost predicate GetsOn(s: Pool, s': Pool, t: TaskId) {
    && t in s.tasks && t in s'.tasks && s'.tasks[t].job == s.tasks[t].job
    && Ahead(s'.tasks[t].pc) <= Ahead(s.tasks[t].pc)
  }

  lemma RetirementGetsOn(cfg: Config, s: Pool, t: TaskId, ch: Choice)
    requires RunTask(cfg, s, t, ch).Some? && s.tasks[t].job.Drain? && PcFits(s.tasks[t].job, s.tasks[t].pc)
    requires Pending(s.tasks[t].pc).Some?
    ensures GetsOn(s, RunTask(cfg, s, t, ch).value, t)
  {
  }

  lemma LoopGetsOn(cfg: Config, s: Pool, t: TaskId, ch: Choice)
    requires RunTask(cfg, s, t, ch).Some? && s.tasks[t].job.Drain?
    requires var pc := s.tasks[t].pc; pc.WantAlloc? || pc.DrainWait? || pc.DrainLoop?
    ensures GetsOn(s, RunTask(cfg, s, t, ch).value, t)
  {
  }

  /** The snapshot holds the cells of the entries in scope, all of them and no others. */
  lemma SnapshotIs(s: Pool, t: TaskId)
    requires t in s.tasks && s.tasks[t].job.Drain? && Snapshot(s, t).Some?
    ensures var scope, s' := s.tasks[t].job.scope, Snapshot(s, t).value;
      && t in s'.tasks && s'.tasks[t].job == s.tasks[t].job && s'.cells == s.cells && s'.tasks[t].pc.DrainLoop?
      && forall c :: c in s'.tasks[t].pc.rest <==>
           exists k :: k in s.slots && s.slots[k].cell == c && (scope == None || scope == Some(k.agent))
  {
  }

  lemma SnapshotWithin(s: Pool, t: TaskId)
    requires t in s.tasks && s.tasks[t].job.Drain? && Snapshot(s, t).Some?
    requires forall k :: k in s.slots ==> SlotOk(s, k)
    ensures t in Snapshot(s, t).value.tasks && Within(Snapshot(s, t).value, t)
  {
    SnapshotIs(s, t);
    hide Snapshot;
  }

  /** What is ahead of a task stays in its scope while others work: a cell keeps its key. */
  lemma CellsStay(s: Pool, s': Pool, t: TaskId)
    requires PoolAnswers.CellsAge(s, s') && t in s.tasks && Within(s, t)
    requires t in s'.tasks && s'.tasks[t].job == s.tasks[t].job && Ahead(s'.tasks[t].pc) <= Ahead(s.tasks[t].pc)
    ensures Within(s', t)
  {
    hide Ahead;
    forall c | s.tasks[t].job.Drain? && c in Ahead(s'.tasks[t].pc)
      ensures ForDrain(s', s.tasks[t].job.scope, c)
    {
      assert ForDrain(s, s.tasks[t].job.scope, c);
    }
  }

  lemma OwnStep(cfg: Config, s: Pool, t: TaskId, ch: Choice)
    requires RunTask(cfg, s, t, ch).Some? && s.tasks[t].job.Drain? && PcFits(s.tasks[t].job, s.tasks[t].pc)
    requires forall k :: k in s.slots ==> SlotOk(s, k)
    ensures t in RunTask(cfg, s, t, ch).value.tasks
    ensures GetsOn(s, RunTask(cfg, s, t, ch).value, t) || Within(RunTask(cfg, s, t, ch).value, t)
  {
    hide GetsOn, Within, SlotOk;
    if Pending(s.tasks[t].pc).Some? {
      RetirementGetsOn(cfg, s, t, ch);
      hide *;
      GetsOnKeeps(s, RunTask(cfg, s, t, ch).value, t);
    } else if s.tasks[t].pc.DrainIn? {
      assert RunTask(cfg, s, t, ch) == Snapshot(s, t);
      hide *;
      SnapshotWithin(s, t);
    } else {
      LoopGetsOn(cfg, s, t, ch);
      hide *;
      GetsOnKeeps(s, RunTask(cfg, s, t, ch).value, t);
    }
  }

  lemma GetsOnKeeps(s: Pool, s': Pool, t: TaskId)
    requires GetsOn(s, s', t)
    ensures t in s'.tasks
  {
  }

  /** Whoever makes the step, a task keeps its job. */
  lemma JobStays(cfg: Config, s: Pool, step: Step, t: TaskId)
    requires NextState(cfg, s, step).Some? && t in s.tasks
    ensures var s' := NextState(cfg, s, step).value;
      t in s'.tasks && s'.tasks[t].job == s.tasks[t].job && (s'.tasks[t] == s.tasks[t] || (step.Run? && step.t == t))
  {
    hide RunTask, Channel.Step, PoolRetirement.ProcQuiet;
    if step.Run? {
      PoolRetirement.TaskQuiet(cfg, s, step.t, step.ch);
    }
  }

  lemma Newcomer(cfg: Config, s: Pool, step: Step, t: TaskId)
    requires NextState(cfg, s, step).Some? && t !in s.tasks && t in NextState(cfg, s, step).value.tasks
    ensures Within(NextState(cfg, s, step).value, t)
  {
    hide RunTask, Channel.Step, PoolRetirement.ProcQuiet;
    if step.Run? {
      PoolRetirement.TaskQuiet(cfg, s, step.t, step.ch);
    }
  }

  lemma Fits(cfg: Config, s: Pool, t: TaskId)
    requires Reachable(cfg, s) && t in s.tasks
    ensures PcFits(s.tasks[t].job, s.tasks[t].pc) && forall k :: k in s.slots ==> SlotOk(s, k)
  {
    ReachableInv(cfg, s);
    assert TaskOk(cfg, s, t);
  }

  lemma StepWithin(cfg: Config, s: Pool, step: Step, t: TaskId)
    requires Reachable(cfg, s) && NextState(cfg, s, step).Some? && t in NextState(cfg, s, step).value.tasks
    requires t in s.tasks ==> Within(s, t)
    ensures Within(NextState(cfg, s, step).value, t)
  {
    hide Reachable, RunTask, PoolAnswers.CellsAge, Ahead, PcFits, SlotOk, ForDrain;
    if t !in s.tasks {
      Newcomer(cfg, s, step, t);
    } else {
      JobStays(cfg, s, step, t);
      PoolAnswers.StepAges(cfg, s, step);
      if step.Run? && step.t == t && s.tasks[t].job.Drain? {
        Fits(cfg, s, t);
        OwnStep(cfg, s, t, step.ch);
      }
      hide NextState;
      if !s.tasks[t].job.Drain? {
      } else if !Within(NextState(cfg, s, step).value, t) {
        CellsStay(s, NextState(cfg, s, step).value, t);
      }
    }
  }

  lemma {:induction false} RunWithin(cfg: Config, run: seq<Pool>, steps: seq<Step>, i: nat, t: TaskId)
    requires IsRun(cfg, run, steps) && i <= |steps| && t in run[i].tasks
    ensures Within(run[i], t)
    decreases i
  {
    hide NextState, Within, Reachable;
    if i > 0 {
      PoolAnswers.PrefixReachable(cfg, run, steps, i - 1);
      PoolRetirement.RunStep(cfg, run, steps, i - 1);
      if t in run[i - 1].tasks {
        RunWithin(cfg, run, steps, i - 1, t);
      }
      hide IsRun;
      StepWithin(cfg, run[i - 1], steps[i - 1], t);
    }
  }

  /** Forgetting one agent retires no cell of another. */
  lemma DrainStaysInScope(cfg: Config, s: Pool, t: TaskId, agent: string)
    requires Reachable(cfg, s) && t in s.tasks && s.tasks[t].job == Drain(Some(agent))
    ensures var pc := s.tasks[t].pc;
      pc.RetWait? || pc.RetClaim? || pc.Kill? || pc.Grace? || pc.Settle? || pc.ForgetWait? || pc.ForgetIn? ==>
        pc.c in s.cells && s.cells[pc.c].key.agent == agent
  {
    Fits(cfg, s, t);
    var run: seq<Pool>, steps: seq<Step> :| IsRun(cfg, run, steps) && s == run[|steps|];
    hide IsRun, NextState;
    RunWithin(cfg, run, steps, |steps|, t);
    var pc := s.tasks[t].pc;
    if Pending(pc).Some? {
      assert RetiringCell(pc) in Ahead(pc);
    }
  }
}
