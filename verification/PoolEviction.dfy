/** Which instance has to go when an agent is at its ceiling. */
module PoolEviction {
  import opened Common
  import opened PoolModel
  import opened PoolInvariant
  import opened PoolSafety
  import Channel
  import PoolRetirement

  // ---- the last use of a key, told by the run ----

  /** A request for the key found its entry or made it, or has done with its answer. */
  predicate Uses(s: Pool, step: Step, s': Pool, k: SlotKey) {
    && step.Run? && step.t in s.tasks && step.t in s'.tasks
    && s.tasks[step.t].job.Request? && s.tasks[step.t].job.key == k
    && var pc, pc' := s.tasks[step.t].pc, s'.tasks[step.t].pc;
       ((pc.InMap? || pc.Room?) && pc'.CellWait?) || pc.TouchIn?
  }

  /** When the key was last used in the first `i` steps of the run. */
  function LastUse(run: seq<Pool>, steps: seq<Step>, i: nat, k: SlotKey): Option<nat>
    requires i <= |steps| && |run| == |steps| + 1
  {
    if i == 0 then None
    else if Uses(run[i - 1], steps[i - 1], run[i], k) then Some(run[i - 1].clock)
    else LastUse(run, steps, i - 1, k)
  }

  // ---- one step ----

  /** Every entry is as it was, or its key is used now. */
  ghost predicate Dated(s: Pool, step: Step, s': Pool) {
    forall k :: k in s'.slots ==>
      if Uses(s, step, s', k) then s'.slots[k].lastUsed == s.clock
      else k in s.slots && s'.slots[k].lastUsed == s.slots[k].lastUsed
  }

  predicate OnMap(pc: Pc) {
    pc.InMap? || pc.Room? || pc.ForgetIn? || pc.TouchIn? || pc.SweepIn?
  }

  lemma KeepsSlots(cfg: Config, s: Pool, t: TaskId, ch: Choice)
    requires RunTask(cfg, s, t, ch).Some? && !OnMap(s.tasks[t].pc)
    ensures RunTask(cfg, s, t, ch).value.slots == s.slots
  {
    hide Channel.Step, Channel.Parse, ClassifyWriteFailure, LookUp, MakeRoom, Forget, Touch, Reap;
  }

  lemma LookUpDates(cfg: Config, s: Pool, t: TaskId, b: Option<nat>, ch: Choice)
    requires t in s.tasks && s.tasks[t].pc == InMap(b) && LookUp(s, t, b).Some?
    ensures Dated(s, Run(t, ch), LookUp(s, t, b).value)
  {
  }

  lemma MakeRoomDates(cfg: Config, s: Pool, t: TaskId, b: Option<nat>, ch: Choice)
    requires t in s.tasks && s.tasks[t].pc == Room(b) && MakeRoom(cfg, s, t, b, ch).Some?
    ensures Dated(s, Run(t, ch), MakeRoom(cfg, s, t, b, ch).value)
  {
  }

  lemma ForgetDates(cfg: Config, s: Pool, t: TaskId, c: CellId, a: After, ch: Choice)
    requires t in s.tasks && s.tasks[t].pc == ForgetIn(c, a) && Forget(s, t, c, a).Some?
    ensures Dated(s, Run(t, ch), Forget(s, t, c, a).value)
  {
  }

  lemma TouchDates(cfg: Config, s: Pool, t: TaskId, o: Outcome, ch: Choice)
    requires t in s.tasks && s.tasks[t].pc == TouchIn(o) && Touch(s, t, o).Some?
    ensures Dated(s, Run(t, ch), Touch(s, t, o).value)
  {
  }

  lemma ReapDates(cfg: Config, s: Pool, t: TaskId, todo: set<SlotKey>, reaped: set<ProcId>, ch: Choice)
    requires t in s.tasks && s.tasks[t].pc == SweepIn(todo, reaped) && Reap(s, t, todo, reaped, ch).Some?
    ensures Dated(s, Run(t, ch), Reap(s, t, todo, reaped, ch).value)
  {
  }

  lemma StepDates(cfg: Config, s: Pool, step: Step)
    requires NextState(cfg, s, step).Some?
    ensures Dated(s, step, NextState(cfg, s, step).value)
  {
    if step.Run? {
      var t, ch := step.t, step.ch;
      assert NextState(cfg, s, step) == RunTask(cfg, s, t, ch);
      hide NextState, LookUp, MakeRoom, Forget, Touch, Reap;
      match s.tasks[t].pc {
        case InMap(b) => hide Dated; LookUpDates(cfg, s, t, b, ch);
        case Room(b) => hide Dated; MakeRoomDates(cfg, s, t, b, ch);
        case ForgetIn(c, a) => hide Dated; ForgetDates(cfg, s, t, c, a, ch);
        case TouchIn(o) => hide Dated; TouchDates(cfg, s, t, o, ch);
        case SweepIn(todo, reaped) => hide Dated; ReapDates(cfg, s, t, todo, reaped, ch);
        case _ =>
          KeepsSlots(cfg, s, t, ch);
          hide RunTask;
      }
    } else {
      hide RunTask, Channel.Step;
    }
  }

  // ---- the whole run ----

  lemma {:induction false} LastUseIs(cfg: Config, run: seq<Pool>, steps: seq<Step>, i: nat)
    requires IsRun(cfg, run, steps) && i <= |steps|
    ensures forall k :: k in run[i].slots ==> LastUse(run, steps, i, k) == Some(run[i].slots[k].lastUsed)
  {
    hide NextState, Uses;
    if i > 0 {
      PoolRetirement.RunStep(cfg, run, steps, i - 1);
      LastUseIs(cfg, run, steps, i - 1);
      StepDates(cfg, run[i - 1], steps[i - 1]);
    }
  }

  /** At the ceiling, whatever happened in the run before, the task goes on to
      retire the cell of a key of its agent whose last use is no later than that
      of any other key of the agent. */
  lemma LeastRecentlyUsedGoes(cfg: Config, run: seq<Pool>, steps: seq<Step>, i: nat, t: TaskId, ch: Choice)
    requires IsRun(cfg, run, steps) && i < |steps| && steps[i] == Run(t, ch)
    requires t in run[i].tasks && run[i].tasks[t].pc.Room? && run[i].tasks[t].job.Request?
    requires var agent := run[i].tasks[t].job.key.agent;
      |set k | k in run[i].slots && k.agent == agent| >= cfg.maxInstances(agent) >= 1
    ensures t in run[i + 1].tasks && run[i + 1].tasks[t].pc.RetWait?
    ensures exists k ::
      && k in run[i].slots && k.agent == run[i].tasks[t].job.key.agent
      && run[i].slots[k].cell == run[i + 1].tasks[t].pc.c
      && NoLaterThanAny(run, steps, i, k)
  {
    var s := run[i];
    PoolRetirement.RunStep(cfg, run, steps, i);
    LastUseIs(cfg, run, steps, i);
    hide IsRun;
    var agent := s.tasks[t].job.key.agent;
    assert AgentKeys(s.slots, agent) == set k | k in s.slots && k.agent == agent;
    var k := VictimOf(cfg, s, t, ch);
    assert NoLaterThanAny(run, steps, i, k);
  }

  /** No key of the agent was last used before this one was. */
  ghost predicate NoLaterThanAny(run: seq<Pool>, steps: seq<Step>, i: nat, k: SlotKey)
    requires i <= |steps| && |run| == |steps| + 1
  {
    && LastUse(run, steps, i, k).Some?
    && forall j :: j in run[i].slots && j.agent == k.agent ==>
         LastUse(run, steps, i, j).Some? && LastUse(run, steps, i, k).value <= LastUse(run, steps, i, j).value
  }

  lemma VictimOf(cfg: Config, s: Pool, t: TaskId, ch: Choice) returns (k: SlotKey)
    requires t in s.tasks && s.tasks[t].pc.Room? && s.tasks[t].job.Request? && RunTask(cfg, s, t, ch).Some?
    requires var agent := s.tasks[t].job.key.agent; |AgentKeys(s.slots, agent)| >= cfg.maxInstances(agent) >= 1
    ensures var s', agent := RunTask(cfg, s, t, ch).value, s.tasks[t].job.key.agent;
      && t in s'.tasks && s'.tasks[t].pc.RetWait?
      && k in AgentKeys(s.slots, agent) && s.slots[k].cell == s'.tasks[t].pc.c
      && forall j :: j in AgentKeys(s.slots, agent) ==> s.slots[k].lastUsed <= s.slots[j].lastUsed
  {
    k := ch.k;
  }

  // ---- the cell a request is given ----

  /** An entry is of use unless its cell can be seen to be stopped. */
  predicate Usable(s: Pool, k: SlotKey) {
    && k in s.slots && s.slots[k].cell in s.cells
    && !(s.cells[s.slots[k].cell].lock == None && s.cells[s.slots[k].cell].state == Stopped)
  }

  lemma LookUpIs(s: Pool, t: TaskId, b: Option<nat>)
    requires t in s.tasks && s.tasks[t].job.Request? && LookUp(s, t, b).Some?
    ensures var key, s' := s.tasks[t].job.key, LookUp(s, t, b).value;
      && t in s'.tasks && s'.cells == s.cells
      && (forall k :: k != key ==> (k in s'.slots <==> k in s.slots) && (k in s.slots ==> s'.slots[k] == s.slots[k]))
      && if Usable(s, key) then s'.tasks[t].pc == CellWait(s.slots[key].cell) && key in s'.slots && s'.slots[key].cell == s.slots[key].cell
         else s'.tasks[t].pc.Room? && key !in s'.slots
  {
  }

  lemma MakeRoomIs(cfg: Config, s: Pool, t: TaskId, b: Option<nat>, ch: Choice)
    requires t in s.tasks && s.tasks[t].job.Request? && MakeRoom(cfg, s, t, b, ch).Some?
    ensures var key, s' := s.tasks[t].job.key, MakeRoom(cfg, s, t, b, ch).value;
      && t in s'.tasks
      && (forall k :: k != key ==> (k in s'.slots <==> k in s.slots) && (k in s.slots ==> s'.slots[k] == s.slots[k]))
      && (s'.tasks[t].pc.CellWait? <==> |AgentKeys(s.slots, key.agent)| < cfg.maxInstances(key.agent))
      && (s'.tasks[t].pc.CellWait? ==>
            var c := s'.tasks[t].pc.c;
            c !in s.cells && s'.cells == s.cells[c := Cell(key, Starting, None, None)] && key in s'.slots && s'.slots[key].cell == c)
  {
  }

  /** A lookup ends with a cell exactly when the key has a usable entry, and an
      attempt to make room exactly when the agent is below its ceiling. It is the
      entry's cell in the first case and a reservation in the second; either way
      it is the cell of this very key, and the other keys keep theirs. */
  lemma CellForKey(cfg: Config, s: Pool, t: TaskId, ch: Choice)
    requires Reachable(cfg, s) && t in s.tasks && s.tasks[t].job.Request? && RunTask(cfg, s, t, ch).Some?
    requires s.tasks[t].pc.InMap? || s.tasks[t].pc.Room?
    ensures var key, pc, s' := s.tasks[t].job.key, s.tasks[t].pc, RunTask(cfg, s, t, ch).value;
      && t in s'.tasks
      && (s'.tasks[t].pc.CellWait? <==>
            if pc.InMap? then Usable(s, key) else |set k | k in s.slots && k.agent == key.agent| < cfg.maxInstances(key.agent))
      && (forall k :: k != key ==> (k in s'.slots <==> k in s.slots) && (k in s.slots ==> s'.slots[k] == s.slots[k]))
      && (s'.tasks[t].pc.CellWait? ==>
            var c := s'.tasks[t].pc.c;
            && key in s'.slots && s'.slots[key].cell == c && c in s'.cells && s'.cells[c].key == key
            && if pc.InMap? then c == s.slots[key].cell && s'.cells == s.cells
               else c !in s.cells && s'.cells == s.cells[c := Cell(key, Starting, None, None)])
      && (pc.InMap? && !s'.tasks[t].pc.CellWait? ==> s'.tasks[t].pc.Room? && key !in s'.slots)
  {
    hide Inv, Usable, LookUp, MakeRoom;
    assert AgentKeys(s.slots, s.tasks[t].job.key.agent) == set k | k in s.slots && k.agent == s.tasks[t].job.key.agent;
    hide AgentKeys;
    KeyOfEntry(cfg, s, s.tasks[t].job.key);
    match s.tasks[t].pc {
      case InMap(b) => LookUpIs(s, t, b);
      case Room(b) => MakeRoomIs(cfg, s, t, b, ch);
    }
  }

  lemma KeyOfEntry(cfg: Config, s: Pool, k: SlotKey)
    requires Reachable(cfg, s)
    ensures Usable(s, k) ==> s.slots[k].cell in s.cells && s.cells[s.slots[k].cell].key == k
  {
    ReachableInv(cfg, s);
    assert k in s.slots ==> SlotOk(s, k);
  }
}
