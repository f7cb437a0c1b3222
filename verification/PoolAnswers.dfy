/** Answers over whole runs of the pool: who gets which reply. */
module PoolAnswers {
  import opened Common
  import opened PoolModel
  import opened PoolInvariant
  import opened PoolFrame
  import opened PoolSafety
  import opened PoolTheorems
  import Channel

  ghost predicate Channels(s: Pool) {
    forall p :: p in s.procs ==> Channel.Inv(s.procs[p].chan)
  }

  /** Each process keeps its channel, or the channel makes one step. */
  ghost predicate ChannelsMove(s: Pool, s': Pool) {
    forall p :: p in s'.procs ==>
      if p !in s.procs then s'.procs[p].chan == Channel.Fresh
      else s'.procs[p].chan == s.procs[p].chan
           || Channel.Step(s.procs[p].chan, Channel.Ask) == Some(s'.procs[p].chan)
           || Channel.Step(s.procs[p].chan, Channel.Read) == Some(s'.procs[p].chan)
  }

  lemma SlotForChannels(cfg: Config, s: Pool, t: TaskId, ch: Choice)
    requires RunTask(cfg, s, t, ch).Some?
    requires var pc := s.tasks[t].pc; pc.WantAlloc? || pc.WantMap? || pc.InMap? || pc.Room?
    ensures ChannelsMove(s, RunTask(cfg, s, t, ch).value)
  {
  }

  lemma RetireChannels(cfg: Config, s: Pool, t: TaskId, ch: Choice)
    requires RunTask(cfg, s, t, ch).Some? && Pending(s.tasks[t].pc).Some?
    ensures ChannelsMove(s, RunTask(cfg, s, t, ch).value)
  {
  }

  lemma LockChannels(cfg: Config, s: Pool, t: TaskId, ch: Choice)
    requires RunTask(cfg, s, t, ch).Some?
    requires var pc := s.tasks[t].pc; pc.CellWait? || pc.Inspect? || pc.Spawn?
    ensures ChannelsMove(s, RunTask(cfg, s, t, ch).value)
  {
  }

  lemma TalkChannels(cfg: Config, s: Pool, t: TaskId, ch: Choice)
    requires RunTask(cfg, s, t, ch).Some?
    requires var pc := s.tasks[t].pc; pc.Handshake? || pc.Begin?
    ensures ChannelsMove(s, RunTask(cfg, s, t, ch).value)
  {
  }

  lemma ExchangeChannels(cfg: Config, s: Pool, t: TaskId, ch: Choice)
    requires RunTask(cfg, s, t, ch).Some?
    requires var pc := s.tasks[t].pc; pc.Write? || pc.Read?
    ensures ChannelsMove(s, RunTask(cfg, s, t, ch).value)
  {
  }

  lemma SettleChannels(cfg: Config, s: Pool, t: TaskId, ch: Choice)
    requires RunTask(cfg, s, t, ch).Some?
    requires var pc := s.tasks[t].pc; pc.Reply? || pc.TouchWait? || pc.TouchIn?
    ensures ChannelsMove(s, RunTask(cfg, s, t, ch).value)
  {
  }

  lemma DrainChannels(cfg: Config, s: Pool, t: TaskId, ch: Choice)
    requires RunTask(cfg, s, t, ch).Some?
    requires var pc := s.tasks[t].pc; pc.DrainWait? || pc.DrainIn? || pc.DrainLoop?
    ensures ChannelsMove(s, RunTask(cfg, s, t, ch).value)
  {
  }

  lemma ReapChannels(cfg: Config, s: Pool, t: TaskId, ch: Choice)
    requires RunTask(cfg, s, t, ch).Some? && s.tasks[t].pc.SweepIn?
    ensures ChannelsMove(s, RunTask(cfg, s, t, ch).value)
  {
  }

  lemma SweepChannels(cfg: Config, s: Pool, t: TaskId, ch: Choice)
    requires RunTask(cfg, s, t, ch).Some?
    requires var pc := s.tasks[t].pc; pc.SweepWait? || pc.SweepAudit?
    ensures ChannelsMove(s, RunTask(cfg, s, t, ch).value)
  {
  }

  lemma TaskChannels(cfg: Config, s: Pool, t: TaskId, ch: Choice)
    requires RunTask(cfg, s, t, ch).Some?
    ensures ChannelsMove(s, RunTask(cfg, s, t, ch).value)
  {
    var pc := s.tasks[t].pc;
    if pc.WantAlloc? || pc.WantMap? || pc.InMap? || pc.Room? {
      SlotForChannels(cfg, s, t, ch);
    } else if Pending(pc).Some? {
      RetireChannels(cfg, s, t, ch);
    } else if pc.CellWait? || pc.Inspect? || pc.Spawn? {
      LockChannels(cfg, s, t, ch);
    } else if pc.Handshake? || pc.Begin? {
      TalkChannels(cfg, s, t, ch);
    } else if pc.Write? || pc.Read? {
      ExchangeChannels(cfg, s, t, ch);
    } else if pc.Reply? || pc.TouchWait? || pc.TouchIn? {
      SettleChannels(cfg, s, t, ch);
    } else if pc.DrainWait? || pc.DrainIn? || pc.DrainLoop? {
      DrainChannels(cfg, s, t, ch);
    } else if pc.SweepIn? {
      ReapChannels(cfg, s, t, ch);
    } else {
      SweepChannels(cfg, s, t, ch);
    }
  }

  lemma MoveKeepsChannels(s: Pool, s': Pool)
    requires Channels(s) && ChannelsMove(s, s')
    ensures Channels(s')
  {
    forall p | p in s'.procs
      ensures Channel.Inv(s'.procs[p].chan)
    {
      if p !in s.procs {
        assert Channel.Inv(Channel.Fresh);
      } else if s'.procs[p].chan != s.procs[p].chan {
        if Channel.Step(s.procs[p].chan, Channel.Ask) == Some(s'.procs[p].chan) {
          Channel.StepKeepsInv(s.procs[p].chan, Channel.Ask);
        } else {
          Channel.StepKeepsInv(s.procs[p].chan, Channel.Read);
        }
      }
    }
  }

  lemma EmitKeepsChannels(cfg: Config, s: Pool, p: ProcId, line: Channel.Line, about: nat)
    requires Channels(s) && NextState(cfg, s, Emit(p, line, about)).Some?
    ensures Channels(NextState(cfg, s, Emit(p, line, about)).value)
  {
    Channel.StepKeepsInv(s.procs[p].chan, Channel.Emit(line, about));
  }

  lemma StepKeepsChannels(cfg: Config, s: Pool, step: Step)
    requires Channels(s) && NextState(cfg, s, step).Some?
    ensures Channels(NextState(cfg, s, step).value)
  {
    match step
    case Run(t, ch) =>
      TaskChannels(cfg, s, t, ch);
      MoveKeepsChannels(s, NextState(cfg, s, step).value);
    case Emit(p, line, about) => EmitKeepsChannels(cfg, s, p, line, about);
    case _ => MoveKeepsChannels(s, NextState(cfg, s, step).value);
  }

  lemma {:induction false} RunChannels(cfg: Config, run: seq<Pool>, steps: seq<Step>, i: nat)
    requires IsRun(cfg, run, steps) && i <= |steps|
    ensures Channels(run[i])
  {
    if i > 0 {
      RunChannels(cfg, run, steps, i - 1);
      assert NextState(cfg, run[i - 1], steps[i - 1]) == Some(run[i - 1 + 1]);
      StepKeepsChannels(cfg, run[i - 1], steps[i - 1]);
    }
  }

  lemma ReachableChannels(cfg: Config, s: Pool)
    requires Reachable(cfg, s)
    ensures Channels(s)
  {
    var run: seq<Pool>, steps: seq<Step> :| IsRun(cfg, run, steps) && s == run[|steps|];
    RunChannels(cfg, run, steps, |steps|);
  }

  /** What a finished request returned is what its process replied under the id
      that this very request carried. Unless the agent prints replies without
      ids that no request is owed, that reply is about this request: a late reply
      to a request that timed out or was lost reaches nobody else. */
  lemma AnswersStayPut(cfg: Config, s: Pool, t: TaskId, p: ProcId, id: nat, item: Channel.Emitted)
    requires Reachable(cfg, s) && t in s.tasks && s.tasks[t].pc == Done(Answered(p, id, item))
    ensures p in s.procs && 1 <= id <= |s.procs[p].askers| && s.procs[p].askers[id - 1] == t
    ensures Channel.Answer(id, item) in s.procs[p].chan.log
    ensures Channel.NoSurplusRead(s.procs[p].chan) ==> item.about == id
    ensures Channel.NoIdLessSurplus(s.procs[p].chan) ==> item.about == id
  {
    AnswerOwner(cfg, s, t, p, id, item);
    ReachableChannels(cfg, s);
    GenuineAnswer(s.procs[p].chan, id, item);
  }

  lemma AnswerOwner(cfg: Config, s: Pool, t: TaskId, p: ProcId, id: nat, item: Channel.Emitted)
    requires Reachable(cfg, s) && t in s.tasks && s.tasks[t].pc == Done(Answered(p, id, item))
    ensures p in s.procs && 1 <= id <= |s.procs[p].askers| && s.procs[p].askers[id - 1] == t
    ensures id <= |s.procs[p].chan.log| && s.procs[p].chan.log[id - 1] == Channel.Answer(id, item)
  {
    ReachableShape(cfg, s, t);
    assert Result(s.tasks[t].pc) == Some(Answered(p, id, item));
  }

  lemma ReachableShape(cfg: Config, s: Pool, t: TaskId)
    requires Reachable(cfg, s) && t in s.tasks
    ensures TaskShape(s, t)
  {
    ReachableInv(cfg, s);
    assert TaskOk(cfg, s, t);
  }

  lemma GenuineAnswer(ch: Channel.State, id: nat, item: Channel.Emitted)
    requires Channel.Inv(ch) && 1 <= id <= |ch.log| && ch.log[id - 1] == Channel.Answer(id, item)
    ensures Channel.NoSurplusRead(ch) || Channel.NoIdLessSurplus(ch) ==> item.about == id
  {
    if Channel.NoSurplusRead(ch) || Channel.NoIdLessSurplus(ch) {
      assert Channel.Genuine(ch);
    }
  }

  // ---- a stopped cell stays stopped ----

  ghost predicate CellAges(cell: Cell, cell': Cell) {
    && cell'.key == cell.key
    && (cell.state == Stopped ==> cell'.state == Stopped)
    && (cell.hosted.Some? ==> cell'.hosted == cell.hosted)
  }

  ghost predicate CellsAge(s: Pool, s': Pool) {
    forall c :: c in s.cells ==> c in s'.cells && CellAges(s.cells[c], s'.cells[c])
  }

  lemma SlotForAges(cfg: Config, s: Pool, t: TaskId, ch: Choice)
    requires RunTask(cfg, s, t, ch).Some?
    requires var pc := s.tasks[t].pc; pc.WantAlloc? || pc.WantMap? || pc.InMap? || pc.Room?
    ensures CellsAge(s, RunTask(cfg, s, t, ch).value)
  {
  }

  lemma RetireAges(cfg: Config, s: Pool, t: TaskId, ch: Choice)
    requires RunTask(cfg, s, t, ch).Some? && Pending(s.tasks[t].pc).Some? && TaskCell(cfg, s, t)
    ensures CellsAge(s, RunTask(cfg, s, t, ch).value)
  {
  }

  lemma AttemptAges(cfg: Config, s: Pool, t: TaskId, ch: Choice)
    requires RunTask(cfg, s, t, ch).Some? && TaskCell(cfg, s, t)
    requires var pc := s.tasks[t].pc; pc.CellWait? || pc.Inspect? || pc.Spawn? || pc.Handshake? || pc.Begin?
    ensures CellsAge(s, RunTask(cfg, s, t, ch).value)
  {
  }

  lemma ExchangeAges(cfg: Config, s: Pool, t: TaskId, ch: Choice)
    requires RunTask(cfg, s, t, ch).Some? && TaskCell(cfg, s, t)
    requires var pc := s.tasks[t].pc; pc.Write? || pc.Read? || pc.Reply? || pc.TouchWait? || pc.TouchIn?
    ensures CellsAge(s, RunTask(cfg, s, t, ch).value)
  {
  }

  lemma BulkAges(cfg: Config, s: Pool, t: TaskId, ch: Choice)
    requires RunTask(cfg, s, t, ch).Some?
    requires var pc := s.tasks[t].pc;
      pc.DrainWait? || pc.DrainIn? || pc.DrainLoop? || pc.SweepWait? || pc.SweepIn? || pc.SweepAudit? || pc.Done?
    ensures CellsAge(s, RunTask(cfg, s, t, ch).value)
  {
  }

  lemma StepAges(cfg: Config, s: Pool, step: Step)
    requires Reachable(cfg, s) && NextState(cfg, s, step).Some?
    ensures CellsAge(s, NextState(cfg, s, step).value)
  {
    if step.Run? {
      var t, ch := step.t, step.ch;
      var pc := s.tasks[t].pc;
      TaskCellHolds(cfg, s, t);
      if pc.WantAlloc? || pc.WantMap? || pc.InMap? || pc.Room? {
        SlotForAges(cfg, s, t, ch);
      } else if Pending(pc).Some? {
        RetireAges(cfg, s, t, ch);
      } else if pc.CellWait? || pc.Inspect? || pc.Spawn? || pc.Handshake? || pc.Begin? {
        AttemptAges(cfg, s, t, ch);
      } else if pc.Write? || pc.Read? || pc.Reply? || pc.TouchWait? || pc.TouchIn? {
        ExchangeAges(cfg, s, t, ch);
      } else {
        BulkAges(cfg, s, t, ch);
      }
    }
  }

  lemma TaskCellHolds(cfg: Config, s: Pool, t: TaskId)
    requires Reachable(cfg, s) && t in s.tasks
    ensures TaskCell(cfg, s, t)
  {
    ReachableInv(cfg, s);
    assert TaskOk(cfg, s, t);
  }

  lemma RunAges(cfg: Config, run: seq<Pool>, steps: seq<Step>, j: nat)
    requires IsRun(cfg, run, steps) && 0 < j <= |steps|
    ensures CellsAge(run[j - 1], run[j])
  {
    PrefixReachable(cfg, run, steps, j - 1);
    assert NextState(cfg, run[j - 1], steps[j - 1]) == Some(run[j - 1 + 1]);
    StepAges(cfg, run[j - 1], steps[j - 1]);
  }

  /** Over a whole run: once stopped a cell stays stopped, and it never hosts a second process. */
  lemma {:induction false} StoppedForGood(cfg: Config, run: seq<Pool>, steps: seq<Step>, i: nat, j: nat, c: CellId)
    requires IsRun(cfg, run, steps) && i <= j <= |steps| && c in run[i].cells
    ensures c in run[j].cells && run[j].cells[c].key == run[i].cells[c].key
    ensures run[i].cells[c].state == Stopped ==> run[j].cells[c].state == Stopped
    ensures run[i].cells[c].hosted.Some? ==> run[j].cells[c].hosted == run[i].cells[c].hosted
    decreases j - i
  {
    assert |run| == |steps| + 1;
    hide IsRun;
    if i < j {
      StoppedForGood(cfg, run, steps, i, j - 1, c);
      RunAges(cfg, run, steps, j);
    }
  }

  lemma PrefixReachable(cfg: Config, run: seq<Pool>, steps: seq<Step>, i: nat)
    requires IsRun(cfg, run, steps) && i <= |steps|
    ensures Reachable(cfg, run[i])
  {
    var run', steps' := run[..i + 1], steps[..i];
    forall k | 0 <= k < |steps'|
      ensures NextState(cfg, run'[k], steps'[k]) == Some(run'[k + 1])
    {
      assert NextState(cfg, run[k], steps[k]) == Some(run[k + 1]);
    }
    assert IsRun(cfg, run', steps') && run[i] == run'[|steps'|];
  }
}
