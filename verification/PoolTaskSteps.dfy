/** The task's own bookkeeping across the steps that work on one cell. */
module PoolTaskSteps {
  import opened Common
  import opened PoolModel
  import opened PoolInvariant
  import opened PoolFrame
  import opened PoolSteps
  import opened PoolCellSteps
  import Channel

  ghost predicate Rest(s: Pool, t: TaskId)
    requires t in s.tasks
  {
    TaskShape(s, t) && TaskSent(s, t) && Books(s, t)
  }

  ghost predicate OnlyPc(s: Pool, s': Pool, t: TaskId) {
    t in s.tasks && t in s'.tasks && s'.tasks[t] == s.tasks[t].(pc := s'.tasks[t].pc)
  }

  lemma GrownLogs(s: Pool, s': Pool, t: TaskId, c: CellId)
    requires WorksOn(s, s', t, c)
    ensures s'.procs.Keys >= s.procs.Keys && s'.cells.Keys == s.cells.Keys
    ensures forall p :: p in s.procs ==> s.procs[p].chan.log <= s'.procs[p].chan.log && s.procs[p].askers <= s'.procs[p].askers
    ensures forall d :: d in s.cells ==> s'.cells[d].key == s.cells[d].key
  {
    forall p | p in s.procs
      ensures s.procs[p].chan.log <= s'.procs[p].chan.log && s.procs[p].askers <= s'.procs[p].askers
    {
      assert ProcStep(s, s.procs[p], s'.procs[p], t);
    }
  }

  lemma RetireRest(s: Pool, s': Pool, t: TaskId, c: CellId)
    requires t in s.tasks && Rest(s, t) && Works(s, s', t, c) && OnlyPc(s, s', t) && s'.delivered == s.delivered
    requires var pc, pc' := s.tasks[t].pc, s'.tasks[t].pc;
      Pending(pc).Some? && Pending(pc') == Pending(pc) && RetiringCell(pc') == RetiringCell(pc)
    ensures Rest(s', t)
  {
    GrownLogs(s, s', t, c);
    ShapeKept(s, s', t);
    BooksKept(s, s', t, c);
    if Result(s.tasks[t].pc).Some? {
      SentKept(s, s', t);
    } else {
      UnsentKept(s, s', t);
    }
  }

  /** A request moves on before any byte of it was written. */
  lemma UnsentRest(s: Pool, s': Pool, t: TaskId, c: CellId)
    requires t in s.tasks && Rest(s, t) && Works(s, s', t, c) && s'.delivered == s.delivered
    requires Unsent(s, t) && s.tasks[t].job.Request? && t in s'.tasks
    requires s'.tasks[t].job == s.tasks[t].job && s'.tasks[t].attempt <= 1
    requires var pc' := s'.tasks[t].pc;
      !HoldsAlloc(pc') && !pc'.SweepIn? && PcFits(s.tasks[t].job, pc')
      && (Result(pc') == None || !Result(pc').value.Answered?)
    ensures Rest(s', t)
  {
    GrownLogs(s, s', t, c);
    ShapeKept(s, s', t);
    BooksKept(s, s', t, c);
    UnsentKept(s, s', t);
  }

  /** A request moves on while its bytes are at one process at most. */
  lemma SentRest(s: Pool, s': Pool, t: TaskId, c: CellId)
    requires t in s.tasks && Rest(s, t) && Works(s, s', t, c) && OnlyPc(s, s', t) && s'.delivered == s.delivered
    requires var pc, pc' := s.tasks[t].pc, s'.tasks[t].pc;
      && !HoldsAlloc(pc') && !pc'.SweepIn? && PcFits(s.tasks[t].job, pc')
      && (Result(pc') == None || Result(pc') == Result(pc) || !Result(pc').value.Answered?)
      && (Result(pc').Some? || (pc'.Read? && SentOnlyTo(s, t, pc'.p)) || (!pc'.Write? && Unsent(s, t)))
    ensures Rest(s', t)
  {
    GrownLogs(s, s', t, c);
    ShapeKept(s, s', t);
    BooksKept(s, s', t, c);
  }

  lemma WriteMoves(s: Pool, t: TaskId, c: CellId, p: ProcId, n: nat, ch: Choice)
    requires t in s.tasks && s.tasks[t].pc == Write(c, p, n) && WriteSome(s, t, c, p, n, ch).Some? && !ch.Accept?
    requires TaskShape(s, t) && TaskSent(s, t)
    ensures var s' := WriteSome(s, t, c, p, n, ch).value;
      && OnlyPc(s, s', t) && s'.delivered == s.delivered
      && (s'.tasks[t].pc == Read(c, p) || s'.tasks[t].pc == Kill(c, p, Finish(TimedOut))
          || s'.tasks[t].pc == Kill(c, p, Finish(RequestLost))
          || (s'.tasks[t].pc == Kill(c, p, Retry) && Unsent(s, t)))
  {
  }

  lemma AcceptRest(s: Pool, t: TaskId, c: CellId, p: ProcId, n: nat, ch: Choice)
    requires t in s.tasks && Rest(s, t) && s.tasks[t].pc == Write(c, p, n) && WriteSome(s, t, c, p, n, ch).Some? && ch.Accept?
    requires Works(s, WriteSome(s, t, c, p, n, ch).value, t, c)
    ensures Rest(WriteSome(s, t, c, p, n, ch).value, t)
  {
    var s' := WriteSome(s, t, c, p, n, ch).value;
    GrownLogs(s, s', t, c);
    ShapeKept(s, s', t);
    BooksKept(s, s', t, c);
  }

  lemma WriteSomeRest(s: Pool, t: TaskId, c: CellId, p: ProcId, n: nat, ch: Choice)
    requires t in s.tasks && Rest(s, t) && s.tasks[t].pc == Write(c, p, n) && WriteSome(s, t, c, p, n, ch).Some?
    requires Works(s, WriteSome(s, t, c, p, n, ch).value, t, c)
    ensures Rest(WriteSome(s, t, c, p, n, ch).value, t)
  {
    if ch.Accept? {
      AcceptRest(s, t, c, p, n, ch);
    } else {
      WriteMoves(s, t, c, p, n, ch);
      SentRest(s, WriteSome(s, t, c, p, n, ch).value, t, c);
    }
  }

  lemma ReadMoves(s: Pool, t: TaskId, c: CellId, p: ProcId, ch: Choice)
    requires t in s.tasks && s.tasks[t].pc == Read(c, p) && ReadSome(s, t, c, p, ch).Some?
    ensures var s' := ReadSome(s, t, c, p, ch).value;
      && OnlyPc(s, s', t) && s'.delivered == s.delivered
      && (s'.tasks[t].pc == Read(c, p) || s'.tasks[t].pc == Kill(c, p, Finish(TimedOut))
          || s'.tasks[t].pc == Kill(c, p, Finish(RequestLost))
          || (s'.tasks[t].pc.Reply? && s'.tasks[t].pc.o.Answered?))
  {
  }

  lemma ReadSomeRest(cfg: Config, s: Pool, t: TaskId, c: CellId, p: ProcId, ch: Choice)
    requires At(cfg, s, t, c) && Rest(s, t) && s.tasks[t].pc == Read(c, p) && ReadSome(s, t, c, p, ch).Some?
    requires Works(s, ReadSome(s, t, c, p, ch).value, t, c)
    ensures Rest(ReadSome(s, t, c, p, ch).value, t)
  {
    var s' := ReadSome(s, t, c, p, ch).value;
    ReadMoves(s, t, c, p, ch);
    if s'.tasks[t].pc.Reply? {
      AnswerRecorded(cfg, s, t, c, p, ch);
      AnswerRest(s, s', t, c);
    } else {
      SentRest(s, s', t, c);
    }
  }

  lemma AnswerRest(s: Pool, s': Pool, t: TaskId, c: CellId)
    requires t in s.tasks && Rest(s, t) && Works(s, s', t, c) && OnlyPc(s, s', t) && s'.delivered == s.delivered
    requires s.tasks[t].pc.Read? && s'.tasks[t].pc.Reply? && TaskShape(s', t)
    ensures Rest(s', t)
  {
    GrownLogs(s, s', t, c);
    BooksKept(s, s', t, c);
  }

  /** The reply that is handed out is the last one in the log, and `t` asked for it. */
  lemma AnswerRecorded(cfg: Config, s: Pool, t: TaskId, c: CellId, p: ProcId, ch: Choice)
    requires At(cfg, s, t, c) && TaskShape(s, t) && s.tasks[t].pc == Read(c, p) && ReadSome(s, t, c, p, ch).Some?
    requires ReadSome(s, t, c, p, ch).value.tasks[t].pc.Reply?
    ensures TaskShape(ReadSome(s, t, c, p, ch).value, t)
  {
    assert Ledger(s.procs[p]);
  }

  lemma SettledMoves(cfg: Config, s: Pool, t: TaskId, c: CellId, p: ProcId, o: Outcome)
    requires t in s.tasks && s.tasks[t].pc == Reply(c, p, o) && Settled(cfg, s, t, c, p, o).Some?
    ensures var s' := Settled(cfg, s, t, c, p, o).value;
      && OnlyPc(s, s', t) && s'.delivered == s.delivered
      && (s'.tasks[t].pc == Kill(c, p, Finish(o)) || s'.tasks[t].pc == TouchWait(o))
  {
  }

  lemma SettledSent(cfg: Config, s: Pool, t: TaskId, c: CellId, p: ProcId, o: Outcome)
    requires t in s.tasks && Rest(s, t) && s.tasks[t].pc == Reply(c, p, o) && Settled(cfg, s, t, c, p, o).Some?
    ensures var pc := Settled(cfg, s, t, c, p, o).value.tasks[t].pc;
      !HoldsAlloc(pc) && !pc.SweepIn? && PcFits(s.tasks[t].job, pc) && Result(pc) == Result(s.tasks[t].pc) == Some(o)
  {
  }

  lemma SettledRest(cfg: Config, s: Pool, t: TaskId, c: CellId, p: ProcId, o: Outcome)
    requires t in s.tasks && Rest(s, t) && s.tasks[t].pc == Reply(c, p, o) && Settled(cfg, s, t, c, p, o).Some?
    requires Works(s, Settled(cfg, s, t, c, p, o).value, t, c)
    ensures Rest(Settled(cfg, s, t, c, p, o).value, t)
  {
    hide Works, Rest, Settled, HoldsAlloc, PcFits, Result, OnlyPc;
    SettledMoves(cfg, s, t, c, p, o);
    SettledSent(cfg, s, t, c, p, o);
    SentRest(s, Settled(cfg, s, t, c, p, o).value, t, c);
  }
}
