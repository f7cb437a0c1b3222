/** How a request ends in the pool, and that what it is told is true. */
module PoolVerdicts {
  import opened Common
  import opened PoolModel
  import opened PoolInvariant
  import opened PoolSafety
  import opened PoolTheorems
  import Channel
  import Exchange
  import PoolRetirement

  // ---- an exchange in the pool ends as one request against one process does ----

  /** A write or flush failed after `n` of `size` bytes. */
  function FailedWrite(n: nat, size: nat, byReaper: bool): Exchange.Peer
    requires size > 0
  {
    Exchange.Peer(false, false, 0, Some(seq(size - 1, _ => 0)), if n == 0 then [] else [Exchange.Took(n)], false, byReaper,
                  [], Exchange.Silent, false)
  }

  /** The whole frame went out as request `id`, and this is what came back. */
  function Asked(id: nat, size: nat, lines: seq<Channel.Line>, end: Exchange.End, byReaper: bool): Exchange.Peer
    requires size > 0
  {
    Exchange.Peer(false, false, id, Some(seq(size - 1, _ => 0)), [Exchange.Took(size)], true, false, lines, end, byReaper)
  }

  lemma FailedWriteIs(n: nat, size: nat, byReaper: bool)
    requires size > 0 && n <= size
    ensures var peer := FailedWrite(n, size, byReaper);
      && (Exchange.RunsOut(peer) <==> byReaper)
      && (Exchange.IsLost(peer) <==> !byReaper && n > 0)
      && (Exchange.Untouched(peer) <==> !byReaper && n == 0)
  {
    assert n > 0 ==> Exchange.Offered([Exchange.Took(n)]) == n + Exchange.Offered([Exchange.Took(n)][1..]);
  }

  lemma AskedIs(id: nat, size: nat, lines: seq<Channel.Line>, end: Exchange.End, byReaper: bool)
    requires size > 0
    ensures Exchange.Sent(Asked(id, size, lines, end, byReaper)) && !Exchange.Gone(Asked(id, size, lines, end, byReaper))
  {
    assert Exchange.Offered([Exchange.Took(size)]) == size + Exchange.Offered([Exchange.Took(size)][1..]);
  }

  /** A request is turned away, and tried again, exactly when the process is seen
      to have exited or somebody has claimed it; otherwise it gets the next id. */
  lemma BeginsUnlessGone(cfg: Config, s: Pool, t: TaskId, ch: Choice)
    requires t in s.tasks && s.tasks[t].pc.Begin? && RunTask(cfg, s, t, ch).Some?
    ensures var c, p, s' := s.tasks[t].pc.c, s.tasks[t].pc.p, RunTask(cfg, s, t, ch).value;
      && p in s.procs && p in s'.procs && t in s'.tasks
      && (ch.Fail? ==> !s.procs[p].alive)
      && if ch.Fail? || s.procs[p].claim != Unclaimed then s'.tasks[t].pc == Kill(c, p, Retry)
         else s'.tasks[t].pc == Write(c, p, 0) && s'.procs[p].chan.asked == s.procs[p].chan.asked + 1
  {
    hide Channel.Parse;
  }

  /** A failed write ends the request as `Exchange.Ask` says. */
  lemma WriteEndsAs(cfg: Config, s: Pool, t: TaskId, ch: Choice)
    requires t in s.tasks && s.tasks[t].pc.Write? && TaskShape(s, t) && ch.Fail? && RunTask(cfg, s, t, ch).Some?
    ensures var c, p, n, s' := s.tasks[t].pc.c, s.tasks[t].pc.p, s.tasks[t].pc.n, RunTask(cfg, s, t, ch).value;
      && p in s.procs && t in s'.tasks
      && var peer := FailedWrite(n, s.tasks[t].job.size, s.procs[p].claim == ByReaper);
         && s'.tasks[t].pc.Kill? && s'.tasks[t].pc.c == c && s'.tasks[t].pc.p == p
         && (s'.tasks[t].pc.after == Retry <==> Exchange.Untouched(peer))
         && (s'.tasks[t].pc.after == Finish(RequestLost) <==> Exchange.IsLost(peer))
         && (s'.tasks[t].pc.after == Finish(TimedOut) <==> Exchange.RunsOut(peer))
  {
    FailedWriteIs(s.tasks[t].pc.n, s.tasks[t].job.size, s.procs[s.tasks[t].pc.p].claim == ByReaper);
  }

  /** A write that goes on: more of the frame, or the reading once all of it is out. */
  lemma ReadsAfterTheWhole(cfg: Config, s: Pool, t: TaskId, ch: Choice)
    requires t in s.tasks && s.tasks[t].pc.Write? && s.tasks[t].job.Request? && !ch.Fail? && RunTask(cfg, s, t, ch).Some?
    ensures var c, p, n, size, s' := s.tasks[t].pc.c, s.tasks[t].pc.p, s.tasks[t].pc.n, s.tasks[t].job.size, RunTask(cfg, s, t, ch).value;
      && t in s'.tasks
      && (s'.tasks[t].pc == Read(c, p) || (s'.tasks[t].pc.Write? && s'.tasks[t].pc.c == c && s'.tasks[t].pc.p == p && n < s'.tasks[t].pc.n <= size))
      && (s'.tasks[t].pc.Read? ==> n == size && s'.delivered == s.delivered)
      && (s'.tasks[t].pc.Write? ==> s'.delivered == s.delivered + {(t, p)})
  {
  }

  /** So does a timeout, and the end of stdout. */
  lemma SilenceEndsAs(cfg: Config, s: Pool, t: TaskId, ch: Choice)
    requires t in s.tasks && s.tasks[t].pc.Read? && TaskShape(s, t) && (ch.Pick? || ch.Fail?) && RunTask(cfg, s, t, ch).Some?
    ensures var c, p, s' := s.tasks[t].pc.c, s.tasks[t].pc.p, RunTask(cfg, s, t, ch).value;
      && p in s.procs && t in s'.tasks
      && var peer := Asked(s.procs[p].chan.asked, s.tasks[t].job.size, [], if ch.Pick? then Exchange.Silent else Exchange.Closed,
                           s.procs[p].claim == ByReaper);
         && s'.tasks[t].pc.Kill? && s'.tasks[t].pc.c == c && s'.tasks[t].pc.p == p
         && (s'.tasks[t].pc.after == Finish(TimedOut) <==> Exchange.RunsOut(peer))
         && (s'.tasks[t].pc.after == Finish(RequestLost) <==> Exchange.IsLost(peer))
  {
    var p := s.tasks[t].pc.p;
    AskedIs(s.procs[p].chan.asked, s.tasks[t].job.size, [], if ch.Pick? then Exchange.Silent else Exchange.Closed,
            s.procs[p].claim == ByReaper);
    hide Channel.Step, Channel.Parse;
  }

  /** And so does a line: the first one that answers is the answer, unless the
      reaper has claimed the process by then, and any other is passed over. */
  lemma LineEndsAs(cfg: Config, s: Pool, t: TaskId, ch: Choice)
    requires t in s.tasks && s.tasks[t].pc.Read? && TaskShape(s, t) && TaskCell(cfg, s, t)
    requires !ch.Pick? && !ch.Fail? && RunTask(cfg, s, t, ch).Some?
    ensures var c, p, s' := s.tasks[t].pc.c, s.tasks[t].pc.p, RunTask(cfg, s, t, ch).value;
      var chan := s.procs[p].chan;
      && chan.out != [] && t in s'.tasks
      && var peer := Asked(chan.asked, s.tasks[t].job.size, [chan.out[0].line], Exchange.Silent, s.procs[p].claim == ByReaper);
         && (s'.tasks[t].pc == Reply(c, p, Answered(p, chan.asked, chan.out[0])) <==> Exchange.GetsAnswer(peer))
         && (s'.tasks[t].pc == Kill(c, p, Finish(TimedOut)) <==> Exchange.SomeAnswer(peer) && s.procs[p].claim == ByReaper)
         && (s'.tasks[t].pc == Read(c, p) <==> !Exchange.SomeAnswer(peer))
  {
    var p := s.tasks[t].pc.p;
    var chan := s.procs[p].chan;
    AskedIs(chan.asked, s.tasks[t].job.size, [chan.out[0].line], Exchange.Silent, s.procs[p].claim == ByReaper);
    OneLine(chan, Asked(chan.asked, s.tasks[t].job.size, [chan.out[0].line], Exchange.Silent, s.procs[p].claim == ByReaper));
    hide Channel.Step, Channel.Parse;
  }

  lemma OneLine(chan: Channel.State, peer: Exchange.Peer)
    requires chan.open && chan.out != [] && peer.lines == [chan.out[0].line] && peer.id == chan.asked
    ensures Channel.Step(chan, Channel.Read).Some?
    ensures Exchange.SomeAnswer(peer) <==> |Channel.Step(chan, Channel.Read).value.log| != |chan.log|
  {
    assert Exchange.SomeAnswer(peer) <==> Exchange.AnswersAt(peer.lines, 0, peer.id);
  }

  /** After its answer an instance is kept for the next request exactly when its
      quota is not used up and nobody has claimed it. */
  lemma KeptIff(cfg: Config, s: Pool, t: TaskId, ch: Choice)
    requires t in s.tasks && s.tasks[t].pc.Reply? && RunTask(cfg, s, t, ch).Some?
    ensures var c, p, o, s' := s.tasks[t].pc.c, s.tasks[t].pc.p, s.tasks[t].pc.o, RunTask(cfg, s, t, ch).value;
      && c in s.cells && p in s.procs && t in s'.tasks
      && var quota := cfg.maxInvocations(s.cells[c].key.agent);
         if (quota == 0 || |s.procs[p].chan.log| < quota) && s.procs[p].claim == Unclaimed
         then s'.tasks[t].pc == TouchWait(o) && s'.cells[c].lock == None && s'.cells[c].state == s.cells[c].state
         else s'.tasks[t].pc == Kill(c, p, Finish(o))
  {
  }

  /** The agent is up exactly when a line says so, by its fields: the first that is
      a well-typed object of kind "ready" ends the handshake, for good or, when its
      `ok` is false, for bad; other lines are passed over. */
  lemma UpWhenReady(cfg: Config, s: Pool, t: TaskId, ch: Choice)
    requires t in s.tasks && s.tasks[t].pc.Handshake? && !ch.Fail? && RunTask(cfg, s, t, ch).Some?
    ensures var c, p, s' := s.tasks[t].pc.c, s.tasks[t].pc.p, RunTask(cfg, s, t, ch).value;
      && p in s.procs && s.procs[p].chan.out != [] && t in s'.tasks
      && var line := s.procs[p].chan.out[0].line;
         var ready := line.Object? && Channel.WellTyped(line) && line.kind == Channel.Value("ready");
         && (s'.tasks[t].pc == Begin(c, p) <==> ready && line.ok != Channel.Value(false))
         && (s'.tasks[t].pc == Kill(c, p, Finish(SpawnFailed)) <==> ready && line.ok == Channel.Value(false))
         && (s'.tasks[t].pc == Handshake(c, p) <==> !ready)
  {
    Channel.LineReadyIff(s.procs[s.tasks[t].pc.p].chan.out[0].line);
    hide Channel.Parse;
  }

  /** One retry: a request that finds its cell stopped tries once more, and then gives up. */
  lemma RetriesOnce(cfg: Config, s: Pool, t: TaskId, ch: Choice)
    requires t in s.tasks && RunTask(cfg, s, t, ch).Some? && s.tasks[t].attempt <= 1
    requires var pc := s.tasks[t].pc;
      (pc.Inspect? && pc.c in s.cells && s.cells[pc.c].state == Stopped) || (pc.ForgetIn? && pc.after == Retry)
    ensures var s' := RunTask(cfg, s, t, ch).value;
      && t in s'.tasks
      && s'.tasks[t].attempt == 1
      && s'.tasks[t].pc == if s.tasks[t].attempt == 0 then WantAlloc else Done(DiedTwice)
  {
  }

  /** A sweep takes an entry out exactly when its cell is free and stopped, or
      free and its process is found to have exited. */
  lemma SweepTakesIff(cfg: Config, s: Pool, t: TaskId, k: SlotKey, exited: bool)
    requires t in s.tasks && s.tasks[t].pc.SweepIn? && s.tasks[t].pc.todo != {} && RunTask(cfg, s, t, Visit(k, exited)).Some?
    ensures var s' := RunTask(cfg, s, t, Visit(k, exited)).value;
      && k in s.slots && s.slots[k].cell in s.cells
      && var cell := s.cells[s.slots[k].cell];
         && (k !in s'.slots <==> cell.lock == None && (cell.state == Stopped || (cell.state.Live? && exited)))
         && (forall j :: j != k ==> (j in s'.slots <==> j in s.slots))
         && (cell.lock == None && cell.state.Live? && exited ==>
               cell.state.p in s.procs && !s.procs[cell.state.p].alive && s'.cells[s.slots[k].cell].state == Stopped)
  {
  }

  // ---- a sweep looks at every entry ----

  predicate Sweeps(s: Pool, t: TaskId) {
    t in s.tasks && s.tasks[t].pc.SweepIn?
  }

  function Todo(s: Pool, t: TaskId): set<SlotKey> {
    if Sweeps(s, t) then s.tasks[t].pc.todo else {}
  }

  predicate Visits(step: Step, t: TaskId, k: SlotKey) {
    step.Run? && step.t == t && step.ch.Visit? && step.ch.k == k
  }

  lemma ReapGoesOn(s: Pool, t: TaskId, todo: set<SlotKey>, reaped: set<ProcId>, ch: Choice)
    requires t in s.tasks && Reap(s, t, todo, reaped, ch).Some?
    ensures var s' := Reap(s, t, todo, reaped, ch).value;
      && t in s'.tasks
      && if todo == {} then s'.tasks[t].pc.SweepAudit?
         else ch.Visit? && s'.tasks[t].pc.SweepIn? && s'.tasks[t].pc.todo == todo - {ch.k}
  {
  }

  /** One step while a sweep is under way. */
  lemma SweepGoesOn(cfg: Config, s: Pool, step: Step, t: TaskId)
    requires Sweeps(s, t) && NextState(cfg, s, step).Some?
    ensures var s' := NextState(cfg, s, step).value;
      && t in s'.tasks
      && (Sweeps(s', t) ==> forall k :: k in Todo(s, t) ==> k in Todo(s', t) || Visits(step, t, k))
      && (s'.tasks[t].pc.SweepAudit? ==> Todo(s, t) == {})
  {
    if step.Run? {
      var u := step.t;
      assert NextState(cfg, s, step) == RunTask(cfg, s, u, step.ch);
      if u == t {
        hide NextState, Reap;
        ReapGoesOn(s, t, s.tasks[t].pc.todo, s.tasks[t].pc.reaped, step.ch);
      } else {
        hide NextState, RunTask, PoolRetirement.PhaseStep, PoolRetirement.ProcQuiet;
        PoolRetirement.TaskQuiet(cfg, s, u, step.ch);
      }
    } else {
      hide RunTask, Channel.Step;
    }
  }

  lemma {:induction false} StillToVisit(cfg: Config, run: seq<Pool>, steps: seq<Step>, t: TaskId, i: nat, j: nat, k: SlotKey)
    requires IsRun(cfg, run, steps) && i <= j <= |steps| && forall m :: i <= m <= j ==> Sweeps(run[m], t)
    requires k in Todo(run[i], t)
    ensures k in Todo(run[j], t) || exists m :: i <= m < j && Visits(steps[m], t, k)
  {
    hide NextState, Visits;
    if i < j {
      StillToVisit(cfg, run, steps, t, i, j - 1, k);
      PoolRetirement.RunStep(cfg, run, steps, j - 1);
      SweepGoesOn(cfg, run[j - 1], steps[j - 1], t);
    }
  }

  /** In every run, between the step that starts a sweep and the one that ends it,
      every entry that was in the map at the start is looked at. */
  lemma SweepVisitsAll(cfg: Config, run: seq<Pool>, steps: seq<Step>, t: TaskId, ch: Choice, i: nat, j: nat, k: SlotKey)
    requires IsRun(cfg, run, steps) && i < j < |steps| && forall m :: i < m <= j ==> Sweeps(run[m], t)
    requires t in run[i].tasks && run[i].tasks[t].pc.SweepWait? && steps[i] == Run(t, ch) && k in run[i].slots
    requires t in run[j + 1].tasks && run[j + 1].tasks[t].pc.SweepAudit?
    ensures exists m :: i < m < j && Visits(steps[m], t, k)
  {
    PoolRetirement.RunStep(cfg, run, steps, i);
    assert Sweeps(run[i + 1], t) && Todo(run[i + 1], t) == run[i].slots.Keys;
    hide NextState, Visits;
    StillToVisit(cfg, run, steps, t, i + 1, j, k);
    PoolRetirement.RunStep(cfg, run, steps, j);
    SweepGoesOn(cfg, run[j], steps[j], t);
  }

  // ---- what a request is told is true ----

  /** What the task knows, and what it was told. */
  ghost predicate Truthful(s: Pool, t: TaskId)
    requires t in s.tasks
  {
    var pc := s.tasks[t].pc;
    && (pc.Write? && pc.n > 0 ==> (t, pc.p) in s.delivered)
    && (pc.Read? ==> (t, pc.p) in s.delivered)
    && (Result(pc).Some? ==>
          match Result(pc).value
          case Answered(p, _, _) => (t, p) in s.delivered
          case RequestLost => exists p :: (t, p) in s.delivered
          case SpawnFailed => Unsent(s, t)
          case DiedTwice => Unsent(s, t) && s.tasks[t].attempt == 1
          case _ => true)
  }

  /** The step keeps the task truthful, and sends nothing but to the process it writes to. */
  ghost predicate Tells(s: Pool, s': Pool, t: TaskId) {
    && t in s.tasks && t in s'.tasks && Truthful(s', t)
    && (s'.delivered == s.delivered || (s.tasks[t].pc.Write? && s'.delivered == s.delivered + {(t, s.tasks[t].pc.p)}))
  }

  lemma TakeAllocTells(s: Pool, t: TaskId)
    requires t in s.tasks && Truthful(s, t) && TaskSent(s, t) && TaskShape(s, t) && s.tasks[t].pc == WantAlloc && TakeAlloc(s, t).Some?
    ensures Tells(s, TakeAlloc(s, t).value, t)
  {
  }

  lemma LookUpTells(s: Pool, t: TaskId, b: Option<nat>)
    requires t in s.tasks && Truthful(s, t) && TaskSent(s, t) && TaskShape(s, t) && s.tasks[t].pc == InMap(b) && LookUp(s, t, b).Some?
    ensures Tells(s, LookUp(s, t, b).value, t)
  {
  }

  lemma MakeRoomTells(cfg: Config, s: Pool, t: TaskId, b: Option<nat>, ch: Choice)
    requires t in s.tasks && Truthful(s, t) && TaskSent(s, t) && TaskShape(s, t) && s.tasks[t].pc == Room(b) && MakeRoom(cfg, s, t, b, ch).Some?
    ensures Tells(s, MakeRoom(cfg, s, t, b, ch).value, t)
  {
  }

  lemma ClaimSlotTells(s: Pool, t: TaskId, c: CellId, a: After)
    requires t in s.tasks && Truthful(s, t) && TaskSent(s, t) && TaskShape(s, t) && s.tasks[t].pc == RetClaim(c, a) && ClaimSlot(s, t, c, a).Some?
    ensures Tells(s, ClaimSlot(s, t, c, a).value, t)
  {
  }

  lemma TerminateTells(s: Pool, t: TaskId, c: CellId, p: ProcId, a: After)
    requires t in s.tasks && Truthful(s, t) && TaskSent(s, t) && TaskShape(s, t) && s.tasks[t].pc == Kill(c, p, a) && Terminate(s, t, c, p, a).Some?
    ensures Tells(s, Terminate(s, t, c, p, a).value, t)
  {
  }

  lemma GraceOverTells(s: Pool, t: TaskId, c: CellId, p: ProcId, a: After)
    requires t in s.tasks && Truthful(s, t) && TaskSent(s, t) && TaskShape(s, t) && s.tasks[t].pc == Grace(c, p, a) && GraceOver(s, t, c, p, a).Some?
    ensures Tells(s, GraceOver(s, t, c, p, a).value, t)
  {
  }

  lemma StopCellTells(s: Pool, t: TaskId, c: CellId, p: ProcId, a: After)
    requires t in s.tasks && Truthful(s, t) && TaskSent(s, t) && TaskShape(s, t) && s.tasks[t].pc == Settle(c, p, a) && StopCell(s, t, c, p, a).Some?
    ensures Tells(s, StopCell(s, t, c, p, a).value, t)
  {
  }

  lemma ForgetTells(s: Pool, t: TaskId, c: CellId, a: After)
    requires t in s.tasks && Truthful(s, t) && TaskSent(s, t) && TaskShape(s, t) && s.tasks[t].pc == ForgetIn(c, a) && Forget(s, t, c, a).Some?
    ensures Tells(s, Forget(s, t, c, a).value, t)
  {
  }

  lemma InspectCellTells(s: Pool, t: TaskId, c: CellId)
    requires t in s.tasks && Truthful(s, t) && TaskSent(s, t) && TaskShape(s, t) && s.tasks[t].pc == Inspect(c) && InspectCell(s, t, c).Some?
    ensures Tells(s, InspectCell(s, t, c).value, t)
  {
  }

  lemma SpawnProcessTells(s: Pool, t: TaskId, c: CellId, ch: Choice)
    requires t in s.tasks && Truthful(s, t) && TaskSent(s, t) && TaskShape(s, t) && s.tasks[t].pc == Spawn(c) && SpawnProcess(s, t, c, ch).Some?
    ensures Tells(s, SpawnProcess(s, t, c, ch).value, t)
  {
  }

  lemma ShakeHandsTells(s: Pool, t: TaskId, c: CellId, p: ProcId, ch: Choice)
    requires t in s.tasks && Truthful(s, t) && TaskSent(s, t) && TaskShape(s, t) && s.tasks[t].pc == Handshake(c, p) && ShakeHands(s, t, c, p, ch).Some?
    ensures Tells(s, ShakeHands(s, t, c, p, ch).value, t)
  {
  }

  lemma BeginExchangeTells(s: Pool, t: TaskId, c: CellId, p: ProcId, ch: Choice)
    requires t in s.tasks && Truthful(s, t) && TaskSent(s, t) && TaskShape(s, t) && s.tasks[t].pc == Begin(c, p) && BeginExchange(s, t, c, p, ch).Some?
    ensures Tells(s, BeginExchange(s, t, c, p, ch).value, t)
  {
  }

  lemma WriteSomeTells(s: Pool, t: TaskId, c: CellId, p: ProcId, n: nat, ch: Choice)
    requires t in s.tasks && Truthful(s, t) && TaskSent(s, t) && TaskShape(s, t) && s.tasks[t].pc == Write(c, p, n) && WriteSome(s, t, c, p, n, ch).Some?
    ensures Tells(s, WriteSome(s, t, c, p, n, ch).value, t)
  {
  }

  lemma ReadSomeTells(s: Pool, t: TaskId, c: CellId, p: ProcId, ch: Choice)
    requires t in s.tasks && Truthful(s, t) && TaskSent(s, t) && TaskShape(s, t) && s.tasks[t].pc == Read(c, p) && ReadSome(s, t, c, p, ch).Some?
    ensures Tells(s, ReadSome(s, t, c, p, ch).value, t)
  {
  }

  lemma SettledTells(cfg: Config, s: Pool, t: TaskId, c: CellId, p: ProcId, o: Outcome)
    requires t in s.tasks && Truthful(s, t) && TaskSent(s, t) && TaskShape(s, t) && s.tasks[t].pc == Reply(c, p, o) && Settled(cfg, s, t, c, p, o).Some?
    ensures Tells(s, Settled(cfg, s, t, c, p, o).value, t)
  {
    hide TaskShape, TaskSent;
  }

  lemma TouchTells(s: Pool, t: TaskId, o: Outcome)
    requires t in s.tasks && Truthful(s, t) && TaskSent(s, t) && TaskShape(s, t) && s.tasks[t].pc == TouchIn(o) && Touch(s, t, o).Some?
    ensures Tells(s, Touch(s, t, o).value, t)
  {
  }

  lemma SnapshotTells(s: Pool, t: TaskId)
    requires t in s.tasks && Truthful(s, t) && TaskSent(s, t) && TaskShape(s, t) && s.tasks[t].pc == DrainIn && Snapshot(s, t).Some?
    ensures Tells(s, Snapshot(s, t).value, t)
  {
  }

  lemma DrainNextTells(s: Pool, t: TaskId, rest: set<CellId>, ch: Choice)
    requires t in s.tasks && Truthful(s, t) && TaskSent(s, t) && TaskShape(s, t) && s.tasks[t].pc == DrainLoop(rest) && DrainNext(s, t, rest, ch).Some?
    ensures Tells(s, DrainNext(s, t, rest, ch).value, t)
  {
  }

  lemma ReapTells(s: Pool, t: TaskId, todo: set<SlotKey>, reaped: set<ProcId>, ch: Choice)
    requires t in s.tasks && Truthful(s, t) && TaskSent(s, t) && TaskShape(s, t) && s.tasks[t].pc == SweepIn(todo, reaped) && Reap(s, t, todo, reaped, ch).Some?
    ensures Tells(s, Reap(s, t, todo, reaped, ch).value, t)
  {
  }

  lemma AuditReapedTells(s: Pool, t: TaskId, reaped: set<ProcId>, ch: Choice)
    requires t in s.tasks && Truthful(s, t) && TaskSent(s, t) && TaskShape(s, t) && s.tasks[t].pc == SweepAudit(reaped) && AuditReaped(s, t, reaped, ch).Some?
    ensures Tells(s, AuditReaped(s, t, reaped, ch).value, t)
  {
  }

  /** A task that waits for a lock, and what it does once it holds it. */
  predicate Awaits(pc: Pc, to: Pc) {
    match pc
    case WantMap(b) => to == InMap(b)
    case RetWait(c, a) => to == RetClaim(c, a)
    case ForgetWait(c, a) => to == ForgetIn(c, a)
    case CellWait(c) => to == Inspect(c)
    case TouchWait(o) => to == TouchIn(o)
    case DrainWait => to == DrainIn
    case SweepWait => to.SweepIn?
    case _ => false
  }

  lemma TakeMapTells(s: Pool, t: TaskId, pc: Pc)
    requires t in s.tasks && Truthful(s, t) && Awaits(s.tasks[t].pc, pc) && TakeMap(s, t, pc).Some?
    ensures Tells(s, TakeMap(s, t, pc).value, t)
  {
  }

  lemma LockCellTells(s: Pool, t: TaskId, c: CellId, pc: Pc)
    requires t in s.tasks && Truthful(s, t) && Awaits(s.tasks[t].pc, pc) && LockCell(s, t, c, pc).Some?
    ensures Tells(s, LockCell(s, t, c, pc).value, t)
  {
  }

  /** Between the lookup of its cell and its end, an attempt of a request is at its exchange. */
  predicate AtExchange(pc: Pc) {
    pc.CellWait? || pc.Inspect? || pc.Spawn? || pc.Handshake? || pc.Begin? || pc.Write? || pc.Read? || pc.Reply? || pc.TouchWait? || pc.TouchIn?
  }

  lemma ExchangeTells(cfg: Config, s: Pool, t: TaskId, ch: Choice)
    requires RunTask(cfg, s, t, ch).Some? && t in s.tasks && AtExchange(s.tasks[t].pc)
    requires Truthful(s, t) && TaskSent(s, t) && TaskShape(s, t)
    ensures Tells(s, RunTask(cfg, s, t, ch).value, t)
  {
    hide Tells, Truthful, TaskSent, TaskShape, Result, TakeAlloc, LookUp, MakeRoom, ClaimSlot, Terminate, GraceOver, StopCell, Forget, InspectCell,
         SpawnProcess, ShakeHands, BeginExchange, WriteSome, ReadSome, Settled, Touch, Snapshot, DrainNext, Reap, AuditReaped, TakeMap, LockCell;
    match s.tasks[t].pc {
      case CellWait(c) => LockCellTells(s, t, c, Inspect(c));
      case Inspect(c) => InspectCellTells(s, t, c);
      case Spawn(c) => SpawnProcessTells(s, t, c, ch);
      case Handshake(c, p) => ShakeHandsTells(s, t, c, p, ch);
      case Begin(c, p) => BeginExchangeTells(s, t, c, p, ch);
      case Write(c, p, n) => WriteSomeTells(s, t, c, p, n, ch);
      case Read(c, p) => ReadSomeTells(s, t, c, p, ch);
      case Reply(c, p, o) => SettledTells(cfg, s, t, c, p, o);
      case TouchWait(o) => TakeMapTells(s, t, TouchIn(o));
      case TouchIn(o) => TouchTells(s, t, o);
      case _ => assert false;
    }
  }

  lemma TaskTells(cfg: Config, s: Pool, t: TaskId, ch: Choice)
    requires RunTask(cfg, s, t, ch).Some? && Truthful(s, t) && TaskSent(s, t) && TaskShape(s, t)
    ensures Tells(s, RunTask(cfg, s, t, ch).value, t)
  {
    hide Tells, Truthful, TaskSent, TaskShape, Result, TakeAlloc, LookUp, MakeRoom, ClaimSlot, Terminate, GraceOver, StopCell, Forget, InspectCell,
         SpawnProcess, ShakeHands, BeginExchange, WriteSome, ReadSome, Settled, Touch, Snapshot, DrainNext, Reap, AuditReaped, TakeMap, LockCell;
    match s.tasks[t].pc {
      case WantAlloc => TakeAllocTells(s, t);
      case WantMap(b) => TakeMapTells(s, t, InMap(b));
      case InMap(b) => LookUpTells(s, t, b);
      case Room(b) => MakeRoomTells(cfg, s, t, b, ch);
      case RetWait(c, a) => LockCellTells(s, t, c, RetClaim(c, a));
      case RetClaim(c, a) => ClaimSlotTells(s, t, c, a);
      case Kill(c, p, a) => TerminateTells(s, t, c, p, a);
      case Grace(c, p, a) => GraceOverTells(s, t, c, p, a);
      case Settle(c, p, a) => StopCellTells(s, t, c, p, a);
      case ForgetWait(c, a) => TakeMapTells(s, t, ForgetIn(c, a));
      case ForgetIn(c, a) => ForgetTells(s, t, c, a);
      case DrainWait => TakeMapTells(s, t, DrainIn);
      case DrainIn => SnapshotTells(s, t);
      case DrainLoop(rest) => DrainNextTells(s, t, rest, ch);
      case SweepWait => TakeMapTells(s, t, SweepIn(s.slots.Keys, {}));
      case SweepIn(todo, reaped) => ReapTells(s, t, todo, reaped, ch);
      case SweepAudit(reaped) => AuditReapedTells(s, t, reaped, ch);
      case _ => ExchangeTells(cfg, s, t, ch);
    }
  }

  /** Another task's step leaves the task and what it sent alone. */
  lemma OtherStaysTruthful(s: Pool, s': Pool, t: TaskId, u: TaskId)
    requires Tells(s, s', t) && PoolRetirement.Quiet(s, s', t) && u in s.tasks && u != t && Truthful(s, u)
    ensures u in s'.tasks && Truthful(s', u)
  {
    assert s'.tasks[u] == s.tasks[u];
    assert forall p :: (u, p) in s'.delivered <==> (u, p) in s.delivered;
  }

  lemma RunStaysTruthful(cfg: Config, s: Pool, t: TaskId, ch: Choice, u: TaskId)
    requires Inv(cfg, s) && RunTask(cfg, s, t, ch).Some? && u in s.tasks && Truthful(s, t) && Truthful(s, u)
    ensures u in RunTask(cfg, s, t, ch).value.tasks && Truthful(RunTask(cfg, s, t, ch).value, u)
  {
    assert TaskOk(cfg, s, t);
    hide Inv, RunTask, Truthful, TaskOk;
    TaskTells(cfg, s, t, ch);
    if u != t {
      PoolRetirement.TaskQuiet(cfg, s, t, ch);
      hide Tells, PoolRetirement.Quiet;
      OtherStaysTruthful(s, RunTask(cfg, s, t, ch).value, t, u);
    }
  }

  /** The tasks of the next state were there before, but for one that arrives. */
  lemma EnvironmentTells(cfg: Config, s: Pool, step: Step, u: TaskId)
    requires NextState(cfg, s, step).Some? && !step.Run? && u in NextState(cfg, s, step).value.tasks
    requires u in s.tasks ==> Truthful(s, u)
    ensures Truthful(NextState(cfg, s, step).value, u)
  {
    hide RunTask, Channel.Step;
    var s' := NextState(cfg, s, step).value;
    assert s'.delivered == s.delivered;
  }

  lemma TasksStay(cfg: Config, s: Pool, t: TaskId, ch: Choice)
    requires RunTask(cfg, s, t, ch).Some?
    ensures RunTask(cfg, s, t, ch).value.tasks.Keys == s.tasks.Keys
  {
    hide RunTask;
    PoolRetirement.TaskQuiet(cfg, s, t, ch);
  }

  lemma RunsOnly(cfg: Config, s: Pool, t: TaskId, ch: Choice)
    requires RunTask(cfg, s, t, ch).Some?
    ensures t in s.tasks
  {
    PoolRetirement.TaskQuiet(cfg, s, t, ch);
    hide RunTask;
  }

  lemma StepTruthful(cfg: Config, s: Pool, step: Step, u: TaskId)
    requires Inv(cfg, s) && NextState(cfg, s, step).Some? && u in NextState(cfg, s, step).value.tasks
    requires forall v :: v in s.tasks ==> Truthful(s, v)
    ensures Truthful(NextState(cfg, s, step).value, u)
  {
    hide Inv, Truthful, RunTask;
    if step.Run? {
      TasksStay(cfg, s, step.t, step.ch);
      RunsOnly(cfg, s, step.t, step.ch);
      RunStaysTruthful(cfg, s, step.t, step.ch, u);
    } else {
      EnvironmentTells(cfg, s, step, u);
    }
  }

  lemma {:induction false} RunTruthful(cfg: Config, run: seq<Pool>, steps: seq<Step>, i: nat, u: TaskId)
    requires IsRun(cfg, run, steps) && i <= |steps| && u in run[i].tasks
    ensures Truthful(run[i], u)
    decreases i
  {
    hide Inv, Truthful, NextState;
    if i > 0 {
      PoolRetirement.RunStep(cfg, run, steps, i - 1);
      RunInv(cfg, run, steps, i - 1);
      var s := run[i - 1];
      forall v | v in s.tasks
        ensures Truthful(s, v)
      {
        RunTruthful(cfg, run, steps, i - 1, v);
      }
      hide IsRun;
      StepTruthful(cfg, s, steps[i - 1], u);
    }
  }

  /** In every run, a finished request was told the truth: an answer or a loss
      means that bytes of it reached a process, the answer's own one; a failed
      start, or giving up after the second attempt, that none did. */
  lemma VerdictsAreTrue(cfg: Config, s: Pool, t: TaskId)
    requires Reachable(cfg, s) && t in s.tasks && s.tasks[t].pc.Done?
    ensures match s.tasks[t].pc.o
      case Answered(p, _, _) => forall q :: (t, q) in s.delivered <==> q == p
      case RequestLost => exists p :: (t, p) in s.delivered
      case SpawnFailed => forall p :: (t, p) !in s.delivered
      case DiedTwice => s.tasks[t].attempt == 1 && forall p :: (t, p) !in s.delivered
      case _ => true
  {
    var run: seq<Pool>, steps: seq<Step> :| IsRun(cfg, run, steps) && s == run[|steps|];
    RunTruthful(cfg, run, steps, |steps|, t);
    AtMostOnce(cfg, s, t);
  }
}
