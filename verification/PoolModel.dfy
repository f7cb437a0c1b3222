/** The persistent-agent pool as a step system.

    Each task is one call into the pool: a dispatched request, a sweep, or a
    drain (reload, shutdown, forget one agent). A task moves from one
    program point to the next, one step for each lock acquired or released and
    for each await, and the steps of different tasks interleave freely with the
    steps of the agent processes and of the supervisor's reaper. */
module PoolModel {
  import opened Common
  import Channel

  type TaskId = nat
  type CellId = nat
  type ProcId = nat

  datatype SlotKey = SlotKey(agent: string, key: string)

  datatype CellState = Starting | Live(p: ProcId) | Retiring | Stopped

  /** `hosted` is the process that was ever spawned for the cell. */
  datatype Cell = Cell(key: SlotKey, state: CellState, lock: Option<TaskId>, hosted: Option<ProcId>)

  datatype Entry = Entry(cell: CellId, lastUsed: nat)

  /** Who has claimed the kill of a process in the supervisor's registry. */
  datatype Claim = Unclaimed | ByReaper | ByPool

  /** `Reaped(t)` is out of service and waits for sweep `t` to record it. */
  datatype Phase = Booting | Serving | Reaped(sweeper: TaskId) | Recycled | Aborted

  /** `askers[i]` is the task whose request carried id `i + 1`. */
  datatype Proc = Proc(cell: CellId, alive: bool, claim: Claim, phase: Phase,
                       chan: Channel.State, askers: seq<TaskId>)

  datatype Outcome =
    | Answered(p: ProcId, id: nat, item: Channel.Emitted)
    | TimedOut
    | RequestLost
    | SpawnFailed
    | DiedTwice
    | Swept
    | Drained

  /** `size` is the length of the request frame on the wire. */
  datatype Job =
    | Request(key: SlotKey, size: nat)
    | Sweep
    | Drain(scope: Option<string>)

  /** What a retirement returns to. */
  datatype After =
    | EvictAgain(bound: nat)
    | NextVictim(rest: set<CellId>)
    | Retry
    | Finish(o: Outcome)

  datatype Pc =
    | WantAlloc
    // slot_for
    | WantMap(bound: Option<nat>)
    | InMap(bound: Option<nat>)
    | Room(bound: Option<nat>)
    // retire_slot, retire_held, forget_slot
    | RetWait(c: CellId, after: After)
    | RetClaim(c: CellId, after: After)
    | Kill(c: CellId, p: ProcId, after: After)
    | Grace(c: CellId, p: ProcId, after: After)
    | Settle(c: CellId, p: ProcId, after: After)
    | ForgetWait(c: CellId, after: After)
    | ForgetIn(c: CellId, after: After)
    // exchange_with_retry, exchange
    | CellWait(c: CellId)
    | Inspect(c: CellId)
    | Spawn(c: CellId)
    | Handshake(c: CellId, p: ProcId)
    | Begin(c: CellId, p: ProcId)
    | Write(c: CellId, p: ProcId, n: nat)
    | Read(c: CellId, p: ProcId)
    | Reply(c: CellId, p: ProcId, o: Outcome)
    | TouchWait(o: Outcome)
    | TouchIn(o: Outcome)
    // drain and forget_agent
    | DrainWait
    | DrainIn
    | DrainLoop(rest: set<CellId>)
    // sweep and reap_dead
    | SweepWait
    | SweepIn(todo: set<SlotKey>, reaped: set<ProcId>)
    | SweepAudit(reaped: set<ProcId>)
    | Done(o: Outcome)

  datatype Task = Task(job: Job, attempt: nat, pc: Pc)

  datatype Pool = Pool(
    slots: map<SlotKey, Entry>,
    cells: map<CellId, Cell>,
    procs: map<ProcId, Proc>,
    tasks: map<TaskId, Task>,
    alloc: Option<TaskId>,
    mapLock: Option<TaskId>,
    /** Pairs of a request and a process that accepted at least one byte of it. */
    delivered: set<(TaskId, ProcId)>,
    /** `PersistentAgentStarted` and `PersistentAgentRecycled` audit entries. */
    started: multiset<ProcId>,
    recycled: multiset<ProcId>,
    clock: nat)

  /** The manifest fields the pool reads, by agent name. */
  datatype Config = Config(maxInstances: string -> nat, maxInvocations: string -> nat)

  const Empty := Pool(map[], map[], map[], map[], None, None, {}, multiset{}, multiset{}, 0)

  /** How a step resolves what the source leaves to the environment or to map order. */
  datatype Choice =
    | Go
    | Fail
    | NewCell(c: CellId)
    | NewProc(p: ProcId)
    | Victim(k: SlotKey)
    | Pick(id: nat)
    | Visit(k: SlotKey, exited: bool)
    | Accept(count: nat)

  datatype Step =
    | Arrive(t: TaskId, job: Job)
    | Run(t: TaskId, ch: Choice)
    | Exit(p: ProcId)
    | ReaperClaim(p: ProcId)
    | Emit(p: ProcId, line: Channel.Line, about: nat)
    | Tick

  // ---- classification of a failed write ----

  datatype Verdict = Late | Lost | Untouched

  function ClassifyWriteFailure(reaperOwned: bool, wroteBytes: bool): Verdict {
    if reaperOwned then Late else if wroteBytes then Lost else Untouched
  }

  function AfterVerdict(v: Verdict): After {
    match v
    case Late => Finish(TimedOut)
    case Lost => Finish(RequestLost)
    case Untouched => Retry
  }

  // ---- helpers over the state ----

  function AgentKeys(slots: map<SlotKey, Entry>, agent: string): set<SlotKey> {
    set k | k in slots && k.agent == agent
  }

  predicate InScope(scope: Option<string>, k: SlotKey) {
    scope == None || scope == Some(k.agent)
  }

  function ScopeCells(slots: map<SlotKey, Entry>, scope: Option<string>): set<CellId> {
    set k | k in slots && InScope(scope, k) :: slots[k].cell
  }

  function Goto(s: Pool, t: TaskId, pc: Pc): map<TaskId, Task>
    requires t in s.tasks
  {
    s.tasks[t := s.tasks[t].(pc := pc)]
  }

  /** The loop of `exchange_with_retry`: two attempts in all. */
  function NextAttempt(s: Pool, t: TaskId): map<TaskId, Task>
    requires t in s.tasks
  {
    if s.tasks[t].attempt == 0 then s.tasks[t := s.tasks[t].(attempt := 1, pc := WantAlloc)]
    else Goto(s, t, Done(DiedTwice))
  }

  function Resume(s: Pool, t: TaskId, after: After): map<TaskId, Task>
    requires t in s.tasks
  {
    match after
    case EvictAgain(b) => Goto(s, t, WantMap(Some(b)))
    case NextVictim(rest) => Goto(s, t, DrainLoop(rest))
    case Retry => NextAttempt(s, t)
    case Finish(o) => Goto(s, t, Done(o))
  }

  function SetState(s: Pool, c: CellId, state: CellState): map<CellId, Cell>
    requires c in s.cells
  {
    s.cells[c := s.cells[c].(state := state)]
  }

  function Unlock(s: Pool, c: CellId): map<CellId, Cell>
    requires c in s.cells
  {
    s.cells[c := s.cells[c].(lock := None)]
  }

  function StopAndUnlock(s: Pool, c: CellId): map<CellId, Cell>
    requires c in s.cells
  {
    s.cells[c := s.cells[c].(state := Stopped, lock := None)]
  }

  // ---- slot_for ----

  function TakeAlloc(s: Pool, t: TaskId): Option<Pool>
    requires t in s.tasks
  {
    if s.alloc != None then None
    else Some(s.(alloc := Some(t), tasks := Goto(s, t, if s.tasks[t].job.Request? then WantMap(None) else DrainWait)))
  }

  function TakeMap(s: Pool, t: TaskId, pc: Pc): Option<Pool>
    requires t in s.tasks
  {
    if s.mapLock != None then None
    else Some(s.(mapLock := Some(t), tasks := Goto(s, t, pc)))
  }

  /** Reuse the current entry unless its cell can be seen to be stopped. */
  function LookUp(s: Pool, t: TaskId, bound: Option<nat>): Option<Pool>
    requires t in s.tasks
  {
    if !s.tasks[t].job.Request? then None
    else
      var key := s.tasks[t].job.key;
      if key !in s.slots then Some(s.(tasks := Goto(s, t, Room(bound))))
      else
        var c := s.slots[key].cell;
        if c !in s.cells then None
        else if s.cells[c].lock == None && s.cells[c].state == Stopped then
          Some(s.(slots := s.slots - {key}, tasks := Goto(s, t, Room(bound))))
        else
          Some(s.(slots := s.slots[key := Entry(c, s.clock)], mapLock := None, alloc := None,
                  tasks := Goto(s, t, CellWait(c))))
  }

  /** Insert a reservation below the ceiling, or choose the least recently used victim. */
  function MakeRoom(cfg: Config, s: Pool, t: TaskId, bound: Option<nat>, ch: Choice): Option<Pool>
    requires t in s.tasks
  {
    if !s.tasks[t].job.Request? then None
    else
      var key := s.tasks[t].job.key;
      var mine := AgentKeys(s.slots, key.agent);
      if |mine| < cfg.maxInstances(key.agent) then
        if ch.NewCell? && ch.c !in s.cells then
          Some(s.(cells := s.cells[ch.c := Cell(key, Starting, None, None)],
                  slots := s.slots[key := Entry(ch.c, s.clock)], mapLock := None, alloc := None,
                  tasks := Goto(s, t, CellWait(ch.c))))
        else None
      else if mine == {} then Some(s.(mapLock := None, tasks := Goto(s, t, WantMap(bound))))
      else if ch.Victim? && ch.k in mine && (forall k :: k in mine ==> s.slots[ch.k].lastUsed <= s.slots[k].lastUsed) then
        Some(s.(mapLock := None, tasks := Goto(s, t, RetWait(s.slots[ch.k].cell, EvictAgain(|mine|)))))
      else None
  }

  // ---- retirement ----

  function LockCell(s: Pool, t: TaskId, c: CellId, pc: Pc): Option<Pool>
    requires t in s.tasks
  {
    if c !in s.cells || s.cells[c].lock != None then None
    else Some(s.(cells := s.cells[c := s.cells[c].(lock := Some(t))], tasks := Goto(s, t, pc)))
  }

  /** `retire_slot` once it holds the cell. */
  function ClaimSlot(s: Pool, t: TaskId, c: CellId, after: After): Option<Pool>
    requires t in s.tasks
  {
    if c !in s.cells then None
    else match s.cells[c].state
      case Live(p) => Some(s.(cells := SetState(s, c, Retiring), tasks := Goto(s, t, Kill(c, p, after))))
      case _ => Some(s.(cells := StopAndUnlock(s, c), tasks := Goto(s, t, ForgetWait(c, after))))
  }

  /** A request takes its instance out of service and retires it. */
  function RetireOwn(s: Pool, t: TaskId, c: CellId, p: ProcId, after: After): Option<Pool>
    requires t in s.tasks
  {
    if c !in s.cells then None
    else Some(s.(cells := SetState(s, c, Retiring), tasks := Goto(s, t, Kill(c, p, after))))
  }

  /** `Supervisor::terminate`: a no-op once somebody else claimed the kill,
      otherwise the claim is taken and the grace period starts. */
  function Terminate(s: Pool, t: TaskId, c: CellId, p: ProcId, after: After): Option<Pool>
    requires t in s.tasks
  {
    if p !in s.procs then None
    else if s.procs[p].claim == Unclaimed then
      Some(s.(procs := s.procs[p := s.procs[p].(claim := ByPool)], tasks := Goto(s, t, Grace(c, p, after))))
    else Some(s.(tasks := Goto(s, t, Settle(c, p, after))))
  }

  /** The grace period is over and the process tree got its SIGKILL. */
  function GraceOver(s: Pool, t: TaskId, c: CellId, p: ProcId, after: After): Option<Pool>
    requires t in s.tasks
  {
    if p !in s.procs then None
    else Some(s.(procs := s.procs[p := s.procs[p].(alive := false)], tasks := Goto(s, t, Settle(c, p, after))))
  }

  /** Drop the instance, record the recycle, mark the cell stopped and release it. */
  function StopCell(s: Pool, t: TaskId, c: CellId, p: ProcId, after: After): Option<Pool>
    requires t in s.tasks
  {
    if c !in s.cells || p !in s.procs then None
    else if s.procs[p].phase == Serving then
      Some(s.(cells := StopAndUnlock(s, c), procs := s.procs[p := s.procs[p].(phase := Recycled)],
              recycled := s.recycled + multiset{p}, tasks := Goto(s, t, ForgetWait(c, after))))
    else
      Some(s.(cells := StopAndUnlock(s, c), procs := s.procs[p := s.procs[p].(phase := Aborted)],
              tasks := Goto(s, t, ForgetWait(c, after))))
  }

  /** `forget_slot` under the map lock. */
  function Forget(s: Pool, t: TaskId, c: CellId, after: After): Option<Pool>
    requires t in s.tasks
  {
    if c !in s.cells then None
    else
      var key := s.cells[c].key;
      var slots := if key in s.slots && s.slots[key].cell == c then s.slots - {key} else s.slots;
      Some(s.(slots := slots, mapLock := None, tasks := Resume(s, t, after)))
  }

  // ---- one attempt of a request ----

  function InspectCell(s: Pool, t: TaskId, c: CellId): Option<Pool>
    requires t in s.tasks
  {
    if c !in s.cells then None
    else match s.cells[c].state
      case Starting => Some(s.(tasks := Goto(s, t, Spawn(c))))
      case Live(p) => Some(s.(tasks := Goto(s, t, Begin(c, p))))
      case _ => Some(s.(cells := Unlock(s, c), tasks := NextAttempt(s, t)))
  }

  function SpawnProcess(s: Pool, t: TaskId, c: CellId, ch: Choice): Option<Pool>
    requires t in s.tasks
  {
    if c !in s.cells then None
    else if ch.NewProc? && ch.p !in s.procs then
      Some(s.(procs := s.procs[ch.p := Proc(c, true, Unclaimed, Booting, Channel.Fresh, [])],
              cells := s.cells[c := s.cells[c].(hosted := Some(ch.p))],
              tasks := Goto(s, t, Handshake(c, ch.p))))
    else if ch.Fail? then
      Some(s.(cells := StopAndUnlock(s, c), tasks := Goto(s, t, ForgetWait(c, Finish(SpawnFailed)))))
    else None
  }

  /** One stdout line of the handshake; `Fail` is a write error, an early exit or the startup timeout. */
  function ShakeHands(s: Pool, t: TaskId, c: CellId, p: ProcId, ch: Choice): Option<Pool>
    requires t in s.tasks
  {
    if c !in s.cells || p !in s.procs then None
    else if ch.Fail? then Some(s.(tasks := Goto(s, t, Kill(c, p, Finish(SpawnFailed)))))
    else
      var pr := s.procs[p];
      match Channel.Step(pr.chan, Channel.Read)
      case None => None
      case Some(chan) =>
        var f := Channel.Parse(pr.chan.out[0].line);
        var procs := s.procs[p := pr.(chan := chan)];
        if f.Some? && f.value.IsReady() && f.value.ok then
          Some(s.(cells := SetState(s, c, Live(p)), procs := s.procs[p := pr.(chan := chan, phase := Serving)],
                  started := s.started + multiset{p}, tasks := Goto(s, t, Begin(c, p))))
        else if f.Some? && f.value.IsReady() then
          Some(s.(procs := procs, tasks := Goto(s, t, Kill(c, p, Finish(SpawnFailed)))))
        else Some(s.(procs := procs))
  }

  /** `try_wait` and `retime`, then the request gets its id. */
  function BeginExchange(s: Pool, t: TaskId, c: CellId, p: ProcId, ch: Choice): Option<Pool>
    requires t in s.tasks
  {
    if p !in s.procs then None
    else if ch.Fail? then
      if s.procs[p].alive then None else RetireOwn(s, t, c, p, Retry)
    else if s.procs[p].claim != Unclaimed then RetireOwn(s, t, c, p, Retry)
    else match Channel.Step(s.procs[p].chan, Channel.Ask)
      case None => None
      case Some(chan) =>
        Some(s.(procs := s.procs[p := s.procs[p].(chan := chan, askers := s.procs[p].askers + [t])],
                tasks := Goto(s, t, Write(c, p, 0))))
  }

  /** `write_frame`, one write or flush at a time. */
  function WriteSome(s: Pool, t: TaskId, c: CellId, p: ProcId, n: nat, ch: Choice): Option<Pool>
    requires t in s.tasks
  {
    if p !in s.procs || !s.tasks[t].job.Request? then None
    else if ch.Accept? then
      if 0 < ch.count && n + ch.count <= s.tasks[t].job.size then
        Some(s.(delivered := s.delivered + {(t, p)}, tasks := Goto(s, t, Write(c, p, n + ch.count))))
      else None
    else if ch.Fail? then
      // A write that fails or accepts nothing, or a flush that fails.
      RetireOwn(s, t, c, p, AfterVerdict(ClassifyWriteFailure(s.procs[p].claim == ByReaper, n > 0)))
    else if n == s.tasks[t].job.size then Some(s.(tasks := Goto(s, t, Read(c, p))))
    else None
  }

  /** `read_answer` under its timeout. `Pick(0)` is the timeout, `Fail` the end of stdout. */
  function ReadSome(s: Pool, t: TaskId, c: CellId, p: ProcId, ch: Choice): Option<Pool>
    requires t in s.tasks
  {
    if p !in s.procs then None
    else if ch.Pick? then RetireOwn(s, t, c, p, Finish(TimedOut))
    else if ch.Fail? then
      RetireOwn(s, t, c, p, Finish(if s.procs[p].claim == ByReaper then TimedOut else RequestLost))
    else
      var pr := s.procs[p];
      match Channel.Step(pr.chan, Channel.Read)
      case None => None
      case Some(chan) =>
        var read := s.(procs := s.procs[p := pr.(chan := chan)]);
        if |chan.log| == |pr.chan.log| then Some(read)
        else if pr.claim == ByReaper then RetireOwn(read, t, c, p, Finish(TimedOut))
        else Some(read.(tasks := Goto(read, t, Reply(c, p, Answered(p, pr.chan.asked, pr.chan.out[0])))))
  }

  /** The quota check, then the idle clock. */
  function Settled(cfg: Config, s: Pool, t: TaskId, c: CellId, p: ProcId, o: Outcome): Option<Pool>
    requires t in s.tasks
  {
    if c !in s.cells || p !in s.procs then None
    else
      var quota := cfg.maxInvocations(s.cells[c].key.agent);
      if (quota > 0 && |s.procs[p].chan.log| >= quota) || s.procs[p].claim != Unclaimed then
        RetireOwn(s, t, c, p, Finish(o))
      else Some(s.(cells := Unlock(s, c), tasks := Goto(s, t, TouchWait(o))))
  }

  function Touch(s: Pool, t: TaskId, o: Outcome): Option<Pool>
    requires t in s.tasks
  {
    if !s.tasks[t].job.Request? then None
    else
      var key := s.tasks[t].job.key;
      var slots := if key in s.slots then s.slots[key := s.slots[key].(lastUsed := s.clock)] else s.slots;
      Some(s.(slots := slots, mapLock := None, tasks := Goto(s, t, Done(o))))
  }

  // ---- drain, forget_agent ----

  function Snapshot(s: Pool, t: TaskId): Option<Pool>
    requires t in s.tasks
  {
    if !s.tasks[t].job.Drain? then None
    else Some(s.(mapLock := None, tasks := Goto(s, t, DrainLoop(ScopeCells(s.slots, s.tasks[t].job.scope)))))
  }

  function DrainNext(s: Pool, t: TaskId, rest: set<CellId>, ch: Choice): Option<Pool>
    requires t in s.tasks
  {
    if rest == {} then Some(s.(alloc := None, tasks := Goto(s, t, Done(Drained))))
    else if ch.Pick? && ch.id in rest then
      Some(s.(tasks := Goto(s, t, RetWait(ch.id, NextVictim(rest - {ch.id})))))
    else None
  }

  // ---- sweep ----

  /** One entry of `reap_dead`, with the map lock held throughout. */
  function Reap(s: Pool, t: TaskId, todo: set<SlotKey>, reaped: set<ProcId>, ch: Choice): Option<Pool>
    requires t in s.tasks
  {
    if todo == {} then Some(s.(mapLock := None, tasks := Goto(s, t, SweepAudit(reaped))))
    else if !ch.Visit? || ch.k !in todo || ch.k !in s.slots || s.slots[ch.k].cell !in s.cells then None
    else
      var c := s.slots[ch.k].cell;
      var kept := s.(tasks := Goto(s, t, SweepIn(todo - {ch.k}, reaped)));
      if s.cells[c].lock != None then Some(kept)
      else match s.cells[c].state
        case Stopped => Some(kept.(slots := s.slots - {ch.k}))
        case Live(p) =>
          if p !in s.procs || (ch.exited && s.procs[p].alive) then None
          else if !ch.exited then Some(kept)
          else Some(s.(slots := s.slots - {ch.k}, cells := SetState(s, c, Stopped),
                       procs := s.procs[p := s.procs[p].(phase := Reaped(t))],
                       tasks := Goto(s, t, SweepIn(todo - {ch.k}, reaped + {p}))))
        case _ => Some(kept)
  }

  function AuditReaped(s: Pool, t: TaskId, reaped: set<ProcId>, ch: Choice): Option<Pool>
    requires t in s.tasks
  {
    if reaped == {} then Some(s.(tasks := Goto(s, t, Done(Swept))))
    else if ch.Pick? && ch.id in reaped && ch.id in s.procs then
      Some(s.(procs := s.procs[ch.id := s.procs[ch.id].(phase := Recycled)],
              recycled := s.recycled + multiset{ch.id}, tasks := Goto(s, t, SweepAudit(reaped - {ch.id}))))
    else None
  }

  // ---- the step relation ----

  function RunTask(cfg: Config, s: Pool, t: TaskId, ch: Choice): Option<Pool> {
    if t !in s.tasks then None
    else match s.tasks[t].pc
      case WantAlloc => TakeAlloc(s, t)
      case WantMap(b) => TakeMap(s, t, InMap(b))
      case InMap(b) => LookUp(s, t, b)
      case Room(b) => MakeRoom(cfg, s, t, b, ch)
      case RetWait(c, a) => LockCell(s, t, c, RetClaim(c, a))
      case RetClaim(c, a) => ClaimSlot(s, t, c, a)
      case Kill(c, p, a) => Terminate(s, t, c, p, a)
      case Grace(c, p, a) => GraceOver(s, t, c, p, a)
      case Settle(c, p, a) => StopCell(s, t, c, p, a)
      case ForgetWait(c, a) => TakeMap(s, t, ForgetIn(c, a))
      case ForgetIn(c, a) => Forget(s, t, c, a)
      case CellWait(c) => LockCell(s, t, c, Inspect(c))
      case Inspect(c) => InspectCell(s, t, c)
      case Spawn(c) => SpawnProcess(s, t, c, ch)
      case Handshake(c, p) => ShakeHands(s, t, c, p, ch)
      case Begin(c, p) => BeginExchange(s, t, c, p, ch)
      case Write(c, p, n) => WriteSome(s, t, c, p, n, ch)
      case Read(c, p) => ReadSome(s, t, c, p, ch)
      case Reply(c, p, o) => Settled(cfg, s, t, c, p, o)
      case TouchWait(o) => TakeMap(s, t, TouchIn(o))
      case TouchIn(o) => Touch(s, t, o)
      case DrainWait => TakeMap(s, t, DrainIn)
      case DrainIn => Snapshot(s, t)
      case DrainLoop(rest) => DrainNext(s, t, rest, ch)
      case SweepWait => TakeMap(s, t, SweepIn(s.slots.Keys, {}))
      case SweepIn(todo, reaped) => Reap(s, t, todo, reaped, ch)
      case SweepAudit(reaped) => AuditReaped(s, t, reaped, ch)
      case Done(_) => None
  }

  function NextState(cfg: Config, s: Pool, step: Step): Option<Pool> {
    match step
    case Arrive(t, job) =>
      if t in s.tasks || (job.Request? && job.size == 0) then None
      else Some(s.(tasks := s.tasks[t := Task(job, 0, if job.Sweep? then SweepWait else WantAlloc)]))
    case Run(t, ch) => RunTask(cfg, s, t, ch)
    case Exit(p) =>
      if p in s.procs then Some(s.(procs := s.procs[p := s.procs[p].(alive := false)])) else None
    case ReaperClaim(p) =>
      if p in s.procs && s.procs[p].claim == Unclaimed && (s.procs[p].phase == Booting || s.procs[p].phase == Serving) then
        Some(s.(procs := s.procs[p := s.procs[p].(claim := ByReaper)]))
      else None
    case Emit(p, line, about) =>
      if p !in s.procs then None
      else
        var chan := Channel.Step(s.procs[p].chan, Channel.Emit(line, about));
        if chan == None then None
        else Some(s.(procs := s.procs[p := s.procs[p].(chan := chan.value)]))
    case Tick => Some(s.(clock := s.clock + 1))
  }

  /** The states a run of the pool from empty can be in. */
  ghost predicate IsRun(cfg: Config, run: seq<Pool>, steps: seq<Step>) {
    && |run| == |steps| + 1
    && run[0] == Empty
    && forall i :: 0 <= i < |steps| ==> NextState(cfg, run[i], steps[i]) == Some(run[i + 1])
  }
}
