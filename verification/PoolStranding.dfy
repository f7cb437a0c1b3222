/** Where the ceiling gives way. */
module PoolStranding {
  // `Supervisor::terminate` returns at once when the reaper has already claimed the
  // process, so its cell is freed while the process is still in its grace period.

  import opened Common
  import opened PoolModel
  import opened PoolInvariant
  import opened PoolSafety
  import opened PoolTheorems
  import PoolRetirement
  import Channel

  lemma ReachOne(cfg: Config, s: Pool, step: Step)
    requires Reachable(cfg, s) && NextState(cfg, s, step).Some?
    ensures Reachable(cfg, NextState(cfg, s, step).value)
  {
    var run: seq<Pool>, steps: seq<Step> :| IsRun(cfg, run, steps) && s == run[|steps|];
    var run', steps' := run + [NextState(cfg, s, step).value], steps + [step];
    forall i | 0 <= i < |steps'|
      ensures NextState(cfg, run'[i], steps'[i]) == Some(run'[i + 1])
    {
      if i < |steps| {
        assert NextState(cfg, run[i], steps[i]) == Some(run[i + 1]);
      }
    }
    assert IsRun(cfg, run', steps');
  }

  lemma EmptyReachable(cfg: Config)
    ensures Reachable(cfg, Empty)
  {
    assert IsRun(cfg, [Empty], []);
  }

  // ---- the ceiling holds until a retirement frees the cell of a live process ----

  /** The step ends a retirement whose process is still alive. */
  predicate FreesLive(s: Pool, step: Step) {
    && step.Run? && step.t in s.tasks && s.tasks[step.t].pc.Settle?
    && var p := s.tasks[step.t].pc.p; p in s.procs && s.procs[p].alive
  }

  ghost predicate NoneStranded(s: Pool) {
    forall p :: p in s.procs && s.procs[p].alive ==> s.procs[p].cell in s.cells && s.cells[s.procs[p].cell].state != Stopped
  }

  /** What `Inv` says of one process, and of the one that a sweep still records. */
  lemma PhaseOf(cfg: Config, s: Pool, p: ProcId)
    requires Inv(cfg, s) && p in s.procs
    ensures s.procs[p].cell in s.cells
    ensures var stopped := s.cells[s.procs[p].cell].state == Stopped;
      (s.procs[p].phase == Booting || s.procs[p].phase == Serving) <==> !stopped
  {
    assert ProcOk(cfg, s, p);
  }

  lemma RecordedIsReaped(cfg: Config, s: Pool, t: TaskId, p: ProcId)
    requires Inv(cfg, s) && t in s.tasks && s.tasks[t].pc.SweepAudit? && p in s.tasks[t].pc.reaped
    ensures p in s.procs && s.procs[p].phase == Reaped(t)
  {
    assert TaskOk(cfg, s, t);
  }

  lemma TaskStrandsNone(cfg: Config, s: Pool, t: TaskId, ch: Choice, p: ProcId)
    requires Inv(cfg, s) && NoneStranded(s) && RunTask(cfg, s, t, ch).Some? && Inv(cfg, RunTask(cfg, s, t, ch).value)
    requires !FreesLive(s, Run(t, ch)) && p in RunTask(cfg, s, t, ch).value.procs && RunTask(cfg, s, t, ch).value.procs[p].alive
    ensures var s' := RunTask(cfg, s, t, ch).value; s'.procs[p].cell in s'.cells && s'.cells[s'.procs[p].cell].state != Stopped
  {
    hide Inv, RunTask;
    PoolRetirement.TaskQuiet(cfg, s, t, ch);
    PhaseOf(cfg, RunTask(cfg, s, t, ch).value, p);
    if p in s.procs {
      PhaseOf(cfg, s, p);
      if s.tasks[t].pc.SweepAudit? && p in s.tasks[t].pc.reaped {
        RecordedIsReaped(cfg, s, t, p);
      }
    }
  }

  lemma OtherStrandsNone(cfg: Config, s: Pool, step: Step)
    requires NoneStranded(s) && NextState(cfg, s, step).Some? && !step.Run?
    ensures NoneStranded(NextState(cfg, s, step).value)
  {
    hide Channel.Step, RunTask;
  }

  lemma FreedLiveIsStranded(cfg: Config, s: Pool, step: Step)
    requires Inv(cfg, s) && NextState(cfg, s, step).Some? && FreesLive(s, step)
    ensures !NoneStranded(NextState(cfg, s, step).value)
  {
    var t, s' := step.t, NextState(cfg, s, step).value;
    var c, p := s.tasks[t].pc.c, s.tasks[t].pc.p;
    assert NextState(cfg, s, step) == RunTask(cfg, s, t, step.ch);
    PoolRetirement.RetiresWhat(cfg, s, t, c, p);
    PoolRetirement.Frees(cfg, s, t, step.ch);
    PoolRetirement.TaskQuiet(cfg, s, t, step.ch);
    hide Inv, RunTask, NextState;
    assert s'.procs[p].cell == c;
  }

  lemma StepStrandsIff(cfg: Config, s: Pool, step: Step)
    requires Inv(cfg, s) && NoneStranded(s) && NextState(cfg, s, step).Some?
    ensures NoneStranded(NextState(cfg, s, step).value) <==> !FreesLive(s, step)
  {
    if FreesLive(s, step) {
      FreedLiveIsStranded(cfg, s, step);
    } else if !step.Run? {
      OtherStrandsNone(cfg, s, step);
    } else {
      StepKeepsInv(cfg, s, step);
      assert NextState(cfg, s, step) == RunTask(cfg, s, step.t, step.ch);
      hide Inv, RunTask, FreesLive, NextState;
      var s' := RunTask(cfg, s, step.t, step.ch).value;
      forall p | p in s'.procs && s'.procs[p].alive
        ensures s'.procs[p].cell in s'.cells && s'.cells[s'.procs[p].cell].state != Stopped
      {
        TaskStrandsNone(cfg, s, step.t, step.ch, p);
      }
    }
  }

  ghost predicate FreesNoneLive(run: seq<Pool>, steps: seq<Step>)
    requires |run| == |steps| + 1
  {
    forall k :: 0 <= k < |steps| ==> !FreesLive(run[k], steps[k])
  }

  lemma {:induction false} NoneStrandedAt(cfg: Config, run: seq<Pool>, steps: seq<Step>, k: nat)
    requires IsRun(cfg, run, steps) && FreesNoneLive(run, steps) && k <= |steps|
    ensures NoneStranded(run[k])
  {
    if k > 0 {
      NoneStrandedAt(cfg, run, steps, k - 1);
      RunInv(cfg, run, steps, k - 1);
      PoolRetirement.RunStep(cfg, run, steps, k - 1);
      hide IsRun, Inv, NextState, NoneStranded, FreesLive;
      StepStrandsIff(cfg, run[k - 1], steps[k - 1]);
    }
  }

  /** In a run, a live process is ever found in a stopped cell exactly when some
      retirement freed the cell of a live process. */
  lemma StrandingIff(cfg: Config, run: seq<Pool>, steps: seq<Step>)
    requires IsRun(cfg, run, steps)
    ensures (forall k :: 0 <= k <= |steps| ==> NoneStranded(run[k])) <==> FreesNoneLive(run, steps)
  {
    hide Inv, NextState, NoneStranded, FreesLive;
    if FreesNoneLive(run, steps) {
      forall k | 0 <= k <= |steps|
        ensures NoneStranded(run[k])
      {
        NoneStrandedAt(cfg, run, steps, k);
      }
    } else {
      var k :| 0 <= k < |steps| && FreesLive(run[k], steps[k]);
      RunInv(cfg, run, steps, k);
      PoolRetirement.RunStep(cfg, run, steps, k);
      FreedLiveIsStranded(cfg, run[k], steps[k]);
    }
  }

  /** In a run without such a retirement, `max_instances` is a hard ceiling on the
      live processes of every agent, at every moment. */
  lemma CeilingIsHard(cfg: Config, run: seq<Pool>, steps: seq<Step>, k: nat, agent: string)
    requires IsRun(cfg, run, steps) && FreesNoneLive(run, steps) && k <= |steps|
    ensures |AliveOf(run[k], agent)| <= cfg.maxInstances(agent)
  {
    NoneStrandedAt(cfg, run, steps, k);
    assert Stranded(run[k], agent) == {};
    PrefixReachable(cfg, run, steps, k);
    CeilingHolds(cfg, run[k], agent);
  }

  lemma PrefixReachable(cfg: Config, run: seq<Pool>, steps: seq<Step>, k: nat)
    requires IsRun(cfg, run, steps) && k <= |steps|
    ensures Reachable(cfg, run[k])
  {
    hide NextState;
    forall i | 0 <= i < k
      ensures NextState(cfg, run[..k + 1][i], steps[..k][i]) == Some(run[..k + 1][i + 1])
    {
      PoolRetirement.RunStep(cfg, run, steps, i);
    }
    assert IsRun(cfg, run[..k + 1], steps[..k]);
  }

  // ---- a run with two live processes under a ceiling of one ----

  const One := Config((a: string) => 1, (a: string) => 0)
  const Key := SlotKey("a", "k")
  const Asked := Request(Key, 1)
  const ReadyLine := Channel.Object(Channel.Value("ready"), Channel.Absent, Channel.Absent,
                                    Channel.Absent, Channel.Absent, Channel.Absent)

  function Slots(c: CellId): map<SlotKey, Entry> {
    map[Key := Entry(c, 0)]
  }

  /** The states of the run: one task, nothing delivered, the clock at zero. */
  function At(slots: map<SlotKey, Entry>, cells: map<CellId, Cell>, procs: map<ProcId, Proc>, attempt: nat, pc: Pc,
              alloc: bool, mapLock: bool, started: multiset<ProcId>, recycled: multiset<ProcId>): Pool {
    Pool(slots, cells, procs, map[0 := Task(Asked, attempt, pc)], if alloc then Some(0) else None,
         if mapLock then Some(0) else None, {}, started, recycled, 0)
  }

  lemma Follow(s: Pool, ch: Choice, s': Pool)
    requires Reachable(One, s) && RunTask(One, s, 0, ch) == Some(s')
    ensures Reachable(One, s')
  {
    assert NextState(One, s, Run(0, ch)) == Some(s');
    ReachOne(One, s, Run(0, ch));
  }

  /** A request with no entry in the map reserves cell `c`. */
  lemma Reserve(cells: map<CellId, Cell>, procs: map<ProcId, Proc>, attempt: nat, c: CellId,
                started: multiset<ProcId>, recycled: multiset<ProcId>)
    requires c !in cells
    requires Reachable(One, At(map[], cells, procs, attempt, WantAlloc, false, false, started, recycled))
    ensures Reachable(One, At(Slots(c), cells[c := Cell(Key, Starting, None, None)], procs, attempt, CellWait(c),
                              false, false, started, recycled))
  {
    var s0 := At(map[], cells, procs, attempt, WantAlloc, false, false, started, recycled);
    var s1 := At(map[], cells, procs, attempt, WantMap(None), true, false, started, recycled);
    assert s0.tasks[0 := Task(Asked, attempt, WantMap(None))] == s1.tasks;
    Follow(s0, Go, s1);
    var s2 := At(map[], cells, procs, attempt, InMap(None), true, true, started, recycled);
    assert s1.tasks[0 := Task(Asked, attempt, InMap(None))] == s2.tasks;
    Follow(s1, Go, s2);
    var s3 := At(map[], cells, procs, attempt, Room(None), true, true, started, recycled);
    assert s2.tasks[0 := Task(Asked, attempt, Room(None))] == s3.tasks;
    Follow(s2, Go, s3);
    var s4 := At(Slots(c), cells[c := Cell(Key, Starting, None, None)], procs, attempt, CellWait(c), false, false, started, recycled);
    assert s3.tasks[0 := Task(Asked, attempt, CellWait(c))] == s4.tasks;
    assert AgentKeys(s3.slots, "a") == {};
    assert s3.slots[Key := Entry(c, 0)] == s4.slots;
    Follow(s3, NewCell(c), s4);
  }

  /** The request locks its reservation and finds that it has to spawn. */
  lemma LockReservation(cells: map<CellId, Cell>, procs: map<ProcId, Proc>, attempt: nat, c: CellId,
                        started: multiset<ProcId>, recycled: multiset<ProcId>)
    requires Reachable(One, At(Slots(c), cells[c := Cell(Key, Starting, None, None)], procs, attempt, CellWait(c),
                               false, false, started, recycled))
    ensures Reachable(One, At(Slots(c), cells[c := Cell(Key, Starting, Some(0), None)], procs, attempt, Spawn(c),
                              false, false, started, recycled))
  {
    var s0 := At(Slots(c), cells[c := Cell(Key, Starting, None, None)], procs, attempt, CellWait(c), false, false, started, recycled);
    var locked := cells[c := Cell(Key, Starting, Some(0), None)];
    var s1 := At(Slots(c), locked, procs, attempt, Inspect(c), false, false, started, recycled);
    assert s0.tasks[0 := Task(Asked, attempt, Inspect(c))] == s1.tasks;
    assert s0.cells[c := Cell(Key, Starting, Some(0), None)] == locked;
    Follow(s0, Go, s1);
    var s2 := At(Slots(c), locked, procs, attempt, Spawn(c), false, false, started, recycled);
    assert s1.tasks[0 := Task(Asked, attempt, Spawn(c))] == s2.tasks;
    Follow(s1, Go, s2);
  }

  lemma SpawnInto(cells: map<CellId, Cell>, procs: map<ProcId, Proc>, attempt: nat, c: CellId, p: ProcId,
                  started: multiset<ProcId>, recycled: multiset<ProcId>)
    requires p !in procs
    requires Reachable(One, At(Slots(c), cells[c := Cell(Key, Starting, None, None)], procs, attempt, CellWait(c),
                               false, false, started, recycled))
    ensures Reachable(One, At(Slots(c), cells[c := Cell(Key, Starting, Some(0), Some(p))],
                              procs[p := Proc(c, true, Unclaimed, Booting, Channel.Fresh, [])], attempt, Handshake(c, p),
                              false, false, started, recycled))
  {
    LockReservation(cells, procs, attempt, c, started, recycled);
    var s2 := At(Slots(c), cells[c := Cell(Key, Starting, Some(0), None)], procs, attempt, Spawn(c), false, false, started, recycled);
    var s3 := At(Slots(c), cells[c := Cell(Key, Starting, Some(0), Some(p))],
                 procs[p := Proc(c, true, Unclaimed, Booting, Channel.Fresh, [])], attempt, Handshake(c, p),
                 false, false, started, recycled);
    assert s2.tasks[0 := Task(Asked, attempt, Handshake(c, p))] == s3.tasks;
    assert s2.cells[c := Cell(Key, Starting, Some(0), Some(p))] == s3.cells;
    Follow(s2, NewProc(p), s3);
  }

  /** The agent says it is ready, and then the reaper claims it. */
  lemma ReadyThenClaimed()
    requires Reachable(One, At(Slots(0), map[0 := Cell(Key, Starting, Some(0), Some(0))],
                               map[0 := Proc(0, true, Unclaimed, Booting, Channel.Fresh, [])], 0, Handshake(0, 0),
                               false, false, multiset{}, multiset{}))
    ensures Reachable(One, At(Slots(0), map[0 := Cell(Key, Live(0), Some(0), Some(0))],
                              map[0 := Proc(0, true, ByReaper, Serving, Channel.Fresh, [])], 0, Begin(0, 0),
                              false, false, multiset{0}, multiset{}))
  {
    var cells := map[0 := Cell(Key, Starting, Some(0), Some(0))];
    var s0 := At(Slots(0), cells, map[0 := Proc(0, true, Unclaimed, Booting, Channel.Fresh, [])], 0, Handshake(0, 0),
                 false, false, multiset{}, multiset{});
    var said := Channel.Fresh.(out := [Channel.Emitted(ReadyLine, 0, true)]);
    assert !Channel.IsReplyLine(ReadyLine);
    assert Channel.Step(Channel.Fresh, Channel.Emit(ReadyLine, 0)) == Some(said) by {
      assert Channel.Fresh.out + [Channel.Emitted(ReadyLine, 0, true)] == said.out;
    }
    var s1 := At(Slots(0), cells, map[0 := Proc(0, true, Unclaimed, Booting, said, [])], 0, Handshake(0, 0),
                 false, false, multiset{}, multiset{});
    assert s0.procs[0 := Proc(0, true, Unclaimed, Booting, said, [])] == s1.procs;
    ReachOne(One, s0, Emit(0, ReadyLine, 0));
    assert Channel.Step(said, Channel.Read) == Some(Channel.Fresh) by {
      assert said.out[1..] == [];
    }
    var live := map[0 := Cell(Key, Live(0), Some(0), Some(0))];
    var s2 := At(Slots(0), live, map[0 := Proc(0, true, Unclaimed, Serving, Channel.Fresh, [])], 0, Begin(0, 0),
                 false, false, multiset{0}, multiset{});
    assert s1.tasks[0 := Task(Asked, 0, Begin(0, 0))] == s2.tasks;
    assert s1.cells[0 := Cell(Key, Live(0), Some(0), Some(0))] == s2.cells;
    assert s1.procs[0 := Proc(0, true, Unclaimed, Serving, Channel.Fresh, [])] == s2.procs;
    assert multiset{} + multiset{0} == multiset{0};
    Follow(s1, Go, s2);
    var s3 := At(Slots(0), live, map[0 := Proc(0, true, ByReaper, Serving, Channel.Fresh, [])], 0, Begin(0, 0),
                 false, false, multiset{0}, multiset{});
    assert s2.procs[0 := Proc(0, true, ByReaper, Serving, Channel.Fresh, [])] == s3.procs;
    ReachOne(One, s2, ReaperClaim(0));
  }

  /** `retime` refuses, the retirement returns at once, and the request tries again. */
  lemma FreedTooEarly()
    requires Reachable(One, At(Slots(0), map[0 := Cell(Key, Live(0), Some(0), Some(0))],
                               map[0 := Proc(0, true, ByReaper, Serving, Channel.Fresh, [])], 0, Begin(0, 0),
                               false, false, multiset{0}, multiset{}))
    ensures Reachable(One, At(map[], map[0 := Cell(Key, Stopped, None, Some(0))],
                              map[0 := Proc(0, true, ByReaper, Recycled, Channel.Fresh, [])], 1, WantAlloc,
                              false, false, multiset{0}, multiset{0}))
  {
    var procs := map[0 := Proc(0, true, ByReaper, Serving, Channel.Fresh, [])];
    var s0 := At(Slots(0), map[0 := Cell(Key, Live(0), Some(0), Some(0))], procs, 0, Begin(0, 0), false, false, multiset{0}, multiset{});
    var retiring := map[0 := Cell(Key, Retiring, Some(0), Some(0))];
    var s1 := At(Slots(0), retiring, procs, 0, Kill(0, 0, Retry), false, false, multiset{0}, multiset{});
    assert s0.tasks[0 := Task(Asked, 0, Kill(0, 0, Retry))] == s1.tasks;
    assert s0.cells[0 := Cell(Key, Retiring, Some(0), Some(0))] == s1.cells;
    Follow(s0, Go, s1);
    var s2 := At(Slots(0), retiring, procs, 0, Settle(0, 0, Retry), false, false, multiset{0}, multiset{});
    assert s1.tasks[0 := Task(Asked, 0, Settle(0, 0, Retry))] == s2.tasks;
    Follow(s1, Go, s2);
    FreedAndForgotten();
  }

  lemma FreedAndForgotten()
    requires Reachable(One, At(Slots(0), map[0 := Cell(Key, Retiring, Some(0), Some(0))],
                               map[0 := Proc(0, true, ByReaper, Serving, Channel.Fresh, [])], 0, Settle(0, 0, Retry),
                               false, false, multiset{0}, multiset{}))
    ensures Reachable(One, At(map[], map[0 := Cell(Key, Stopped, None, Some(0))],
                              map[0 := Proc(0, true, ByReaper, Recycled, Channel.Fresh, [])], 1, WantAlloc,
                              false, false, multiset{0}, multiset{0}))
  {
    var s2 := At(Slots(0), map[0 := Cell(Key, Retiring, Some(0), Some(0))],
                 map[0 := Proc(0, true, ByReaper, Serving, Channel.Fresh, [])], 0, Settle(0, 0, Retry),
                 false, false, multiset{0}, multiset{});
    var stopped := map[0 := Cell(Key, Stopped, None, Some(0))];
    var gone := map[0 := Proc(0, true, ByReaper, Recycled, Channel.Fresh, [])];
    var s3 := At(Slots(0), stopped, gone, 0, ForgetWait(0, Retry), false, false, multiset{0}, multiset{0});
    assert s2.tasks[0 := Task(Asked, 0, ForgetWait(0, Retry))] == s3.tasks;
    assert s2.cells[0 := Cell(Key, Stopped, None, Some(0))] == s3.cells;
    assert s2.procs[0 := Proc(0, true, ByReaper, Recycled, Channel.Fresh, [])] == s3.procs;
    assert multiset{} + multiset{0} == multiset{0};
    Follow(s2, Go, s3);
    var s4 := At(Slots(0), stopped, gone, 0, ForgetIn(0, Retry), false, true, multiset{0}, multiset{0});
    assert s3.tasks[0 := Task(Asked, 0, ForgetIn(0, Retry))] == s4.tasks;
    Follow(s3, Go, s4);
    var s5 := At(map[], stopped, gone, 1, WantAlloc, false, false, multiset{0}, multiset{0});
    assert s4.tasks[0 := Task(Asked, 1, WantAlloc)] == s5.tasks;
    assert s4.slots - {Key} == s5.slots;
    Follow(s4, Go, s5);
  }

  /** One request is enough to have two live processes of an agent limited to one. */
  lemma CeilingCanBreak()
    ensures exists s :: Reachable(One, s) && One.maxInstances("a") == 1 && |AliveOf(s, "a")| == 2
  {
    EmptyReachable(One);
    ReachOne(One, Empty, Arrive(0, Asked));
    var s0 := At(map[], map[], map[], 0, WantAlloc, false, false, multiset{}, multiset{});
    assert Empty.tasks[0 := Task(Asked, 0, WantAlloc)] == s0.tasks;
    Reserve(map[], map[], 0, 0, multiset{}, multiset{});
    SpawnInto(map[], map[], 0, 0, 0, multiset{}, multiset{});
    assert map[][0 := Cell(Key, Starting, Some(0), Some(0))] == map[0 := Cell(Key, Starting, Some(0), Some(0))];
    ReadyThenClaimed();
    FreedTooEarly();
    var stopped := map[0 := Cell(Key, Stopped, None, Some(0))];
    var gone := map[0 := Proc(0, true, ByReaper, Recycled, Channel.Fresh, [])];
    Reserve(stopped, gone, 1, 1, multiset{0}, multiset{0});
    SpawnInto(stopped, gone, 1, 1, 1, multiset{0}, multiset{0});
    var s := At(Slots(1), stopped[1 := Cell(Key, Starting, Some(0), Some(1))],
                gone[1 := Proc(1, true, Unclaimed, Booting, Channel.Fresh, [])], 1, Handshake(1, 1),
                false, false, multiset{0}, multiset{0});
    assert AliveOf(s, "a") == {0, 1};
  }
}
