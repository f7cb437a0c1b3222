/** What every run of the fact store keeps: statement counts and supersession order. */
module MemoryRuns {
  import opened Common
  import opened Text
  import opened FactKey
  import opened TopicPages
  import opened MemoryStore

  // ---- whole runs ----

  datatype Op =
    | Tell(text: string, topics: seq<string>, at: nat)
    | Change(stale: nat, text: string, topics: seq<string>, at: nat)
    | Drop(id: nat)

  /** A run so far. `told[id]` counts the writes that stated fact `id`; `lost`
      is what the forgotten facts had been seen; `retired[id]` is the last
      operation that superseded `id`. */
  datatype History = History(state: State, ops: nat, writes: nat, told: seq<nat>, lost: nat, retired: map<nat, nat>)

  const Start := History(State([], 0), 0, 0, [], 0, map[])

  function Credit(told: seq<nat>, id: nat): seq<nat> {
    if id < |told| then told[id := told[id] + 1] else told + [1]
  }

  function Told(u: Unicode, h: History, text: string, topics: seq<string>, at: nat): History {
    var (s, r) := Remember(u, h.state, text, topics, at);
    if r.Err? then h else h.(state := s, writes := h.writes + 1, told := Credit(h.told, r.memory.id))
  }

  function Step(u: Unicode, h: History, op: Op): History {
    match op
    case Tell(text, topics, at) => Told(u, h, text, topics, at).(ops := h.ops + 1)
    case Change(stale, text, topics, at) =>
      var (s, r) := Supersede(u, h.state, stale, text, topics, at);
      var mid := Told(u, h, text, topics, at);
      mid.(state := s, ops := h.ops + 1,
           retired := if r.Ok? && r.memory.id != stale then h.retired[stale := h.ops] else h.retired)
    case Drop(id) =>
      var (s, found) := Forget(h.state, id);
      var seen := if found then h.state.blocks[FindById(h.state.blocks, id).value].seen else 0;
      h.(state := s, ops := h.ops + 1, lost := h.lost + seen)
  }

  function Run(u: Unicode, ops: seq<Op>): History {
    if ops == [] then Start else Step(u, Run(u, ops[..|ops| - 1]), ops[|ops| - 1])
  }

  // ---- counting ----

  function Sum(xs: seq<nat>): nat {
    if xs == [] then 0 else xs[0] + Sum(xs[1..])
  }

  function SeenSum(blocks: seq<Block>): nat {
    if blocks == [] then 0 else blocks[0].seen + SeenSum(blocks[1..])
  }

  lemma {:induction false} SumAppend(a: seq<nat>, b: seq<nat>)
    ensures Sum(a + b) == Sum(a) + Sum(b)
    decreases |a|
  {
    if a == [] {
      assert a + b == b;
    } else {
      assert (a + b)[1..] == a[1..] + b;
      SumAppend(a[1..], b);
    }
  }

  lemma {:induction false} SeenSumAppend(a: seq<Block>, b: seq<Block>)
    ensures SeenSum(a + b) == SeenSum(a) + SeenSum(b)
    decreases |a|
  {
    if a == [] {
      assert a + b == b;
    } else {
      assert (a + b)[1..] == a[1..] + b;
      SeenSumAppend(a[1..], b);
    }
  }

  lemma {:induction false} SumRaise(told: seq<nat>, id: nat)
    requires id < |told|
    ensures Sum(told[id := told[id] + 1]) == Sum(told) + 1
    decreases |told|
  {
    var raised := told[id := told[id] + 1];
    if id == 0 {
      assert raised[1..] == told[1..];
    } else {
      SumRaise(told[1..], id - 1);
      assert raised[1..] == told[1..][id - 1 := told[id] + 1];
    }
  }

  lemma SumCredit(told: seq<nat>, id: nat)
    requires id <= |told|
    ensures Sum(Credit(told, id)) == Sum(told) + 1
  {
    if id < |told| {
      SumRaise(told, id);
    } else {
      SumAppend(told, [1]);
      assert Sum([1]) == 1;
    }
  }

  lemma SeenSumUpdate(blocks: seq<Block>, i: nat, b: Block)
    requires i < |blocks|
    ensures SeenSum(blocks[i := b]) == SeenSum(blocks) - blocks[i].seen + b.seen
    ensures SeenSum(blocks[..i] + blocks[i + 1..]) == SeenSum(blocks) - blocks[i].seen
  {
    var rest := blocks[i + 1..];
    assert blocks == blocks[..i] + ([blocks[i]] + rest);
    assert blocks[i := b] == blocks[..i] + ([b] + rest);
    SeenSumAppend(blocks[..i], [blocks[i]] + rest);
    SeenSumAppend(blocks[..i], [b] + rest);
    SeenSumAppend(blocks[..i], rest);
    assert ([blocks[i]] + rest)[1..] == rest == ([b] + rest)[1..];
  }

  lemma SeenSumInsert(blocks: seq<Block>, at: nat, b: Block)
    ensures SeenSum(InsertAt(blocks, at, b)) == SeenSum(blocks) + b.seen
  {
    var n := if at <= |blocks| then at else |blocks|;
    assert blocks == blocks[..n] + blocks[n..];
    assert InsertAt(blocks, at, b) == blocks[..n] + ([b] + blocks[n..]);
    SeenSumAppend(blocks[..n], blocks[n..]);
    SeenSumAppend(blocks[..n], [b] + blocks[n..]);
    assert ([b] + blocks[n..])[1..] == blocks[n..];
  }

  // ---- the shape of one write ----

  /** The live fact at `i` was stated once more. */
  ghost predicate Restated(s: State, s': State, i: nat, b: Block) {
    && i < |s.blocks| && s' == s.(blocks := s.blocks[i := b])
    && b.id == s.blocks[i].id && b.seen == SaturatingAdd(s.blocks[i].seen)
    && b.supersededBy == s.blocks[i].supersededBy == None
  }

  ghost predicate Added(s: State, s': State, at: nat, b: Block) {
    && s' == State(InsertAt(s.blocks, at, b), s.created + 1)
    && b.id == s.created && b.seen == 1 && b.supersededBy == None
  }

  ghost predicate Wrote(s: State, s': State, at: nat, i: Option<nat>, b: Block) {
    match i case Some(k) => Restated(s, s', k, b) case None => Added(s, s', at, b)
  }

  lemma FoundIsLive(u: Unicode, blocks: seq<Block>, key: string)
    ensures var i := FindByKey(u, blocks, key); i.Some? ==> i.value < |blocks| && blocks[i.value].supersededBy == None
  {
  }

  lemma WriteShape(s: State, t: string, names: seq<string>, found: Option<nat>, at: nat) returns (b: Block)
    requires Found(s.blocks, found) && (found.Some? ==> s.blocks[found.value].supersededBy == None)
    ensures var (s', r) := Write(s, t, names, found, at); r.Ok? && r.memory.id == b.id && Wrote(s, s', at, found, b)
  {
    match found
    case Some(i) => b := Rewritten(s.blocks[i], ReadFact(s.blocks[i]).value, names);
    case None => b := Block(s.created, FactText.BlockText(t, names), 1, None);
  }

  lemma RememberShape(u: Unicode, s: State, text: string, topics: seq<string>, at: nat) returns (i: Option<nat>, b: Block)
    ensures Trim(text) == "" ==> Remember(u, s, text, topics, at) == (s, Err(Blank))
    ensures Trim(text) != "" ==>
      var (s', r) := Remember(u, s, text, topics, at); r.Ok? && r.memory.id == b.id && Wrote(s, s', at, i, b)
  {
    var key := DedupKey(u, Trim(text));
    FoundIsLive(u, s.blocks, key);
    i := FindByKey(u, s.blocks, key);
    b := WriteShape(s, Trim(text), Pages(u, topics), i, at);
  }

  // ---- counting holds over every run ----

  /** Ids are never reused, `told` counts the statements of each fact, and every
      statement is still seen or was seen by a fact that was forgotten. */
  ghost predicate Counted(s: State, told: seq<nat>, writes: nat, lost: nat) {
    && |told| == s.created && Sum(told) == writes
    && (forall i :: 0 <= i < |s.blocks| ==> s.blocks[i].id < |told| && s.blocks[i].seen == Capped(told[s.blocks[i].id]))
    && (writes <= SEEN_MAX ==> SeenSum(s.blocks) + lost == writes)
  }

  function Capped(n: nat): nat {
    if n <= SEEN_MAX then n else SEEN_MAX
  }

  predicate DistinctIds(blocks: seq<Block>) {
    forall i, j :: 0 <= i < j < |blocks| ==> blocks[i].id != blocks[j].id
  }

  lemma {:induction false} SeenAtMost(blocks: seq<Block>, i: nat)
    requires i < |blocks|
    ensures blocks[i].seen <= SeenSum(blocks)
    decreases |blocks|
  {
    if i > 0 {
      SeenAtMost(blocks[1..], i - 1);
    }
  }

  lemma RestatedCounts(s: State, s': State, i: nat, b: Block, told: seq<nat>, writes: nat, lost: nat)
    requires Counted(s, told, writes, lost) && DistinctIds(s.blocks) && Restated(s, s', i, b)
    ensures Counted(s', Credit(told, b.id), writes + 1, lost) && DistinctIds(s'.blocks)
  {
    SumCredit(told, b.id);
    SeenSumUpdate(s.blocks, i, b);
    SeenAtMost(s.blocks, i);
  }

  lemma AddedBlocks(s: State, s': State, at: nat, b: Block, told: seq<nat>)
    requires |told| == s.created && DistinctIds(s.blocks) && Added(s, s', at, b)
    requires forall i :: 0 <= i < |s.blocks| ==> s.blocks[i].id < |told| && s.blocks[i].seen == Capped(told[s.blocks[i].id])
    ensures DistinctIds(s'.blocks)
    ensures forall i :: 0 <= i < |s'.blocks| ==>
      s'.blocks[i].id < |told| + 1 && s'.blocks[i].seen == Capped((told + [1])[s'.blocks[i].id])
  {
    var n := if at <= |s.blocks| then at else |s.blocks|;
    forall i | 0 <= i < |s'.blocks|
      ensures s'.blocks[i] == if i < n then s.blocks[i] else if i == n then b else s.blocks[i - 1]
    {
    }
  }

  lemma AddedCounts(s: State, s': State, at: nat, b: Block, told: seq<nat>, writes: nat, lost: nat)
    requires Counted(s, told, writes, lost) && DistinctIds(s.blocks) && Added(s, s', at, b)
    ensures Counted(s', Credit(told, b.id), writes + 1, lost) && DistinctIds(s'.blocks)
  {
    AddedBlocks(s, s', at, b, told);
    SumCredit(told, b.id);
    SeenSumInsert(s.blocks, at, b);
  }

  lemma ForgottenCounts(s: State, i: nat, told: seq<nat>, writes: nat, lost: nat)
    requires Counted(s, told, writes, lost) && DistinctIds(s.blocks) && i < |s.blocks|
    ensures var blocks := s.blocks[..i] + s.blocks[i + 1..];
      Counted(s.(blocks := blocks), told, writes, lost + s.blocks[i].seen) && DistinctIds(blocks)
  {
    SeenSumUpdate(s.blocks, i, s.blocks[i]);
  }

  lemma MarkedCounts(s: State, i: nat, heir: nat, told: seq<nat>, writes: nat, lost: nat)
    requires Counted(s, told, writes, lost) && DistinctIds(s.blocks) && i < |s.blocks|
    ensures var blocks := s.blocks[i := s.blocks[i].(supersededBy := Some(heir))];
      Counted(s.(blocks := blocks), told, writes, lost) && DistinctIds(blocks)
  {
    SeenSumUpdate(s.blocks, i, s.blocks[i].(supersededBy := Some(heir)));
  }

  // ---- supersessions never run in a circle ----

  /** Every supersession is older than the one of the fact it points at. */
  ghost predicate Ordered(s: State, retired: map<nat, nat>, ops: nat) {
    && (forall i :: 0 <= i < |s.blocks| ==> s.blocks[i].id < s.created)
    && (forall i :: 0 <= i < |s.blocks| && s.blocks[i].supersededBy.Some? ==> Retired(s, retired, ops, s.blocks[i]))
    && (forall i, j :: 0 <= i < |s.blocks| && 0 <= j < |s.blocks| && Edge(s.blocks[i], s.blocks[j].id) && s.blocks[j].supersededBy.Some? ==>
          retired[s.blocks[i].id] < retired[s.blocks[j].id])
  }

  ghost predicate Retired(s: State, retired: map<nat, nat>, ops: nat, b: Block) {
    b.id in retired && retired[b.id] < ops && b.supersededBy.Some? && b.supersededBy.value < s.created
  }

  predicate Edge(b: Block, id: nat) {
    b.supersededBy == Some(id)
  }

  lemma RestatedOrders(s: State, s': State, i: nat, b: Block, retired: map<nat, nat>, ops: nat)
    requires Ordered(s, retired, ops) && Restated(s, s', i, b)
    ensures Ordered(s', retired, ops)
  {
    forall k | 0 <= k < |s'.blocks| && s'.blocks[k].supersededBy.Some?
      ensures Retired(s', retired, ops, s'.blocks[k])
    {
      assert Retired(s, retired, ops, s.blocks[k]);
    }
  }

  lemma AddedOrders(s: State, s': State, at: nat, b: Block, retired: map<nat, nat>, ops: nat)
    requires Ordered(s, retired, ops) && Added(s, s', at, b)
    ensures Ordered(s', retired, ops)
  {
    var n := if at <= |s.blocks| then at else |s.blocks|;
    forall k | 0 <= k < |s'.blocks| && s'.blocks[k].supersededBy.Some?
      ensures Retired(s', retired, ops, s'.blocks[k])
    {
      assert Retired(s, retired, ops, s.blocks[if k < n then k else k - 1]);
    }
    forall k, j | 0 <= k < |s'.blocks| && 0 <= j < |s'.blocks| && Edge(s'.blocks[k], s'.blocks[j].id) && s'.blocks[j].supersededBy.Some?
      ensures retired[s'.blocks[k].id] < retired[s'.blocks[j].id]
    {
      var k', j' := if k < n then k else k - 1, if j < n then j else j - 1;
      assert s'.blocks[k] == s.blocks[k'] && s'.blocks[j] == s.blocks[j'];
      assert Edge(s.blocks[k'], s.blocks[j'].id);
    }
  }

  lemma ForgottenOrders(s: State, i: nat, retired: map<nat, nat>, ops: nat)
    requires Ordered(s, retired, ops) && i < |s.blocks|
    ensures Ordered(s.(blocks := s.blocks[..i] + s.blocks[i + 1..]), retired, ops)
  {
    var s' := s.(blocks := s.blocks[..i] + s.blocks[i + 1..]);
    forall k | 0 <= k < |s'.blocks| && s'.blocks[k].supersededBy.Some?
      ensures Retired(s', retired, ops, s'.blocks[k])
    {
      assert Retired(s, retired, ops, s.blocks[if k < i then k else k + 1]);
    }
    forall k, j | 0 <= k < |s'.blocks| && 0 <= j < |s'.blocks| && Edge(s'.blocks[k], s'.blocks[j].id) && s'.blocks[j].supersededBy.Some?
      ensures retired[s'.blocks[k].id] < retired[s'.blocks[j].id]
    {
      var k', j' := if k < i then k else k + 1, if j < i then j else j + 1;
      assert s'.blocks[k] == s.blocks[k'] && s'.blocks[j] == s.blocks[j'];
      assert Edge(s.blocks[k'], s.blocks[j'].id);
    }
  }

  /** Time passes. */
  lemma LaterOrders(s: State, retired: map<nat, nat>, ops: nat)
    requires Ordered(s, retired, ops)
    ensures Ordered(s, retired, ops + 1)
  {
    forall k | 0 <= k < |s.blocks| && s.blocks[k].supersededBy.Some?
      ensures Retired(s, retired, ops + 1, s.blocks[k])
    {
      assert Retired(s, retired, ops, s.blocks[k]);
    }
  }

  /** Superseding one fact by another live one. */
  lemma MarkedOrders(s: State, i: nat, f: nat, retired: map<nat, nat>, ops: nat)
    requires Ordered(s, retired, ops) && DistinctIds(s.blocks) && i < |s.blocks| && f < |s.blocks| && i != f
    requires s.blocks[f].supersededBy == None
    ensures var s' := s.(blocks := s.blocks[i := s.blocks[i].(supersededBy := Some(s.blocks[f].id))]);
      Ordered(s', retired[s.blocks[i].id := ops], ops + 1)
  {
    var b := s.blocks[i].(supersededBy := Some(s.blocks[f].id));
    var s' := s.(blocks := s.blocks[i := b]);
    var retired' := retired[b.id := ops];
    forall k | 0 <= k < |s'.blocks| && s'.blocks[k].supersededBy.Some?
      ensures Retired(s', retired', ops + 1, s'.blocks[k])
    {
      if k != i {
        assert Retired(s, retired, ops, s.blocks[k]);
      }
    }
    forall k, j | 0 <= k < |s'.blocks| && 0 <= j < |s'.blocks| && Edge(s'.blocks[k], s'.blocks[j].id) && s'.blocks[j].supersededBy.Some?
      ensures retired'[s'.blocks[k].id] < retired'[s'.blocks[j].id]
    {
      if k != i {
        assert Retired(s, retired, ops, s.blocks[k]);
        assert Edge(s.blocks[k], s.blocks[j].id);
      }
    }
  }

  // ---- every step, every run ----

  ghost predicate Inv(h: History) {
    && Counted(h.state, h.told, h.writes, h.lost) && DistinctIds(h.state.blocks)
    && Ordered(h.state, h.retired, h.ops)
  }

  lemma ToldKeeps(u: Unicode, h: History, text: string, topics: seq<string>, at: nat)
    requires Inv(h)
    ensures Inv(Told(u, h, text, topics, at))
  {
    var i, b := RememberShape(u, h.state, text, topics, at);
    hide Counted, Ordered, DistinctIds, Remember, Restated, Added, Trim, Credit;
    if Trim(text) != "" {
      var s' := Remember(u, h.state, text, topics, at).0;
      match i
      case Some(k) =>
        RestatedCounts(h.state, s', k, b, h.told, h.writes, h.lost);
        RestatedOrders(h.state, s', k, b, h.retired, h.ops);
      case None =>
        AddedCounts(h.state, s', at, b, h.told, h.writes, h.lost);
        AddedOrders(h.state, s', at, b, h.retired, h.ops);
    }
  }

  /** Where the fact that was just written is, and that it is live. */
  lemma WrittenIsLive(u: Unicode, s: State, text: string, topics: seq<string>, at: nat) returns (f: nat)
    requires Trim(text) != ""
    ensures var (s', r) := Remember(u, s, text, topics, at);
      r.Ok? && f < |s'.blocks| && s'.blocks[f].id == r.memory.id && s'.blocks[f].supersededBy == None
  {
    var i, b := RememberShape(u, s, text, topics, at);
    f := match i case Some(k) => k case None => if at <= |s.blocks| then at else |s.blocks|;
  }

  lemma RetireKeeps(s: State, r: Result, stale: nat, f: nat, told: seq<nat>, writes: nat, lost: nat, retired: map<nat, nat>, ops: nat)
    requires Counted(s, told, writes, lost) && DistinctIds(s.blocks) && Ordered(s, retired, ops)
    requires r.Ok? && f < |s.blocks| && s.blocks[f].id == r.memory.id && s.blocks[f].supersededBy == None
    ensures var (s', r') := Retire(s, r, stale);
      && Counted(s', told, writes, lost) && DistinctIds(s'.blocks)
      && Ordered(s', if r'.Ok? && r'.memory.id != stale then retired[stale := ops] else retired, ops + 1)
  {
    LaterOrders(s, retired, ops);
    if r.memory.id != stale && FindById(s.blocks, stale).Some? {
      var i := FindById(s.blocks, stale).value;
      MarkedCounts(s, i, r.memory.id, told, writes, lost);
      MarkedOrders(s, i, f, retired, ops);
    }
  }

  lemma ChangeKeeps(u: Unicode, h: History, stale: nat, text: string, topics: seq<string>, at: nat)
    requires Inv(h)
    ensures Inv(Step(u, h, Change(stale, text, topics, at)))
  {
    if Trim(text) == "" {
      LaterOrders(h.state, h.retired, h.ops);
    } else {
      ToldKeeps(u, h, text, topics, at);
      var mid := Told(u, h, text, topics, at);
      var f := WrittenIsLive(u, h.state, text, topics, at);
      RetireKeeps(mid.state, Remember(u, h.state, text, topics, at).1, stale, f, mid.told, mid.writes, mid.lost, mid.retired, h.ops);
    }
  }

  lemma DropKeeps(u: Unicode, h: History, id: nat)
    requires Inv(h)
    ensures Inv(Step(u, h, Drop(id)))
  {
    match FindById(h.state.blocks, id)
    case None =>
    case Some(i) =>
      ForgottenCounts(h.state, i, h.told, h.writes, h.lost);
      ForgottenOrders(h.state, i, h.retired, h.ops);
    LaterOrders(Forget(h.state, id).0, h.retired, h.ops);
  }

  lemma StepKeeps(u: Unicode, h: History, op: Op)
    requires Inv(h)
    ensures Inv(Step(u, h, op))
  {
    match op
    case Tell(text, topics, at) =>
      ToldKeeps(u, h, text, topics, at);
      var mid := Told(u, h, text, topics, at);
      LaterOrders(mid.state, mid.retired, h.ops);
    case Change(stale, text, topics, at) => ChangeKeeps(u, h, stale, text, topics, at);
    case Drop(id) => DropKeeps(u, h, id);
  }

  lemma {:induction false} RunKeeps(u: Unicode, ops: seq<Op>)
    ensures Inv(Run(u, ops))
    decreases |ops|
  {
    if ops != [] {
      RunKeeps(u, ops[..|ops| - 1]);
      StepKeeps(u, Run(u, ops[..|ops| - 1]), ops[|ops| - 1]);
    }
  }

  // ---- the promises ----

  /** Over any run, each stored fact has been seen as often as it was stated, up
      to the limit of its counter, and below that limit no statement is ever
      lost: the facts in the store and the forgotten ones account for all. */
  lemma StatementsAreCounted(u: Unicode, ops: seq<Op>)
    ensures var h := Run(u, ops);
      && (forall i :: 0 <= i < |h.state.blocks| ==>
            h.state.blocks[i].id < |h.told| && h.state.blocks[i].seen == Capped(h.told[h.state.blocks[i].id]))
      && Sum(h.told) == h.writes
      && (h.writes <= SEEN_MAX ==> SeenSum(h.state.blocks) + h.lost == h.writes)
  {
    RunKeeps(u, ops);
  }

  /** A path along supersessions: `path[i]` is the index of a superseded block,
      and the block that replaced it is next. */
  ghost predicate Path(blocks: seq<Block>, path: seq<nat>) {
    && |path| > 0
    && (forall i :: 0 <= i < |path| ==> path[i] < |blocks|)
    && (forall i :: 0 <= i < |path| - 1 ==> Edge(blocks[path[i]], blocks[path[i + 1]].id))
  }

  lemma {:induction false} PathAges(s: State, retired: map<nat, nat>, ops: nat, path: seq<nat>)
    requires Ordered(s, retired, ops) && Path(s.blocks, path) && |path| >= 2
    requires s.blocks[path[|path| - 1]].supersededBy.Some?
    ensures s.blocks[path[0]].id in retired && s.blocks[path[|path| - 1]].id in retired
    ensures retired[s.blocks[path[0]].id] < retired[s.blocks[path[|path| - 1]].id]
    decreases |path|
  {
    var n := |path| - 1;
    var from, to := s.blocks[path[n - 1]], s.blocks[path[n]];
    assert Edge(from, to.id);
    assert Retired(s, retired, ops, from) && Retired(s, retired, ops, to);
    assert retired[from.id] < retired[to.id];
    if n > 1 {
      PathAges(s, retired, ops, path[..n]);
    }
  }

  /** Following supersessions never leads back. */
  lemma SupersessionIsAcyclic(u: Unicode, ops: seq<Op>, path: seq<nat>)
    requires Path(Run(u, ops).state.blocks, path) && |path| >= 2
    ensures path[0] != path[|path| - 1]
  {
    RunKeeps(u, ops);
    var h := Run(u, ops);
    if path[0] == path[|path| - 1] {
      assert Edge(h.state.blocks[path[0]], h.state.blocks[path[1]].id);
      PathAges(h.state, h.retired, h.ops, path);
    }
  }

  lemma RetireEdges(s: State, r: Result, stale: nat, f: nat)
    requires r.Ok? && f < |s.blocks| && s.blocks[f].id == r.memory.id && s.blocks[f].supersededBy == None
    ensures var (s', r') := Retire(s, r, stale);
      && |s'.blocks| == |s.blocks|
      && (forall i :: 0 <= i < |s'.blocks| ==> s'.blocks[i].id == s.blocks[i].id)
      && (forall i :: 0 <= i < |s'.blocks| && s'.blocks[i] != s.blocks[i] ==>
            r' == r && s.blocks[i].id == stale != r.memory.id && Edge(s'.blocks[i], r.memory.id))
      && s'.blocks[f].supersededBy == None
      && (r'.Ok? && r.memory.id != stale ==> exists i :: 0 <= i < |s'.blocks| && s'.blocks[i].id == stale && Edge(s'.blocks[i], r.memory.id))
  {
    if r.memory.id != stale && FindById(s.blocks, stale).Some? {
      var i := FindById(s.blocks, stale).value;
      assert Edge(Retire(s, r, stale).0.blocks[i], r.memory.id);
    }
  }

  /** Superseding writes one edge at most: from the fact that was named, to the
      fact just written, which is another fact and is live. Every other edge was
      there before, and a replacement that is not found leaves them all alone. */
  lemma EdgesPointToLiveFacts(u: Unicode, s: State, stale: nat, text: string, topics: seq<string>, at: nat, i: nat, to: nat)
    requires var s' := Supersede(u, s, stale, text, topics, at).0; i < |s'.blocks| && Edge(s'.blocks[i], to)
    ensures var (s', r) := Supersede(u, s, stale, text, topics, at);
      || (exists k :: 0 <= k < |s.blocks| && Edge(s.blocks[k], to) && s.blocks[k].id == s'.blocks[i].id)
      || (r.Ok? && s'.blocks[i].id == stale != to && to == r.memory.id && IsLive(s', to))
  {
    var j, b := RememberShape(u, s, text, topics, at);
    var (mid, r) := Remember(u, s, text, topics, at);
    if Trim(text) == "" {
      assert Edge(s.blocks[i], to);
    } else {
      var f := WrittenIsLive(u, s, text, topics, at);
      RetireEdges(mid, r, stale, f);
      if Edge(mid.blocks[i], to) {
        OldEdges(s, mid, at, j, b, i, to);
      } else {
        assert IsLive(Retire(mid, r, stale).0, to);
      }
    }
  }

  ghost predicate IsLive(s: State, id: nat) {
    exists f :: 0 <= f < |s.blocks| && s.blocks[f].id == id && s.blocks[f].supersededBy == None
  }

  /** Writing a fact adds no supersession. */
  lemma OldEdges(s: State, s': State, at: nat, j: Option<nat>, b: Block, i: nat, to: nat)
    requires Wrote(s, s', at, j, b) && i < |s'.blocks| && Edge(s'.blocks[i], to)
    ensures exists k :: 0 <= k < |s.blocks| && Edge(s.blocks[k], to) && s.blocks[k].id == s'.blocks[i].id
  {
    match j
    case Some(k) => assert Edge(s.blocks[i], to);
    case None =>
      var n := if at <= |s.blocks| then at else |s.blocks|;
      assert Edge(s.blocks[if i < n then i else i - 1], to);
  }
}
