/** The locked load, change and save cycle of the tables that several processes share. */
module LockedTable {
  import opened Common

  type ClientId = nat
  type StoreId = nat

  datatype Pc<T> = Idle | Loaded(table: T) | Done

  /** `lock` is the store object whose open lock file holds the lock. A client
      runs one cycle, on the store object it was given. */
  datatype State<T> = State(file: T, lock: Option<StoreId>, clients: map<ClientId, Pc<T>>, order: seq<ClientId>)

  /** A cycle can end without a save: `Quit` leaves the store object, and so its
      lock, in place, `Die` takes the store object along. */
  datatype Step = Load(c: ClientId) | Save(c: ClientId) | Quit(c: ClientId) | Die(c: ClientId)

  function Release(lock: Option<StoreId>, store: StoreId): Option<StoreId> {
    if lock == Some(store) then None else lock
  }

  /** A store that already holds its lock lets a second load through. */
  function Next<T>(s: State<T>, step: Step, stores: ClientId -> StoreId, update: ClientId -> T -> T): Option<State<T>> {
    match step
    case Load(c) =>
      if c in s.clients && s.clients[c].Idle? && (s.lock == None || s.lock == Some(stores(c))) then
        Some(s.(lock := Some(stores(c)), clients := s.clients[c := Loaded(s.file)]))
      else None
    case Save(c) =>
      if c in s.clients && s.clients[c].Loaded? then
        Some(State(update(c)(s.clients[c].table), Release(s.lock, stores(c)), s.clients[c := Done], s.order + [c]))
      else None
    case Quit(c) =>
      if c in s.clients && s.clients[c].Loaded? then Some(s.(clients := s.clients[c := Done])) else None
    case Die(c) =>
      if c in s.clients && !s.clients[c].Done? then
        Some(s.(lock := if s.clients[c].Loaded? then Release(s.lock, stores(c)) else s.lock, clients := s.clients[c := Done]))
      else None
  }

  function Run<T>(s: State<T>, steps: seq<Step>, stores: ClientId -> StoreId, update: ClientId -> T -> T): Option<State<T>> {
    if steps == [] then Some(s)
    else match Run(s, steps[..|steps| - 1], stores, update)
      case None => None
      case Some(s') => Next(s', steps[|steps| - 1], stores, update)
  }

  /** The changes applied one whole cycle after another. */
  function Serial<T>(file: T, order: seq<ClientId>, update: ClientId -> T -> T): T {
    if order == [] then file else update(order[|order| - 1])(Serial(file, order[..|order| - 1], update))
  }

  ghost predicate Start<T>(s: State<T>) {
    s.lock == None && s.order == [] && forall c :: c in s.clients ==> s.clients[c].Idle?
  }

  // ---- which runs are serial ----

  /** Nobody has saved since `c` loaded. */
  ghost predicate Fresh(steps: seq<Step>, c: ClientId) {
    forall i, k :: 0 <= i < k < |steps| && steps[i] == Load(c) ==> !steps[k].Save?
  }

  /** Between a client's load and its save nobody saves. */
  ghost predicate Apart(steps: seq<Step>) {
    forall i, k, j :: 0 <= i < k < j < |steps| && steps[i].Load? && steps[j] == Save(steps[i].c) ==> !steps[k].Save?
  }

  lemma FreshStep(steps: seq<Step>, x: Step, c: ClientId)
    ensures Fresh(steps + [x], c) <==> Fresh(steps, c) && !(x.Save? && Load(c) in steps)
  {
    var n, all := |steps|, steps + [x];
    assert forall i :: 0 <= i < n ==> all[i] == steps[i];
    if x.Save? && Load(c) in steps {
      var i :| 0 <= i < n && steps[i] == Load(c);
      assert all[i] == Load(c) && all[n] == x;
    }
  }

  lemma ApartStep(steps: seq<Step>, x: Step)
    ensures Apart(steps + [x]) <==> Apart(steps) && (x.Save? ==> Fresh(steps, x.c))
  {
    var n, all := |steps|, steps + [x];
    assert forall i :: 0 <= i < n ==> all[i] == steps[i];
    if Apart(all) && x.Save? {
      forall i, k | 0 <= i < k < n && steps[i] == Load(x.c)
        ensures !steps[k].Save?
      {
        assert all[i].Load? && all[n] == Save(all[i].c);
      }
    }
    if Apart(all) {
      forall i, k, j | 0 <= i < k < j < n && steps[i].Load? && steps[j] == Save(steps[i].c)
        ensures !steps[k].Save?
      {
        assert all[j] == Save(all[i].c);
      }
    }
  }

  /** Each client loads once, and saves once at most. */
  ghost predicate Tracks<T>(s: State<T>, steps: seq<Step>) {
    && (forall c :: c in s.clients && s.clients[c].Idle? ==> Load(c) !in steps)
    && (forall c :: c in s.clients && s.clients[c].Loaded? ==> Load(c) in steps)
    && (forall c :: c in s.order <==> Save(c) in steps)
    && (forall c :: c in s.order ==> c in s.clients && s.clients[c].Done?)
    && (forall i, j :: 0 <= i < j < |s.order| ==> s.order[i] != s.order[j])
  }

  lemma TracksStep<T>(s: State<T>, steps: seq<Step>, x: Step, stores: ClientId -> StoreId, update: ClientId -> T -> T)
    requires Tracks(s, steps) && Next(s, x, stores, update).Some?
    ensures Tracks(Next(s, x, stores, update).value, steps + [x])
  {
    var s' := Next(s, x, stores, update).value;
    assert forall y :: y in steps + [x] <==> y in steps || y == x;
    assert forall c :: c in s'.order <==> c in s.order || (x.Save? && c == x.c);
  }

  ghost predicate SerialSoFar<T>(s: State<T>, file: T, steps: seq<Step>, update: ClientId -> T -> T) {
    && (Apart(steps) ==> s.file == Serial(file, s.order, update))
    && (forall c :: c in s.clients && s.clients[c].Loaded? && Fresh(steps, c) ==> s.clients[c].table == s.file)
  }

  lemma SerialSave<T>(s: State<T>, file: T, steps: seq<Step>, c: ClientId, stores: ClientId -> StoreId, update: ClientId -> T -> T)
    requires Tracks(s, steps) && SerialSoFar(s, file, steps, update) && Next(s, Save(c), stores, update).Some?
    ensures SerialSoFar(Next(s, Save(c), stores, update).value, file, steps + [Save(c)], update)
  {
    var s' := Next(s, Save(c), stores, update).value;
    ApartStep(steps, Save(c));
    if Apart(steps + [Save(c)]) {
      assert s'.order[..|s.order|] == s.order;
      assert Serial(file, s'.order, update) == update(c)(Serial(file, s.order, update));
    }
    forall d | d in s'.clients && s'.clients[d].Loaded?
      ensures !Fresh(steps + [Save(c)], d)
    {
      FreshStep(steps, Save(c), d);
    }
  }

  lemma SerialOther<T>(s: State<T>, file: T, steps: seq<Step>, x: Step, stores: ClientId -> StoreId, update: ClientId -> T -> T)
    requires SerialSoFar(s, file, steps, update) && Next(s, x, stores, update).Some? && !x.Save?
    ensures SerialSoFar(Next(s, x, stores, update).value, file, steps + [x], update)
  {
    ApartStep(steps, x);
    var s' := Next(s, x, stores, update).value;
    forall c | c in s'.clients && s'.clients[c].Loaded? && Fresh(steps + [x], c)
      ensures s'.clients[c].table == s'.file
    {
      FreshStep(steps, x, c);
    }
  }

  lemma {:induction false} RunIsSerial<T>(first: State<T>, steps: seq<Step>, stores: ClientId -> StoreId, update: ClientId -> T -> T)
    requires Start(first) && Run(first, steps, stores, update).Some?
    ensures Tracks(Run(first, steps, stores, update).value, steps)
    ensures SerialSoFar(Run(first, steps, stores, update).value, first.file, steps, update)
    decreases |steps|
  {
    if steps != [] {
      var n := |steps| - 1;
      var s := Run(first, steps[..n], stores, update).value;
      RunIsSerial(first, steps[..n], stores, update);
      assert steps == steps[..n] + [steps[n]];
      TracksStep(s, steps[..n], steps[n], stores, update);
      if steps[n].Save? {
        SerialSave(s, first.file, steps[..n], steps[n].c, stores, update);
      } else {
        SerialOther(s, first.file, steps[..n], steps[n], stores, update);
      }
    }
  }

  /** When nobody saves between another client's load and its save, the run ends
      in the table of one whole cycle after another, for those that were saved,
      each of them once. */
  lemma ApartIsSerial<T>(first: State<T>, steps: seq<Step>, stores: ClientId -> StoreId, update: ClientId -> T -> T)
    requires Start(first) && Run(first, steps, stores, update).Some? && Apart(steps)
    ensures var s := Run(first, steps, stores, update).value;
      && s.file == Serial(first.file, s.order, update)
      && (forall i, j :: 0 <= i < j < |s.order| ==> s.order[i] != s.order[j])
      && (forall c :: Save(c) in steps <==> c in s.order)
  {
    RunIsSerial(first, steps, stores, update);
  }

  // ---- and no other run is ----

  /** A table that counts its changes. */
  function Count(c: ClientId): nat -> nat {
    t => t + 1
  }

  lemma {:induction false} SerialCounts(file: nat, order: seq<ClientId>)
    ensures Serial(file, order, Count) == file + |order|
  {
    if order != [] {
      SerialCounts(file, order[..|order| - 1]);
    }
  }

  ghost predicate CountSoFar(s: State<nat>, file: nat, steps: seq<Step>) {
    && s.file <= file + |s.order|
    && (s.file == file + |s.order| ==> Apart(steps))
    && (forall c :: c in s.clients && s.clients[c].Loaded? ==>
          if Fresh(steps, c) then s.clients[c].table == s.file else s.clients[c].table < file + |s.order|)
  }

  lemma CountSave(s: State<nat>, file: nat, steps: seq<Step>, c: ClientId, stores: ClientId -> StoreId)
    requires Tracks(s, steps) && CountSoFar(s, file, steps) && Next(s, Save(c), stores, Count).Some?
    ensures CountSoFar(Next(s, Save(c), stores, Count).value, file, steps + [Save(c)])
  {
    var s' := Next(s, Save(c), stores, Count).value;
    ApartStep(steps, Save(c));
    forall d | d in s'.clients && s'.clients[d].Loaded?
      ensures !Fresh(steps + [Save(c)], d) && s'.clients[d].table < file + |s'.order|
    {
      FreshStep(steps, Save(c), d);
    }
  }

  lemma CountOther(s: State<nat>, file: nat, steps: seq<Step>, x: Step, stores: ClientId -> StoreId)
    requires Tracks(s, steps) && CountSoFar(s, file, steps) && Next(s, x, stores, Count).Some? && !x.Save?
    ensures CountSoFar(Next(s, x, stores, Count).value, file, steps + [x])
  {
    var s' := Next(s, x, stores, Count).value;
    ApartStep(steps, x);
    forall c | c in s'.clients && s'.clients[c].Loaded?
      ensures if Fresh(steps + [x], c) then s'.clients[c].table == s'.file else s'.clients[c].table < file + |s'.order|
    {
      FreshStep(steps, x, c);
      if x == Load(c) {
        assert Fresh(steps, c);
      }
    }
  }

  lemma {:induction false} RunCounts(first: State<nat>, steps: seq<Step>, stores: ClientId -> StoreId)
    requires Start(first) && Run(first, steps, stores, Count).Some?
    ensures CountSoFar(Run(first, steps, stores, Count).value, first.file, steps)
    decreases |steps|
  {
    if steps != [] {
      var n := |steps| - 1;
      var s := Run(first, steps[..n], stores, Count).value;
      RunCounts(first, steps[..n], stores);
      RunIsSerial(first, steps[..n], stores, Count);
      assert steps == steps[..n] + [steps[n]];
      if steps[n].Save? {
        CountSave(s, first.file, steps[..n], steps[n].c, stores);
      } else {
        CountOther(s, first.file, steps[..n], steps[n], stores);
      }
    }
  }

  /** That condition is exact: for any clients, any store objects and any file, a
      run in which somebody saves between another's load and save loses a change
      of the table that counts them. */
  lemma SerialIffApart(first: State<nat>, steps: seq<Step>, stores: ClientId -> StoreId)
    requires Start(first) && Run(first, steps, stores, Count).Some?
    ensures var s := Run(first, steps, stores, Count).value;
      s.file == Serial(first.file, s.order, Count) <==> Apart(steps)
  {
    RunIsSerial(first, steps, stores, Count);
    RunCounts(first, steps, stores);
    SerialCounts(first.file, Run(first, steps, stores, Count).value.order);
  }

  // ---- the guard ----

  /** No load while another client of the same store object is in its cycle. */
  ghost predicate Alone<T>(s: State<T>, x: Step, stores: ClientId -> StoreId) {
    x.Load? ==> forall d :: d in s.clients && s.clients[d].Loaded? && d != x.c ==> stores(d) != stores(x.c)
  }

  ghost predicate Guarded<T>(first: State<T>, steps: seq<Step>, stores: ClientId -> StoreId, update: ClientId -> T -> T) {
    forall i :: 0 <= i < |steps| && Run(first, steps[..i], stores, update).Some? ==>
      Alone(Run(first, steps[..i], stores, update).value, steps[i], stores)
  }

  /** The one client in its cycle holds the lock. */
  ghost predicate Exclusive<T>(s: State<T>, steps: seq<Step>, stores: ClientId -> StoreId) {
    && (forall c :: c in s.clients && s.clients[c].Loaded? ==> s.lock == Some(stores(c)) && Fresh(steps, c))
    && (forall c, d :: c in s.clients && d in s.clients && s.clients[c].Loaded? && s.clients[d].Loaded? ==> c == d)
  }

  /** A load finds nobody else in a cycle. */
  lemma LoadIsAlone<T>(s: State<T>, steps: seq<Step>, c: ClientId, stores: ClientId -> StoreId, update: ClientId -> T -> T)
    requires Exclusive(s, steps, stores) && Alone(s, Load(c), stores) && Next(s, Load(c), stores, update).Some?
    ensures forall d :: d in s.clients ==> !s.clients[d].Loaded?
  {
    hide Fresh;
  }

  lemma ExclusiveLoad<T>(s: State<T>, steps: seq<Step>, c: ClientId, stores: ClientId -> StoreId, update: ClientId -> T -> T)
    requires Tracks(s, steps) && Exclusive(s, steps, stores) && Alone(s, Load(c), stores) && Next(s, Load(c), stores, update).Some?
    ensures Exclusive(Next(s, Load(c), stores, update).value, steps + [Load(c)], stores)
  {
    LoadIsAlone(s, steps, c, stores, update);
    FreshStep(steps, Load(c), c);
    assert Fresh(steps, c);
    hide Fresh;
  }

  lemma ExclusiveOther<T>(s: State<T>, steps: seq<Step>, x: Step, stores: ClientId -> StoreId, update: ClientId -> T -> T)
    requires Exclusive(s, steps, stores) && Next(s, x, stores, update).Some? && !x.Load?
    ensures Exclusive(Next(s, x, stores, update).value, steps + [x], stores)
  {
    hide Fresh;
    var s' := Next(s, x, stores, update).value;
    forall c | c in s'.clients && s'.clients[c].Loaded?
      ensures s'.lock == Some(stores(c)) && Fresh(steps + [x], c)
    {
      FreshStep(steps, x, c);
    }
  }

  lemma ExclusiveStep<T>(s: State<T>, steps: seq<Step>, x: Step, stores: ClientId -> StoreId, update: ClientId -> T -> T)
    requires Tracks(s, steps) && Exclusive(s, steps, stores) && Alone(s, x, stores) && Next(s, x, stores, update).Some?
    ensures Exclusive(Next(s, x, stores, update).value, steps + [x], stores)
    ensures Apart(steps) ==> Apart(steps + [x])
  {
    ApartStep(steps, x);
    if x.Load? {
      ExclusiveLoad(s, steps, x.c, stores, update);
    } else {
      ExclusiveOther(s, steps, x, stores, update);
    }
  }

  lemma {:induction false} GuardKeepsApart<T>(first: State<T>, steps: seq<Step>, stores: ClientId -> StoreId, update: ClientId -> T -> T)
    requires Start(first) && Guarded(first, steps, stores, update) && Run(first, steps, stores, update).Some?
    ensures Exclusive(Run(first, steps, stores, update).value, steps, stores) && Apart(steps)
    decreases |steps|
  {
    if steps != [] {
      var n := |steps| - 1;
      assert forall i :: 0 <= i < n ==> steps[..n][..i] == steps[..i];
      GuardKeepsApart(first, steps[..n], stores, update);
      RunIsSerial(first, steps[..n], stores, update);
      assert steps == steps[..n] + [steps[n]];
      ExclusiveStep(Run(first, steps[..n], stores, update).value, steps[..n], steps[n], stores, update);
    }
  }

  /** Any interleaving of cycles, some cut short, in which no store object is
      loaded while another client is in a cycle on it, ends in the table of some
      serial order of those that were saved, each of them once. */
  lemma CyclesAreSerial<T>(first: State<T>, steps: seq<Step>, stores: ClientId -> StoreId, update: ClientId -> T -> T)
    requires Start(first) && Guarded(first, steps, stores, update) && Run(first, steps, stores, update).Some?
    ensures var s := Run(first, steps, stores, update).value;
      && s.file == Serial(first.file, s.order, update)
      && (forall i, j :: 0 <= i < j < |s.order| ==> s.order[i] != s.order[j])
      && (forall c :: Save(c) in steps <==> c in s.order)
  {
    GuardKeepsApart(first, steps, stores, update);
    ApartIsSerial(first, steps, stores, update);
  }

  /** A cycle that opens its own lock file, as every write of the sent messages
      does, always meets the guard. */
  lemma {:induction false} OwnStoresAreGuarded<T>(first: State<T>, steps: seq<Step>, stores: ClientId -> StoreId, update: ClientId -> T -> T)
    requires Start(first) && forall c, d :: stores(c) == stores(d) ==> c == d
    ensures Guarded(first, steps, stores, update)
  {
  }

  /** Two clients in their cycles at once on one store object: the change that is
      saved first is lost, whoever they are and whatever they change. */
  lemma SharedStoreLosesUpdate<T>(first: State<T>, c: ClientId, d: ClientId, stores: ClientId -> StoreId, update: ClientId -> T -> T)
    requires Start(first) && c in first.clients && d in first.clients && c != d && stores(c) == stores(d)
    ensures var s := Run(first, [Load(c), Load(d), Save(c), Save(d)], stores, update);
      s.Some? && s.value.order == [c, d] && s.value.file == update(d)(first.file)
  {
    var steps := [Load(c), Load(d), Save(c), Save(d)];
    assert steps[..3][..2] == steps[..2] && steps[..2][..1] == steps[..1] && steps[..1][..0] == [];
    assert Run(first, steps[..1], stores, update) == Next(first, Load(c), stores, update);
    var s2 := Run(first, steps[..2], stores, update).value;
    assert s2.clients[c] == Loaded(first.file) && s2.clients[d] == Loaded(first.file);
    var s3 := Run(first, steps[..3], stores, update).value;
    assert s3.clients[d] == Loaded(first.file);
  }
}
