/** What one operation does to the blocks, told by ids and by what is read back. */
module MemoryEdits {
  import opened Common
  import opened Text
  import opened LinkText
  import opened FactText
  import opened FactKey
  import opened TopicPages
  import opened MemoryStore
  import opened MemoryRuns
  import opened MemoryKeys

  // ---- forgetting and superseding ----

  /** Block `i` carries the id, and a fact can be read from it. */
  predicate Carries(blocks: seq<Block>, i: nat, id: nat) {
    i < |blocks| && blocks[i].id == id && ReadFact(blocks[i]).Some?
  }

  ghost predicate Known(blocks: seq<Block>, id: nat) {
    exists i: nat :: Carries(blocks, i, id)
  }

  lemma FindIs(blocks: seq<Block>, id: nat)
    requires DistinctIds(blocks)
    ensures FindById(blocks, id).Some? <==> Known(blocks, id)
    ensures forall i: nat :: Carries(blocks, i, id) ==> FindById(blocks, id) == Some(i)
  {
    hide ReadFact;
    var r := FindById(blocks, id);
    if r.Some? {
      assert FactWithId(id)(blocks[r.value]);
      assert Carries(blocks, r.value, id);
    }
    forall i: nat | Carries(blocks, i, id)
      ensures r == Some(i)
    {
      assert FactWithId(id)(blocks[i]);
    }
  }

  /** In any run, forgetting an id removes the block that carries it and keeps
      every other block in order, and says so; without such a block nothing changes. */
  lemma ForgetRemoves(u: Unicode, ops: seq<Op>, id: nat)
    ensures var s := Run(u, ops).state;
      var (s', found) := Forget(s, id);
      && (found <==> Known(s.blocks, id))
      && (!found ==> s' == s)
      && forall i: nat :: Carries(s.blocks, i, id) ==> s' == s.(blocks := s.blocks[..i] + s.blocks[i + 1..])
  {
    RunKeeps(u, ops);
    FindIs(Run(u, ops).state.blocks, id);
  }

  /** A write changes or adds no block but its own. */
  lemma WroteKnows(s: State, s': State, at: nat, i: Option<nat>, b: Block, id: nat)
    requires Wrote(s, s', at, i, b) && b.id != id
    ensures Known(s.blocks, id) <==> Known(s'.blocks, id)
  {
    hide ReadFact;
    var n := if at <= |s.blocks| then at else |s.blocks|;
    if i.None? {
      InsertAtCut(s.blocks, at, b);
      Inserted(s.blocks, n, b);
    }
    hide InsertAt;
    if Known(s.blocks, id) {
      var j: nat :| Carries(s.blocks, j, id);
      assert Carries(s'.blocks, if i.Some? || j < n then j else j + 1, id);
    }
    if Known(s'.blocks, id) {
      var j: nat :| Carries(s'.blocks, j, id);
      assert Carries(s.blocks, if i.Some? || j < n then j else j - 1, id);
    }
  }

  /** The block that carries `stale` is marked, and nothing else changes. */
  ghost predicate Supersedes(s: State, s': State, stale: nat, newer: nat) {
    exists i: nat ::
      Carries(s.blocks, i, stale) && s' == s.(blocks := s.blocks[i := s.blocks[i].(supersededBy := Some(newer))])
  }

  lemma RetireMarks(s: State, r: Result, stale: nat)
    requires DistinctIds(s.blocks) && r.Ok? && r.memory.id != stale
    ensures var (s', r') := Retire(s, r, stale);
      && (!Known(s.blocks, stale) ==> s' == s && r' == Err(NotFound(stale)))
      && (Known(s.blocks, stale) ==> r' == r && Supersedes(s, s', stale, r.memory.id))
  {
    FindIs(s.blocks, stale);
  }

  /** In any run, superseding an id first states the replacement. If that is the
      very fact, nothing more happens. Otherwise the block that carries the id is
      marked with the id of the replacement, and no other block changes; when no
      block carries it, and only then, the answer is that there is none. */
  lemma SupersedeMarks(u: Unicode, ops: seq<Op>, stale: nat, text: string, topics: seq<string>, at: nat)
    ensures var s := Run(u, ops).state;
      var (s1, r1) := Remember(u, s, text, topics, at);
      var (s2, r2) := Supersede(u, s, stale, text, topics, at);
      if Trim(text) == "" then s2 == s && r2 == Err(Blank)
      else
        && r1.Ok?
        && (r1.memory.id == stale ==> s2 == s1 && r2 == r1)
        && (r1.memory.id != stale && Known(s.blocks, stale) ==>
              r2 == r1 && Supersedes(s1, s2, stale, r1.memory.id))
        && (r1.memory.id != stale && !Known(s.blocks, stale) ==> s2 == s1 && r2 == Err(NotFound(stale)))
  {
    hide Remember, Wrote, Retire, Known, Supersedes, DistinctIds, Trim, Run;
    var s := Run(u, ops).state;
    var i, b := RememberShape(u, s, text, topics, at);
    if Trim(text) != "" {
      var (s1, r1) := Remember(u, s, text, topics, at);
      if r1.memory.id != stale {
        DistinctAfter(u, ops, text, topics, at);
        WroteKnows(s, s1, at, i, b, stale);
        RetireMarks(s1, r1, stale);
      } else {
        RetireSame(s1, r1, stale);
      }
    } else {
      RetireBlank(s, stale);
    }
  }

  lemma RetireSame(s: State, r: Result, stale: nat)
    requires r.Ok? && r.memory.id == stale
    ensures Retire(s, r, stale) == (s, r)
  {
  }

  lemma RetireBlank(s: State, stale: nat)
    ensures Retire(s, Err(Blank), stale) == (s, Err(Blank))
  {
  }

  lemma DistinctAfter(u: Unicode, ops: seq<Op>, text: string, topics: seq<string>, at: nat)
    requires Remember(u, Run(u, ops).state, text, topics, at).1.Ok?
    ensures DistinctIds(Remember(u, Run(u, ops).state, text, topics, at).0.blocks)
  {
    hide Remember, Run, DistinctIds;
    RunKeeps(u, ops);
    ToldKeeps(u, Run(u, ops), text, topics, at);
  }

  // ---- the topics of a statement ----

  lemma AddedTopics(u: Unicode, s: State, t: string, names: seq<string>, at: nat)
    requires Bare(t) && Trim(t) != "" && Topics(names) && !HasDate(names)
    ensures var (s', r) := Write(s, t, names, None, at);
      var i := if at <= |s.blocks| then at else |s.blocks|;
      && r.Ok? && r.memory.topics == names && r.memory.text == t && r.memory.id == s.created
      && i < |s'.blocks| && ReadFact(s'.blocks[i]) == Some(Memory(s.created, Collapse(t), LinkedDates(t) + names, 1, None))
  {
    var i := if at <= |s.blocks| then at else |s.blocks|;
    var b := Block(s.created, BlockText(t, names), 1, None);
    PrintedReads(b, t, names);
    InsertAtCut(s.blocks, at, b);
    Inserted(s.blocks, i, b);
  }

  lemma RestatedTopics(u: Unicode, b: Block, key: string, names: seq<string>)
    requires Sane(u) && PlainBlock(u, b, key) && Topics(names)
    requires ReadFact(b).Some? && SafeRewrite(ReadFact(b).value, names)
    ensures var m, r := ReadFact(b).value, Reinforced(ReadFact(b).value, names);
      && (forall x :: x in r.topics <==> x in m.topics || x in names)
      && r.text == m.text && r.id == m.id && r.seen == (if m.seen < 0xFFFF_FFFF then m.seen + 1 else 0xFFFF_FFFF)
      && ReadFact(Rewritten(b, m, names)) == Some(r)
  {
    hide Sane, Bare, Topics, HasDate, Trim, Collapse, LinkedDates, BlockText, ReadFact, DedupKey, Missing, Sorted;
    var t, topics :| PrintedFrom(b, t, topics) && DedupKey(u, t) == key;
    PrintedReads(b, t, topics);
    ReadTopics(t, topics);
    var m := ReadFact(b).value;
    MissingAre(names, m.topics);
    if Missing(names, m.topics) == [] {
      PrintedReads(Rewritten(b, m, names), t, topics);
      forall x | x in names
        ensures x in m.topics
      {
        assert x !in Missing(names, m.topics);
      }
    } else {
      assert LinkedDates(t) + topics == topics;
      MergedTopics(topics, names);
      SortedKeeps(topics + Missing(names, topics));
      var merged := Sorted(topics + Missing(names, topics));
      CollapsedPlain(t, merged);
      PrintedReads(Rewritten(b, m, names), Collapse(t), merged);
      DatesIgnoreSpacing(t);
      CollapseTwice(t);
      assert LinkedDates(Collapse(t)) + merged == merged;
    }
  }

  /** Under the guard, whatever was stated is read back: of a new fact its words
      with single spaces and its dates before its topics, and of a fact that was
      found its old words with every topic of both statements, counted once more.
      A new fact is returned with the topics it was given, a found one as it is read. */
  lemma StatementReadsBack(u: Unicode, s: State, text: string, topics: seq<string>, at: nat)
    requires Sane(u) && AllPlain(u, s) && Bare(text) && SafeWrite(u, s, text, topics) && Trim(text) != ""
    ensures var (s', r) := Remember(u, s, text, topics, at);
      var t, names := Trim(text), Pages(u, topics);
      && r.Ok?
      && match FindByKey(u, s.blocks, DedupKey(u, t))
         case None =>
           var i := if at <= |s.blocks| then at else |s.blocks|;
           && r.memory == Memory(s.created, t, names, 1, None)
           && i < |s'.blocks| && ReadFact(s'.blocks[i]) == Some(Memory(s.created, Collapse(t), LinkedDates(t) + names, 1, None))
         case Some(i) =>
           var m := ReadFact(s.blocks[i]).value;
           && i < |s'.blocks| && ReadFact(s'.blocks[i]) == Some(r.memory)
           && r.memory.id == m.id && r.memory.text == m.text
           && r.memory.seen == (if m.seen < 0xFFFF_FFFF then m.seen + 1 else 0xFFFF_FFFF)
           && forall x :: x in r.memory.topics <==> x in m.topics || x in names
  {
    hide Sane, Bare, Topics, HasDate, Collapse, LinkedDates, BlockText, ReadFact, DedupKey, Rewritten, Pages;
    var t, names := Trim(text), Pages(u, topics);
    PagesAre(u, topics);
    TrimTwice(text);
    var keys := KeysOf(u, s);
    match FindByKey(u, s.blocks, DedupKey(u, t))
    case None => AddedTopics(u, s, t, names, at);
    case Some(i) =>
      assert IsPlain(u)(s.blocks[i], keys[i]);
      RestatedTopics(u, s.blocks[i], keys[i], names);
  }
}
