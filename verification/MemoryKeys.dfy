/** When the store recognises a fact that is stated again. */
module MemoryKeys {
  import opened Common
  import opened Text
  import opened LinkText
  import opened FactText
  import opened FactKey
  import opened TopicPages
  import opened MemoryStore
  import opened MemoryRuns

  // ---- facts that read back as they were stated ----

  /** A statement without brackets, with topics that are no dates. */
  ghost predicate Plain(t: string, topics: seq<string>) {
    Bare(t) && Trim(t) != "" && Topics(topics) && !HasDate(topics)
  }

  lemma {:induction false} TrimEndKeeps(s: string)
    requires s != "" && !IsWhite(s[0])
    ensures TrimEnd(s) != ""
    decreases |s|
  {
    if IsWhite(s[|s| - 1]) {
      TrimEndKeeps(s[..|s| - 1]);
    }
  }

  lemma {:induction false} TrimStartFinds(s: string)
    requires TrimStart(s) != ""
    ensures exists i :: 0 <= i < |s| && !IsWhite(s[i])
    decreases |s|
  {
    if IsWhite(s[0]) {
      TrimStartFinds(s[1..]);
      var i :| 0 <= i < |s[1..]| && !IsWhite(s[1..][i]);
      assert !IsWhite(s[i + 1]);
    } else {
      assert !IsWhite(s[0]);
    }
  }

  lemma CollapseNotBlank(t: string)
    requires Trim(t) != ""
    ensures Collapse(t) != "" && Trim(Collapse(t)) == Collapse(t)
  {
    TrimStartFinds(t);
    HasWord(t);
    JoinTrimmed(Words(t));
    CollapseTrimmed(t);
  }

  lemma BlockNotBlank(t: string, topics: seq<string>)
    requires Trim(t) != ""
    ensures Trim(BlockText(t, topics)) != ""
  {
    var s, b := Trim(t), BlockText(t, topics);
    TrimIsTrimmed(t);
    LinkHead(None, s);
    assert b[0] == Link(None, s)[0];
    TrimEndKeeps(b);
  }

  /** What is read from a block printed without dates in its topics. */
  lemma PrintedReads(b: Block, t: string, topics: seq<string>)
    requires Bare(t) && Trim(t) != "" && Topics(topics) && !HasDate(topics) && b.text == BlockText(t, topics)
    ensures ReadFact(b) == Some(Memory(b.id, Collapse(t), LinkedDates(t) + topics, b.seen, b.supersededBy))
  {
    RoundTrip(t, topics);
    BlockNotBlank(t, topics);
    CollapseNotBlank(t);
  }

  ghost predicate PlainBlock(u: Unicode, b: Block, key: string) {
    exists t, topics :: PrintedFrom(b, t, topics) && DedupKey(u, t) == key
  }

  ghost predicate PrintedFrom(b: Block, t: string, topics: seq<string>) {
    Plain(t, topics) && b.text == BlockText(t, topics)
  }

  lemma PlainKey(u: Unicode, b: Block, key: string)
    requires Sane(u) && PlainBlock(u, b, key)
    ensures ReadFact(b).Some? && DedupKey(u, ReadFact(b).value.text) == key
  {
    var t, topics :| PrintedFrom(b, t, topics) && DedupKey(u, t) == key;
    PrintedReads(b, t, topics);
    BareKey(u, t);
  }

  lemma CollapsedPlain(t: string, topics: seq<string>)
    requires Bare(t) && Trim(t) != "" && Topics(topics) && !HasDate(topics)
    ensures Plain(Collapse(t), topics)
  {
    CollapseBare(t);
    CollapseNotBlank(t);
  }

  lemma {:induction false} MissingAre(names: seq<string>, topics: seq<string>)
    ensures forall x :: x in Missing(names, topics) <==> x in names && x !in topics
  {
    if names != [] {
      MissingAre(names[1..], topics);
      assert names == [names[0]] + names[1..];
    }
  }

  lemma MergedTopics(a: seq<string>, names: seq<string>)
    requires Topics(a) && Topics(names)
    ensures var merged := Sorted(a + Missing(names, a));
      Topics(merged) && (HasDate(merged) <==> HasDate(a) || HasDate(names))
  {
    var both := a + Missing(names, a);
    var merged := Sorted(both);
    MissingAre(names, a);
    SortedKeeps(both);
    AscendingDistinct(merged);
    assert forall x :: x in merged <==> x in a || x in names;
    forall i | 0 <= i < |merged|
      ensures Topic(merged[i])
    {
      assert merged[i] in merged;
    }
    DateAmong(merged);
    DateAmong(a);
    DateAmong(names);
  }

  lemma DateAmong(topics: seq<string>)
    ensures HasDate(topics) <==> exists x :: x in topics && IsoShape(x)
  {
    if HasDate(topics) {
      var i :| 0 <= i < |topics| && IsoShape(topics[i]);
      assert topics[i] in topics;
    }
  }

  /** The dates of a statement and then its topics, as they are read back. */
  lemma ReadTopics(t: string, topics: seq<string>)
    requires Topics(topics) && !HasDate(topics)
    ensures Topics(LinkedDates(t) + topics)
    ensures HasDate(LinkedDates(t) + topics) <==> LinkedDates(t) != []
  {
    var dates := LinkedDates(t);
    var all := dates + topics;
    DatesAreDates(None, Trim(t));
    PushAllKeeps([], Dates(None, Trim(t)));
    forall i | 0 <= i < |dates|
      ensures Topic(dates[i]) && IsoShape(dates[i])
    {
      assert dates[i] in dates;
      DateIsTopic(dates[i]);
    }
    if dates != [] {
      assert IsoShape(all[0]);
    }
  }

  /** Rewriting the block of `m` for these topics does no harm: it is left as it
      is, or no date is printed among its topics. */
  predicate SafeRewrite(m: Memory, names: seq<string>) {
    Missing(names, m.topics) == [] || !(HasDate(m.topics) || HasDate(names))
  }

  /** A safe rewrite keeps a plain block plain, and its key. */
  lemma RewrittenPlain(u: Unicode, b: Block, key: string, names: seq<string>)
    requires Sane(u) && PlainBlock(u, b, key) && Topics(names)
    requires ReadFact(b).Some? && SafeRewrite(ReadFact(b).value, names)
    ensures PlainBlock(u, Rewritten(b, ReadFact(b).value, names), key)
  {
    var t, topics :| PrintedFrom(b, t, topics) && DedupKey(u, t) == key;
    PrintedReads(b, t, topics);
    ReadTopics(t, topics);
    var m := ReadFact(b).value;
    var b' := Rewritten(b, m, names);
    if Missing(names, m.topics) == [] {
      assert PrintedFrom(b', t, topics);
    } else {
      assert LinkedDates(t) + topics == topics;
      MergedTopics(topics, names);
      var merged := Sorted(topics + Missing(names, topics));
      CollapsedPlain(t, merged);
      BareKey(u, t);
      assert PrintedFrom(b', Collapse(t), merged);
    }
  }

  /** Any other rewrite changes the key. */
  lemma UnsafeRewrite(u: Unicode, b: Block, key: string, names: seq<string>)
    requires Sane(u) && PlainBlock(u, b, key) && Topics(names)
    requires ReadFact(b).Some? && !SafeRewrite(ReadFact(b).value, names)
    ensures !Matches(u, Rewritten(b, ReadFact(b).value, names), key)
  {
    var t, topics :| PrintedFrom(b, t, topics) && DedupKey(u, t) == key;
    PrintedReads(b, t, topics);
    ReadTopics(t, topics);
    BareKey(u, t);
    CollapseBare(t);
    hide Sane, Bare, Topics, HasDate, Missing, Collapse, LinkedDates, DedupKey, BlockText, SplitLinks, PrintedFrom, PlainBlock, Trim;
    ReprintKeepsKeyIff(u, ReadFact(b).value, names);
  }

  // ---- the keys of the live facts ----

  /** `keys[i]` belongs to block `i`; among live blocks no key occurs twice. */
  ghost predicate Keyed(p: (Block, string) -> bool, blocks: seq<Block>, keys: seq<string>) {
    && |keys| == |blocks|
    && (forall i :: 0 <= i < |blocks| ==> p(blocks[i], keys[i]))
    && (forall i, j :: 0 <= i < j < |blocks| && blocks[i].supersededBy == None == blocks[j].supersededBy && keys[i] == keys[j] ==>
          keys[i] == "")
  }

  lemma OneLive(p: (Block, string) -> bool, blocks: seq<Block>, keys: seq<string>, i: nat, j: nat)
    requires Keyed(p, blocks, keys) && i < |keys| == |blocks| && j < |keys| && keys[i] == keys[j] != ""
    requires blocks[i].supersededBy == None == blocks[j].supersededBy
    ensures i == j
  {
  }

  lemma KeyedUpdate(p: (Block, string) -> bool, blocks: seq<Block>, keys: seq<string>, i: nat, b: Block)
    requires Keyed(p, blocks, keys) && i < |blocks| && p(b, keys[i])
    requires b.supersededBy == None ==> blocks[i].supersededBy == None
    ensures Keyed(p, blocks[i := b], keys)
  {
  }

  lemma KeyedShift(p: (Block, string) -> bool, blocks: seq<Block>, keys: seq<string>, n: nat, b: Block, key: string,
                   blocks': seq<Block>, keys': seq<string>)
    requires Keyed(p, blocks, keys) && p(b, key) && n <= |blocks| && |blocks'| == |keys'| == |blocks| + 1
    requires forall i :: 0 <= i < |blocks| && blocks[i].supersededBy == None && key != "" ==> keys[i] != key
    requires forall i {:trigger blocks'[i]} :: 0 <= i < |blocks'| ==> blocks'[i] == if i < n then blocks[i] else if i == n then b else blocks[i - 1]
    requires forall i {:trigger keys'[i]} :: 0 <= i < |keys'| ==> keys'[i] == if i < n then keys[i] else if i == n then key else keys[i - 1]
    ensures Keyed(p, blocks', keys')
  {
    forall i | 0 <= i < |blocks'|
      ensures p(blocks'[i], keys'[i])
    {
      if i != n {
        var k := if i < n then i else i - 1;
        assert p(blocks[k], keys[k]);
      }
    }
    forall i, j | 0 <= i < j < |blocks'| && blocks'[i].supersededBy == None == blocks'[j].supersededBy && keys'[i] == keys'[j]
      ensures keys'[i] == ""
    {
      var k, l := if i < n then i else i - 1, if j < n then j else j - 1;
      if i != n && j != n {
        assert k < l && keys[k] == keys[l];
      } else {
        var other := if i == n then l else k;
        assert blocks[other].supersededBy == None && keys[other] == key;
      }
    }
  }

  lemma Inserted<T>(s: seq<T>, n: nat, x: T)
    requires n <= |s|
    ensures var s' := s[..n] + [x] + s[n..];
      |s'| == |s| + 1 && forall i {:trigger s'[i]} :: 0 <= i < |s'| ==> s'[i] == if i < n then s[i] else if i == n then x else s[i - 1]
  {
  }

  lemma KeyedInsert(p: (Block, string) -> bool, blocks: seq<Block>, keys: seq<string>, n: nat, b: Block, key: string)
    requires Keyed(p, blocks, keys) && p(b, key) && n <= |blocks|
    requires forall i :: 0 <= i < |blocks| && blocks[i].supersededBy == None && key != "" ==> keys[i] != key
    ensures Keyed(p, blocks[..n] + [b] + blocks[n..], keys[..n] + [key] + keys[n..])
  {
    assert |keys| == |blocks|;
    hide Keyed;
    Inserted(blocks, n, b);
    Inserted(keys, n, key);
    KeyedShift(p, blocks, keys, n, b, key, blocks[..n] + [b] + blocks[n..], keys[..n] + [key] + keys[n..]);
  }

  lemma KeyedRemove(p: (Block, string) -> bool, blocks: seq<Block>, keys: seq<string>, i: nat)
    requires Keyed(p, blocks, keys) && i < |blocks|
    ensures Keyed(p, blocks[..i] + blocks[i + 1..], keys[..i] + keys[i + 1..])
  {
    var blocks', keys' := blocks[..i] + blocks[i + 1..], keys[..i] + keys[i + 1..];
    forall k | 0 <= k < |blocks'|
      ensures blocks'[k] == blocks[if k < i then k else k + 1] && keys'[k] == keys[if k < i then k else k + 1]
    {
    }
  }

  ghost function IsPlain(u: Unicode): (Block, string) -> bool {
    (b: Block, key: string) => PlainBlock(u, b, key)
  }

  ghost predicate AllPlain(u: Unicode, s: State) {
    exists keys :: Keyed(IsPlain(u), s.blocks, keys)
  }

  lemma Witness(u: Unicode, s: State, keys: seq<string>)
    requires Keyed(IsPlain(u), s.blocks, keys)
    ensures AllPlain(u, s)
  {
  }

  lemma KeysOf(u: Unicode, s: State) returns (keys: seq<string>)
    requires AllPlain(u, s)
    ensures |keys| == |s.blocks| && Keyed(IsPlain(u), s.blocks, keys)
  {
    keys :| Keyed(IsPlain(u), s.blocks, keys);
  }

  lemma InsertAtCut(blocks: seq<Block>, at: nat, b: Block)
    ensures var n := if at <= |blocks| then at else |blocks|; InsertAt(blocks, at, b) == blocks[..n] + [b] + blocks[n..]
  {
  }

  /** The guard of one statement: a new fact has no date for a topic, and a fact
      that is found is rewritten safely. */
  predicate SafeWrite(u: Unicode, s: State, text: string, topics: seq<string>) {
    var t, names := Trim(text), Pages(u, topics);
    t == "" ||
    match FindByKey(u, s.blocks, DedupKey(u, t))
    case Some(i) => SafeRewrite(ReadFact(s.blocks[i]).value, names)
    case None => !HasDate(names)
  }

  lemma NoneMatches(u: Unicode, blocks: seq<Block>, keys: seq<string>, key: string, i: nat)
    requires Sane(u) && Keyed(IsPlain(u), blocks, keys) && FindByKey(u, blocks, key) == None && key != ""
    requires i < |blocks| && blocks[i].supersededBy == None
    ensures keys[i] != key
  {
    assert IsPlain(u)(blocks[i], keys[i]);
    PlainKey(u, blocks[i], keys[i]);
    assert !LiveWithKey(u, key)(blocks[i]);
  }

  lemma OneMatches(u: Unicode, blocks: seq<Block>, keys: seq<string>, key: string)
    requires Sane(u) && Keyed(IsPlain(u), blocks, keys) && FindByKey(u, blocks, key).Some?
    ensures var i := FindByKey(u, blocks, key).value; i < |blocks| && blocks[i].supersededBy == None && keys[i] == key
  {
    var i := FindByKey(u, blocks, key).value;
    assert LiveWithKey(u, key)(blocks[i]);
    assert IsPlain(u)(blocks[i], keys[i]);
    PlainKey(u, blocks[i], keys[i]);
  }

  lemma TrimTwice(text: string)
    requires Bare(text)
    ensures Bare(Trim(text)) && Trim(Trim(text)) == Trim(text)
  {
    TrimBare(text);
    TrimIsTrimmed(text);
    TrimsToItself(Trim(text));
  }

  lemma RestatedKeeps(u: Unicode, s: State, t: string, names: seq<string>, i: nat, at: nat, keys: seq<string>)
    requires Sane(u) && Keyed(IsPlain(u), s.blocks, keys) && Found(s.blocks, Some(i)) && Topics(names)
    requires SafeRewrite(ReadFact(s.blocks[i]).value, names)
    ensures Keyed(IsPlain(u), Write(s, t, names, Some(i), at).0.blocks, keys)
  {
    assert IsPlain(u)(s.blocks[i], keys[i]);
    RewrittenPlain(u, s.blocks[i], keys[i], names);
    KeyedUpdate(IsPlain(u), s.blocks, keys, i, Rewritten(s.blocks[i], ReadFact(s.blocks[i]).value, names));
  }

  lemma AddedKeeps(u: Unicode, s: State, t: string, names: seq<string>, keys: seq<string>, at: nat)
    requires Sane(u) && Keyed(IsPlain(u), s.blocks, keys) && FindByKey(u, s.blocks, DedupKey(u, t)) == None && Plain(t, names)
    ensures AllPlain(u, Write(s, t, names, None, at).0)
  {
    var b := Block(s.created, BlockText(t, names), 1, None);
    assert PrintedFrom(b, t, names);
    forall i | 0 <= i < |s.blocks| && s.blocks[i].supersededBy == None && DedupKey(u, t) != ""
      ensures keys[i] != DedupKey(u, t)
    {
      NoneMatches(u, s.blocks, keys, DedupKey(u, t), i);
    }
    var n := if at <= |s.blocks| then at else |s.blocks|;
    KeyedInsert(IsPlain(u), s.blocks, keys, n, b, DedupKey(u, t));
    InsertAtCut(s.blocks, at, b);
    Witness(u, Write(s, t, names, None, at).0, keys[..n] + [DedupKey(u, t)] + keys[n..]);
  }

  lemma RememberKeeps(u: Unicode, s: State, text: string, topics: seq<string>, at: nat)
    requires Sane(u) && AllPlain(u, s) && Bare(text) && SafeWrite(u, s, text, topics)
    ensures AllPlain(u, Remember(u, s, text, topics, at).0)
  {
    var t := Trim(text);
    if t != "" {
      var keys :| Keyed(IsPlain(u), s.blocks, keys);
      PagesAre(u, topics);
      TrimTwice(text);
      match FindByKey(u, s.blocks, DedupKey(u, t))
      case Some(i) => RestatedKeeps(u, s, t, Pages(u, topics), i, at, keys);
      case None => AddedKeeps(u, s, t, Pages(u, topics), keys, at);
    }
  }

  lemma RetireKeepsPlain(u: Unicode, s: State, r: Result, stale: nat)
    requires AllPlain(u, s)
    ensures AllPlain(u, Retire(s, r, stale).0)
  {
    var keys :| Keyed(IsPlain(u), s.blocks, keys);
    if r.Ok? && r.memory.id != stale && FindById(s.blocks, stale).Some? {
      var i := FindById(s.blocks, stale).value;
      var b := s.blocks[i].(supersededBy := Some(r.memory.id));
      assert IsPlain(u)(s.blocks[i], keys[i]);
      hide Keyed, PlainBlock, AllPlain, FindById;
      SameTextPlain(u, s.blocks[i], b, keys[i]);
      assert IsPlain(u)(b, keys[i]);
      KeyedUpdate(IsPlain(u), s.blocks, keys, i, b);
      Witness(u, Retire(s, r, stale).0, keys);
    }
  }

  lemma SameTextPlain(u: Unicode, b: Block, b': Block, key: string)
    requires PlainBlock(u, b, key) && b'.text == b.text
    ensures PlainBlock(u, b', key)
  {
    var t, topics :| PrintedFrom(b, t, topics) && DedupKey(u, t) == key;
    assert PrintedFrom(b', t, topics);
  }

  lemma ForgetKeeps(u: Unicode, s: State, id: nat)
    requires AllPlain(u, s)
    ensures AllPlain(u, Forget(s, id).0)
  {
    var keys := KeysOf(u, s);
    var s' := Forget(s, id).0;
    hide Keyed, AllPlain, IsPlain, FindById;
    if FindById(s.blocks, id).Some? {
      var i := FindById(s.blocks, id).value;
      assert s'.blocks == s.blocks[..i] + s.blocks[i + 1..];
      hide Forget;
      KeyedRemove(IsPlain(u), s.blocks, keys, i);
      Witness(u, s', keys[..i] + keys[i + 1..]);
    }
  }

  /** The statement has no brackets, and the guard holds when it is made. */
  predicate SafeOp(u: Unicode, s: State, op: Op) {
    match op
    case Tell(text, topics, _) => Bare(text) && SafeWrite(u, s, text, topics)
    case Change(_, text, topics, _) => Bare(text) && SafeWrite(u, s, text, topics)
    case Drop(_) => true
  }

  predicate SafeRun(u: Unicode, ops: seq<Op>) {
    forall k :: 0 <= k < |ops| ==> SafeOp(u, Run(u, ops[..k]).state, ops[k])
  }

  lemma StepKeepsPlain(u: Unicode, h: History, op: Op)
    requires Sane(u) && AllPlain(u, h.state) && SafeOp(u, h.state, op)
    ensures AllPlain(u, Step(u, h, op).state)
  {
    match op
    case Tell(text, topics, at) => RememberKeeps(u, h.state, text, topics, at);
    case Change(stale, text, topics, at) =>
      RememberKeeps(u, h.state, text, topics, at);
      var (s', r) := Remember(u, h.state, text, topics, at);
      RetireKeepsPlain(u, s', r, stale);
    case Drop(id) => ForgetKeeps(u, h.state, id);
  }

  lemma SafePrefix(u: Unicode, ops: seq<Op>)
    requires SafeRun(u, ops) && ops != []
    ensures var n := |ops| - 1; SafeRun(u, ops[..n]) && SafeOp(u, Run(u, ops[..n]).state, ops[n])
  {
    hide Run, SafeOp;
    var n := |ops| - 1;
    forall k | 0 <= k < n
      ensures SafeOp(u, Run(u, ops[..n][..k]).state, ops[..n][k])
    {
      assert ops[..n][..k] == ops[..k];
    }
  }

  lemma {:induction false} RunKeepsPlain(u: Unicode, ops: seq<Op>)
    requires Sane(u) && SafeRun(u, ops)
    ensures AllPlain(u, Run(u, ops).state)
    decreases |ops|
  {
    if ops == [] {
      assert Keyed(IsPlain(u), [], []);
    } else {
      hide SafeRun, SafeOp, AllPlain, Step, Sane;
      var n := |ops| - 1;
      SafePrefix(u, ops);
      RunKeepsPlain(u, ops[..n]);
      StepKeepsPlain(u, Run(u, ops[..n]), ops[n]);
    }
  }

  /** Over any run that meets the guard, dated statements included, two live
      facts never have the same key. */
  lemma KeysStayUnique(u: Unicode, ops: seq<Op>, i: nat, j: nat)
    requires Sane(u) && SafeRun(u, ops)
    requires var blocks := Run(u, ops).state.blocks;
      i < j < |blocks| && blocks[i].supersededBy == None == blocks[j].supersededBy
    ensures var blocks := Run(u, ops).state.blocks;
      && ReadFact(blocks[i]).Some? && ReadFact(blocks[j]).Some?
      && (DedupKey(u, ReadFact(blocks[i]).value.text) == DedupKey(u, ReadFact(blocks[j]).value.text) ==>
            DedupKey(u, ReadFact(blocks[i]).value.text) == "")
  {
    RunKeepsPlain(u, ops);
    var blocks := Run(u, ops).state.blocks;
    var keys :| Keyed(IsPlain(u), blocks, keys);
    assert IsPlain(u)(blocks[i], keys[i]) && IsPlain(u)(blocks[j], keys[j]);
    PlainKey(u, blocks[i], keys[i]);
    PlainKey(u, blocks[j], keys[j]);
  }

  // ---- stating a fact again ----

  lemma FoundIsReinforced(u: Unicode, s: State, text: string, topics: seq<string>, at: nat, i: nat)
    requires Trim(text) != "" && FindByKey(u, s.blocks, DedupKey(u, Trim(text))) == Some(i) && i < |s.blocks|
    ensures var (s', r) := Remember(u, s, text, topics, at);
      |s'.blocks| == |s.blocks| && s'.created == s.created && r.Ok? && r.memory.id == s.blocks[i].id
  {
    hide Trim, DedupKey, Pages, BlockText;
  }

  /** A fact just stated under the guard is recognised: any other wording with
      the same key, whatever its topics, adds no block. */
  lemma RestatedIsReinforced(u: Unicode, s: State, a: string, topics: seq<string>, at: nat, b: string, more: seq<string>, at': nat)
    requires Sane(u) && AllPlain(u, s) && Bare(a) && SafeWrite(u, s, a, topics)
    requires Trim(a) != "" && Trim(b) != "" && DedupKey(u, Trim(a)) == DedupKey(u, Trim(b)) != ""
    ensures var s' := Remember(u, s, a, topics, at).0;
      var (s'', r) := Remember(u, s', b, more, at');
      |s''.blocks| == |s'.blocks| && s''.created == s'.created && r.Ok? && r.memory.id == Remember(u, s, a, topics, at).1.memory.id
  {
    var s' := Remember(u, s, a, topics, at).0;
    hide Sane, AllPlain, DedupKey, Remember, FindByKey, Trim, SafeWrite;
    var f := FoundWhereWritten(u, s, a, topics, at);
    FoundIsReinforced(u, s', b, more, at', f);
  }

  /** Under the guard the scan finds the very fact that was just stated. */
  lemma FoundWhereWritten(u: Unicode, s: State, a: string, topics: seq<string>, at: nat) returns (f: nat)
    requires Sane(u) && AllPlain(u, s) && Bare(a) && SafeWrite(u, s, a, topics) && Trim(a) != "" && DedupKey(u, Trim(a)) != ""
    ensures var (s', r) := Remember(u, s, a, topics, at);
      && FindByKey(u, s'.blocks, DedupKey(u, Trim(a))) == Some(f) && f < |s'.blocks|
      && r.Ok? && s'.blocks[f].id == r.memory.id
  {
    var s' := Remember(u, s, a, topics, at).0;
    var key := DedupKey(u, Trim(a));
    hide Sane, AllPlain, DedupKey, IsPlain, Keyed, Remember, FindByKey, Trim, SafeWrite;
    RememberKeeps(u, s, a, topics, at);
    var keys := KeysOf(u, s');
    f := WrittenHasKey(u, s, a, topics, at, keys);
    if FindByKey(u, s'.blocks, key) == None {
      NoneMatches(u, s'.blocks, keys, key, f);
    } else {
      OneMatches(u, s'.blocks, keys, key);
      OneLive(IsPlain(u), s'.blocks, keys, FindByKey(u, s'.blocks, key).value, f);
    }
  }

  lemma WrittenHasKey(u: Unicode, s: State, text: string, topics: seq<string>, at: nat, keys: seq<string>) returns (f: nat)
    requires Sane(u) && AllPlain(u, s) && Bare(text) && SafeWrite(u, s, text, topics) && Trim(text) != ""
    requires Keyed(IsPlain(u), Remember(u, s, text, topics, at).0.blocks, keys)
    ensures var (s', r) := Remember(u, s, text, topics, at);
      && f < |s'.blocks| && r.Ok? && s'.blocks[f].id == r.memory.id && s'.blocks[f].supersededBy == None
      && keys[f] == DedupKey(u, Trim(text))
  {
    var t, names := Trim(text), Pages(u, topics);
    var key := DedupKey(u, t);
    var (s', r) := Remember(u, s, text, topics, at);
    PagesAre(u, topics);
    TrimTwice(text);
    hide Sane, Bare, Topics, HasDate, SafeRewrite, DedupKey, PlainBlock;
    match FindByKey(u, s.blocks, key)
    case Some(i) =>
      f := i;
      var was :| Keyed(IsPlain(u), s.blocks, was);
      OneMatches(u, s.blocks, was, key);
      assert IsPlain(u)(s.blocks[i], was[i]);
      RewrittenPlain(u, s.blocks[i], was[i], names);
      SameKey(u, s'.blocks[f], key, keys, s'.blocks, f);
    case None =>
      f := if at <= |s.blocks| then at else |s.blocks|;
      assert PrintedFrom(s'.blocks[f], t, names);
      SameKey(u, s'.blocks[f], key, keys, s'.blocks, f);
  }

  lemma SameKey(u: Unicode, b: Block, key: string, keys: seq<string>, blocks: seq<Block>, f: nat)
    requires Sane(u) && PlainBlock(u, b, key) && Keyed(IsPlain(u), blocks, keys) && f < |blocks| && blocks[f] == b
    ensures keys[f] == key
  {
    assert IsPlain(u)(blocks[f], keys[f]);
    PlainKey(u, b, key);
    PlainKey(u, b, keys[f]);
  }

  // ---- and exactly then ----

  lemma OthersDiffer(u: Unicode, blocks: seq<Block>, keys: seq<string>, key: string, i: nat, k: nat)
    requires Sane(u) && Keyed(IsPlain(u), blocks, keys) && FindByKey(u, blocks, key) == Some(i) && key != ""
    requires k < |blocks| && k != i
    ensures !Matches(u, blocks[k], key)
  {
    OneMatches(u, blocks, keys, key);
    assert IsPlain(u)(blocks[k], keys[k]);
    PlainKey(u, blocks[k], keys[k]);
  }

  lemma NoMatchNoFind(u: Unicode, blocks: seq<Block>, key: string)
    requires forall k :: 0 <= k < |blocks| ==> !Matches(u, blocks[k], key)
    ensures FindByKey(u, blocks, key) == None
  {
  }

  lemma UnsafeRestated(u: Unicode, s: State, t: string, names: seq<string>, i: nat, at: nat)
    requires Sane(u) && AllPlain(u, s) && Topics(names) && FindByKey(u, s.blocks, DedupKey(u, t)) == Some(i) && DedupKey(u, t) != ""
    requires !SafeRewrite(ReadFact(s.blocks[i]).value, names)
    ensures FindByKey(u, Write(s, t, names, Some(i), at).0.blocks, DedupKey(u, t)) == None
  {
    var keys := KeysOf(u, s);
    var key, blocks := DedupKey(u, t), Write(s, t, names, Some(i), at).0.blocks;
    OneMatches(u, s.blocks, keys, key);
    assert IsPlain(u)(s.blocks[i], keys[i]);
    UnsafeRewrite(u, s.blocks[i], key, names);
    forall k | 0 <= k < |blocks|
      ensures !Matches(u, blocks[k], key)
    {
      if k != i {
        OthersDiffer(u, s.blocks, keys, key, i, k);
      }
    }
    NoMatchNoFind(u, blocks, key);
  }

  lemma UnsafeAdded(u: Unicode, s: State, t: string, names: seq<string>, at: nat)
    requires Sane(u) && Bare(t) && Topics(names) && HasDate(names)
    requires FindByKey(u, s.blocks, DedupKey(u, t)) == None && DedupKey(u, t) != ""
    ensures FindByKey(u, Write(s, t, names, None, at).0.blocks, DedupKey(u, t)) == None
  {
    var key, blocks := DedupKey(u, t), Write(s, t, names, None, at).0.blocks;
    var b, n := Block(s.created, BlockText(t, names), 1, None), if at <= |s.blocks| then at else |s.blocks|;
    KeySurvives(u, t, names);
    assert !Matches(u, b, key);
    InsertAtCut(s.blocks, at, b);
    Inserted(s.blocks, n, b);
    forall k | 0 <= k < |blocks|
      ensures !Matches(u, blocks[k], key)
    {
      assert blocks[k] == if k < n then s.blocks[k] else if k == n then b else s.blocks[k - 1];
      if k != n {
        assert !LiveWithKey(u, key)(s.blocks[if k < n then k else k - 1]);
      }
    }
    NoMatchNoFind(u, blocks, key);
  }

  /** In a store that met the guard so far, a fact just stated is found under the
      key of its statement exactly when this statement meets the guard as well. */
  lemma RecognisedIff(u: Unicode, s: State, a: string, topics: seq<string>, at: nat)
    requires Sane(u) && AllPlain(u, s) && Bare(a) && Trim(a) != "" && DedupKey(u, Trim(a)) != ""
    ensures FindByKey(u, Remember(u, s, a, topics, at).0.blocks, DedupKey(u, Trim(a))).Some? <==> SafeWrite(u, s, a, topics)
  {
    var t, names := Trim(a), Pages(u, topics);
    PagesAre(u, topics);
    TrimTwice(a);
    if SafeWrite(u, s, a, topics) {
      var f := FoundWhereWritten(u, s, a, topics, at);
    } else {
      match FindByKey(u, s.blocks, DedupKey(u, t))
      case Some(i) => UnsafeRestated(u, s, t, names, i, at);
      case None => UnsafeAdded(u, s, t, names, at);
    }
  }

  // ---- dates ----

  /** Printing a fact again keeps its key exactly when none of its topics is a
      date; and every date in its statement is one of its topics. */
  lemma ReprintKeepsKeyIff(u: Unicode, m: Memory, names: seq<string>)
    requires Sane(u) && Bare(m.text) && Topics(m.topics) && Topics(names) && Missing(names, m.topics) != []
    ensures var r := Reinforced(m, names);
      var read := SplitLinks(BlockText(r.text, r.topics)).0;
      DedupKey(u, read) == DedupKey(u, m.text) <==> !HasDate(m.topics) && !HasDate(names)
  {
    MergedTopics(m.topics, names);
    KeySurvives(u, m.text, Reinforced(m, names).topics);
  }

  lemma {:induction false} DatesHaveDigits(prev: Option<char>, s: string)
    requires Dates(prev, s) != []
    ensures exists i :: 0 <= i < |s| && IsDigit(s[i])
    decreases |s|
  {
    if DateAt(prev, s) {
      assert IsDigit(s[..10][0]);
      assert IsDigit(s[0]);
    } else {
      DatesHaveDigits(Some(s[0]), s[1..]);
      var i :| 0 <= i < |s[1..]| && IsDigit(s[1..][i]);
      assert IsDigit(s[i + 1]);
    }
  }

  lemma DatedKey(u: Unicode, t: string)
    requires Sane(u) && Bare(t) && LinkedDates(t) != []
    ensures Trim(t) != "" && DedupKey(u, Trim(t)) == DedupKey(u, t) != ""
  {
    DatesHaveDigits(None, Trim(t));
    HasRun(u, Trim(t));
    KeyEmpty(u, Trim(t));
    TrimBare(t);
    BareKey(u, Trim(t));
    BareKey(u, t);
    CollapseTrims(t);
    KeyIgnoresSpacing(u, t);
    KeyIgnoresSpacing(u, Trim(t));
  }

  /** The block after a dated fact was stated twice, the second time with a new topic. */
  lemma DatedReprint(u: Unicode, b: Block, t: string, names: seq<string>)
    requires Sane(u) && Bare(t) && LinkedDates(t) != [] && b.text == BlockText(t, []) && b.supersededBy == None && Topics(names)
    ensures ReadFact(b) == Some(Memory(b.id, Collapse(t), LinkedDates(t), b.seen, None)) && Matches(u, b, DedupKey(u, t))
    ensures Missing(names, LinkedDates(t)) != [] ==> !Matches(u, Rewritten(b, ReadFact(b).value, names), DedupKey(u, t))
  {
    DatedKey(u, t);
    PrintedReads(b, t, []);
    ReadTopics(t, []);
    assert LinkedDates(t) + [] == LinkedDates(t);
    assert PrintedFrom(b, t, []);
    BareKey(u, t);
    if Missing(names, LinkedDates(t)) != [] {
      UnsafeRewrite(u, b, DedupKey(u, t), names);
    }
  }

  /** One fact, not yet superseded, in the words and topics it is printed with. */
  function Fact(id: nat, seen: nat, text: string): Block {
    Block(id, text, seen, None)
  }

  /** The block of a dated fact once it was rewritten for new topics. */
  function Reprint(u: Unicode, t: string, topics: seq<string>): string {
    BlockText(Collapse(t), Sorted(LinkedDates(t) + Missing(Pages(u, topics), LinkedDates(t))))
  }

  lemma FirstWrite(u: Unicode, t: string, at: nat)
    requires Trim(t) != ""
    ensures Remember(u, State([], 0), t, [], at).0 == State([Fact(0, 1, BlockText(Trim(t), []))], 1)
  {
    var b := Fact(0, 1, BlockText(Trim(t), []));
    assert Pages(u, []) == [];
    assert [b] == InsertAt([], at, b);
  }

  lemma OnlyMatch(u: Unicode, blocks: seq<Block>, key: string, i: nat)
    requires key != "" && i < |blocks| && Matches(u, blocks[i], key)
    requires forall k :: 0 <= k < |blocks| && k != i ==> !Matches(u, blocks[k], key)
    ensures FindByKey(u, blocks, key) == Some(i)
  {
    var r := FindByKey(u, blocks, key);
    assert LiveWithKey(u, key)(blocks[i]);
    if r.Some? {
      assert LiveWithKey(u, key)(blocks[r.value]);
    }
  }

  /** A dated fact that is found unchanged is rewritten for the new topics, and
      left alone when there is none. */
  lemma DatedAgain(u: Unicode, s: State, i: nat, t: string, topics: seq<string>, at: nat)
    requires Sane(u) && Bare(t) && LinkedDates(t) != [] && i < |s.blocks|
    requires s.blocks[i].text == BlockText(t, []) && s.blocks[i].supersededBy == None
    requires forall k :: 0 <= k < |s.blocks| && k != i ==> !Matches(u, s.blocks[k], DedupKey(u, t))
    ensures var b, s' := s.blocks[i], Remember(u, s, t, topics, at).0;
      && ReadFact(b).Some? && s' == s.(blocks := s.blocks[i := Rewritten(b, ReadFact(b).value, Pages(u, topics))])
      && s'.blocks[i].text == (if Missing(Pages(u, topics), LinkedDates(t)) == [] then BlockText(t, []) else Reprint(u, t, topics))
      && s'.blocks[i].supersededBy == None && s'.blocks[i].id == b.id
      && (Missing(Pages(u, topics), LinkedDates(t)) != [] ==> !Matches(u, s'.blocks[i], DedupKey(u, t)))
  {
    DatedKey(u, t);
    PagesAre(u, topics);
    DatedReprint(u, s.blocks[i], t, Pages(u, topics));
    OnlyMatch(u, s.blocks, DedupKey(u, t), i);
  }

  /** A dated fact that is not found is stored anew. */
  lemma DatedAnew(u: Unicode, s: State, t: string, at: nat)
    requires Sane(u) && Bare(t) && LinkedDates(t) != []
    requires forall k :: 0 <= k < |s.blocks| ==> !Matches(u, s.blocks[k], DedupKey(u, t))
    ensures Remember(u, s, t, [], at).0 == State(InsertAt(s.blocks, at, Fact(s.created, 1, BlockText(t, []))), s.created + 1)
  {
    DatedKey(u, t);
    TrimTwice(t);
    NoMatchNoFind(u, s.blocks, DedupKey(u, t));
    assert Pages(u, []) == [];
    assert BlockText(Trim(t), []) == BlockText(t, []);
  }

  /** The store after telling `t`, restating it under `topics`, telling it again,
      and restating it once more. */
  function Restatings(u: Unicode, t: string, topics: seq<string>, at: nat): (State, State, State, State) {
    var s1 := Remember(u, State([], 0), t, [], at).0;
    var s2 := Remember(u, s1, t, topics, at).0;
    var s3 := Remember(u, s2, t, [], at).0;
    (s1, s2, s3, Remember(u, s3, t, topics, at).0)
  }

  lemma FirstTwo(u: Unicode, t: string, topics: seq<string>, at: nat)
    requires Sane(u) && Bare(t) && LinkedDates(t) != []
    ensures var (s1, s2, _, _) := Restatings(u, t, topics, at);
      && |s1.blocks| == |s2.blocks| == s2.created == 1 && s2.blocks[0].supersededBy == None && s2.blocks[0].id == 0
      && s2.blocks[0].text == (if Missing(Pages(u, topics), LinkedDates(t)) == [] then BlockText(t, []) else Reprint(u, t, topics))
      && (Missing(Pages(u, topics), LinkedDates(t)) != [] ==> !Matches(u, s2.blocks[0], DedupKey(u, t)))
  {
    DatedKey(u, t);
    TrimTwice(t);
    FirstWrite(u, t, at);
    assert BlockText(Trim(t), []) == BlockText(t, []);
    DatedAgain(u, Restatings(u, t, topics, at).0, 0, t, topics, at);
  }

  /** A fact with a date in its statement that is stated again under some topics
      is stored a second time, when it is stated once more, exactly when one of
      these topics is not among its dates. */
  lemma DatedFactIsStoredTwice(u: Unicode, t: string, topics: seq<string>, at: nat)
    requires Sane(u) && Bare(t) && LinkedDates(t) != []
    ensures var (s1, s2, s3, _) := Restatings(u, t, topics, at);
      && |s1.blocks| == |s2.blocks| == 1
      && |s3.blocks| == if Missing(Pages(u, topics), LinkedDates(t)) == [] then 1 else 2
  {
    hide Remember, Reprint, LinkedDates, Missing, Pages, Bare, Sane, ReadFact, Matches, DedupKey, BlockText;
    FirstTwo(u, t, topics, at);
    var s2 := Restatings(u, t, topics, at).1;
    if Missing(Pages(u, topics), LinkedDates(t)) == [] {
      DatedAgain(u, s2, 0, t, [], at);
    } else {
      DatedAnew(u, s2, t, at);
    }
  }

  lemma DigitGivesKey(u: Unicode, x: string, i: nat)
    requires Sane(u) && i < |x| && IsDigit(x[i])
    ensures KeyOf(u, Collapse(x)) != ""
  {
    HasRun(u, x);
    KeyEmpty(u, x);
    KeyIgnoresSpacing(u, x);
  }

  /** What is printed of a statement with a date has a key. */
  lemma DatedBlockHasKey(u: Unicode, c: string, topics: seq<string>)
    requires Sane(u) && Bare(c) && Topics(topics) && LinkedDates(c) != []
    ensures DedupKey(u, BlockText(c, topics)) != ""
  {
    hide Sane, Bare, Topics, HasDate, IsoShape, BlockText, DedupKey, KeyOf, Collapse, Trim, Trailing;
    var n := ReadBackKey(u, c, topics);
    DatesHaveDigits(None, Trim(c));
    var x := Trim(c) + Trailing(topics[..n]);
    var i :| 0 <= i < |Trim(c)| && IsDigit(Trim(c)[i]);
    assert x[i] == Trim(c)[i];
    DigitGivesKey(u, x, i);
  }

  /** A fact can be read from that block. */
  lemma ReprintHasKey(u: Unicode, b: Block, t: string, topics: seq<string>)
    requires Sane(u) && Bare(t) && LinkedDates(t) != [] && b.text == Reprint(u, t, topics)
    ensures ReadFact(b).Some? && ReadFact(b).value.text == SplitLinks(b.text).0
    ensures DedupKey(u, ReadFact(b).value.text) != ""
  {
    var dates, c := LinkedDates(t), Collapse(t);
    PagesAre(u, topics);
    ReadTopics(t, []);
    assert dates + [] == dates;
    var merged := Sorted(dates + Missing(Pages(u, topics), dates));
    MergedTopics(dates, Pages(u, topics));
    DatedKey(u, t);
    CollapseBare(t);
    CollapseNotBlank(t);
    DatesIgnoreSpacing(t);
    hide Sane, Bare, Topics, HasDate, Collapse, LinkedDates, Missing, Pages, Sorted, Trim, BlockText, DedupKey;
    BlockNotBlank(c, merged);
    DatedBlockHasKey(u, c, merged);
    KeySurvives(u, c, merged);
    ReadableIs(u, b);
  }

  lemma ReadableIs(u: Unicode, b: Block)
    requires Sane(u) && Trim(b.text) != "" && DedupKey(u, b.text) != "" && DedupKey(u, SplitLinks(b.text).0) == DedupKey(u, b.text)
    ensures ReadFact(b).Some? && ReadFact(b).value.text == SplitLinks(b.text).0
  {
    var (text, topics) := SplitLinks(b.text);
    hide SplitLinks, DedupKey;
    if Trim(text) == "" {
      BlankHasNoKey(u, b.text);
    }
  }

  lemma BlankHasNoKey(u: Unicode, text: string)
    requires Sane(u) && Trim(SplitLinks(text).0) == ""
    ensures DedupKey(u, text) == ""
  {
    var s := SplitLinks(text).0;
    hide SplitLinks, Trim;
    KeyIgnoresSpacing(u, s);
    KeyIgnoresSpacing(u, Trim(s));
    CollapseTrims(s);
    KeyEmpty(u, "");
  }

  /** And stating it under new topics once more leaves two live facts with the
      same statement and the same key. */
  lemma TwoLiveFactsOneKey(u: Unicode, t: string, topics: seq<string>, at: nat)
    requires Sane(u) && Bare(t) && LinkedDates(t) != [] && Missing(Pages(u, topics), LinkedDates(t)) != []
    ensures var blocks := Restatings(u, t, topics, at).3.blocks;
      && |blocks| == 2 && blocks[0].supersededBy == None == blocks[1].supersededBy && blocks[0].id != blocks[1].id
      && ReadFact(blocks[0]).Some? && ReadFact(blocks[1]).Some?
      && ReadFact(blocks[0]).value.text == ReadFact(blocks[1]).value.text
      && DedupKey(u, ReadFact(blocks[0]).value.text) != ""
  {
    hide Remember, Reprint, LinkedDates, Missing, Pages, Bare, Sane, ReadFact, Matches, DedupKey, BlockText, Rewritten, SplitLinks;
    var (_, s2, s3, s4) := Restatings(u, t, topics, at);
    FirstTwo(u, t, topics, at);
    DatedAnew(u, s2, t, at);
    var i := if at == 0 then 0 else 1;
    assert s3.blocks == if at == 0 then [Fact(1, 1, BlockText(t, [])), s2.blocks[0]] else [s2.blocks[0], Fact(1, 1, BlockText(t, []))];
    DatedAgain(u, s3, i, t, topics, at);
    ReprintHasKey(u, s4.blocks[0], t, topics);
    ReprintHasKey(u, s4.blocks[1], t, topics);
  }
}
