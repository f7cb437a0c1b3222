/** The fact store: remember, supersede and forget over one list of blocks. */
module MemoryStore {
  import opened Common
  import opened Text
  import opened LinkText
  import opened FactText
  import opened FactKey
  import opened TopicPages

  const SEEN_MAX: nat := 0xFFFF_FFFF

  datatype Block = Block(id: nat, text: string, seen: nat, supersededBy: Option<nat>)

  datatype Memory = Memory(id: nat, text: string, topics: seq<string>, seen: nat, supersededBy: Option<nat>)

  datatype Error = Blank | NotFound(id: nat)

  datatype Result = Ok(memory: Memory) | Err(error: Error)

  /** Block ids are handed out in order of creation and never again. */
  datatype State = State(blocks: seq<Block>, created: nat)

  function ReadFact(b: Block): Option<Memory> {
    if Trim(b.text) == "" then None
    else
      var (text, topics) := SplitLinks(b.text);
      if Trim(text) == "" && topics == [] then None
      else Some(Memory(b.id, text, topics, b.seen, b.supersededBy))
  }

  predicate Matches(u: Unicode, b: Block, key: string) {
    b.supersededBy.None? && ReadFact(b).Some? && DedupKey(u, ReadFact(b).value.text) == key
  }

  function IndexOf(blocks: seq<Block>, p: Block -> bool): (r: Option<nat>)
    ensures r.Some? ==> r.value < |blocks| && p(blocks[r.value])
    ensures r.None? ==> forall i :: 0 <= i < |blocks| ==> !p(blocks[i])
  {
    if blocks == [] then None
    else if p(blocks[0]) then Some(0)
    else match IndexOf(blocks[1..], p)
      case None => None
      case Some(i) => Some(i + 1)
  }

  function LiveWithKey(u: Unicode, key: string): Block -> bool {
    (b: Block) => Matches(u, b, key)
  }

  function FactWithId(id: nat): Block -> bool {
    (b: Block) => b.id == id && ReadFact(b).Some?
  }

  /** The first live fact with the key; an empty key names no fact. */
  function FindByKey(u: Unicode, blocks: seq<Block>, key: string): (r: Option<nat>)
    ensures Found(blocks, r)
  {
    if key == "" then None else IndexOf(blocks, LiveWithKey(u, key))
  }

  function FindById(blocks: seq<Block>, id: nat): (r: Option<nat>)
    ensures r.Some? ==> r.value < |blocks| && blocks[r.value].id == id
  {
    IndexOf(blocks, FactWithId(id))
  }

  method Scan(blocks: seq<Block>, p: Block -> bool) returns (r: Option<nat>)
    ensures r == IndexOf(blocks, p)
  {
    var i := 0;
    assert blocks[0..] == blocks;
    while i < |blocks|
      invariant 0 <= i <= |blocks|
      invariant IndexOf(blocks, p) == match IndexOf(blocks[i..], p) case None => None case Some(k) => Some(k + i)
    {
      if p(blocks[i]) {
        return Some(i);
      }
      assert blocks[i..][1..] == blocks[i + 1..];
      i := i + 1;
    }
    return None;
  }

  function SaturatingAdd(seen: nat): nat {
    if seen < SEEN_MAX then seen + 1 else SEEN_MAX
  }

  function Missing(names: seq<string>, topics: seq<string>): seq<string> {
    if names == [] then []
    else (if names[0] in topics then [] else [names[0]]) + Missing(names[1..], topics)
  }

  /** The fact after one more statement of it. The text is printed again only
      when a topic is new, with every topic that was read from the block. */
  function Reinforced(m: Memory, names: seq<string>): Memory {
    var missing := Missing(names, m.topics);
    m.(seen := SaturatingAdd(m.seen), topics := if missing == [] then m.topics else Sorted(m.topics + missing))
  }

  function Rewritten(b: Block, m: Memory, names: seq<string>): Block {
    var r := Reinforced(m, names);
    b.(seen := r.seen, text := if Missing(names, m.topics) == [] then b.text else BlockText(r.text, r.topics))
  }

  function InsertAt(blocks: seq<Block>, at: nat, b: Block): seq<Block> {
    if at <= |blocks| then blocks[..at] + [b] + blocks[at..] else blocks + [b]
  }

  predicate Found(blocks: seq<Block>, found: Option<nat>) {
    found.Some? ==> found.value < |blocks| && ReadFact(blocks[found.value]).Some?
  }

  /** One more statement of the fact that was found, or a new fact. */
  function Write(s: State, t: string, names: seq<string>, found: Option<nat>, at: nat): (State, Result)
    requires Found(s.blocks, found)
  {
    match found
    case Some(i) =>
      var m := ReadFact(s.blocks[i]).value;
      (s.(blocks := s.blocks[i := Rewritten(s.blocks[i], m, names)]), Ok(Reinforced(m, names)))
    case None =>
      (State(InsertAt(s.blocks, at, Block(s.created, BlockText(t, names), 1, None)), s.created + 1),
       Ok(Memory(s.created, t, names, 1, None)))
  }

  function Remember(u: Unicode, s: State, text: string, topics: seq<string>, at: nat): (State, Result) {
    var t := Trim(text);
    if t == "" then (s, Err(Blank))
    else Write(s, t, Pages(u, topics), FindByKey(u, s.blocks, DedupKey(u, t)), at)
  }

  /** Marks the fact that `r` replaces, unless it is the very fact that `r` reinforced. */
  function Retire(s: State, r: Result, stale: nat): (State, Result) {
    if r.Err? || r.memory.id == stale then (s, r)
    else match FindById(s.blocks, stale)
      case None => (s, Err(NotFound(stale)))
      case Some(i) => (s.(blocks := s.blocks[i := s.blocks[i].(supersededBy := Some(r.memory.id))]), r)
  }

  /** The replacement is written first, so it stays even when there is nothing to replace. */
  function Supersede(u: Unicode, s: State, stale: nat, text: string, topics: seq<string>, at: nat): (State, Result) {
    var (s', r) := Remember(u, s, text, topics, at);
    Retire(s', r, stale)
  }

  function Forget(s: State, id: nat): (State, bool) {
    match FindById(s.blocks, id)
    case None => (s, false)
    case Some(i) => (s.(blocks := s.blocks[..i] + s.blocks[i + 1..]), true)
  }

  // ---- the store, updated in place ----

  class Store {
    const u: Unicode
    var blocks: seq<Block>
    var created: nat

    function Contents(): State
      reads this
    {
      State(blocks, created)
    }

    constructor (u: Unicode)
      ensures Contents() == State([], 0) && this.u == u
    {
      this.u := u;
      blocks := [];
      created := 0;
    }

    method WriteFact(t: string, names: seq<string>, found: Option<nat>, at: nat) returns (r: Result)
      requires Found(blocks, found)
      modifies `blocks, `created
      ensures (Contents(), r) == Write(old(Contents()), t, names, found, at)
    {
      if found.Some? {
        var i := found.value;
        var m := ReadFact(blocks[i]).value;
        blocks := blocks[i := Rewritten(blocks[i], m, names)];
        return Ok(Reinforced(m, names));
      }
      blocks := InsertAt(blocks, at, Block(created, BlockText(t, names), 1, None));
      created := created + 1;
      return Ok(Memory(created - 1, t, names, 1, None));
    }

    method RememberWith(text: string, topics: seq<string>, at: nat) returns (r: Result)
      requires Sane(u)
      modifies `blocks, `created
      ensures (Contents(), r) == Remember(u, old(Contents()), text, topics, at)
    {
      var t := Trim(text);
      if t == "" {
        return Err(Blank);
      }
      var names := NormalizeTopics(u, topics);
      var key := ComputeKey(u, t);
      var found := None;
      if key != "" {
        found := Scan(blocks, LiveWithKey(u, key));
      }
      assert found == FindByKey(u, blocks, key);
      r := WriteFact(t, names, found, at);
    }

    method Replace(oldId: nat, text: string, topics: seq<string>, at: nat) returns (r: Result)
      requires Sane(u)
      modifies `blocks, `created
      ensures (Contents(), r) == Supersede(u, old(Contents()), oldId, text, topics, at)
    {
      if Trim(text) == "" {
        return Err(Blank);
      }
      r := RememberWith(text, topics, at);
      if r.Err? || r.memory.id == oldId {
        return;
      }
      var target := Scan(blocks, FactWithId(oldId));
      if target.None? {
        return Err(NotFound(oldId));
      }
      blocks := blocks[target.value := blocks[target.value].(supersededBy := Some(r.memory.id))];
    }

    method Delete(id: nat) returns (found: bool)
      modifies `blocks
      ensures (Contents(), found) == Forget(old(Contents()), id)
    {
      var target := Scan(blocks, FactWithId(id));
      if target.None? {
        return false;
      }
      blocks := blocks[..target.value] + blocks[target.value + 1..];
      return true;
    }
  }
}
