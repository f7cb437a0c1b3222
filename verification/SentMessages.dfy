/** Which run a sent chat message was about. */
module SentMessages {
  import opened Common
  import Limits
  import Text
  import TopicPages
  import Utf8

  const MAX_ENTRIES := 500

  datatype SentMessage = SentMessage(chat: Option<string>, agent: string, schedule: string, event: string, at: int)

  // ---- keys ----

  function LegacyKey(id: int): string {
    IntText(id)
  }

  function ScopedKey(chat: string, id: int): string {
    NatText(|Utf8.Encode(chat)|) + ":" + chat + ":" + IntText(id)
  }

  lemma NoBytesNoText(s: string)
    requires |Utf8.Encode(s)| == 0
    ensures s == ""
  {
  }

  /** Of two texts of which one begins the other, equally long ones are equal. */
  lemma SameBytes(a: string, b: string)
    requires a <= b && |Utf8.Encode(a)| == |Utf8.Encode(b)|
    ensures a == b
  {
    assert b == a + b[|a|..];
    Limits.EncodeAppend(a, b[|a|..]);
    NoBytesNoText(b[|a|..]);
  }

  lemma SameChat(chat: string, id: string, other: string, otherId: string)
    requires chat + ":" + id == other + ":" + otherId && |Utf8.Encode(chat)| == |Utf8.Encode(other)|
    ensures chat == other && id == otherId
  {
    var x, y := chat + ":" + id, other + ":" + otherId;
    assert chat == x[..|chat|] && other == y[..|other|];
    if |chat| <= |other| {
      assert chat == other[..|chat|];
      SameBytes(chat, other);
    } else {
      assert other == chat[..|other|];
      SameBytes(other, chat);
    }
    assert id == x[|chat| + 1..] && otherId == y[|other| + 1..];
  }

  lemma KeyParts(length: string, chat: string, id: string)
    ensures length + ":" + chat + ":" + id == length + ":" + (chat + ":" + id)
  {
    Text.Assoc(length + ":", chat, ":");
    Text.Assoc(length + ":", chat + ":", id);
  }

  /** Two pairs never share a key, even when a chat id has colons in it. */
  lemma ScopedKeyInjective(chat: string, id: int, other: string, otherId: int)
    requires ScopedKey(chat, id) == ScopedKey(other, otherId)
    ensures chat == other && id == otherId
  {
    var n, m := |Utf8.Encode(chat)|, |Utf8.Encode(other)|;
    var x, y := chat + ":" + IntText(id), other + ":" + IntText(otherId);
    KeyParts(NatText(n), chat, IntText(id));
    KeyParts(NatText(m), other, IntText(otherId));
    Text.CutAtFirst(':', NatText(n), x, NatText(m), y);
    NatTextInjective(n, m);
    assert x == y;
    SameChat(chat, IntText(id), other, IntText(otherId));
    IntTextInjective(id, otherId);
  }

  /** A scoped key is never the key of a message recorded without its chat. */
  lemma ScopedIsNotLegacy(chat: string, id: int, legacy: int)
    ensures ScopedKey(chat, id) != LegacyKey(legacy)
  {
    var n := |NatText(|Utf8.Encode(chat)|)|;
    assert ScopedKey(chat, id)[n] == ':';
  }

  // ---- eviction ----

  /** The oldest entry, and of equally old ones the first in the map's order. */
  ghost predicate IsOldest(entries: map<string, SentMessage>, k: string) {
    && k in entries
    && forall j :: j in entries ==>
         entries[k].at < entries[j].at || (entries[k].at == entries[j].at && !TopicPages.Less(j, k))
  }

  /** What eviction leaves: as many entries as fit, none older than one it dropped. */
  ghost predicate Evicted(before: map<string, SentMessage>, after: map<string, SentMessage>) {
    && |after| == (if |before| <= MAX_ENTRIES then |before| else MAX_ENTRIES)
    && (forall k :: k in after ==> k in before && after[k] == before[k])
    && (forall k, j :: k in before && k !in after && j in after ==> before[k].at <= after[j].at)
  }

  function Get(entries: map<string, SentMessage>, id: int): Option<SentMessage> {
    if LegacyKey(id) in entries then Some(entries[LegacyKey(id)]) else None
  }

  function GetForChat(entries: map<string, SentMessage>, chat: string, id: int): Option<SentMessage> {
    var k := ScopedKey(chat, id);
    if k in entries && entries[k].chat == Some(chat) then Some(entries[k]) else None
  }

  class Table {
    var entries: map<string, SentMessage>

    constructor ()
      ensures entries == map[]
    {
      entries := map[];
    }

    method Oldest() returns (k: string)
      requires entries != map[]
      ensures IsOldest(entries, k)
    {
      var keys := entries.Keys;
      k :| k in keys;
      var left := keys - {k};
      TopicPages.LessTotal(k, k);
      while left != {}
        invariant left <= keys && k in keys - left
        invariant forall j :: j in keys - left ==>
          entries[k].at < entries[j].at || (entries[k].at == entries[j].at && !TopicPages.Less(j, k))
        decreases |left|
      {
        var j :| j in left;
        left := left - {j};
        TopicPages.LessTotal(j, k);
        TopicPages.LessTotal(j, j);
        if entries[j].at < entries[k].at || (entries[j].at == entries[k].at && TopicPages.Less(j, k)) {
          forall i | i in keys - left && entries[i].at == entries[j].at
            ensures !TopicPages.Less(i, j)
          {
            if TopicPages.Less(i, j) && entries[i].at == entries[k].at {
              TopicPages.LessTrans(i, j, k);
            }
          }
          k := j;
        }
      }
    }

    method EvictOldest()
      modifies this
      ensures Evicted(old(entries), entries)
    {
      while |entries| > MAX_ENTRIES
        invariant |entries| <= |old(entries)|
        invariant |old(entries)| <= MAX_ENTRIES ==> entries == old(entries)
        invariant |old(entries)| > MAX_ENTRIES ==> |entries| >= MAX_ENTRIES
        invariant forall k :: k in entries ==> k in old(entries) && entries[k] == old(entries)[k]
        invariant forall k, j :: k in old(entries) && k !in entries && j in entries ==> old(entries)[k].at <= entries[j].at
        decreases |entries|
      {
        var k := Oldest();
        RemoveOne(entries, k);
        entries := entries - {k};
      }
    }

    method Insert(id: int, entry: SentMessage)
      modifies this
      ensures Evicted(old(entries)[LegacyKey(id) := entry], entries)
    {
      entries := entries[LegacyKey(id) := entry];
      EvictOldest();
    }

    method InsertForChat(chat: string, id: int, entry: SentMessage)
      modifies this
      ensures Evicted(old(entries)[ScopedKey(chat, id) := entry.(chat := Some(chat))], entries)
    {
      entries := entries[ScopedKey(chat, id) := entry.(chat := Some(chat))];
      EvictOldest();
    }
  }

  lemma RemoveOne(entries: map<string, SentMessage>, k: string)
    requires k in entries
    ensures |entries - {k}| == |entries| - 1
  {
    assert (entries - {k}).Keys == entries.Keys - {k};
    assert |entries| == |entries.Keys| && |entries - {k}| == |(entries - {k}).Keys|;
  }

  // ---- whole runs of the table ----

  datatype Op =
    | Unscoped(id: int, entry: SentMessage)
    | Scoped(chat: string, id: int, entry: SentMessage)

  function Put(entries: map<string, SentMessage>, op: Op): map<string, SentMessage> {
    match op
    case Unscoped(id, entry) => entries[LegacyKey(id) := entry]
    case Scoped(chat, id, entry) => entries[ScopedKey(chat, id) := entry.(chat := Some(chat))]
  }

  /** `tables[i]` is what the first `i` inserts left. */
  ghost predicate IsRun(tables: seq<map<string, SentMessage>>, ops: seq<Op>) {
    && |tables| == |ops| + 1 && tables[0] == map[]
    && forall i :: 0 <= i < |ops| ==> Evicted(Put(tables[i], ops[i]), tables[i + 1])
  }

  /** The last entry recorded for this message in this chat. */
  function Latest(ops: seq<Op>, chat: string, id: int): Option<SentMessage> {
    if ops == [] then None
    else
      var n := |ops| - 1;
      if ops[n].Scoped? && ops[n].chat == chat && ops[n].id == id then Some(ops[n].entry.(chat := Some(chat)))
      else Latest(ops[..n], chat, id)
  }

  lemma RunPrefix(tables: seq<map<string, SentMessage>>, ops: seq<Op>)
    requires IsRun(tables, ops) && ops != []
    ensures IsRun(tables[..|ops|], ops[..|ops| - 1]) && Evicted(Put(tables[|ops| - 1], ops[|ops| - 1]), tables[|ops|])
  {
    var n := |ops| - 1;
    forall i | 0 <= i < n
      ensures Evicted(Put(tables[..n + 1][i], ops[..n][i]), tables[..n + 1][i + 1])
    {
      assert Evicted(Put(tables[i], ops[i]), tables[i + 1]);
    }
    assert Evicted(Put(tables[n], ops[n]), tables[n + 1]);
  }

  /** Whatever was inserted and evicted in between, a lookup inside a chat finds
      the latest record of exactly that message, or nothing; and the table never
      holds more than its limit. */
  lemma {:induction false} LookupsAreRight(tables: seq<map<string, SentMessage>>, ops: seq<Op>, chat: string, id: int)
    requires IsRun(tables, ops)
    ensures |tables[|ops|]| <= MAX_ENTRIES
    ensures var k := ScopedKey(chat, id); k in tables[|ops|] ==> Latest(ops, chat, id) == Some(tables[|ops|][k])
    ensures GetForChat(tables[|ops|], chat, id).Some? ==> GetForChat(tables[|ops|], chat, id) == Latest(ops, chat, id)
    decreases |ops|
  {
    if ops != [] {
      var n := |ops| - 1;
      RunPrefix(tables, ops);
      LookupsAreRight(tables[..n + 1], ops[..n], chat, id);
      match ops[n]
      case Unscoped(other, _) => ScopedIsNotLegacy(chat, id, other);
      case Scoped(c, i, _) =>
        if ScopedKey(chat, id) == ScopedKey(c, i) {
          ScopedKeyInjective(chat, id, c, i);
        }
    }
  }

  /** The last entry recorded for this message without its chat. */
  function LatestUnscoped(ops: seq<Op>, id: int): Option<SentMessage> {
    if ops == [] then None
    else
      var n := |ops| - 1;
      if ops[n].Unscoped? && ops[n].id == id then Some(ops[n].entry) else LatestUnscoped(ops[..n], id)
  }

  /** A lookup without a chat finds the latest record made without one, or
      nothing, and never a record made inside a chat. */
  lemma {:induction false} UnscopedLookupsAreRight(tables: seq<map<string, SentMessage>>, ops: seq<Op>, id: int)
    requires IsRun(tables, ops)
    ensures Get(tables[|ops|], id).Some? ==> Get(tables[|ops|], id) == LatestUnscoped(ops, id)
    decreases |ops|
  {
    if ops != [] {
      var n := |ops| - 1;
      RunPrefix(tables, ops);
      UnscopedLookupsAreRight(tables[..n + 1], ops[..n], id);
      match ops[n]
      case Scoped(c, i, _) => ScopedIsNotLegacy(c, i, id);
      case Unscoped(other, _) =>
        if LegacyKey(other) == LegacyKey(id) {
          IntTextInjective(other, id);
        }
    }
  }

  /** A record is found right after it was made, unless it is older than every
      one of a full table. */
  lemma RecordIsFound(before: map<string, SentMessage>, after: map<string, SentMessage>, chat: string, id: int, entry: SentMessage)
    requires Evicted(Put(before, Scoped(chat, id, entry)), after)
    ensures GetForChat(after, chat, id) == Some(entry.(chat := Some(chat))) ||
      (|after| == MAX_ENTRIES && forall k :: k in after ==> entry.at <= after[k].at)
  {
    var k := ScopedKey(chat, id);
    var put := Put(before, Scoped(chat, id, entry));
    assert |put| == |put.Keys| && |after| == |after.Keys|;
    if k !in after {
      assert after.Keys <= put.Keys - {k};
      Subset(after.Keys, put.Keys - {k});
    }
  }

  /** The same of a record made without its chat. */
  lemma UnscopedRecordIsFound(before: map<string, SentMessage>, after: map<string, SentMessage>, id: int, entry: SentMessage)
    requires Evicted(Put(before, Unscoped(id, entry)), after)
    ensures Get(after, id) == Some(entry) ||
      (|after| == MAX_ENTRIES && forall k :: k in after ==> entry.at <= after[k].at)
  {
    var k := LegacyKey(id);
    var put := Put(before, Unscoped(id, entry));
    assert |put| == |put.Keys| && |after| == |after.Keys|;
    if k !in after {
      assert after.Keys <= put.Keys - {k};
      Subset(after.Keys, put.Keys - {k});
    }
  }

  lemma {:induction false} Subset(a: set<string>, b: set<string>)
    requires a <= b
    ensures |a| <= |b|
    decreases |a|
  {
    if a != {} {
      var x :| x in a;
      Subset(a - {x}, b - {x});
    }
  }
}
