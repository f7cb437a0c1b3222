/** Facts that were edited by hand: links inside the statement. */
module HandEdits {
  import opened Common
  import opened Text
  import opened LinkText
  import opened FactText

  /** Words of a statement and a link after them. */
  datatype Part = Part(words: string, link: string)

  ghost predicate Fit(parts: seq<Part>) {
    forall i :: 0 <= i < |parts| ==> Bare(parts[i].words) && Bare(parts[i].link) && Trimmed(parts[i].link)
  }

  /** As it stands in the block, before `rest`. */
  function Linked(parts: seq<Part>, rest: string): string {
    if parts == [] then rest else parts[0].words + ("[[" + parts[0].link + "]]" + Linked(parts[1..], rest))
  }

  /** As it is read. */
  function Read(parts: seq<Part>, rest: string): string {
    if parts == [] then rest else parts[0].words + (parts[0].link + Read(parts[1..], rest))
  }

  function Links(parts: seq<Part>): seq<string> {
    if parts == [] then [] else [parts[0].link] + Links(parts[1..])
  }

  lemma {:induction false} InlineWords(words: string, t: string)
    requires Bare(words)
    ensures Inline(words + t) == (words + Inline(t).0, Inline(t).1)
    decreases |words|
  {
    hide Inline;
    if words == "" {
      assert "" + t == t && "" + Inline(t).0 == Inline(t).0;
    } else {
      InlineWords(words[1..], t);
      assert words + t == [words[0]] + (words[1..] + t);
      InlineSkip(words[0], words[1..] + t, words + t);
      assert [words[0]] + words[1..] == words;
      Assoc([words[0]], words[1..], Inline(t).0);
    }
  }

  lemma {:induction false} InlineParts(parts: seq<Part>, rest: string)
    requires Fit(parts)
    ensures Inline(Linked(parts, rest)) == (Read(parts, Inline(rest).0), Links(parts) + Inline(rest).1)
    decreases |parts|
  {
    if parts == [] {
      assert [] + Inline(rest).1 == Inline(rest).1;
    } else {
      var tail := Linked(parts[1..], rest);
      InlineParts(parts[1..], rest);
      InlineLink(parts[0].link, tail, "[[" + parts[0].link + "]]" + tail);
      InlineWords(parts[0].words, "[[" + parts[0].link + "]]" + tail);
      Assoc([parts[0].link], Links(parts[1..]), Inline(rest).1);
    }
  }

  lemma InlineBareText(s: string)
    requires Bare(s)
    ensures Inline(s) == (s, [])
  {
    InlineEmpty();
    InlineWords(s, "");
    assert s + "" == s;
  }

  /** The end of the statement: words, and after them the topics. */
  lemma LinkedEnds(parts: seq<Part>, last: string)
    requires Fit(parts) && last != ""
    ensures Linked(parts, last) != "" && Linked(parts, last)[|Linked(parts, last)| - 1] == last[|last| - 1]
  {
    if parts != [] {
      LinkedEnds(parts[1..], last);
    }
  }

  lemma PeelsNothing(head: string)
    requires head != "" && head[|head| - 1] != ']' && !IsWhite(head[|head| - 1])
    ensures Peel(head) == (head, []) && TrimEnd(head) == head
  {
  }

  /** A link inside the statement is part of it, whatever it links to: its words
      stay where they are, and it is a topic. Only the links at the end leave the
      statement. */
  lemma LinksInsideStay(parts: seq<Part>, last: string, topics: seq<string>)
    requires Fit(parts) && Bare(last) && last != "" && !IsWhite(last[|last| - 1])
    requires Topics(topics) && !HasDate(topics)
    ensures SplitLinks(Linked(parts, last) + Refs(topics)) ==
            (Collapse(Read(parts, last)), PushAll(PushAll([], Links(parts)), topics))
  {
    var head := Linked(parts, last);
    LinkedEnds(parts, last);
    PeelsNothing(head);
    var n := PeelTopics(head, topics);
    assert topics[..0] == [] && topics[0..] == topics;
    assert head + "" == head;
    InlineParts(parts, last);
    InlineBareText(last);
    assert Links(parts) + [] == Links(parts);
  }
}
