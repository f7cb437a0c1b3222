/** Printing a fact as a block and reading it back. */
module FactText {
  import opened Common
  import opened Text
  import opened LinkText

  // ---- block_text ----

  function Bracketed(topics: seq<string>): seq<string> {
    seq(|topics|, i requires 0 <= i < |topics| => "[[" + topics[i] + "]]")
  }

  function BlockText(text: string, topics: seq<string>): string {
    var linked := Link(None, Trim(text));
    if topics == [] then linked else linked + " " + Join(Bracketed(topics), " ")
  }

  // ---- split_links ----

  predicate EndsLink(s: string) {
    |s| >= 2 && s[|s| - 2] == ']' == s[|s| - 1]
  }

  /** The links that stand alone at the end, and what comes before them. A date
      stops the peeling: it got its brackets inside the statement. */
  function Peel(head: string): (string, seq<string>)
    decreases |head|
  {
    if !EndsLink(head) then (head, [])
    else match RFindPair(head, '[')
      case None => (head, [])
      case Some(k) =>
        var link := Trim(head[k + 2..|head| - 2]);
        if FindPair(link, '[').Some? || FindPair(link, ']').Some? || IsoShape(link) then (head, [])
        else
          var (rest, before) := Peel(TrimEnd(head[..k]));
          (rest, before + [link])
  }

  /** The first link of a text: where it starts and how long its text is. */
  function FirstLink(s: string): (r: Option<(nat, nat)>)
    ensures r.Some? ==> r.value.0 + r.value.1 + 4 <= |s|
  {
    match FindPair(s, '[')
    case None => None
    case Some(k) =>
      match FindPair(s[k + 2..], ']')
      case None => None
      case Some(m) => Some((k, m))
  }

  /** The other links keep their text. */
  function Inline(s: string): (string, seq<string>)
    decreases |s|
  {
    match FirstLink(s)
    case None => (s, [])
    case Some((k, m)) =>
      var link := Trim(s[k + 2..k + 2 + m]);
      var (rest, links) := Inline(s[k + m + 4..]);
      (s[..k] + link + rest, [link] + links)
  }

  function PushUnique(topics: seq<string>, link: string): seq<string> {
    if link != "" && link !in topics then topics + [link] else topics
  }

  function PushAll(topics: seq<string>, links: seq<string>): seq<string>
    decreases |links|
  {
    if links == [] then topics else PushAll(PushUnique(topics, links[0]), links[1..])
  }

  function SplitLinks(text: string): (string, seq<string>) {
    var (head, trailing) := Peel(TrimEnd(text));
    var (statement, inline) := Inline(head);
    (Collapse(statement), PushAll(PushAll([], inline), trailing))
  }

  /** The link that peeling would take off next, and where it starts. */
  function LastLink(head: string): (r: Option<(nat, string)>)
    ensures r.Some? ==> r.value.0 < |head|
  {
    if !EndsLink(head) || RFindPair(head, '[').None? then None
    else
      var k := RFindPair(head, '[').value;
      var link := Trim(head[k + 2..|head| - 2]);
      if FindPair(link, '[').Some? || FindPair(link, ']').Some? || IsoShape(link) then None else Some((k, link))
  }

  lemma PeelIs(head: string)
    ensures LastLink(head).None? ==> Peel(head) == (head, [])
    ensures LastLink(head).Some? ==>
      var rest := TrimEnd(head[..LastLink(head).value.0]);
      Peel(head) == (Peel(rest).0, Peel(rest).1 + [LastLink(head).value.1])
  {
  }

  ghost predicate PeeledTo(start: string, head: string, trailing: seq<string>) {
    Peel(start) == (Peel(head).0, Peel(head).1 + trailing)
  }

  lemma PeelStarts(start: string)
    ensures PeeledTo(start, start, [])
  {
    EmptyRight(Peel(start).1);
  }

  lemma PeelGoesOn(start: string, head: string, trailing: seq<string>, k: nat, link: string)
    requires PeeledTo(start, head, trailing) && LastLink(head) == Some((k, link))
    ensures PeeledTo(start, TrimEnd(head[..k]), [link] + trailing)
  {
    PeelIs(head);
    Assoc(Peel(TrimEnd(head[..k])).1, [link], trailing);
  }

  lemma PeelEnds(start: string, head: string, trailing: seq<string>)
    requires PeeledTo(start, head, trailing) && LastLink(head) == None
    ensures (head, trailing) == Peel(start)
  {
    PeelIs(head);
    EmptyLeft(trailing);
  }

  method PeelLinks(text: string) returns (head: string, trailing: seq<string>)
    ensures (head, trailing) == Peel(TrimEnd(text))
  {
    head := TrimEnd(text);
    trailing := [];
    PeelStarts(head);
    while EndsLink(head)
      invariant PeeledTo(TrimEnd(text), head, trailing)
      decreases |head|
    {
      var start := RFindPair(head, '[');
      if start.None? {
        PeelEnds(TrimEnd(text), head, trailing);
        return;
      }
      var link := Trim(head[start.value + 2..|head| - 2]);
      if FindPair(link, '[').Some? || FindPair(link, ']').Some? || IsoShape(link) {
        PeelEnds(TrimEnd(text), head, trailing);
        return;
      }
      PeelGoesOn(TrimEnd(text), head, trailing, start.value, link);
      trailing := [link] + trailing;
      head := TrimEnd(head[..start.value]);
    }
    PeelEnds(TrimEnd(text), head, trailing);
  }

  /** `s` is cut into these pieces around its first link. */
  ghost predicate Pieces(s: string, k: nat, m: nat, before: string, link: string, after: string) {
    && FirstLink(s) == Some((k, m))
    && before == s[..k] && link == s[k + 2..k + 2 + m] && after == s[k + m + 4..]
  }

  lemma InlineIs(s: string, k: nat, m: nat, before: string, link: string, after: string)
    requires Pieces(s, k, m, before, link, after)
    ensures Inline(s) == (before + Trim(link) + Inline(after).0, [Trim(link)] + Inline(after).1)
  {
  }

  lemma Regroup(s: string, a: string, link: string, rest: string)
    ensures s + (a + link + rest) == s + a + link + rest
  {
    Assoc(s, a, link);
    Assoc(s, a + link, rest);
  }

  lemma PushCons(topics: seq<string>, link: string, links: seq<string>)
    ensures PushAll(topics, [link] + links) == PushAll(PushUnique(topics, link), links)
  {
    assert ([link] + links)[1..] == links;
  }

  method ReadInline(head: string) returns (statement: string, topics: seq<string>)
    ensures statement == Inline(head).0 && topics == PushAll([], Inline(head).1)
  {
    topics := [];
    statement := "";
    var rest := head;
    var link := FirstLink(rest);
    assert "" + Inline(rest).0 == Inline(rest).0;
    while link.Some?
      invariant link == FirstLink(rest)
      invariant Inline(head).0 == statement + Inline(rest).0
      invariant PushAll([], Inline(head).1) == PushAll(topics, Inline(rest).1)
      decreases |rest|
    {
      var (k, m) := link.value;
      var before, name, after := rest[..k], rest[k + 2..k + 2 + m], rest[k + m + 4..];
      InlineIs(rest, k, m, before, name, after);
      Regroup(statement, before, Trim(name), Inline(after).0);
      PushCons(topics, Trim(name), Inline(after).1);
      statement := statement + before + Trim(name);
      topics := PushUnique(topics, Trim(name));
      rest := after;
      link := FirstLink(rest);
    }
    statement := statement + rest;
  }

  method ReadBlock(text: string) returns (statement: string, topics: seq<string>)
    ensures (statement, topics) == SplitLinks(text)
  {
    var head, trailing := PeelLinks(text);
    statement, topics := ReadInline(head);
    var i := 0;
    while i < |trailing|
      invariant 0 <= i <= |trailing|
      invariant PushAll(topics, trailing[i..]) == PushAll(PushAll([], Inline(head).1), trailing)
    {
      assert trailing[i..][1..] == trailing[i + 1..];
      topics := PushUnique(topics, trailing[i]);
      i := i + 1;
    }
    statement := Collapse(statement);
  }

  // ---- what a printed block looks like ----

  predicate Bare(s: string) {
    forall i :: 0 <= i < |s| ==> s[i] != '[' && s[i] != ']'
  }

  /** Topics as the store writes them. */
  predicate Topic(s: string) {
    s != "" && Trimmed(s) && Bare(s)
  }

  predicate Distinct(topics: seq<string>) {
    forall i, j :: 0 <= i < j < |topics| ==> topics[i] != topics[j]
  }

  predicate Topics(topics: seq<string>) {
    Distinct(topics) && forall i :: 0 <= i < |topics| ==> Topic(topics[i])
  }

  predicate HasDate(topics: seq<string>) {
    exists i :: 0 <= i < |topics| && IsoShape(topics[i])
  }

  /** The dates that linking finds in a text without brackets. */
  function Dates(prev: Option<char>, s: string): seq<string>
    decreases |s|
  {
    if s == "" then []
    else if DateAt(prev, s) then [s[..10]] + Dates(Some(s[9]), s[10..])
    else Dates(Some(s[0]), s[1..])
  }

  function Refs(topics: seq<string>): string {
    if topics == [] then "" else " [[" + topics[0] + "]]" + Refs(topics[1..])
  }

  lemma {:induction false} RefsAppend(a: seq<string>, b: seq<string>)
    ensures Refs(a + b) == Refs(a) + Refs(b)
    decreases |a|
  {
    if a == [] {
      assert a + b == b;
    } else {
      RefsAppend(a[1..], b);
      assert (a + b)[1..] == a[1..] + b;
    }
  }

  lemma {:induction false} RefsJoin(topics: seq<string>)
    requires topics != []
    ensures " " + Join(Bracketed(topics), " ") == Refs(topics)
    decreases |topics|
  {
    var parts := Bracketed(topics);
    assert parts[1..] == Bracketed(topics[1..]);
    if |topics| > 1 {
      RefsJoin(topics[1..]);
      assert Join(parts, " ") == parts[0] + " " + Join(parts[1..], " ");
    } else {
      assert Refs(topics[1..]) == "";
    }
  }

  lemma BlockIs(text: string, topics: seq<string>)
    ensures BlockText(text, topics) == Link(None, Trim(text)) + Refs(topics)
  {
    if topics != [] {
      RefsJoin(topics);
    }
  }

  // ---- reading the statement back ----

  lemma FirstLinkSkip(c: char, s: string, t: string)
    requires c != '[' && t == [c] + s
    ensures FirstLink(t) == match FirstLink(s) case None => None case Some((k, m)) => Some((k + 1, m))
  {
    assert t[1..] == s;
    match FindPair(s, '[')
    case None =>
    case Some(k) =>
      assert FindPair(t, '[') == Some(k + 1);
      assert t[k + 3..] == s[k + 2..];
  }

  lemma SkipPieces(c: char, s: string, t: string, k: nat, m: nat, before: string, link: string, after: string)
    requires t == [c] + s && FirstLink(t) == Some((k + 1, m)) && Pieces(s, k, m, before, link, after)
    ensures Pieces(t, k + 1, m, [c] + before, link, after)
  {
  }

  lemma SkipAlgebra(c: char, a: string, link: string, rest: string)
    ensures [c] + a + link + rest == [c] + (a + link + rest)
  {
    Assoc([c], a, link);
    Assoc([c], a + link, rest);
  }

  lemma InlineSkipLink(c: char, s: string, t: string, k: nat, m: nat, before: string, link: string, after: string)
    requires Pieces(s, k, m, before, link, after) && Pieces(t, k + 1, m, [c] + before, link, after)
    ensures Inline(t) == ([c] + Inline(s).0, Inline(s).1)
  {
    InlineIs(s, k, m, before, link, after);
    InlineIs(t, k + 1, m, [c] + before, link, after);
    SkipAlgebra(c, before, Trim(link), Inline(after).0);
  }

  lemma InlineSkip(c: char, s: string, t: string)
    requires c != '[' && t == [c] + s
    ensures Inline(t) == ([c] + Inline(s).0, Inline(s).1)
  {
    FirstLinkSkip(c, s, t);
    if FirstLink(s).Some? {
      var (k, m) := FirstLink(s).value;
      var before, link, after := s[..k], s[k + 2..k + 2 + m], s[k + m + 4..];
      SkipPieces(c, s, t, k, m, before, link, after);
      InlineSkipLink(c, s, t, k, m, before, link, after);
    }
  }

  lemma FirstLinkHere(link: string, s: string, t: string)
    requires Bare(link) && t == "[[" + link + "]]" + s
    ensures FirstLink(t) == Some((0, |link|))
  {
    FindPairIs(t, '[', 0);
    forall i: nat | i < |link|
      ensures !PairAt(t[2..], ']', i)
    {
      assert t[2..][i] == link[i];
    }
    FindPairIs(t[2..], ']', |link|);
  }

  lemma InlineLink(link: string, s: string, t: string)
    requires Bare(link) && Trimmed(link) && t == "[[" + link + "]]" + s
    ensures Inline(t) == (link + Inline(s).0, [link] + Inline(s).1)
  {
    FirstLinkHere(link, s, t);
    assert t[0 + 2..0 + 2 + |link|] == link;
    assert t[0 + |link| + 4..] == s;
    TrimsToItself(link);
    assert t[..0] + link == link;
  }

  lemma DateIsTopic(date: string)
    requires IsoShape(date)
    ensures Topic(date)
  {
    forall i | 0 <= i < 10
      ensures date[i] != '[' && date[i] != ']'
    {
      assert date[i] == '-' || IsDigit(date[i]);
    }
    assert IsDigit(date[0]) && IsDigit(date[9]);
  }

  lemma InlineLinkedDate(date: string, s: string, tail: string, rest: string, dates: seq<string>, t: string)
    requires IsoShape(date) && Inline(tail + rest) == (s + Inline(rest).0, dates + Inline(rest).1)
    requires t == "[[" + date + "]]" + tail
    ensures Inline(t + rest) == (date + s + Inline(rest).0, [date] + dates + Inline(rest).1)
  {
    DateIsTopic(date);
    Assoc("[[" + date + "]]", tail, rest);
    InlineLink(date, tail + rest, t + rest);
    Assoc(date, s, Inline(rest).0);
    Assoc([date], dates, Inline(rest).1);
  }

  lemma InlineLinkedChar(c: char, s: string, tail: string, rest: string, t: string)
    requires c != '[' && Inline(tail + rest).0 == s + Inline(rest).0 && t == [c] + tail
    ensures Inline(t + rest) == ([c] + s + Inline(rest).0, Inline(tail + rest).1)
  {
    Assoc([c], tail, rest);
    InlineSkip(c, tail + rest, t + rest);
    Assoc([c], s, Inline(rest).0);
  }

  ghost predicate Unlinks(t: string, s: string, dates: seq<string>, rest: string) {
    Inline(t + rest) == (s + Inline(rest).0, dates + Inline(rest).1)
  }

  lemma UnlinksEmpty(rest: string)
    ensures Unlinks("", "", [], rest)
  {
    EmptyLeft(rest);
    EmptyLeft(Inline(rest).0);
    EmptyLeft(Inline(rest).1);
  }

  lemma UnlinksDate(date: string, tail: string, s: string, dates: seq<string>, rest: string)
    requires IsoShape(date) && Unlinks(tail, s, dates, rest)
    ensures Unlinks("[[" + date + "]]" + tail, date + s, [date] + dates, rest)
  {
    InlineLinkedDate(date, s, tail, rest, dates, "[[" + date + "]]" + tail);
  }

  lemma UnlinksChar(c: char, tail: string, s: string, dates: seq<string>, rest: string)
    requires c != '[' && Unlinks(tail, s, dates, rest)
    ensures Unlinks([c] + tail, [c] + s, dates, rest)
  {
    InlineLinkedChar(c, s, tail, rest, [c] + tail);
  }

  /** How linking and the dates it finds unfold on a text without brackets. */
  lemma BareUnfolds(prev: Option<char>, s: string)
    requires Bare(s) && s != ""
    ensures DateAt(prev, s) ==>
      && Link(prev, s) == "[[" + s[..10] + "]]" + Link(Some(s[9]), s[10..])
      && Dates(prev, s) == [s[..10]] + Dates(Some(s[9]), s[10..])
      && s[..10] + s[10..] == s
    ensures !DateAt(prev, s) ==>
      && Link(prev, s) == [s[0]] + Link(Some(s[0]), s[1..])
      && Dates(prev, s) == Dates(Some(s[0]), s[1..])
      && [s[0]] + s[1..] == s
  {
  }

  lemma {:induction false} TextUnlinks(prev: Option<char>, s: string, rest: string)
    requires Bare(s)
    ensures Unlinks(Link(prev, s), s, Dates(prev, s), rest)
    decreases |s|
  {
    if s == "" {
      UnlinksEmpty(rest);
    } else {
      BareUnfolds(prev, s);
      if DateAt(prev, s) {
        TextUnlinks(Some(s[9]), s[10..], rest);
        UnlinksDate(s[..10], Link(Some(s[9]), s[10..]), s[10..], Dates(Some(s[9]), s[10..]), rest);
      } else {
        TextUnlinks(Some(s[0]), s[1..], rest);
        UnlinksChar(s[0], Link(Some(s[0]), s[1..]), s[1..], Dates(Some(s[0]), s[1..]), rest);
      }
    }
  }

  /** Unlinking undoes linking. */
  lemma InlineLinked(prev: Option<char>, s: string, rest: string)
    requires Bare(s)
    ensures Inline(Link(prev, s) + rest) == (s + Inline(rest).0, Dates(prev, s) + Inline(rest).1)
  {
    TextUnlinks(prev, s, rest);
  }

  /** The topics as words after the statement. */
  function Trailing(topics: seq<string>): string {
    if topics == [] then "" else " " + topics[0] + Trailing(topics[1..])
  }

  lemma {:induction false} InlineRefs(topics: seq<string>)
    requires forall i :: 0 <= i < |topics| ==> Topic(topics[i])
    ensures Inline(Refs(topics)) == (Trailing(topics), topics)
    decreases |topics|
  {
    if topics == [] {
      InlineEmpty();
    } else {
      InlineRefs(topics[1..]);
      InlineRef(topics[0], Refs(topics[1..]));
      RefsCons(topics);
    }
  }

  lemma InlineEmpty()
    ensures Inline("") == ("", [])
  {
    assert FindPair("", '[') == None;
  }

  lemma RefsCons(topics: seq<string>)
    requires topics != []
    ensures Refs(topics) == " [[" + topics[0] + "]]" + Refs(topics[1..])
    ensures Trailing(topics) == " " + topics[0] + Trailing(topics[1..])
    ensures [topics[0]] + topics[1..] == topics
  {
  }

  lemma InlineRef(topic: string, rest: string)
    requires Topic(topic)
    ensures Inline(" [[" + topic + "]]" + rest) == (" " + topic + Inline(rest).0, [topic] + Inline(rest).1)
  {
    var t := "[[" + topic + "]]" + rest;
    InlineLink(topic, rest, t);
    SpaceBefore(topic, rest, t);
    InlineSkip(' ', t, " [[" + topic + "]]" + rest);
    Assoc(" ", topic, Inline(rest).0);
  }

  lemma SpaceBefore(topic: string, rest: string, t: string)
    requires t == "[[" + topic + "]]" + rest
    ensures [' '] + t == " [[" + topic + "]]" + rest
  {
    assert " [[" == [' '] + "[[";
    Assoc([' '], "[[", topic);
    Assoc([' '], "[[" + topic, "]]");
    Assoc([' '], "[[" + topic + "]]", rest);
  }

  // ---- peeling ----

  /** How a linked text ends: as the text did, or with its last date. */
  ghost predicate EndsAs(t: string, c: char) {
    && t != ""
    && (t[|t| - 1] == c ||
        (|t| >= 14 && IsoShape(t[|t| - 12..|t| - 2]) && t[|t| - 14] == '[' == t[|t| - 13] && EndsLink(t)))
  }

  lemma EndsAfter(a: string, b: string, c: char)
    requires EndsAs(b, c)
    ensures EndsAs(a + b, c)
  {
    var t := a + b;
    if |b| >= 14 {
      assert t[|t| - 12..|t| - 2] == b[|b| - 12..|b| - 2];
    }
  }

  lemma EndsWithDate(date: string, c: char)
    requires IsoShape(date)
    ensures EndsAs("[[" + date + "]]" + "", c)
  {
    var t := "[[" + date + "]]" + "";
    assert t[|t| - 12..|t| - 2] == date;
  }

  lemma {:induction false} LinkTail(prev: Option<char>, s: string)
    requires Bare(s) && s != ""
    ensures EndsAs(Link(prev, s), s[|s| - 1])
    decreases |s|
  {
    BareUnfolds(prev, s);
    if DateAt(prev, s) {
      if s[10..] == "" {
        EndsWithDate(s[..10], s[|s| - 1]);
      } else {
        LinkTail(Some(s[9]), s[10..]);
        EndsAfter("[[" + s[..10] + "]]", Link(Some(s[9]), s[10..]), s[|s| - 1]);
      }
    } else if s[1..] == "" {
      EmptyRight([s[0]]);
    } else {
      LinkTail(Some(s[0]), s[1..]);
      EndsAfter([s[0]], Link(Some(s[0]), s[1..]), s[|s| - 1]);
    }
  }

  /** Nothing is peeled off a linked statement. */
  lemma DateStopsPeeling(t: string, c: char)
    requires EndsAs(t, c) && t[|t| - 1] != c
    ensures Peel(t) == (t, [])
  {
    var date := t[|t| - 12..|t| - 2];
    DateIsTopic(date);
    forall k: nat | k > |t| - 14
      ensures !PairAt(t, '[', k)
    {
      if |t| - 13 <= k < |t| - 3 {
        assert t[k + 1] == date[k + 1 - (|t| - 12)];
      }
    }
    RFindPairIs(t, '[', |t| - 14);
    TrimsToItself(date);
  }

  lemma PeelLinked(s: string)
    requires Bare(s) && Trimmed(s)
    ensures var t := Link(None, s); Peel(t) == (t, []) && TrimEnd(t) == t
  {
    if s != "" {
      LinkTail(None, s);
      if Link(None, s)[|Link(None, s)| - 1] != s[|s| - 1] {
        DateStopsPeeling(Link(None, s), s[|s| - 1]);
      }
    }
  }

  lemma AppendedLink(head: string, topic: string, s: string)
    requires Bare(topic) && s == head + " [[" + topic + "]]"
    ensures RFindPair(s, '[') == Some(|head| + 1)
    ensures s[|head| + 3..|s| - 2] == topic && s[..|head| + 1] == head + " "
  {
    var k := |head| + 1;
    assert s[k + 2..|s| - 2] == topic;
    forall i: nat | i > k
      ensures !PairAt(s, '[', i)
    {
      if i + 1 < |s| - 2 {
        assert s[i + 1] == topic[i - 1 - k];
      }
    }
    RFindPairIs(s, '[', k);
  }

  /** One appended topic comes off, unless it reads as a date. */
  lemma PeelOne(head: string, topic: string, s: string)
    requires Topic(topic) && TrimEnd(head) == head && s == head + " [[" + topic + "]]"
    ensures TrimEnd(s) == s
    ensures Peel(s) == if IsoShape(topic) then (s, []) else (Peel(head).0, Peel(head).1 + [topic])
  {
    AppendedLink(head, topic, s);
    TrimsToItself(topic);
    assert (head + " ")[..|head|] == head;
    assert TrimEnd(head + " ") == head;
    NoPair(topic, '[');
    NoPair(topic, ']');
  }

  /** What is left of the appended topics: all of them up to the last date. */
  ghost predicate PeelsTo(head: string, topics: seq<string>, n: nat) {
    && n <= |topics|
    && (n > 0 ==> IsoShape(topics[n - 1]))
    && Peel(head + Refs(topics)) == (head + Refs(topics[..n]), topics[n..])
    && TrimEnd(head + Refs(topics)) == head + Refs(topics)
  }

  lemma RefsSnoc(topics: seq<string>)
    requires topics != []
    ensures var m := |topics| - 1; Refs(topics) == Refs(topics[..m]) + (" [[" + topics[m] + "]]")
  {
    var m := |topics| - 1;
    RefsAppend(topics[..m], [topics[m]]);
    assert topics[..m] + [topics[m]] == topics;
    RefsOne(topics[m]);
  }

  lemma RefsOne(topic: string)
    ensures Refs([topic]) == " [[" + topic + "]]"
  {
    var r := " [[" + topic + "]]";
    assert Refs([topic]) == r + Refs([]);
    assert r + "" == r;
  }

  lemma RefsLast(head: string, topics: seq<string>)
    requires topics != []
    ensures var m := |topics| - 1; head + Refs(topics) == head + Refs(topics[..m]) + " [[" + topics[m] + "]]"
  {
    var m := |topics| - 1;
    var h := head + Refs(topics[..m]);
    RefsSnoc(topics);
    Assoc(head, Refs(topics[..m]), " [[" + topics[m] + "]]");
    Assoc(h, " [[" + topics[m], "]]");
    Assoc(h, " [[", topics[m]);
  }

  lemma {:induction false} PeelTopics(head: string, topics: seq<string>) returns (n: nat)
    requires TrimEnd(head) == head && Peel(head) == (head, [])
    requires forall i :: 0 <= i < |topics| ==> Topic(topics[i])
    ensures PeelsTo(head, topics, n) && (n > 0 <==> HasDate(topics))
    decreases |topics|
  {
    if topics == [] {
      n := 0;
      assert head + Refs(topics) == head && topics[..0] == topics == topics[0..];
    } else {
      var m := |topics| - 1;
      n := PeelTopics(head, topics[..m]);
      RefsLast(head, topics);
      PeelOne(head + Refs(topics[..m]), topics[m], head + Refs(topics));
      if IsoShape(topics[m]) {
        n := m + 1;
        assert topics[..n] == topics && topics[n..] == [];
      } else {
        SliceSnoc(topics, n);
        LastPlain(topics);
      }
    }
  }

  lemma SliceSnoc(topics: seq<string>, n: nat)
    requires n < |topics|
    ensures topics[..|topics| - 1][..n] == topics[..n]
    ensures topics[..|topics| - 1][n..] + [topics[|topics| - 1]] == topics[n..]
  {
  }

  lemma LastPlain(topics: seq<string>)
    requires topics != [] && !IsoShape(topics[|topics| - 1])
    ensures HasDate(topics) <==> HasDate(topics[..|topics| - 1])
  {
    if HasDate(topics) {
      var i :| 0 <= i < |topics| && IsoShape(topics[i]);
      assert IsoShape(topics[..|topics| - 1][i]);
    }
  }

  // ---- the round trip ----

  lemma {:induction false} PushNew(topics: seq<string>, links: seq<string>)
    requires forall i :: 0 <= i < |links| ==> links[i] != "" && links[i] !in topics
    requires Distinct(links)
    ensures PushAll(topics, links) == topics + links
    decreases |links|
  {
    if links == [] {
      assert topics + links == topics;
    } else {
      PushNew(topics + [links[0]], links[1..]);
      assert topics + [links[0]] + links[1..] == topics + links;
    }
  }

  /** Links are kept once each, in the order of their first occurrence. */
  lemma {:induction false} PushAllKeeps(topics: seq<string>, links: seq<string>)
    requires Distinct(topics)
    ensures var r := PushAll(topics, links);
      && topics <= r && Distinct(r)
      && (forall x :: x in r <==> x in topics || (x in links && x != ""))
    decreases |links|
  {
    if links != [] {
      PushAllKeeps(PushUnique(topics, links[0]), links[1..]);
    }
  }

  lemma {:induction false} DatesAreDates(prev: Option<char>, s: string)
    ensures forall i :: 0 <= i < |Dates(prev, s)| ==> IsoShape(Dates(prev, s)[i])
    decreases |s|
  {
    if s != "" {
      if DateAt(prev, s) {
        DatesAreDates(Some(s[9]), s[10..]);
      } else {
        DatesAreDates(Some(s[0]), s[1..]);
      }
    }
  }

  lemma TrimBare(text: string)
    requires Bare(text)
    ensures Bare(Trim(text))
  {
    TrimStartBare(text);
  }

  lemma {:induction false} TrimStartBare(s: string)
    requires Bare(s)
    ensures Bare(TrimStart(s))
    decreases |s|
  {
    if s != "" && IsWhite(s[0]) {
      TrimStartBare(s[1..]);
    }
  }

  /** The linked dates of a statement, each once. */
  function LinkedDates(text: string): seq<string> {
    PushAll([], Dates(None, Trim(text)))
  }

  /** Reading a block: the topics after the last dated one come off. */
  lemma ReadBack(text: string, topics: seq<string>) returns (n: nat)
    requires Bare(text) && Topics(topics)
    ensures n <= |topics| && (n > 0 <==> HasDate(topics)) && (n > 0 ==> IsoShape(topics[n - 1]))
    ensures SplitLinks(BlockText(text, topics)) ==
            (Collapse(Trim(text) + Trailing(topics[..n])),
             PushAll(PushAll([], Dates(None, Trim(text)) + topics[..n]), topics[n..]))
  {
    var s := Trim(text);
    TrimBare(text);
    TrimIsTrimmed(text);
    BlockIs(text, topics);
    PeelLinked(s);
    n := PeelTopics(Link(None, s), topics);
    InlineLinked(None, s, Refs(topics[..n]));
    InlineRefs(topics[..n]);
  }

  lemma AllComeBack(text: string, topics: seq<string>)
    requires Topics(topics) && !HasDate(topics)
    ensures PushAll(PushAll([], Dates(None, Trim(text))), topics) == LinkedDates(text) + topics
  {
    DatesAreDates(None, Trim(text));
    PushAllKeeps([], Dates(None, Trim(text)));
    PushNew(LinkedDates(text), topics);
  }

  lemma StatementGrows(text: string, topics: seq<string>)
    requires topics != [] && Topic(topics[0])
    ensures Collapse(Trim(text) + Trailing(topics)) != Collapse(text)
  {
    var rest := topics[0] + Trailing(topics[1..]);
    assert Trim(text) + Trailing(topics) == Trim(text) + " " + rest;
    assert rest[0] == topics[0][0];
    CollapseGrows(Trim(text), rest);
    CollapseTrims(text);
  }

  /** Printing and reading back a statement without brackets: the topics come
      back after its dates, and the statement comes back with single spaces,
      exactly when no topic is itself a date. */
  lemma RoundTrip(text: string, topics: seq<string>)
    requires Bare(text) && Topics(topics)
    ensures !HasDate(topics) ==> SplitLinks(BlockText(text, topics)) == (Collapse(text), LinkedDates(text) + topics)
    ensures SplitLinks(BlockText(text, topics)).0 == Collapse(text) <==> !HasDate(topics)
  {
    var n := ReadBack(text, topics);
    if n > 0 {
      StatementGrows(text, topics[..n]);
    } else {
      assert Trim(text) + Trailing(topics[..0]) == Trim(text);
      assert Dates(None, Trim(text)) + topics[..0] == Dates(None, Trim(text)) && topics[0..] == topics;
      CollapseTrims(text);
      AllComeBack(text, topics);
    }
  }
}
