/** The text of a fact: linking its dates, appending its topics, reading both back. */
module LinkText {
  // Every pattern the source matches is ASCII, so its byte indices are character
  // indices here.

  import opened Common
  import opened Text

  predicate IsoShape(s: string) {
    |s| == 10 && s[4] == '-' == s[7] && forall i :: 0 <= i < 10 && i != 4 && i != 7 ==> IsDigit(s[i])
  }

  predicate BlocksBefore(c: char) {
    IsDigit(c) || c == '-' || c == '.' || c == '['
  }

  /** A dot after a date only matters when a digit follows it. */
  predicate EndsDate(rest: string) {
    rest == "" ||
    (!IsDigit(rest[0]) && rest[0] != '-' && rest[0] != ']' && (rest[0] == '.' ==> |rest| == 1 || !IsDigit(rest[1])))
  }

  /** `s` begins with a date that stands on its own after `prev`. */
  predicate DateAt(prev: Option<char>, s: string) {
    |s| >= 10 && IsoShape(s[..10]) && (prev.Some? ==> !BlocksBefore(prev.value)) && EndsDate(s[10..])
  }

  /** The length of the link that `s` begins with. */
  function LinkLength(s: string): (r: Option<nat>)
    ensures r.Some? ==> 4 <= r.value <= |s| && s[0] == '[' && s[r.value - 1] == ']'
  {
    if |s| >= 2 && s[0] == '[' == s[1] then
      match FindPair(s[2..], ']')
      case None => None
      case Some(k) => Some(k + 4)
    else None
  }

  /** `link_dates` on the rest of a text, after the character `prev`. */
  function Link(prev: Option<char>, s: string): string
    decreases |s|
  {
    if s == "" then ""
    else match LinkLength(s)
      case Some(n) => s[..n] + Link(Some(s[n - 1]), s[n..])
      case None =>
        if DateAt(prev, s) then "[[" + s[..10] + "]]" + Link(Some(s[9]), s[10..])
        else [s[0]] + Link(Some(s[0]), s[1..])
  }

  function Before(text: string, i: nat): Option<char>
    requires i <= |text|
  {
    if i == 0 then None else Some(text[i - 1])
  }

  /** How much of the text one turn of the loop takes, and what it writes for it. */
  function Turn(prev: Option<char>, s: string): (nat, string)
    requires s != ""
  {
    match LinkLength(s)
    case Some(n) => (n, s[..n])
    case None => if DateAt(prev, s) then (10, "[[" + s[..10] + "]]") else (1, [s[0]])
  }

  lemma TurnIs(prev: Option<char>, s: string, n: nat, piece: string)
    requires s != "" && Turn(prev, s) == (n, piece)
    ensures 0 < n <= |s| && Link(prev, s) == piece + Link(Some(s[n - 1]), s[n..])
  {
  }

  /** `out` is what the loop has written for the first `i` characters. */
  ghost predicate Written(text: string, i: nat, out: string) {
    i <= |text| && Link(None, text) == out + Link(Before(text, i), text[i..])
  }

  ghost function WrittenTo(text: string): (nat, string) -> bool {
    (i: nat, out: string) => Written(text, i, out)
  }

  lemma NextSlice(text: string, i: nat, n: nat)
    requires 0 < n && i + n <= |text|
    ensures text[i..][n..] == text[i + n..] && text[i..][n - 1] == text[i + n - 1]
  {
  }

  lemma WriteTurn(text: string, i: nat, out: string, n: nat, piece: string)
    requires WrittenTo(text)(i, out) && i < |text| && Turn(Before(text, i), text[i..]) == (n, piece)
    ensures 0 < n && i + n <= |text| && WrittenTo(text)(i + n, out + piece)
  {
    hide Link, Turn;
    TurnIs(Before(text, i), text[i..], n, piece);
    NextSlice(text, i, n);
    Assoc(out, piece, Link(Before(text, i + n), text[i + n..]));
  }

  lemma WrittenEnds(text: string, out: string)
    requires WrittenTo(text)(|text|, out)
    ensures out == Link(None, text)
  {
    assert text[|text|..] == "";
    assert out + "" == out;
  }

  lemma WrittenStarts(text: string)
    ensures WrittenTo(text)(0, "")
  {
    assert text[0..] == text;
    assert "" + Link(None, text) == Link(None, text);
  }

  method TakeTurn(prev: Option<char>, rest: string) returns (n: nat, piece: string)
    requires rest != ""
    ensures Turn(prev, rest) == (n, piece)
  {
    var length := LinkLength(rest);
    if length.Some? {
      return length.value, rest[..length.value];
    }
    if DateAt(prev, rest) {
      return 10, "[[" + rest[..10] + "]]";
    }
    return 1, [rest[0]];
  }

  method LinkDates(text: string) returns (out: string)
    ensures out == Link(None, text)
  {
    hide Link, Turn, WrittenTo, Written;
    out := "";
    var i := 0;
    WrittenStarts(text);
    while i < |text|
      invariant 0 <= i <= |text|
      invariant WrittenTo(text)(i, out)
    {
      var n, piece := TakeTurn(Before(text, i), text[i..]);
      WriteTurn(text, i, out, n, piece);
      out := out + piece;
      i := i + n;
    }
    WrittenEnds(text, out);
  }

  // ---- linking twice is linking once ----

  lemma LinkHead(prev: Option<char>, s: string)
    ensures Link(prev, s) == "" <==> s == ""
    ensures s != "" ==> Link(prev, s)[0] == if DateAt(prev, s) then '[' else s[0]
  {
  }

  lemma PlainHead(prev: Option<char>, s: string)
    requires Link(prev, s) != "" && Link(prev, s)[0] != '['
    ensures s != "" && Link(prev, s) == [s[0]] + Link(Some(s[0]), s[1..])
  {
  }

  /** As far as the result has no opening bracket, it is the text itself. */
  ghost predicate PlainTo(prev: Option<char>, s: string, n: nat) {
    && n <= |s| && n <= |Link(prev, s)| && Link(prev, s)[..n] == s[..n]
    && Link(prev, s)[n..] == Link(if n == 0 then prev else Some(s[n - 1]), s[n..])
  }

  lemma PlainCons(c: char, s: string, t: string, u: string, v: string, n: nat)
    requires u == [c] + t && v == [c] + s && n <= |s| && n <= |t| && t[..n] == s[..n]
    ensures u[..n + 1] == v[..n + 1] && u[n + 1..] == t[n..] && v[n + 1..] == s[n..]
    ensures v[n] == if n == 0 then c else s[n - 1]
  {
    assert u[..n + 1] == [c] + t[..n];
    assert v[..n + 1] == [c] + s[..n];
  }

  lemma {:induction false} PlainPrefix(prev: Option<char>, s: string, n: nat)
    requires n <= |Link(prev, s)| && forall i :: 0 <= i < n ==> Link(prev, s)[i] != '['
    ensures PlainTo(prev, s, n)
    decreases n
  {
    if n > 0 {
      var t := Link(prev, s);
      assert t[0] != '[';
      PlainHead(prev, s);
      var t' := Link(Some(s[0]), s[1..]);
      forall i | 0 <= i < n - 1
        ensures t'[i] != '['
      {
        assert t'[i] == t[i + 1];
      }
      PlainPrefix(Some(s[0]), s[1..], n - 1);
      assert s == [s[0]] + s[1..];
      PlainCons(s[0], s[1..], t', t, s, n - 1);
    } else {
      assert Link(prev, s)[0..] == Link(prev, s) && s[0..] == s;
    }
  }

  /** The first thing that linking changes is the date at `d`. */
  ghost predicate ChangesFirst(prev: Option<char>, s: string, d: nat) {
    && d + 10 <= |s|
    && DateAt(if d == 0 then prev else Some(s[d - 1]), s[d..])
    && Link(prev, s) == s[..d] + "[[" + s[d..d + 10] + "]]" + Link(Some(s[d + 9]), s[d + 10..])
  }

  lemma {:induction false} FirstLinked(prev: Option<char>, s: string) returns (d: Option<nat>)
    requires FindPair(s, ']') == None
    ensures d == None ==> Link(prev, s) == s
    ensures d.Some? ==> ChangesFirst(prev, s, d.value)
    decreases |s|
  {
    if s == "" {
      d := None;
    } else {
      NoLink(s);
      hide DateAt, LinkLength, FindPair;
      if DateAt(prev, s) {
        d := Some(0);
        ChangesHere(prev, s);
      } else {
        NoPairIn(s);
        CharTurn(prev, s);
        hide Link, ChangesFirst;
        var e := FirstLinked(Some(s[0]), s[1..]);
        if e == None {
          d := None;
        } else {
          d := Some(e.value + 1);
          Shift(prev, s, e.value);
        }
      }
    }
  }

  lemma ChangesHere(prev: Option<char>, s: string)
    requires s != "" && LinkLength(s) == None && DateAt(prev, s)
    ensures ChangesFirst(prev, s, 0)
  {
    assert s[0..] == s && s[..0] == "" && s[0..10] == s[..10];
    assert "" + "[[" == "[[";
  }

  lemma ShiftSlices(s: string, k: nat)
    requires k + 11 <= |s|
    ensures s[1..][k..] == s[k + 1..] && s[1..][k..k + 10] == s[k + 1..k + 11] && s[1..][k + 10..] == s[k + 11..]
    ensures [s[0]] + s[1..][..k] == s[..k + 1] && s[1..][k + 9] == s[k + 10]
    ensures k > 0 ==> s[1..][k - 1] == s[k]
  {
  }

  lemma PushChar(c: string, head: string, date: string, tail: string)
    ensures c + (head + "[[" + date + "]]" + tail) == c + head + "[[" + date + "]]" + tail
  {
    Assoc(c, head, "[[");
    Assoc(c, head + "[[", date);
    Assoc(c, head + "[[" + date, "]]");
    Assoc(c, head + "[[" + date + "]]", tail);
  }

  lemma CharTurn(prev: Option<char>, s: string)
    requires s != "" && LinkLength(s) == None && !DateAt(prev, s)
    ensures Link(prev, s) == [s[0]] + Link(Some(s[0]), s[1..])
  {
  }

  lemma Shift(prev: Option<char>, s: string, k: nat)
    requires s != "" && LinkLength(s) == None && !DateAt(prev, s) && ChangesFirst(Some(s[0]), s[1..], k)
    ensures ChangesFirst(prev, s, k + 1)
  {
    hide Link, LinkLength, DateAt;
    CharTurn(prev, s);
    ShiftSlices(s, k);
    PushChar([s[0]], s[1..][..k], s[1..][k..k + 10], Link(Some(s[k + 10]), s[k + 11..]));
  }

  lemma NoLink(s: string)
    requires FindPair(s, ']') == None
    ensures LinkLength(s) == None
  {
    if |s| >= 2 {
      NoPair(s[2..], ']');
    }
  }

  lemma NoPairIn(s: string)
    requires s != "" && FindPair(s, ']') == None
    ensures FindPair(s[1..], ']') == None
  {
  }

  /** What the second pass can see before it instead of `prev`. */
  predicate SamePrev(prev: Option<char>, prev': Option<char>, s: string) {
    prev' == prev || (prev.Some? && IsDigit(prev.value) && prev' == Some(']') && (s != "" ==> !IsDigit(s[0])))
  }

  /** The second pass sees a date only where the first one saw it. */
  lemma NoNewDate(prev: Option<char>, prev': Option<char>, s: string)
    requires SamePrev(prev, prev', s) && s != "" && LinkLength(s) == None && !DateAt(prev, s)
    ensures !DateAt(prev', Link(prev, s))
  {
    var t := Link(prev, s);
    if DateAt(prev', t) {
      assert forall i :: 0 <= i < 10 ==> t[..10][i] != '[';
      PlainPrefix(prev, s, 10);
      LinkHead(Some(s[9]), s[10..]);
      assert IsDigit(s[..10][9]);
      if s[10..] != "" && s[10] == '.' {
        assert s[10..][1..] == s[11..];
        LinkHead(Some('.'), s[11..]);
      }
      assert false;
    }
  }

  /** An opened link that nothing closed is closed by the first date linked
      after it; the second pass copies that stretch whole. */
  lemma UnclosedLink(prev: Option<char>, s: string) returns (d: nat)
    requires s != "" && LinkLength(s) == None && LinkLength(Link(prev, s)).Some? && !DateAt(prev, s)
    ensures 2 <= d && d + 10 <= |s| && EndsDate(s[d + 10..]) && IsDigit(s[d + 9])
    ensures Link(prev, s) == s[..d] + "[[" + s[d..d + 10] + "]]" + Link(Some(s[d + 9]), s[d + 10..])
    ensures LinkLength(Link(prev, s)) == Some(d + 14)
  {
    var t := Link(prev, s);
    LinkHead(prev, s);
    assert t == [s[0]] + Link(Some(s[0]), s[1..]);
    LinkHead(Some(s[0]), s[1..]);
    assert s[0] == '[' && s[1] == '[';
    assert FindPair(s, ']') == None by {
      assert FindPair(s[2..], ']') == None;
      assert s[1..][1..] == s[2..];
    }
    var e := FirstLinked(prev, s);
    assert e.Some?;
    d := e.value;
    assert IsDigit(s[d..][..10][0]) && IsDigit(s[d..][..10][9]);
    assert s[d..][10..] == s[d + 10..];
    assert s[d..][..10] == s[d..d + 10];
    FirstClose(s, d, s[d..d + 10], Link(Some(s[d + 9]), s[d + 10..]), t);
  }

  /** Before the first linked date there is no closing pair. */
  lemma NoCloseYet(s: string, d: nat, date: string, t: string, i: nat)
    requires d <= |s| && |date| == 10 && s[..d] + "[[" + date + "]]" <= t && i < d + 12
    requires d + 2 <= i ==> date[i - d - 2] != ']'
    requires !PairAt(s, ']', i)
    ensures !PairAt(t, ']', i)
  {
    var u := s[..d] + "[[" + date + "]]";
    assert t[i] == u[i] && t[i + 1] == u[i + 1];
    if i + 1 < d {
      assert u[i] == s[i] && u[i + 1] == s[i + 1];
    } else if d + 2 <= i {
      assert u[i] == date[i - d - 2];
    }
  }

  lemma FirstClose(s: string, d: nat, date: string, rest: string, t: string)
    requires 2 <= d <= |s| && IsoShape(date) && FindPair(s, ']') == None && s[0] == '[' == s[1]
    requires t == s[..d] + "[[" + date + "]]" + rest
    ensures LinkLength(t) == Some(d + 14)
  {
    forall i: nat | i < d + 10
      ensures !PairAt(t[2..], ']', i)
    {
      NoCloseYet(s, d, date, t, i + 2);
    }
    FindPairIs(t[2..], ']', d + 10);
  }

  lemma {:induction false} Relink(prev: Option<char>, prev': Option<char>, s: string)
    requires SamePrev(prev, prev', s)
    ensures Link(prev', Link(prev, s)) == Link(prev, s)
    decreases |s|
  {
    var t := Link(prev, s);
    if s == "" {
    } else if LinkLength(s).Some? {
      var n := LinkLength(s).value;
      Relink(Some(']'), Some(']'), s[n..]);
      CopiedLink(s, n, Link(Some(']'), s[n..]));
      assert t[..n] == s[..n] && t[n..] == Link(Some(']'), s[n..]);
    } else if DateAt(prev, s) {
      var rest := Link(Some(s[9]), s[10..]);
      Relink(Some(s[9]), Some(']'), s[10..]);
      assert t == "[[" + s[..10] + "]]" + rest;
      LinkedDate(s[..10], rest);
      assert t[14..] == rest;
    } else if LinkLength(t).Some? {
      var d := UnclosedLink(prev, s);
      var rest := Link(Some(s[d + 9]), s[d + 10..]);
      Relink(Some(s[d + 9]), Some(']'), s[d + 10..]);
      assert t[d + 14..] == rest;
      assert t == t[..d + 14] + rest;
    } else {
      NoNewDate(prev, prev', s);
      Relink(Some(s[0]), Some(s[0]), s[1..]);
      assert t[1..] == Link(Some(s[0]), s[1..]);
    }
  }

  lemma CopiedLink(s: string, n: nat, rest: string)
    requires LinkLength(s) == Some(n)
    ensures LinkLength(s[..n] + rest) == Some(n)
  {
    var t := s[..n] + rest;
    forall i: nat | i < n - 4
      ensures !PairAt(t[2..], ']', i)
    {
      assert t[2..][i] == s[2..][i] && t[2..][i + 1] == s[2..][i + 1];
      assert !PairAt(s[2..], ']', i);
    }
    assert PairAt(s[2..], ']', n - 4);
    assert t[2..][n - 4] == s[2..][n - 4] && t[2..][n - 3] == s[2..][n - 3];
    FindPairIs(t[2..], ']', n - 4);
  }

  lemma LinkedDate(date: string, rest: string)
    requires IsoShape(date)
    ensures LinkLength("[[" + date + "]]" + rest) == Some(14)
  {
    var t := "[[" + date + "]]" + rest;
    forall i: nat | i < 10
      ensures !PairAt(t[2..], ']', i)
    {
      assert t[2..][i] == date[i];
    }
    FindPairIs(t[2..], ']', 10);
  }

  /** Linking the dates of a text twice links no further date and nests no link,
      whatever brackets the text has. */
  lemma LinkDatesTwice(text: string)
    ensures Link(None, Link(None, text)) == Link(None, text)
  {
    Relink(None, None, text);
  }
}
