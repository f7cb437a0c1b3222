/** When two facts are the same fact. */
module FactKey {
  import opened Common
  import opened Text
  import opened LinkText
  import opened FactText

  /** The Unicode tables behind `is_alphanumeric` and `to_lowercase`. */
  datatype Unicode = Unicode(alnum: char -> bool, lower: char -> string)

  /** What the tables are relied on for; all of it holds of Unicode. */
  ghost predicate Sane(u: Unicode) {
    && (forall c :: IsDigit(c) ==> u.alnum(c) && u.lower(c) == [c])
    && (forall c :: u.alnum(c) ==> u.lower(c) != "" && !IsWhite(c) && c != '[' && c != ']' && c != '-' && c != '/')
    && (forall c, i :: u.alnum(c) && 0 <= i < |u.lower(c)| ==> PageChar(u.lower(c)[i]))
  }

  predicate PageChar(c: char) {
    !IsWhite(c) && c != '[' && c != ']'
  }

  // ---- dedup_key ----

  function Sep(u: Unicode): char -> bool {
    c => !u.alnum(c)
  }

  function LowerWord(u: Unicode, w: string): string {
    if w == "" then "" else u.lower(w[0]) + LowerWord(u, w[1..])
  }

  function Lowered(u: Unicode, words: seq<string>): seq<string> {
    seq(|words|, i requires 0 <= i < |words| => LowerWord(u, words[i]))
  }

  /** The alphanumeric runs of a statement, in lower case, with single spaces. */
  function KeyOf(u: Unicode, statement: string): string {
    Join(Lowered(u, Split(statement, Sep(u))), " ")
  }

  function DedupKey(u: Unicode, text: string): string {
    KeyOf(u, SplitLinks(text).0)
  }

  lemma {:induction false} LowerSnoc(u: Unicode, w: string, c: char)
    ensures LowerWord(u, w + [c]) == LowerWord(u, w) + u.lower(c)
    decreases |w|
  {
    if w == "" {
      assert w + [c] == [c] && [c][1..] == "";
      assert u.lower(c) + "" == u.lower(c) && "" + u.lower(c) == u.lower(c);
    } else {
      LowerSnoc(u, w[1..], c);
      assert (w + [c])[1..] == w[1..] + [c];
      Assoc(u.lower(w[0]), LowerWord(u, w[1..]), u.lower(c));
    }
  }

  lemma {:induction false} JoinEmpty(parts: seq<string>)
    requires forall i :: 0 <= i < |parts| ==> parts[i] != ""
    ensures Join(parts, " ") == "" <==> parts == []
  {
  }

  lemma KeyEmpty(u: Unicode, s: string)
    requires Sane(u)
    ensures KeyOf(u, s) == "" <==> Split(s, Sep(u)) == []
  {
    var runs := Split(s, Sep(u));
    forall i | 0 <= i < |runs|
      ensures Lowered(u, runs)[i] != ""
    {
      assert !Sep(u)(runs[i][0]);
    }
    JoinEmpty(Lowered(u, runs));
  }

  /** A new run starts. */
  lemma KeyStarts(u: Unicode, s: string, c: char)
    requires Sane(u) && u.alnum(c) && (s == "" || !u.alnum(s[|s| - 1]))
    ensures KeyOf(u, s + [c]) == (if KeyOf(u, s) == "" then "" else KeyOf(u, s) + " ") + u.lower(c)
  {
    var runs := Split(s, Sep(u));
    SplitSnoc(s, c, Sep(u));
    KeyEmpty(u, s);
    LowerSnoc(u, "", c);
    assert LowerWord(u, [c]) == u.lower(c);
    assert Lowered(u, runs + [[c]]) == Lowered(u, runs) + [u.lower(c)];
    JoinSnoc(Lowered(u, runs), u.lower(c), " ");
  }

  lemma {:induction false} JoinExtends(parts: seq<string>, w: string, x: string)
    ensures Join(parts + [w + x], " ") == Join(parts + [w], " ") + x
  {
    JoinSnoc(parts, w + x, " ");
    JoinSnoc(parts, w, " ");
    if parts != [] {
      Assoc(Join(parts, " ") + " ", w, x);
    }
  }

  /** The last run goes on. */
  lemma KeyExtends(u: Unicode, s: string, c: char)
    requires u.alnum(c) && s != "" && u.alnum(s[|s| - 1])
    ensures KeyOf(u, s + [c]) == KeyOf(u, s) + u.lower(c)
  {
    var runs := Split(s, Sep(u));
    SplitSnoc(s, c, Sep(u));
    var m := |runs| - 1;
    var init, last := runs[..m], runs[m];
    LowerSnoc(u, last, c);
    assert Lowered(u, runs) == Lowered(u, init) + [LowerWord(u, last)];
    assert Lowered(u, init + [last + [c]]) == Lowered(u, init) + [LowerWord(u, last) + u.lower(c)];
    JoinExtends(Lowered(u, init), LowerWord(u, last), u.lower(c));
  }

  lemma KeySkips(u: Unicode, s: string, c: char)
    requires !u.alnum(c)
    ensures KeyOf(u, s + [c]) == KeyOf(u, s)
  {
    SplitSnoc(s, c, Sep(u));
  }

  /** One turn of the loop: `pending` says that a separator came last. */
  lemma KeyTurn(u: Unicode, s: string, c: char, pending: bool)
    requires Sane(u) && (pending <==> s != "" && !u.alnum(s[|s| - 1]))
    ensures KeyOf(u, s + [c]) ==
      if u.alnum(c) then (if pending && KeyOf(u, s) != "" then KeyOf(u, s) + " " else KeyOf(u, s)) + u.lower(c) else KeyOf(u, s)
  {
    if !u.alnum(c) {
      KeySkips(u, s, c);
    } else if s == "" || pending {
      KeyStarts(u, s, c);
    } else {
      KeyExtends(u, s, c);
    }
  }

  method ComputeKey(u: Unicode, text: string) returns (out: string)
    requires Sane(u)
    ensures out == DedupKey(u, text)
  {
    var statement, _ := ReadBlock(text);
    out := "";
    var pending := false;
    var i := 0;
    assert KeyOf(u, statement[..0]) == "";
    hide KeyOf, SplitLinks, Sane;
    while i < |statement|
      invariant 0 <= i <= |statement|
      invariant out == KeyOf(u, statement[..i])
      invariant pending <==> i > 0 && !u.alnum(statement[i - 1])
    {
      var c := statement[i];
      assert statement[..i + 1] == statement[..i] + [c];
      KeyTurn(u, statement[..i], c, pending);
      if u.alnum(c) {
        if pending && out != "" {
          out := out + " ";
        }
        pending := false;
        out := out + u.lower(c);
      } else {
        pending := true;
      }
      i := i + 1;
    }
    assert statement[..i] == statement;
  }

  // ---- what the key does and does not see ----

  /** The same letters and digits in the same places, up to case. */
  ghost predicate SoundsLike(u: Unicode, a: string, b: string) {
    |a| == |b| && forall i :: 0 <= i < |a| ==>
      u.alnum(a[i]) == u.alnum(b[i]) && (u.alnum(a[i]) ==> u.lower(a[i]) == u.lower(b[i]))
  }

  /** Case and the choice of punctuation never make two facts of one. */
  lemma {:induction false} KeyIgnoresSurface(u: Unicode, a: string, b: string)
    requires Sane(u) && SoundsLike(u, a, b)
    ensures KeyOf(u, a) == KeyOf(u, b)
    decreases |a|
  {
    if a != "" {
      var n := |a| - 1;
      KeyIgnoresSurface(u, a[..n], b[..n]);
      assert a == a[..n] + [a[n]] && b == b[..n] + [b[n]];
      if !u.alnum(a[n]) {
        KeySkips(u, a[..n], a[n]);
        KeySkips(u, b[..n], b[n]);
      } else if n == 0 || !u.alnum(a[n - 1]) {
        KeyStarts(u, a[..n], a[n]);
        KeyStarts(u, b[..n], b[n]);
      } else {
        KeyExtends(u, a[..n], a[n]);
        KeyExtends(u, b[..n], b[n]);
      }
    } else {
      assert b == "";
    }
  }

  /** Another alphanumeric word makes another fact. */
  lemma KeyGrows(u: Unicode, a: string, b: string)
    requires Sane(u) && exists i :: 0 <= i < |b| && u.alnum(b[i])
    ensures KeyOf(u, a + " " + b) != KeyOf(u, a)
  {
    var x, y := Split(a, Sep(u)), Split(b, Sep(u));
    assert a + " " + b == a + [' '] + b;
    assert Sep(u)(' ');
    SplitAppend(a, ' ', b, Sep(u));
    HasRun(u, b);
    forall i | 0 <= i < |x|
      ensures Lowered(u, x)[i] != ""
    {
      assert !Sep(u)(x[i][0]);
    }
    forall i | 0 <= i < |y|
      ensures Lowered(u, y)[i] != ""
    {
      assert !Sep(u)(y[i][0]);
    }
    assert Lowered(u, x + y) == Lowered(u, x) + Lowered(u, y);
    JoinGrows(Lowered(u, x), Lowered(u, y), " ");
  }

  lemma {:induction false} HasRun(u: Unicode, s: string)
    requires exists i :: 0 <= i < |s| && u.alnum(s[i])
    ensures Split(s, Sep(u)) != []
    decreases |s|
  {
    var i :| 0 <= i < |s| && u.alnum(s[i]);
    if Sep(u)(s[0]) {
      assert u.alnum(s[1..][i - 1]);
      HasRun(u, s[1..]);
    }
  }

  // ---- spacing never matters ----

  function RunsOf(u: Unicode, words: seq<string>): seq<string> {
    if words == [] then [] else Split(words[0], Sep(u)) + RunsOf(u, words[1..])
  }

  lemma {:induction false} RunsOfJoin(u: Unicode, words: seq<string>)
    requires Sane(u)
    ensures Split(Join(words, " "), Sep(u)) == RunsOf(u, words)
  {
    if |words| == 1 {
      assert RunsOf(u, words) == Split(words[0], Sep(u)) + [];
    } else if |words| > 1 {
      RunsOfJoin(u, words[1..]);
      assert Sep(u)(' ');
      SplitAppend(words[0], ' ', Join(words[1..], " "), Sep(u));
    }
  }

  lemma {:induction false} RunsOfWords(u: Unicode, s: string)
    requires Sane(u)
    ensures Split(s, Sep(u)) == RunsOf(u, Words(s))
    decreases |s|
  {
    if s != "" {
      if IsWhite(s[0]) {
        assert Sep(u)(s[0]);
        RunsOfWords(u, s[1..]);
      } else {
        RunsOfWord(u, s, RunLength(s, IsWhite));
      }
    }
  }

  lemma {:induction false} RunsOfWord(u: Unicode, s: string, n: nat)
    requires Sane(u) && s != "" && !IsWhite(s[0]) && n == RunLength(s, IsWhite)
    ensures Split(s, Sep(u)) == RunsOf(u, Words(s))
    decreases |s|, 0
  {
    assert Words(s) == [s[..n]] + Words(s[n..]);
    if n == |s| {
      assert s[..n] == s && s[n..] == "";
      assert RunsOf(u, Words(s)) == Split(s, Sep(u)) + [];
    } else {
      assert Sep(u)(s[n]);
      assert s == s[..n] + [s[n]] + s[n + 1..];
      SplitAppend(s[..n], s[n], s[n + 1..], Sep(u));
      assert s[n..][1..] == s[n + 1..];
      RunsOfWords(u, s[n + 1..]);
    }
  }

  lemma KeyIgnoresSpacing(u: Unicode, s: string)
    requires Sane(u)
    ensures KeyOf(u, Collapse(s)) == KeyOf(u, s)
  {
    RunsOfJoin(u, Words(s));
    RunsOfWords(u, s);
  }

  // ---- the key across the printed block ----

  lemma BareSplit(s: string)
    requires Bare(s)
    ensures SplitLinks(s).0 == Collapse(s)
  {
    var t := TrimEnd(s);
    assert Peel(t) == (t, []);
    NoPair(t, '[');
    assert Inline(t) == (t, []);
    SplitTrimEnd(s);
  }

  lemma {:induction false} JoinBare(parts: seq<string>)
    requires forall i :: 0 <= i < |parts| ==> Bare(parts[i])
    ensures Bare(Join(parts, " "))
  {
    if |parts| > 1 {
      JoinBare(parts[1..]);
    }
  }

  lemma {:induction false} SplitBare(s: string, sep: char -> bool)
    requires Bare(s)
    ensures forall i :: 0 <= i < |Split(s, sep)| ==> Bare(Split(s, sep)[i])
    decreases |s|
  {
    if s != "" {
      if sep(s[0]) {
        SplitBare(s[1..], sep);
      } else {
        SplitBare(s[RunLength(s, sep)..], sep);
      }
    }
  }

  lemma CollapseBare(s: string)
    requires Bare(s)
    ensures Bare(Collapse(s))
  {
    SplitBare(s, IsWhite);
    JoinBare(Words(s));
  }

  lemma BareKey(u: Unicode, text: string)
    requires Sane(u) && Bare(text)
    ensures DedupKey(u, text) == KeyOf(u, text) == DedupKey(u, Collapse(text))
  {
    BareSplit(text);
    CollapseBare(text);
    BareSplit(Collapse(text));
    CollapseTwice(text);
    KeyIgnoresSpacing(u, text);
  }

  /** A block keeps the key of the statement it was printed from, exactly when
      no topic is a date. The statement that is read back has the block's key. */
  lemma KeySurvives(u: Unicode, text: string, topics: seq<string>)
    requires Sane(u) && Bare(text) && Topics(topics)
    ensures DedupKey(u, BlockText(text, topics)) == DedupKey(u, text) <==> !HasDate(topics)
    ensures DedupKey(u, SplitLinks(BlockText(text, topics)).0) == DedupKey(u, BlockText(text, topics))
  {
    BareKey(u, text);
    BareSplit(text);
    RoundTrip(text, topics);
    if HasDate(topics) {
      DateChangesKey(u, text, topics);
    }
    StatementIsBare(text, topics);
    BareKey(u, SplitLinks(BlockText(text, topics)).0);
  }

  lemma StatementIsBare(text: string, topics: seq<string>)
    requires Bare(text) && Topics(topics)
    ensures Bare(SplitLinks(BlockText(text, topics)).0)
  {
    var n := ReadBack(text, topics);
    TrimBare(text);
    TrailingBare(topics[..n]);
    CollapseBare(Trim(text) + Trailing(topics[..n]));
  }

  lemma {:induction false} TrailingBare(topics: seq<string>)
    requires forall i :: 0 <= i < |topics| ==> Topic(topics[i])
    ensures Bare(Trailing(topics))
  {
    if topics != [] {
      TrailingBare(topics[1..]);
    }
  }

  lemma TopicsChangeKey(u: Unicode, text: string, topics: seq<string>, rest: string)
    requires Sane(u) && Trailing(topics) == " " + rest && rest != "" && u.alnum(rest[|rest| - 1])
    ensures KeyOf(u, Collapse(Trim(text) + Trailing(topics))) != KeyOf(u, text)
  {
    hide Collapse, Trim, Trailing, KeyOf, Sane;
    Assoc(Trim(text), " ", rest);
    KeyIgnoresSpacing(u, Trim(text) + Trailing(topics));
    KeyIgnoresSpacing(u, Trim(text));
    KeyIgnoresSpacing(u, text);
    CollapseTrims(text);
    KeyGrows(u, Trim(text), rest);
  }

  lemma UpToDateChangesKey(u: Unicode, text: string, topics: seq<string>)
    requires Sane(u) && topics != [] && IsoShape(topics[|topics| - 1])
    ensures KeyOf(u, Collapse(Trim(text) + Trailing(topics))) != KeyOf(u, text)
  {
    hide Collapse, Trim, Trailing, KeyOf, IsoShape;
    LastDigit(topics);
    var rest := Trailing(topics)[1..];
    assert Trailing(topics) == " " + rest;
    assert IsDigit(rest[|rest| - 1]);
    TopicsChangeKey(u, text, topics, rest);
  }

  /** The key of a printed block is the key of the statement read back from it. */
  lemma ReadBackKey(u: Unicode, text: string, topics: seq<string>) returns (n: nat)
    requires Bare(text) && Topics(topics)
    ensures n <= |topics| && (n > 0 <==> HasDate(topics)) && (n > 0 ==> IsoShape(topics[n - 1]))
    ensures DedupKey(u, BlockText(text, topics)) == KeyOf(u, Collapse(Trim(text) + Trailing(topics[..n])))
  {
    hide Bare, Topics, HasDate, IsoShape, BlockText, SplitLinks, KeyOf, Collapse, Trim, Trailing, PushAll, Dates;
    n := ReadBack(text, topics);
  }

  lemma DateChangesKey(u: Unicode, text: string, topics: seq<string>)
    requires Sane(u) && Bare(text) && Topics(topics) && HasDate(topics)
    ensures DedupKey(u, BlockText(text, topics)) != KeyOf(u, text)
  {
    hide Sane, Bare, Topics, HasDate, IsoShape, BlockText, DedupKey, KeyOf, Collapse, Trim, Trailing;
    var n := ReadBackKey(u, text, topics);
    UpToDateChangesKey(u, text, topics[..n]);
  }

  lemma {:induction false} LastDigit(topics: seq<string>)
    requires topics != [] && IsoShape(topics[|topics| - 1])
    ensures |Trailing(topics)| > 1 && Trailing(topics)[0] == ' '
    ensures IsDigit(Trailing(topics)[|Trailing(topics)| - 1])
  {
    var rest := Trailing(topics[1..]);
    assert Trailing(topics) == " " + topics[0] + rest;
    if |topics| > 1 {
      LastDigit(topics[1..]);
    } else {
      assert rest == "";
      assert IsDigit(topics[0][9]);
    }
  }

  // ---- spacing and dates ----

  lemma DateAtCut(prev: Option<char>, a: string, w: char, b: string)
    requires IsWhite(w)
    ensures DateAt(prev, a + [w] + b) <==> DateAt(prev, a)
    ensures |a| >= 10 ==> (a + [w] + b)[..10] == a[..10] && (a + [w] + b)[10..] == a[10..] + [w] + b
  {
    var s := a + [w] + b;
    if |a| < 10 {
      if |s| >= 10 {
        assert s[..10][|a|] == w;
      }
    } else {
      assert s[..10] == a[..10] && s[10..] == a[10..] + [w] + b;
    }
  }

  lemma {:induction false} DatesCut(prev: Option<char>, a: string, w: char, b: string)
    requires IsWhite(w)
    ensures Dates(prev, a + [w] + b) == Dates(prev, a) + Dates(Some(w), b)
    decreases |a|
  {
    var s := a + [w] + b;
    DateAtCut(prev, a, w, b);
    if a == "" {
      assert s[1..] == b;
      assert [] + Dates(Some(w), b) == Dates(Some(w), b);
    } else if DateAt(prev, a) {
      DatesCut(Some(a[9]), a[10..], w, b);
      Assoc([a[..10]], Dates(Some(a[9]), a[10..]), Dates(Some(w), b));
    } else {
      assert s[1..] == a[1..] + [w] + b;
      DatesCut(Some(a[0]), a[1..], w, b);
    }
  }

  lemma DatesAfterSpace(w: char, b: string)
    requires IsWhite(w)
    ensures Dates(Some(w), b) == Dates(None, b)
  {
  }

  function DatesOf(words: seq<string>): seq<string> {
    if words == [] then [] else Dates(None, words[0]) + DatesOf(words[1..])
  }

  lemma {:induction false} DatesOfJoin(words: seq<string>)
    ensures Dates(None, Join(words, " ")) == DatesOf(words)
  {
    if |words| == 1 {
      assert Dates(None, words[0]) + DatesOf(words[1..]) == Dates(None, words[0]);
    } else if |words| > 1 {
      DatesOfJoin(words[1..]);
      DatesCut(None, words[0], ' ', Join(words[1..], " "));
      DatesAfterSpace(' ', Join(words[1..], " "));
    }
  }

  lemma {:induction false} DatesOfWords(s: string)
    ensures Dates(None, s) == DatesOf(Words(s))
    decreases |s|
  {
    if s != "" {
      if IsWhite(s[0]) {
        DatesOfWords(s[1..]);
        assert !DateAt(None, s) by {
          if |s| >= 10 { assert s[..10][0] == s[0]; }
        }
        DatesAfterSpace(s[0], s[1..]);
      } else {
        DatesOfWord(s, RunLength(s, IsWhite));
      }
    }
  }

  lemma {:induction false} DatesOfWord(s: string, n: nat)
    requires s != "" && !IsWhite(s[0]) && n == RunLength(s, IsWhite)
    ensures Dates(None, s) == DatesOf(Words(s))
    decreases |s|, 0
  {
    assert Words(s) == [s[..n]] + Words(s[n..]);
    if n == |s| {
      assert s[..n] == s && s[n..] == "";
      assert DatesOf(Words(s)) == Dates(None, s) + [];
    } else {
      assert s == s[..n] + [s[n]] + s[n + 1..];
      DatesCut(None, s[..n], s[n], s[n + 1..]);
      DatesAfterSpace(s[n], s[n + 1..]);
      assert s[n..][1..] == s[n + 1..];
      DatesOfWords(s[n + 1..]);
    }
  }

  /** Spacing hides no date and makes none. */
  lemma DatesIgnoreSpacing(s: string)
    ensures LinkedDates(Collapse(s)) == LinkedDates(s)
  {
    DatesOfWords(Trim(s));
    DatesOfJoin(Words(s));
    SplitTrimStart(s);
    SplitTrimEnd(TrimStart(s));
    CollapseTrimmed(s);
  }

  lemma CollapseTrimmed(s: string)
    ensures Trimmed(Collapse(s)) && Trim(Collapse(s)) == Collapse(s)
  {
    JoinTrimmed(Words(s));
    TrimsToItself(Collapse(s));
  }

  lemma {:induction false} JoinTrimmed(words: seq<string>)
    requires forall i :: 0 <= i < |words| ==> words[i] != ""
    requires forall i, j :: 0 <= i < |words| && 0 <= j < |words[i]| ==> !IsWhite(words[i][j])
    ensures Trimmed(Join(words, " "))
    ensures words != [] ==> Join(words, " ") != ""
  {
    if |words| > 1 {
      JoinTrimmed(words[1..]);
    }
  }
}
