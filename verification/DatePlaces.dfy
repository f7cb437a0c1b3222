/** Which dates of a text are linked, place by place. */
module DatePlaces {
  import opened Common
  import opened Text
  import opened LinkText
  import opened FactText

  // ---- dates by their place ----

  predicate Figure(c: char) {
    '0' <= c <= '9'
  }

  /** Ten characters in the shape of an ISO date stand at `i`. No digit, dash, dot
      or opening bracket is before them, and after them nothing, or neither a
      digit, a dash, a closing bracket nor a dot with a digit behind it. */
  predicate StandsAt(text: string, i: nat) {
    && i + 10 <= |text|
    && (forall j :: i <= j < i + 10 ==> if j == i + 4 || j == i + 7 then text[j] == '-' else Figure(text[j]))
    && (i > 0 ==> !Figure(text[i - 1]) && text[i - 1] != '-' && text[i - 1] != '.' && text[i - 1] != '[')
    && (i + 10 < |text| ==> !Figure(text[i + 10]) && text[i + 10] != '-' && text[i + 10] != ']')
    && (i + 11 < |text| && text[i + 10] == '.' ==> !Figure(text[i + 11]))
  }

  /** One character, what is put around it, and the rest. */
  function Piece(before: string, c: char, after: string, rest: string): string {
    before + [c] + after + rest
  }

  /** The text from `i` on, with `open` and `close` around every date that stands
      in it, and nothing else changed. */
  function Marked(text: string, i: nat, open: string, close: string): string
    requires i <= |text|
    decreases |text| - i
  {
    if i == |text| then ""
    else Piece(if StandsAt(text, i) then open else "", text[i], if i >= 9 && StandsAt(text, i - 9) then close else "",
               Marked(text, i + 1, open, close))
  }

  function DatesFrom(text: string, i: nat): seq<string>
    requires i <= |text|
    decreases |text| - i
  {
    if i == |text| then [] else (if StandsAt(text, i) then [text[i..i + 10]] else []) + DatesFrom(text, i + 1)
  }

  // ---- the scan finds exactly these ----

  lemma SliceAt(text: string, i: nat)
    requires i + 10 <= |text|
    ensures text[i..][..10] == text[i..i + 10] && text[i..][10..] == text[i + 10..]
  {
  }

  lemma DateStands(text: string, i: nat)
    requires i <= |text|
    ensures DateAt(Before(text, i), text[i..]) <==> StandsAt(text, i)
  {
    if i + 10 <= |text| {
      SliceAt(text, i);
      ShapeAt(text, i);
      var rest := text[i..][10..];
      assert rest != "" ==> rest[0] == text[i + 10];
      assert |rest| > 1 ==> rest[1] == text[i + 11];
    }
  }

  lemma ShapeAt(text: string, i: nat)
    requires i + 10 <= |text|
    ensures IsoShape(text[i..i + 10]) <==>
      forall j :: i <= j < i + 10 ==> if j == i + 4 || j == i + 7 then text[j] == '-' else Figure(text[j])
  {
    var d := text[i..i + 10];
    forall k | 0 <= k < 10
      ensures d[k] == text[i + k]
    {
    }
    forall j | i <= j < i + 10
      ensures text[j] == d[j - i]
    {
    }
  }

  /** Two dates never overlap, nor do they touch. */
  lemma Apart(text: string, i: nat, j: nat)
    requires StandsAt(text, i) && i < j <= i + 10
    ensures !StandsAt(text, j)
  {
    var k := j - 1 - i;
    assert text[j - 1] == text[i + k];
  }

  /** No date reaches from before `i` into the rest. */
  ghost predicate Clear(text: string, i: nat) {
    forall j: nat :: j < i < j + 10 ==> !StandsAt(text, j)
  }

  lemma MarkedPlain(text: string, i: nat, open: string, close: string)
    requires i < |text| && !StandsAt(text, i) && (i >= 9 ==> !StandsAt(text, i - 9))
    ensures Marked(text, i, open, close) == Piece("", text[i], "", Marked(text, i + 1, open, close))
    ensures DatesFrom(text, i) == DatesFrom(text, i + 1)
  {
    hide StandsAt, Piece;
  }

  lemma MarkedLast(text: string, i: nat, open: string, close: string)
    requires 9 <= i < |text| && !StandsAt(text, i) && StandsAt(text, i - 9)
    ensures Marked(text, i, open, close) == Piece("", text[i], close, Marked(text, i + 1, open, close))
    ensures DatesFrom(text, i) == DatesFrom(text, i + 1)
  {
    hide StandsAt, Piece;
  }

  lemma MarkedFirst(text: string, i: nat, open: string, close: string)
    requires i < |text| && StandsAt(text, i) && (i >= 9 ==> !StandsAt(text, i - 9))
    ensures Marked(text, i, open, close) == Piece(open, text[i], "", Marked(text, i + 1, open, close))
    ensures DatesFrom(text, i) == [text[i..i + 10]] + DatesFrom(text, i + 1)
  {
    hide Piece;
  }

  /** A text up to `end`, what closes it, and the rest. */
  function Closed(text: string, j: nat, end: nat, close: string, rest: string): string
    requires j <= end <= |text|
  {
    text[j..end] + close + rest
  }

  lemma Alone(c: char, rest: string)
    ensures Piece("", c, "", rest) == [c] + rest
  {
    assert "" + [c] + "" == [c];
  }

  lemma ClosedStep(text: string, j: nat, end: nat, close: string, rest: string)
    requires j < end <= |text|
    ensures Closed(text, j, end, close, rest) == Piece("", text[j], "", Closed(text, j + 1, end, close, rest))
  {
    Alone(text[j], Closed(text, j + 1, end, close, rest));
    assert [text[j]] + text[j + 1..end] == text[j..end];
    Assoc([text[j]], text[j + 1..end], close);
    Assoc([text[j]], text[j + 1..end] + close, rest);
  }

  lemma ClosedLast(text: string, j: nat, close: string, rest: string)
    requires j < |text|
    ensures Closed(text, j, j + 1, close, rest) == Piece("", text[j], close, rest)
  {
    assert text[j..j + 1] == [text[j]] == "" + [text[j]];
  }

  lemma ClosedWhole(open: string, text: string, i: nat, end: nat, close: string, rest: string)
    requires i < end <= |text|
    ensures Piece(open, text[i], "", Closed(text, i + 1, end, close, rest)) == open + text[i..end] + close + rest
  {
    var inner := Closed(text, i + 1, end, close, rest);
    ClosedStep(text, i, end, close, rest);
    Alone(text[i], inner);
    assert open + [text[i]] + "" == open + [text[i]];
    Assoc(open, [text[i]], inner);
    Assoc(open, text[i..end], close);
    Assoc(open, text[i..end] + close, rest);
  }

  /** Inside the date at `i`, from `j` to its end. */
  lemma {:induction false} InsideDate(text: string, i: nat, j: nat, end: nat, open: string, close: string)
    requires StandsAt(text, i) && i < j < end == i + 10 && end <= |text|
    ensures Marked(text, j, open, close) == Closed(text, j, end, close, Marked(text, end, open, close))
    ensures DatesFrom(text, j) == DatesFrom(text, end)
    decreases end - j
  {
    hide StandsAt, Marked, DatesFrom, Closed, Piece;
    Apart(text, i, j);
    if j + 1 == end {
      MarkedLast(text, j, open, close);
      ClosedLast(text, j, close, Marked(text, end, open, close));
    } else {
      if j >= 9 {
        Later(text, i, j - 9);
      }
      MarkedPlain(text, j, open, close);
      InsideDate(text, i, j + 1, end, open, close);
      ClosedStep(text, j, end, close, Marked(text, end, open, close));
    }
  }

  /** A date that begins before another ends before it. */
  lemma Later(text: string, i: nat, j: nat)
    requires StandsAt(text, i) && j < i <= j + 9
    ensures !StandsAt(text, j)
  {
    if StandsAt(text, j) {
      Apart(text, j, i);
    }
  }

  lemma ClearHere(text: string, i: nat)
    requires Clear(text, i)
    ensures i >= 9 ==> !StandsAt(text, i - 9)
  {
  }

  lemma ClearAfter(text: string, i: nat)
    requires StandsAt(text, i) && Clear(text, i)
    ensures Clear(text, i + 10)
  {
    forall j: nat | j < i + 10 < j + 10
      ensures !StandsAt(text, j)
    {
      Apart(text, i, j);
    }
  }

  lemma MarkedDate(text: string, i: nat, open: string, close: string)
    requires StandsAt(text, i) && Clear(text, i) && i + 10 <= |text|
    ensures Marked(text, i, open, close) == open + text[i..i + 10] + close + Marked(text, i + 10, open, close)
    ensures DatesFrom(text, i) == [text[i..i + 10]] + DatesFrom(text, i + 10)
    ensures Clear(text, i + 10)
  {
    hide StandsAt, Marked, DatesFrom, Clear, Closed, Piece;
    ClearHere(text, i);
    ClearAfter(text, i);
    MarkedFirst(text, i, open, close);
    InsideDate(text, i, i + 1, i + 10, open, close);
    ClosedWhole(open, text, i, i + 10, close, Marked(text, i + 10, open, close));
  }

  lemma MarkedOther(text: string, i: nat, open: string, close: string)
    requires i < |text| && !StandsAt(text, i) && Clear(text, i)
    ensures Marked(text, i, open, close) == [text[i]] + Marked(text, i + 1, open, close)
    ensures DatesFrom(text, i) == DatesFrom(text, i + 1)
    ensures Clear(text, i + 1)
  {
    hide StandsAt;
    ClearHere(text, i);
    MarkedPlain(text, i, open, close);
    Alone(text[i], Marked(text, i + 1, open, close));
  }

  lemma {:induction false} LinkMarks(text: string, i: nat)
    requires Bare(text) && i <= |text| && Clear(text, i)
    ensures Link(Before(text, i), text[i..]) == Marked(text, i, "[[", "]]")
    ensures Dates(Before(text, i), text[i..]) == DatesFrom(text, i)
    decreases |text| - i
  {
    if i < |text| {
      var s := text[i..];
      assert s[0] == text[i] && text[i] != '[';
      DateStands(text, i);
      hide StandsAt, DateAt, Clear, Marked, DatesFrom;
      if StandsAt(text, i) {
        Fits(text, i);
        MarkedDate(text, i, "[[", "]]");
        NextSlice(text, i, 10);
        SliceAt(text, i);
        LinkMarks(text, i + 10);
      } else {
        MarkedOther(text, i, "[[", "]]");
        NextSlice(text, i, 1);
        LinkMarks(text, i + 1);
      }
    }
  }

  lemma Fits(text: string, i: nat)
    requires StandsAt(text, i)
    ensures i + 10 <= |text|
  {
  }

  /** In a text without brackets, linking puts brackets around exactly the dates
      that stand on their own, each of them once and in order, and changes
      nothing else; and they are the dates that are read back. */
  lemma LinksExactlyTheDates(text: string)
    requires Bare(text)
    ensures Link(None, text) == Marked(text, 0, "[[", "]]")
    ensures Dates(None, text) == DatesFrom(text, 0)
  {
    assert text[0..] == text;
    LinkMarks(text, 0);
  }

  lemma {:induction false} DatesAre(text: string, i: nat)
    requires i <= |text|
    ensures forall d :: d in DatesFrom(text, i) <==> exists j: nat :: i <= j && StandsAt(text, j) && d == text[j..j + 10]
    decreases |text| - i
  {
    if i < |text| {
      DatesAre(text, i + 1);
    }
  }

  // ---- links that are there already ----

  /** The text before a link ends as if nothing followed. */
  lemma DateBeforeLink(prev: Option<char>, a: string, rest: string)
    requires rest != "" && rest[0] == '['
    ensures DateAt(prev, a + rest) <==> DateAt(prev, a)
    ensures |a| >= 10 ==> (a + rest)[..10] == a[..10] && (a + rest)[10..] == a[10..] + rest
  {
    var s := a + rest;
    if |a| < 10 {
      if |s| >= 10 {
        assert s[..10][|a|] == '[';
      }
    } else {
      assert s[..10] == a[..10] && s[10..] == a[10..] + rest;
      if |a| == 11 {
        assert s[10..][1] == '[';
      }
    }
  }

  lemma {:induction false} LinkUpTo(prev: Option<char>, a: string, rest: string)
    requires Bare(a) && rest != "" && rest[0] == '['
    ensures Link(prev, a + rest) == Link(prev, a) + Link(if a == "" then prev else Some(a[|a| - 1]), rest)
    decreases |a|
  {
    if a == "" {
      assert a + rest == rest && "" + Link(prev, rest) == Link(prev, rest);
    } else {
      var s := a + rest;
      var after := Link(Some(a[|a| - 1]), rest);
      assert s[0] == a[0] && a[0] != '[';
      DateBeforeLink(prev, a, rest);
      if DateAt(prev, a) {
        LinkUpTo(Some(a[9]), a[10..], rest);
        assert s[9] == a[9];
        assert a[10..] != "" ==> a[10..][|a[10..]| - 1] == a[|a| - 1];
        Assoc("[[" + a[..10] + "]]", Link(Some(a[9]), a[10..]), after);
      } else {
        assert s[1..] == a[1..] + rest;
        LinkUpTo(Some(a[0]), a[1..], rest);
        Assoc([a[0]], Link(Some(a[0]), a[1..]), after);
      }
    }
  }

  lemma LinkIsWhole(link: string, b: string)
    requires ']' !in link
    ensures LinkLength("[[" + link + "]]" + b) == Some(|link| + 4)
  {
    var s := "[[" + link + "]]" + b;
    var inner := s[2..];
    assert inner == link + "]]" + b;
    forall i: nat | i < |link|
      ensures !PairAt(inner, ']', i)
    {
      assert inner[i] == link[i] && link[i] in link;
    }
    assert PairAt(inner, ']', |link|);
    FindPairIs(inner, ']', |link|);
  }

  /** A link in the text is copied whole, with whatever is in it, and the rest is
      linked as if it stood behind a closing bracket. */
  lemma CopiesLinks(prev: Option<char>, a: string, link: string, b: string)
    requires Bare(a) && ']' !in link
    ensures Link(prev, a + ("[[" + link + "]]" + b)) == Link(prev, a) + ("[[" + link + "]]" + Link(Some(']'), b))
  {
    var whole := "[[" + link + "]]";
    LinkUpTo(prev, a, whole + b);
    LinkIsWhole(link, b);
    assert (whole + b)[..|link| + 4] == whole && (whole + b)[|link| + 4..] == b && (whole + b)[|link| + 3] == ']';
  }
}
