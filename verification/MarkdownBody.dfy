/** Telegram message bodies: escaped for MarkdownV2, then cut to the cap. */
module MarkdownBody {
  import opened Common
  import opened Limits

  const MAX_MESSAGE_UNITS := 4096

  /** The characters MarkdownV2 reserves, and the backslash. */
  predicate Reserved(c: char) {
    || c == '\\' || c == '_' || c == '*' || c == '[' || c == ']' || c == '(' || c == ')' || c == '~' || c == '`' || c == '>'
    || c == '#' || c == '+' || c == '-' || c == '=' || c == '|' || c == '{' || c == '}' || c == '.' || c == '!'
  }

  function EscapeChar(c: char): (r: string)
    ensures 1 <= |r| <= 2
  {
    if Reserved(c) then ['\\', c] else [c]
  }

  function Escape(s: string): string {
    if s == "" then "" else EscapeChar(s[0]) + Escape(s[1..])
  }

  lemma {:induction false} EscapeAppend(a: string, b: string)
    ensures Escape(a + b) == Escape(a) + Escape(b)
    decreases |a|
  {
    if a == "" {
      assert a + b == b;
    } else {
      assert (a + b)[1..] == a[1..] + b;
      EscapeAppend(a[1..], b);
    }
  }

  lemma EscapeSnoc(s: string, c: char)
    ensures Escape(s + [c]) == Escape(s) + EscapeChar(c)
  {
    EscapeAppend(s, [c]);
    assert [c][1..] == "";
    assert Escape([c]) == EscapeChar(c) + "";
  }

  method EscapeMarkdownV2(text: string) returns (out: string)
    ensures out == Escape(text)
  {
    out := "";
    var i := 0;
    while i < |text|
      invariant 0 <= i <= |text| && out == Escape(text[..i])
    {
      assert text[..i + 1] == text[..i] + [text[i]];
      EscapeSnoc(text[..i], text[i]);
      if Reserved(text[i]) {
        out := out + "\\";
      }
      out := out + [text[i]];
      i := i + 1;
    }
    assert text[..i] == text;
  }

  /** The characters that MarkdownV2 wants escaped wherever they stand. */
  const MARKUP := "_*[]()~`>#+-=|{}.!"

  /** What is escaped is that, and the backslash itself. */
  lemma ReservedAre(c: char)
    ensures Reserved(c) <==> c in MARKUP || c == '\\'
  {
    var m := MARKUP;
    assert m[0] == '_' && m[1] == '*' && m[2] == '[' && m[3] == ']' && m[4] == '(' && m[5] == ')' && m[6] == '~';
    assert m[7] == '`' && m[8] == '>' && m[9] == '#' && m[10] == '+' && m[11] == '-' && m[12] == '=' && m[13] == '|';
    assert m[14] == '{' && m[15] == '}' && m[16] == '.' && m[17] == '!';
  }

  /** What Telegram displays: a backslash stands for the character after it.
      A reserved character without one, or a backslash at the end, is refused. */
  function Unescape(s: string): Option<string>
    decreases |s|
  {
    if s == "" then Some("")
    else if s[0] == '\\' then
      if |s| == 1 then None else Then(s[1], Unescape(s[2..]))
    else if s[0] in MARKUP then None
    else Then(s[0], Unescape(s[1..]))
  }

  function Then(c: char, rest: Option<string>): Option<string> {
    match rest case None => None case Some(r) => Some([c] + r)
  }

  /** Escaped text is accepted, and displayed as it was. */
  lemma {:induction false} Unescapes(s: string)
    ensures Unescape(Escape(s)) == Some(s)
  {
    if s != "" {
      Unescapes(s[1..]);
      ReservedAre(s[0]);
      var t, rest := Escape(s), Escape(s[1..]);
      if Reserved(s[0]) {
        assert t[0] == '\\' && t[1] == s[0] && t[2..] == rest;
      } else {
        assert t[0] == s[0] && t[1..] == rest;
      }
      assert [s[0]] + s[1..] == s;
    }
  }

  // ---- the dangling escape ----

  function TrailingBackslashes(s: string): nat {
    if s != "" && s[|s| - 1] == '\\' then 1 + TrailingBackslashes(s[..|s| - 1]) else 0
  }

  function DropOrphan(head: string): string {
    if TrailingBackslashes(head) % 2 == 1 then head[..|head| - 1] else head
  }

  lemma TrailingSnoc(s: string, c: char)
    ensures TrailingBackslashes(s + [c]) == if c == '\\' then TrailingBackslashes(s) + 1 else 0
  {
    assert (s + [c])[..|s|] == s;
  }

  lemma AddsPair(base: string, c: char)
    requires TrailingBackslashes(base) % 2 == 0
    ensures TrailingBackslashes(base + EscapeChar(c)) % 2 == 0
  {
    if Reserved(c) {
      assert base + EscapeChar(c) == (base + ['\\']) + [c];
      TrailingSnoc(base, '\\');
      TrailingSnoc(base + ['\\'], c);
    } else {
      TrailingSnoc(base, c);
    }
  }

  lemma {:induction false} EscapedPairs(s: string)
    ensures TrailingBackslashes(Escape(s)) % 2 == 0
    decreases |s|
  {
    if s != "" {
      var init, c := s[..|s| - 1], s[|s| - 1];
      assert s == init + [c];
      EscapedPairs(init);
      EscapeSnoc(init, c);
      AddsPair(Escape(init), c);
    }
  }

  lemma {:induction false} EscapePrefixUnits(s: string, n: nat, k: nat)
    requires n <= k <= |s|
    ensures Units(Escape(s[..n])) <= Units(Escape(s[..k]))
  {
    assert s[..k] == s[..n] + s[n..k];
    EscapeAppend(s[..n], s[n..k]);
    UnitsAppend(Escape(s[..n]), Escape(s[n..k]));
  }

  ghost function EscapedUnits(): string -> nat {
    s => Units(Escape(s))
  }

  lemma DropsOrphan(whole: string, head: string)
    requires TrailingBackslashes(whole) % 2 == 0 && (head == whole || head == whole + ['\\'])
    ensures DropOrphan(head) == whole
  {
    if head != whole {
      TrailingSnoc(whole, '\\');
    }
  }

  /** Cutting escaped text anywhere and dropping an orphaned backslash leaves
      the escape of a prefix, and the longest one that fits. */
  lemma CutIsEscape(s: string, m: nat, budget: nat) returns (n: nat)
    requires m <= |Escape(s)| && Longest(Escape(s), m, budget, Utf16())
    ensures n <= |s| && DropOrphan(Escape(s)[..m]) == Escape(s[..n]) && Longest(s, n, budget, EscapedUnits())
  {
    n := LastWhole(s, m);
    WholeOrOrphan(s, n, m);
    EscapedPairs(s[..n]);
    DropsOrphan(Escape(s[..n]), Escape(s)[..m]);
    Fits(s, n, m, budget);
  }

  /** The last character whose escape ends within the first `m` characters. */
  lemma {:induction false} LastWhole(s: string, m: nat) returns (n: nat)
    ensures n <= |s| && |Escape(s[..n])| <= m && (n < |s| ==> |Escape(s[..n + 1])| > m)
    decreases |s|
  {
    if s != "" {
      var init, c := s[..|s| - 1], s[|s| - 1];
      assert s == init + [c];
      EscapeSnoc(init, c);
      if |Escape(s)| <= m {
        n := |s|;
        assert s[..n] == s;
      } else {
        n := LastWhole(init, m);
        assert init[..n] == s[..n];
        if n < |init| {
          assert init[..n + 1] == s[..n + 1];
        } else {
          assert s[..n + 1] == s;
        }
      }
    } else {
      n := 0;
    }
  }

  lemma WholeOrOrphan(s: string, n: nat, m: nat)
    requires n <= |s| && m <= |Escape(s)| && |Escape(s[..n])| <= m && (n < |s| ==> |Escape(s[..n + 1])| > m)
    ensures Escape(s)[..m] == Escape(s[..n]) || (n < |s| && Reserved(s[n]) && Escape(s)[..m] == Escape(s[..n]) + ['\\'])
  {
    assert s == s[..n] + s[n..];
    EscapeAppend(s[..n], s[n..]);
    if n == |s| {
      assert s[..n] == s;
    } else {
      assert s[..n + 1] == s[..n] + [s[n]];
      EscapeSnoc(s[..n], s[n]);
      assert Escape(s[n..]) == EscapeChar(s[n]) + Escape(s[n..][1..]);
    }
  }

  lemma Fits(s: string, n: nat, m: nat, budget: nat)
    requires m <= |Escape(s)| && Longest(Escape(s), m, budget, Utf16())
    requires n <= |s| && |Escape(s[..n])| <= m && (n < |s| ==> |Escape(s[..n + 1])| > m)
    ensures Longest(s, n, budget, EscapedUnits())
  {
    PrefixOfEscape(s, n);
    UnitsGrow(Escape(s), |Escape(s[..n])|, m);
    assert Utf16()(Escape(s)[..m]) <= budget;
    forall k | n < k <= |s|
      ensures EscapedUnits()(s[..k]) > budget
    {
      PrefixOfEscape(s, n + 1);
      assert Utf16()(Escape(s)[..|Escape(s[..n + 1])|]) > budget;
      EscapePrefixUnits(s, n + 1, k);
    }
  }

  lemma PrefixOfEscape(s: string, n: nat)
    requires n <= |s|
    ensures |Escape(s[..n])| <= |Escape(s)| && Escape(s)[..|Escape(s[..n])|] == Escape(s[..n])
  {
    assert s == s[..n] + s[n..];
    EscapeAppend(s[..n], s[n..]);
  }

  // ---- the body ----

  datatype ParseMode = PlainText | MarkdownV2 | OtherMode

  function Fixup(mode: ParseMode): string -> string {
    if mode.MarkdownV2? then head => DropOrphan(head) else head => head
  }

  function Notice(mode: ParseMode): string {
    if mode.MarkdownV2? then Escape(TRUNCATION_NOTICE) else TRUNCATION_NOTICE
  }

  method Truncate(text: string, mode: ParseMode) returns (out: string, ghost n: nat)
    ensures MendedCut(out, text, MAX_MESSAGE_UNITS, Notice(mode), Fixup(mode), n)
  {
    var notice := TRUNCATION_NOTICE;
    if mode.MarkdownV2? {
      notice := EscapeMarkdownV2(notice);
    }
    out, n := TruncateUtf16With(text, MAX_MESSAGE_UNITS, notice, Fixup(mode));
  }

  lemma OneUnits(c: char)
    requires Reserved(c)
    ensures Units([c]) == 1 && Units(Escape([c])) == 2
  {
    assert [c][1..] == "" && Escape([c]) == ['\\', c] + "";
    assert Escape([c])[1..] == [c];
  }

  lemma EscapedUnitsAppend(a: string, b: string)
    ensures Units(Escape(a + b)) == Units(Escape(a)) + Units(Escape(b))
  {
    EscapeAppend(a, b);
    UnitsAppend(Escape(a), Escape(b));
  }

  predicate PlainAscii(s: string) {
    forall i :: 0 <= i < |s| ==> s[i] as int < 0x80 && !Reserved(s[i])
  }

  lemma PlainUnits(s: string)
    requires PlainAscii(s)
    ensures Units(s) == |s| == Units(Escape(s))
  {
    NoEscape(s);
    AsciiUnits(s);
  }

  lemma BracketedUnits(before: string, open: char, word: string, close: char)
    requires PlainAscii(before) && PlainAscii(word) && Reserved(open) && Reserved(close)
    ensures var s := before + ([open] + (word + [close]));
      Units(s) == |before| + |word| + 2 && Units(Escape(s)) == |before| + |word| + 4
  {
    EscapedUnitsAppend(before, [open] + (word + [close]));
    EscapedUnitsAppend([open], word + [close]);
    EscapedUnitsAppend(word, [close]);
    UnitsAppend(before, [open] + (word + [close]));
    UnitsAppend([open], word + [close]);
    UnitsAppend(word, [close]);
    PlainUnits(before);
    PlainUnits(word);
    OneUnits(open);
    OneUnits(close);
  }

  /** The notice always fits, so the branch for one that does not is dead. */
  lemma NoticeUnits(mode: ParseMode)
    ensures Units(Notice(mode)) == if mode.MarkdownV2? then 14 else 12
  {
    BracketedUnits("\n", '[', "truncated", ']');
    NoticeCut();
  }

  lemma NoticeCut()
    ensures TRUNCATION_NOTICE == "\n" + (['['] + ("truncated" + [']']))
  {
  }

  lemma {:induction false} NoEscape(s: string)
    requires forall i :: 0 <= i < |s| ==> !Reserved(s[i])
    ensures Escape(s) == s
  {
    if s != "" {
      NoEscape(s[1..]);
      assert [s[0]] + s[1..] == s;
    }
  }

  lemma {:induction false} AsciiUnits(s: string)
    requires forall i :: 0 <= i < |s| ==> s[i] as int < 0x80
    ensures Units(s) == |s|
  {
    if s != "" {
      AsciiUnits(s[1..]);
    }
  }

  /** What goes out is within the cap, and Telegram displays the whole text, or
      its longest prefix that fits followed by the notice. */
  ghost predicate Displays(out: string, text: string, budget: nat, notice: string, n: nat) {
    && Units(out) <= budget
    && if Units(Escape(text)) <= budget then out == Escape(text) && Unescape(out) == Some(text)
       else
         && Longest(text, n, budget - Units(Escape(notice)), EscapedUnits())
         && out == Escape(text[..n]) + Escape(notice)
         && Unescape(out) == Some(text[..n] + notice)
  }

  lemma FixupDrops(head: string)
    ensures Fixup(MarkdownV2)(head) == DropOrphan(head)
  {
  }

  lemma FitsEscaped(s: string, n: nat, budget: int)
    requires Longest(s, n, budget, EscapedUnits())
    ensures n <= |s| && Units(Escape(s[..n])) <= budget
  {
    assert EscapedUnits()(s[..n]) <= budget;
  }

  lemma CutShows(text: string, n: nat, notice: string, budget: nat)
    requires n <= |text| && Units(Escape(text)) > budget && Units(Escape(text[..n])) <= budget - Units(Escape(notice))
    requires Longest(text, n, budget - Units(Escape(notice)), EscapedUnits())
    ensures Displays(Escape(text[..n]) + Escape(notice), text, budget, notice, n)
  {
    hide Unescape, Units, Escape, Longest, EscapedUnits;
    UnitsAppend(Escape(text[..n]), Escape(notice));
    EscapeAppend(text[..n], notice);
    Unescapes(text[..n] + notice);
  }

  lemma CutParts(out: string, rendered: string, budget: nat, notice: string, m: nat)
    requires MendedCut(out, rendered, budget, notice, Fixup(MarkdownV2), m) && Units(rendered) > budget > Units(notice)
    ensures m <= |rendered| && out == DropOrphan(rendered[..m]) + notice
    ensures Longest(rendered, m, budget - Units(notice), Utf16())
  {
    hide Units, DropOrphan, Longest, Utf16;
    FixupDrops(rendered[..m]);
  }

  lemma WholeShows(text: string, out: string, budget: nat, notice: string, m: nat)
    requires MendedCut(out, Escape(text), budget, Escape(notice), Fixup(MarkdownV2), m) && Units(Escape(text)) <= budget
    ensures Displays(out, text, budget, notice, 0)
  {
    hide Unescape, Units, Escape, Longest, Fixup, Utf16, EscapedUnits;
    Unescapes(text);
  }

  lemma MarkdownCut(text: string, out: string, budget: nat, notice: string, m: nat) returns (n: nat)
    requires MendedCut(out, Escape(text), budget, Escape(notice), Fixup(MarkdownV2), m) && budget > Units(Escape(notice))
    ensures Displays(out, text, budget, notice, n)
  {
    hide Unescape, Units, Escape, DropOrphan, Longest, Fixup, Utf16, EscapedUnits, MendedCut, Displays;
    n := 0;
    if Units(Escape(text)) > budget {
      CutParts(out, Escape(text), budget, Escape(notice), m);
      n := CutIsEscape(text, m, budget - Units(Escape(notice)));
      FitsEscaped(text, n, budget - Units(Escape(notice)));
      CutShows(text, n, notice, budget);
    } else {
      WholeShows(text, out, budget, notice, m);
    }
  }

  method RenderMarkdown(text: string) returns (out: string, ghost n: nat)
    ensures Displays(out, text, 4096, TRUNCATION_NOTICE, n)
  {
    var rendered := EscapeMarkdownV2(text);
    ghost var m;
    out, m := Truncate(rendered, MarkdownV2);
    NoticeUnits(MarkdownV2);
    n := MarkdownCut(text, out, MAX_MESSAGE_UNITS, TRUNCATION_NOTICE, m);
  }

  lemma PlainCut(text: string, out: string, budget: nat, notice: string, mode: ParseMode, n: nat)
    requires !mode.MarkdownV2? && MendedCut(out, text, budget, notice, Fixup(mode), n)
    requires Units(text) > budget > Units(notice)
    ensures Longest(text, n, budget - Units(notice), Utf16()) && out == text[..n] + notice && Units(out) <= budget
  {
    assert Fixup(mode)(text[..n]) == text[..n];
    assert Utf16()(text[..n]) <= budget - Units(notice);
    UnitsAppend(text[..n], notice);
  }

  /** Any other body is the text, or its longest prefix that fits with the notice. */
  method RenderPlain(text: string, mode: ParseMode) returns (out: string, ghost n: nat)
    requires !mode.MarkdownV2?
    ensures Units(out) <= 4096
    ensures Units(text) <= 4096 ==> out == text
    ensures Units(text) > 4096 ==>
      Longest(text, n, 4096 - 12, Utf16()) && out == text[..n] + TRUNCATION_NOTICE
  {
    out, n := Truncate(text, mode);
    if Units(text) > MAX_MESSAGE_UNITS {
      NoticeUnits(mode);
      PlainCut(text, out, MAX_MESSAGE_UNITS, TRUNCATION_NOTICE, mode, n);
    }
  }
}
