/** Trimming, splitting, joining and searching text, as Rust's `str` does it. */
module Text {
  import opened Common

  /** The Unicode `White_Space` characters. */
  predicate IsWhite(c: char) {
    var n := c as int;
    || 0x9 <= n <= 0xD || n == 0x20 || n == 0x85 || n == 0xA0 || n == 0x1680 || 0x2000 <= n <= 0x200A
    || n == 0x2028 || n == 0x2029 || n == 0x202F || n == 0x205F || n == 0x3000
  }

  predicate IsDigit(c: char) {
    '0' <= c <= '9'
  }

  function TrimStart(s: string): (r: string)
    ensures |r| <= |s|
    ensures r != "" ==> !IsWhite(r[0])
  {
    if s != "" && IsWhite(s[0]) then TrimStart(s[1..]) else s
  }

  function TrimEnd(s: string): (r: string)
    ensures r <= s
    ensures r != "" ==> !IsWhite(r[|r| - 1])
  {
    if s != "" && IsWhite(s[|s| - 1]) then TrimEnd(s[..|s| - 1]) else s
  }

  function Trim(s: string): string {
    TrimEnd(TrimStart(s))
  }

  predicate Trimmed(s: string) {
    s != "" ==> !IsWhite(s[0]) && !IsWhite(s[|s| - 1])
  }

  lemma {:induction false} TrimsToItself(s: string)
    requires Trimmed(s)
    ensures Trim(s) == s && TrimStart(s) == s && TrimEnd(s) == s
  {
  }

  lemma TrimIsTrimmed(s: string)
    ensures Trimmed(Trim(s))
  {
    var a, b := TrimStart(s), Trim(s);
    if b != "" {
      assert b[0] == a[0];
    }
  }

  lemma Assoc<T>(a: seq<T>, b: seq<T>, c: seq<T>)
    ensures (a + b) + c == a + (b + c)
  {
  }

  lemma EmptyLeft<T>(a: seq<T>)
    ensures [] + a == a
  {
  }

  lemma EmptyRight<T>(a: seq<T>)
    ensures a + [] == a
  {
  }

  // ---- runs between separators ----

  function RunLength(s: string, sep: char -> bool): (n: nat)
    ensures n <= |s|
    ensures forall i :: 0 <= i < n ==> !sep(s[i])
    ensures n < |s| ==> sep(s[n])
  {
    if s == "" || sep(s[0]) then 0 else 1 + RunLength(s[1..], sep)
  }

  /** The maximal runs of characters that are no separators. */
  function Split(s: string, sep: char -> bool): (r: seq<string>)
    ensures forall i :: 0 <= i < |r| ==> r[i] != ""
    ensures forall i, j :: 0 <= i < |r| && 0 <= j < |r[i]| ==> !sep(r[i][j])
    decreases |s|
  {
    if s == "" then []
    else if sep(s[0]) then Split(s[1..], sep)
    else
      var n := RunLength(s, sep);
      [s[..n]] + Split(s[n..], sep)
  }

  function Words(s: string): seq<string> {
    Split(s, IsWhite)
  }

  function Join(parts: seq<string>, sep: string): string {
    if parts == [] then ""
    else if |parts| == 1 then parts[0]
    else parts[0] + sep + Join(parts[1..], sep)
  }

  /** `split_whitespace` and back, with single spaces. */
  function Collapse(s: string): string {
    Join(Words(s), " ")
  }

  lemma {:induction false} SplitOne(w: string, sep: char -> bool)
    requires w != "" && forall i :: 0 <= i < |w| ==> !sep(w[i])
    ensures Split(w, sep) == [w]
  {
    assert RunLength(w, sep) == |w|;
    assert w[..|w|] == w && w[|w|..] == "";
  }

  lemma RunLengthIs(s: string, n: nat, sep: char -> bool)
    requires n <= |s| && forall i :: 0 <= i < n ==> !sep(s[i])
    requires n < |s| ==> sep(s[n])
    ensures RunLength(s, sep) == n
  {
  }

  lemma SplitWord(s: string, n: nat, sep: char -> bool)
    requires s != "" && !sep(s[0]) && n == RunLength(s, sep)
    ensures Split(s, sep) == [s[..n]] + Split(s[n..], sep)
  {
  }

  /** A separator cuts the text in two. */
  lemma {:induction false} SplitAppend(a: string, c: char, b: string, sep: char -> bool)
    requires sep(c)
    ensures Split(a + [c] + b, sep) == Split(a, sep) + Split(b, sep)
    decreases |a|
  {
    var s := a + [c] + b;
    if a == "" {
      assert s[1..] == b;
    } else if sep(a[0]) {
      assert s[1..] == a[1..] + [c] + b;
      SplitAppend(a[1..], c, b, sep);
    } else {
      var n := RunLength(a, sep);
      RunLengthIs(s, n, sep);
      assert s[..n] == a[..n] && s[n..] == a[n..] + [c] + b;
      SplitAppend(a[n..], c, b, sep);
      SplitWord(s, n, sep);
      SplitWord(a, n, sep);
      hide Split, RunLength;
      Assoc([a[..n]], Split(a[n..], sep), Split(b, sep));
    }
  }

  lemma {:induction false} SplitTrimEnd(s: string)
    ensures Words(TrimEnd(s)) == Words(s)
    decreases |s|
  {
    if s != "" && IsWhite(s[|s| - 1]) {
      var init := s[..|s| - 1];
      assert s == init + [s[|s| - 1]] + "";
      SplitAppend(init, s[|s| - 1], "", IsWhite);
      SplitTrimEnd(init);
    }
  }

  lemma {:induction false} SplitTrimStart(s: string)
    ensures Words(TrimStart(s)) == Words(s)
    decreases |s|
  {
    if s != "" && IsWhite(s[0]) {
      SplitTrimStart(s[1..]);
    }
  }

  lemma CollapseTrims(s: string)
    ensures Collapse(Trim(s)) == Collapse(s)
  {
    SplitTrimEnd(TrimStart(s));
    SplitTrimStart(s);
  }

  lemma {:induction false} JoinSplits(parts: seq<string>)
    requires forall i :: 0 <= i < |parts| ==> parts[i] != ""
    requires forall i, j :: 0 <= i < |parts| && 0 <= j < |parts[i]| ==> !IsWhite(parts[i][j])
    ensures Words(Join(parts, " ")) == parts
  {
    if |parts| == 1 {
      SplitOne(parts[0], IsWhite);
      assert [parts[0]] == parts;
    } else if |parts| > 1 {
      JoinSplits(parts[1..]);
      SplitAppend(parts[0], ' ', Join(parts[1..], " "), IsWhite);
      SplitOne(parts[0], IsWhite);
      assert Join(parts, " ") == parts[0] + [' '] + Join(parts[1..], " ");
      assert [parts[0]] + parts[1..] == parts;
    }
  }

  lemma CollapseTwice(s: string)
    ensures Words(Collapse(s)) == Words(s) && Collapse(Collapse(s)) == Collapse(s)
  {
    JoinSplits(Words(s));
  }

  lemma {:induction false} JoinGrows(a: seq<string>, b: seq<string>, sep: string)
    requires b != [] && sep != ""
    requires forall i :: 0 <= i < |a| ==> a[i] != ""
    requires forall i :: 0 <= i < |b| ==> b[i] != ""
    ensures |Join(a + b, sep)| > |Join(a, sep)|
    decreases |a|
  {
    if a == [] {
      assert a + b == b;
    } else {
      JoinGrows(a[1..], b, sep);
      assert (a + b)[1..] == a[1..] + b;
    }
  }

  /** A text with another word in it never collapses to the same statement. */
  lemma CollapseGrows(a: string, b: string)
    requires exists i :: 0 <= i < |b| && !IsWhite(b[i])
    ensures Collapse(a + " " + b) != Collapse(a)
  {
    SplitAppend(a, ' ', b, IsWhite);
    assert a + " " + b == a + [' '] + b;
    HasWord(b);
    JoinGrows(Words(a), Words(b), " ");
  }

  lemma {:induction false} HasWord(s: string)
    requires exists i :: 0 <= i < |s| && !IsWhite(s[i])
    ensures Words(s) != []
    decreases |s|
  {
    var i :| 0 <= i < |s| && !IsWhite(s[i]);
    if IsWhite(s[0]) {
      assert !IsWhite(s[1..][i - 1]);
      HasWord(s[1..]);
    }
  }

  /** How the runs change when one more character arrives. */
  lemma {:induction false} SplitSnoc(s: string, c: char, sep: char -> bool)
    ensures sep(c) ==> Split(s + [c], sep) == Split(s, sep)
    ensures !sep(c) && (s == "" || sep(s[|s| - 1])) ==> Split(s + [c], sep) == Split(s, sep) + [[c]]
    ensures !sep(c) && s != "" && !sep(s[|s| - 1]) ==>
      var r := Split(s, sep);
      r != [] && Split(s + [c], sep) == r[..|r| - 1] + [r[|r| - 1] + [c]]
    decreases |s|
  {
    if sep(c) {
      SplitAppend(s, c, "", sep);
      assert s + [c] + "" == s + [c];
    } else if s == "" {
      SplitOne([c], sep);
      assert s + [c] == [c];
    } else if sep(s[|s| - 1]) {
      var init := s[..|s| - 1];
      assert s + [c] == init + [s[|s| - 1]] + [c];
      SplitAppend(init, s[|s| - 1], [c], sep);
      assert s == init + [s[|s| - 1]] + "";
      SplitAppend(init, s[|s| - 1], "", sep);
      SplitOne([c], sep);
    } else {
      SplitExtends(s, c, sep);
    }
  }

  lemma {:induction false} SplitExtends(s: string, c: char, sep: char -> bool)
    requires !sep(c) && s != "" && !sep(s[|s| - 1])
    ensures var r := Split(s, sep); r != [] && Split(s + [c], sep) == r[..|r| - 1] + [r[|r| - 1] + [c]]
    decreases |s|
  {
    if sep(s[0]) {
      assert (s + [c])[1..] == s[1..] + [c];
      SplitExtends(s[1..], c, sep);
    } else {
      var n := RunLength(s, sep);
      if n == |s| {
        SplitOne(s, sep);
        SplitOne(s + [c], sep);
      } else {
        RunLengthIs(s + [c], n, sep);
        assert (s + [c])[..n] == s[..n] && (s + [c])[n..] == s[n..] + [c];
        SplitExtends(s[n..], c, sep);
        var r := Split(s[n..], sep);
        SplitWord(s, n, sep);
        SplitWord(s + [c], n, sep);
        hide Split, RunLength;
        assert [s[..n]] + r[..|r| - 1] == ([s[..n]] + r)[..|r|];
      }
    }
  }

  lemma {:induction false} JoinSnoc(parts: seq<string>, w: string, sep: string)
    ensures Join(parts + [w], sep) == if parts == [] then w else Join(parts, sep) + sep + w
  {
    if parts == [] {
      assert parts + [w] == [w];
    } else {
      JoinSnoc(parts[1..], w, sep);
      assert (parts + [w])[1..] == parts[1..] + [w];
      if |parts| > 1 {
        assert Join(parts + [w], sep) == parts[0] + sep + (Join(parts[1..], sep) + sep + w);
      }
    }
  }

  // ---- searching for a doubled character ----

  predicate PairAt(s: string, c: char, k: nat) {
    k + 2 <= |s| && s[k] == c == s[k + 1]
  }

  /** `find` of the pair `cc`. */
  function FindPair(s: string, c: char): (r: Option<nat>)
    ensures r.Some? ==> r.value + 2 <= |s| && PairAt(s, c, r.value)
    ensures r.Some? ==> forall k: nat :: k < r.value ==> !PairAt(s, c, k)
    ensures r.None? ==> forall k: nat :: !PairAt(s, c, k)
  {
    if |s| < 2 then None
    else if PairAt(s, c, 0) then Some(0)
    else
      assert forall k: nat :: k > 0 && PairAt(s, c, k) ==> PairAt(s[1..], c, k - 1);
      assert forall k: nat :: PairAt(s[1..], c, k) ==> PairAt(s, c, k + 1);
      match FindPair(s[1..], c)
      case None => None
      case Some(k) => Some(k + 1)
  }

  /** `rfind` of the pair `cc`. */
  function RFindPair(s: string, c: char): (r: Option<nat>)
    ensures r.Some? ==> r.value + 2 <= |s| && PairAt(s, c, r.value)
    ensures r.Some? ==> forall k: nat :: k > r.value ==> !PairAt(s, c, k)
    ensures r.None? ==> forall k: nat :: !PairAt(s, c, k)
  {
    if |s| < 2 then None
    else if PairAt(s, c, |s| - 2) then Some(|s| - 2)
    else
      var init := s[..|s| - 1];
      assert forall k: nat :: PairAt(s, c, k) ==> PairAt(init, c, k);
      assert forall k: nat :: PairAt(init, c, k) ==> PairAt(s, c, k);
      RFindPair(init, c)
  }

  lemma FindPairIs(s: string, c: char, k: nat)
    requires PairAt(s, c, k) && forall i: nat :: i < k ==> !PairAt(s, c, i)
    ensures FindPair(s, c) == Some(k)
  {
  }

  lemma RFindPairIs(s: string, c: char, k: nat)
    requires PairAt(s, c, k) && forall i: nat :: i > k ==> !PairAt(s, c, i)
    ensures RFindPair(s, c) == Some(k)
  {
  }

  lemma NoPair(s: string, c: char)
    requires forall i: nat :: !PairAt(s, c, i)
    ensures FindPair(s, c) == None && RFindPair(s, c) == None
  {
  }

  /** Cutting at the first separator: where one text begins another, the parts
      before it are equal. */
  lemma CutAtFirst(sep: char, a: string, x: string, b: string, y: string)
    requires sep !in a && sep !in b && a + [sep] + x <= b + [sep] + y
    ensures a == b && x <= y
  {
    var s, t := a + [sep] + x, b + [sep] + y;
    assert s == t[..|s|];
    SameCut(sep, a, b, t);
    assert a == s[..|a|] && b == t[..|b|];
    assert x == s[|a| + 1..] && y == t[|b| + 1..];
  }

  lemma SameCut(sep: char, a: string, b: string, t: string)
    requires sep !in a && sep !in b && |a| < |t| && |b| < |t|
    requires a == t[..|a|] && b == t[..|b|] && t[|a|] == sep == t[|b|]
    ensures |a| == |b|
  {
  }
}
