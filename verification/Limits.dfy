/** Message-size caps: each cutter keeps the longest prefix that fits its unit. */
module Limits {
  import opened Common
  import Utf8

  const TRUNCATION_NOTICE := "\n[truncated]"

  /** UTF-16 code units of one character. */
  function Width(c: char): nat {
    if c as int < 0x10000 then 1 else 2
  }

  /** The code units of UTF-16: a surrogate pair above the basic plane. */
  function Utf16Of(c: char): seq<int> {
    var n := c as int;
    if n <= 0xFFFF then [n] else [0xD800 + (n - 0x10000) / 0x400, 0xDC00 + (n - 0x10000) % 0x400]
  }

  function Utf16Text(s: string): seq<int> {
    if s == "" then [] else Utf16Of(s[0]) + Utf16Text(s[1..])
  }

  /** The length of a text is that of its encoding. */
  lemma {:induction false} UnitsAre(s: string)
    ensures Units(s) == |Utf16Text(s)|
  {
    if s != "" {
      UnitsAre(s[1..]);
    }
  }

  function Units(s: string): nat {
    if s == "" then 0 else Width(s[0]) + Units(s[1..])
  }

  lemma {:induction false} UnitsAppend(a: string, b: string)
    ensures Units(a + b) == Units(a) + Units(b)
    decreases |a|
  {
    if a == "" {
      assert a + b == b;
    } else {
      assert (a + b)[1..] == a[1..] + b;
      UnitsAppend(a[1..], b);
    }
  }

  lemma UnitsSnoc(s: string, c: char)
    ensures Units(s + [c]) == Units(s) + Width(c)
  {
    UnitsAppend(s, [c]);
    assert [c][1..] == "";
  }

  /** `n` characters fit, and no more. */
  ghost predicate Longest(s: string, n: nat, budget: int, cost: string -> nat) {
    n <= |s| && cost(s[..n]) <= budget && forall k :: n < k <= |s| ==> cost(s[..k]) > budget
  }

  ghost function Utf16(): string -> nat {
    s => Units(s)
  }

  ghost function Bytes(): string -> nat {
    s => |Utf8.Encode(s)|
  }

  lemma {:induction false} UnitsGrow(s: string, n: nat, k: nat)
    requires n <= k <= |s|
    ensures Units(s[..n]) <= Units(s[..k])
  {
    assert s[..k] == s[..n] + s[n..k];
    UnitsAppend(s[..n], s[n..k]);
  }

  method TakeUtf16(text: string, maxUnits: nat) returns (out: string)
    ensures out <= text && Longest(text, |out|, maxUnits, Utf16())
  {
    out := "";
    var used := 0;
    var i := 0;
    while i < |text|
      invariant 0 <= i <= |text| && out == text[..i]
      invariant used == Units(out) <= maxUnits
    {
      var width := Width(text[i]);
      assert text[..i + 1] == text[..i] + [text[i]];
      UnitsSnoc(text[..i], text[i]);
      if used + width > maxUnits {
        forall k | i < k <= |text|
          ensures Utf16()(text[..k]) > maxUnits
        {
          UnitsGrow(text, i + 1, k);
        }
        return;
      }
      out := out + [text[i]];
      used := used + width;
      i := i + 1;
    }
  }

  /** How a text is cut: left alone, cut without a notice because the notice
      itself is too long, or cut with room for the notice. */
  ghost predicate CutTo(out: string, text: string, budget: nat, notice: string, cost: string -> nat) {
    if cost(text) <= budget then out == text
    else if cost(notice) >= budget then out <= text && Longest(text, |out|, budget, cost)
    else exists n :: 0 <= n <= |text| && out == text[..n] + notice && Longest(text, n, budget - cost(notice), cost)
  }

  /** The same, where the part that is kept is mended before the notice follows. */
  ghost predicate MendedCut(out: string, text: string, budget: nat, notice: string, fixup: string -> string, n: nat) {
    if Units(text) <= budget then out == text
    else if Units(notice) >= budget then out <= text && Longest(text, |out|, budget, Utf16())
    else n <= |text| && out == fixup(text[..n]) + notice && Longest(text, n, budget - Units(notice), Utf16())
  }

  method TruncateUtf16With(text: string, maxUnits: nat, notice: string, fixup: string -> string) returns (out: string, ghost n: nat)
    ensures MendedCut(out, text, maxUnits, notice, fixup, n)
  {
    n := 0;
    if Units(text) <= maxUnits {
      return text, n;
    }
    if Units(notice) >= maxUnits {
      out := TakeUtf16(text, maxUnits);
    } else {
      var head := TakeUtf16(text, maxUnits - Units(notice));
      n := |head|;
      assert head == text[..n];
      out := fixup(head) + notice;
    }
  }

  // ---- bytes ----

  lemma {:induction false} EncodeAppend(a: string, b: string)
    ensures Utf8.Encode(a + b) == Utf8.Encode(a) + Utf8.Encode(b)
    decreases |a|
  {
    if a == "" {
      assert a + b == b;
    } else {
      assert (a + b)[1..] == a[1..] + b;
      EncodeAppend(a[1..], b);
    }
  }

  predicate IsCharBoundary(bs: seq<Utf8.Byte>, i: nat) {
    i == 0 || i == |bs| || (i < |bs| && !Utf8.Continues(bs[i]))
  }

  lemma CharBytes(c: char, i: nat)
    requires i < |Utf8.EncodeChar(c)|
    ensures Utf8.Continues(Utf8.EncodeChar(c)[i]) <==> i > 0
  {
  }

  /** The boundaries are where the encoding of a prefix ends. */
  lemma {:induction false} BoundaryIsPrefix(s: string, i: nat) returns (k: nat)
    requires i <= |Utf8.Encode(s)| && IsCharBoundary(Utf8.Encode(s), i)
    ensures k <= |s| && |Utf8.Encode(s[..k])| == i && Utf8.Encode(s)[..i] == Utf8.Encode(s[..k])
    decreases |s|
  {
    if i == 0 {
      k := 0;
    } else {
      var first, rest := Utf8.EncodeChar(s[0]), Utf8.Encode(s[1..]);
      var m := |first|;
      if i < m {
        CharBytes(s[0], i);
        assert false;
      }
      if i > m && i < |first + rest| {
        assert (first + rest)[i] == rest[i - m];
      }
      if i == m {
        k := 1;
        assert s[..1][1..] == "";
        assert Utf8.Encode(s[..1]) == first + [];
      } else {
        var k' := BoundaryIsPrefix(s[1..], i - m);
        k := k' + 1;
        assert s[..k][1..] == s[1..][..k'];
        assert (first + rest)[..i] == first + rest[..i - m];
      }
    }
  }

  lemma {:induction false} PrefixIsBoundary(s: string, k: nat)
    requires k <= |s|
    ensures |Utf8.Encode(s[..k])| <= |Utf8.Encode(s)| && IsCharBoundary(Utf8.Encode(s), |Utf8.Encode(s[..k])|)
  {
    assert s == s[..k] + s[k..];
    EncodeAppend(s[..k], s[k..]);
    if k < |s| {
      CharBytes(s[k], 0);
      assert s[k..][0] == s[k];
    }
  }

  lemma BytesGrow(s: string, n: nat, k: nat)
    requires n < k <= |s|
    ensures |Utf8.Encode(s[..n])| < |Utf8.Encode(s[..k])|
  {
    assert s[..k] == s[..n] + s[n..k];
    EncodeAppend(s[..n], s[n..k]);
  }

  /** The walk back to a character boundary keeps the longest prefix that fits. */
  method CutBytes(text: string, budget: nat) returns (head: string)
    requires budget < |Utf8.Encode(text)|
    ensures head <= text && Longest(text, |head|, budget, Bytes())
  {
    var bs := Utf8.Encode(text);
    var end := budget;
    while end > 0 && !IsCharBoundary(bs, end)
      invariant 0 <= end <= budget
      invariant forall i :: end < i <= budget ==> !IsCharBoundary(bs, i)
    {
      end := end - 1;
    }
    ghost var k := BoundaryIsPrefix(text, end);
    Utf8.RoundTrip(text[..k]);
    head := Utf8.Decode(bs[..end]).value;
    forall j | k < j <= |text|
      ensures Bytes()(text[..j]) > budget
    {
      PrefixIsBoundary(text, j);
      BytesGrow(text, k, j);
    }
  }

  method TruncateBytes(text: string, maxBytes: nat, notice: string) returns (out: string)
    ensures CutTo(out, text, maxBytes, notice, Bytes())
  {
    if |Utf8.Encode(text)| <= maxBytes {
      return text;
    }
    var noticeBytes := |Utf8.Encode(notice)|;
    if noticeBytes >= maxBytes {
      out := CutBytes(text, maxBytes);
    } else {
      var head := CutBytes(text, maxBytes - noticeBytes);
      assert head == text[..|head|];
      out := head + notice;
    }
  }

  // ---- characters ----

  ghost function Chars(): string -> nat {
    s => |s|
  }

  method TruncateChars(text: string, maxChars: nat, notice: string) returns (out: string)
    ensures CutTo(out, text, maxChars, notice, Chars())
  {
    if |text| <= maxChars {
      return text;
    }
    if |notice| >= maxChars {
      out := text[..maxChars];
      assert Longest(text, |out|, maxChars, Chars());
    } else {
      out := text[..maxChars - |notice|] + notice;
      assert Longest(text, maxChars - |notice|, maxChars - |notice|, Chars());
    }
  }
}
