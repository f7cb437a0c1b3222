/** Header values as RFC 2047 encoded-words. */
module HeaderWords {
  import opened Common
  import opened Text
  import Utf8

  const ENCODED_WORD_MAX := 75
  const OPEN := "=?UTF-8?Q?"
  const CLOSE := "?="

  // ---- the encoder ----

  predicate IsControl(c: char) {
    c as int < 0x20 || 0x7F <= c as int < 0xA0
  }

  predicate IsAscii(s: string) {
    forall i :: 0 <= i < |s| ==> s[i] as int < 0x80
  }

  predicate IsAlphanumeric(c: char) {
    '0' <= c <= '9' || 'A' <= c <= 'Z' || 'a' <= c <= 'z'
  }

  function Flatten(raw: string): (r: string)
    ensures |r| == |raw|
    ensures forall i :: 0 <= i < |r| ==> r[i] == (if IsControl(raw[i]) then ' ' else raw[i])
  {
    seq(|raw|, i requires 0 <= i < |raw| => if IsControl(raw[i]) then ' ' else raw[i])
  }

  /** Control characters are those of the C0 and C1 sets, and delete. */
  lemma ControlsAre(c: char)
    ensures IsControl(c) <==> c < ' ' || c == '\U{7F}' || '\U{80}' <= c <= '\U{9F}'
  {
  }

  function HexDigit(n: nat): (c: char)
    requires n < 16
    ensures '0' <= c <= '9' || 'A' <= c <= 'F'
  {
    ['0', '1', '2', '3', '4', '5', '6', '7', '8', '9', 'A', 'B', 'C', 'D', 'E', 'F'][n]
  }

  function HexByte(b: Utf8.Byte): string {
    ['=', HexDigit(b / 16), HexDigit(b % 16)]
  }

  function HexBytes(bs: seq<Utf8.Byte>): (r: string)
    ensures |r| == 3 * |bs|
  {
    if bs == [] then "" else HexByte(bs[0]) + HexBytes(bs[1..])
  }

  function QChar(c: char): (r: string)
    ensures 1 <= |r| <= 12
  {
    if IsAlphanumeric(c) then [c] else if c == ' ' then "_" else HexBytes(Utf8.EncodeChar(c))
  }

  function QText(s: string): string {
    if s == "" then "" else QChar(s[0]) + QText(s[1..])
  }

  function Word(q: string): string {
    OPEN + q + CLOSE
  }

  function Words(chunks: seq<string>): seq<string> {
    seq(|chunks|, i requires 0 <= i < |chunks| => Word(QText(chunks[i])))
  }

  function Concat(chunks: seq<string>): string {
    if chunks == [] then "" else chunks[0] + Concat(chunks[1..])
  }

  // ---- the decoder ----

  predicate At(s: string, pattern: string, k: nat) {
    k + |pattern| <= |s| && s[k..k + |pattern|] == pattern
  }

  lemma AtShift(s: string, pattern: string)
    requires s != ""
    ensures forall k: nat :: At(s[1..], pattern, k) <==> At(s, pattern, k + 1)
  {
    forall k: nat
      ensures At(s[1..], pattern, k) <==> At(s, pattern, k + 1)
    {
      if k + |pattern| < |s| {
        assert s[1..][k..k + |pattern|] == s[k + 1..k + 1 + |pattern|];
      }
    }
  }

  function Find(s: string, pattern: string): (r: Option<nat>)
    requires pattern != ""
    ensures r.Some? ==> At(s, pattern, r.value) && r.value + |pattern| <= |s|
    ensures r.Some? ==> forall k: nat :: k < r.value ==> !At(s, pattern, k)
    ensures r.None? ==> forall k: nat :: !At(s, pattern, k)
  {
    if |s| < |pattern| then None
    else if At(s, pattern, 0) then Some(0)
    else
      AtShift(s, pattern);
      assert forall k: nat :: k > 0 && At(s, pattern, k) ==> At(s[1..], pattern, k - 1);
      match Find(s[1..], pattern)
      case None => None
      case Some(k) => Some(k + 1)
  }

  function HexValue(c: char): Option<nat> {
    if '0' <= c <= '9' then Some(c as int - '0' as int)
    else if 'A' <= c <= 'F' then Some(c as int - 'A' as int + 10)
    else if 'a' <= c <= 'f' then Some(c as int - 'a' as int + 10)
    else None
  }

  /** The bytes of one encoded-word (RFC 2047, section 4.2). */
  function DecodeQ(q: string): Option<seq<Utf8.Byte>>
    decreases |q|
  {
    if q == "" then Some([])
    else if q[0] == '=' then
      if |q| < 3 || HexValue(q[1]).None? || HexValue(q[2]).None? then None
      else
        var high, low := HexValue(q[1]).value, HexValue(q[2]).value;
        if high >= 16 || low >= 16 then None
        else Prepend([16 * high + low], DecodeQ(q[3..]))
    else if q[0] == '_' then Prepend([32], DecodeQ(q[1..]))
    else Prepend(Utf8.EncodeChar(q[0]), DecodeQ(q[1..]))
  }

  function Prepend(bs: seq<Utf8.Byte>, rest: Option<seq<Utf8.Byte>>): Option<seq<Utf8.Byte>> {
    match rest case None => None case Some(r) => Some(bs + r)
  }

  function DecodeWord(q: string): Option<string> {
    match DecodeQ(q) case None => None case Some(bs) => Utf8.Decode(bs)
  }

  /** A header value as it is displayed (RFC 2047, section 6.2): each
      encoded-word decoded by itself, and the space between two of them dropped. */
  function DecodeFrom(s: string, afterWord: bool): Option<string>
    decreases |s|
  {
    match Find(s, OPEN)
    case None => Some(s)
    case Some(start) =>
      var gap, rest := s[..start], s[start + |OPEN|..];
      match Find(rest, CLOSE)
      case None => None
      case Some(end) =>
        var text, tail := DecodeWord(rest[..end]), DecodeFrom(rest[end + |CLOSE|..], true);
        if text.None? || tail.None? then None
        else Some((if afterWord && Trim(gap) == "" then "" else gap) + text.value + tail.value)
  }

  function Decode(s: string): Option<string> {
    DecodeFrom(s, false)
  }

  // ---- one word ----

  lemma HexRoundTrip(n: nat)
    requires n < 16
    ensures HexValue(HexDigit(n)) == Some(n)
  {
  }

  lemma DecodeHexByte(b: Utf8.Byte, rest: string)
    ensures DecodeQ(HexByte(b) + rest) == Prepend([b], DecodeQ(rest))
  {
    var q := HexByte(b) + rest;
    assert q[0] == '=' && q[1] == HexDigit(b / 16) && q[2] == HexDigit(b % 16) && q[3..] == rest;
    HexRoundTrip(b / 16);
    HexRoundTrip(b % 16);
  }

  lemma {:induction false} DecodeHex(bs: seq<Utf8.Byte>, rest: string)
    ensures DecodeQ(HexBytes(bs) + rest) == Prepend(bs, DecodeQ(rest))
    decreases |bs|
  {
    if bs == [] {
      assert HexBytes(bs) + rest == rest;
      if DecodeQ(rest).Some? {
        assert bs + DecodeQ(rest).value == DecodeQ(rest).value;
      }
    } else {
      Assoc(HexByte(bs[0]), HexBytes(bs[1..]), rest);
      DecodeHexByte(bs[0], HexBytes(bs[1..]) + rest);
      DecodeHex(bs[1..], rest);
      if DecodeQ(rest).Some? {
        Assoc([bs[0]], bs[1..], DecodeQ(rest).value);
        assert [bs[0]] + bs[1..] == bs;
      }
    }
  }

  lemma DecodeQChar(c: char, rest: string)
    ensures DecodeQ(QChar(c) + rest) == Prepend(Utf8.EncodeChar(c), DecodeQ(rest))
  {
    var q := QChar(c) + rest;
    if IsAlphanumeric(c) || c == ' ' {
      assert q[1..] == rest;
    } else {
      DecodeHex(Utf8.EncodeChar(c), rest);
    }
  }

  lemma {:induction false} DecodeQText(s: string)
    ensures DecodeQ(QText(s)) == Some(Utf8.Encode(s))
  {
    if s != "" {
      DecodeQText(s[1..]);
      DecodeQChar(s[0], QText(s[1..]));
    }
  }

  /** A word decodes by itself to the whole characters it was made from. */
  lemma WordRoundTrip(s: string)
    ensures DecodeWord(QText(s)) == Some(s)
  {
    DecodeQText(s);
    Utf8.RoundTrip(s);
  }

  /** What an encoded-word can hold: letters, digits, the underscore that stands
      for a space, and the sign that starts an encoded byte. */
  predicate QSafe(s: string) {
    forall i :: 0 <= i < |s| ==> '0' <= s[i] <= '9' || 'A' <= s[i] <= 'Z' || 'a' <= s[i] <= 'z' || s[i] == '=' || s[i] == '_'
  }

  lemma {:induction false} HexSafe(bs: seq<Utf8.Byte>)
    ensures QSafe(HexBytes(bs))
  {
    if bs != [] {
      HexSafe(bs[1..]);
    }
  }

  lemma {:induction false} QTextSafe(s: string)
    ensures QSafe(QText(s))
  {
    if s != "" {
      QTextSafe(s[1..]);
      HexSafe(Utf8.EncodeChar(s[0]));
    }
  }

  // ---- many words ----

  lemma FindIs(s: string, pattern: string, k: nat)
    requires pattern != "" && At(s, pattern, k) && forall i: nat :: i < k ==> !At(s, pattern, i)
    ensures Find(s, pattern) == Some(k)
  {
  }

  /** The closing mark is the first one after the text, which has no `?`. */
  lemma FindClose(q: string, rest: string, s: string)
    requires QSafe(q) && s == q + CLOSE + rest
    ensures Find(s, CLOSE) == Some(|q|) && s[..|q|] == q && s[|q| + |CLOSE|..] == rest
  {
    assert s[|q|..|q| + 2] == CLOSE;
    forall i: nat | i < |q|
      ensures !At(s, CLOSE, i)
    {
      assert s[i..i + |CLOSE|][0] == q[i] != CLOSE[0];
    }
    FindIs(s, CLOSE, |q|);
  }

  lemma OpenHere(gap: string, rest: string, s: string)
    requires gap == "" || gap == " "
    requires s == gap + OPEN + rest
    ensures Find(s, OPEN) == Some(|gap|) && s[..|gap|] == gap && s[|gap| + |OPEN|..] == rest
  {
    assert s[|gap|..|gap| + |OPEN|] == OPEN;
    if gap == " " {
      assert s[0..|OPEN|][0] == ' ';
    }
    FindIs(s, OPEN, |gap|);
  }

  /** The decoder's turn, where it finds a word. */
  lemma DecodeTurn(s: string, afterWord: bool, gap: string, body: string, q: string, rest: string)
    requires Find(s, OPEN) == Some(|gap|) && s[..|gap|] == gap && s[|gap| + |OPEN|..] == body
    requires Find(body, CLOSE) == Some(|q|) && body[..|q|] == q && body[|q| + |CLOSE|..] == rest
    ensures DecodeFrom(s, afterWord) ==
            if DecodeWord(q).None? || DecodeFrom(rest, true).None? then None
            else Some((if afterWord && Trim(gap) == "" then "" else gap) + DecodeWord(q).value + DecodeFrom(rest, true).value)
  {
  }

  lemma WordParts(gap: string, q: string, rest: string)
    ensures gap + Word(q) + rest == gap + OPEN + (q + CLOSE + rest)
  {
    Assoc(gap, OPEN + q, CLOSE);
    Assoc(gap, OPEN, q);
    Assoc(gap + OPEN, q, CLOSE);
    Assoc(gap + OPEN, q + CLOSE, rest);
  }

  lemma BlankGap()
    ensures Trim(" ") == "" && Trim("") == ""
  {
  }

  /** One word, then the rest. */
  lemma DecodeStep(gap: string, chunk: string, rest: string, afterWord: bool, s: string)
    requires gap == (if afterWord then " " else "") && s == gap + Word(QText(chunk)) + rest
    ensures DecodeFrom(s, afterWord) ==
            match DecodeFrom(rest, true) case None => None case Some(tail) => Some(chunk + tail)
  {
    hide QText, DecodeFrom, DecodeWord, Find, Word;
    var q := QText(chunk);
    var body := q + CLOSE + rest;
    WordParts(gap, q, rest);
    OpenHere(gap, body, s);
    QTextSafe(chunk);
    FindClose(q, rest, body);
    WordRoundTrip(chunk);
    BlankGap();
    DecodeTurn(s, afterWord, gap, body, q, rest);
    EmptyLeft(chunk);
  }

  /** Everything after the first word, with the spaces that fold the line. */
  function Folded(chunks: seq<string>): string {
    if chunks == [] then "" else " " + Word(QText(chunks[0])) + Folded(chunks[1..])
  }

  lemma {:induction false} FoldedIsJoin(chunks: seq<string>)
    requires chunks != []
    ensures Join(Words(chunks), " ") == Word(QText(chunks[0])) + Folded(chunks[1..])
  {
    var ws := Words(chunks);
    assert ws[1..] == Words(chunks[1..]);
    if |chunks| > 1 {
      FoldedIsJoin(chunks[1..]);
      assert " " + Join(ws[1..], " ") == Folded(chunks[1..]);
      Assoc(ws[0], " ", Join(ws[1..], " "));
    } else {
      assert ws[0] + "" == ws[0];
    }
  }

  lemma {:induction false} DecodeFolded(chunks: seq<string>)
    ensures DecodeFrom(Folded(chunks), true) == Some(Concat(chunks))
    decreases |chunks|
  {
    if chunks != [] {
      DecodeFolded(chunks[1..]);
      DecodeStep(" ", chunks[0], Folded(chunks[1..]), true, Folded(chunks));
    }
  }

  /** The words of a header, read together, give back the text they were made from. */
  lemma WordsRoundTrip(chunks: seq<string>)
    requires chunks != []
    ensures Decode(Join(Words(chunks), " ")) == Some(Concat(chunks))
  {
    hide QText, DecodeFrom, Word;
    var s, rest := Join(Words(chunks), " "), Folded(chunks[1..]);
    FoldedIsJoin(chunks);
    DecodeFolded(chunks[1..]);
    EmptyLeft(Word(QText(chunks[0])));
    DecodeStep("", chunks[0], rest, false, s);
  }

  // ---- the whole header ----

  predicate Printable(s: string) {
    forall i :: 0 <= i < |s| ==> 0x20 <= s[i] as int < 0x7F
  }

  lemma QSafePrintable(q: string)
    requires QSafe(q)
    ensures Printable(Word(q))
  {
  }

  lemma {:induction false} JoinPrintable(parts: seq<string>)
    requires forall i :: 0 <= i < |parts| ==> Printable(parts[i])
    ensures Printable(Join(parts, " "))
  {
    if |parts| > 1 {
      JoinPrintable(parts[1..]);
    }
  }

  lemma {:induction false} ConcatSnoc(chunks: seq<string>, chunk: string)
    ensures Concat(chunks + [chunk]) == Concat(chunks) + chunk
  {
    if chunks == [] {
      assert chunks + [chunk] == [chunk];
    } else {
      assert (chunks + [chunk])[1..] == chunks[1..] + [chunk];
      ConcatSnoc(chunks[1..], chunk);
      Assoc(chunks[0], Concat(chunks[1..]), chunk);
    }
  }

  lemma {:induction false} QTextSnoc(s: string, c: char)
    ensures QText(s + [c]) == QText(s) + QChar(c)
  {
    if s == "" {
      assert s + [c] == [c] && [c][1..] == "";
      assert QText([c]) == QChar(c) + "";
    } else {
      assert (s + [c])[1..] == s[1..] + [c];
      QTextSnoc(s[1..], c);
      Assoc(QChar(s[0]), QText(s[1..]), QChar(c));
    }
  }

  lemma TrimPlain(s: string)
    ensures forall i :: 0 <= i < |Trim(s)| ==> Trim(s)[i] in s
  {
    TrimStartPlain(s);
  }

  lemma {:induction false} TrimStartPlain(s: string)
    ensures forall i :: 0 <= i < |TrimStart(s)| ==> TrimStart(s)[i] in s
  {
    if s != "" && IsWhite(s[0]) {
      TrimStartPlain(s[1..]);
    }
  }

  lemma PlainPrintable(raw: string)
    requires IsAscii(Trim(Flatten(raw)))
    ensures Printable(Trim(Flatten(raw)))
  {
    var text := Trim(Flatten(raw));
    TrimPlain(Flatten(raw));
    forall i | 0 <= i < |text|
      ensures 0x20 <= text[i] as int < 0x7F
    {
      assert text[i] in Flatten(raw);
    }
  }

  /** The line that encodes these chunks is legal, and each word stands alone. */
  ghost predicate Legal(out: string, chunks: seq<string>) {
    && out == Join(Words(chunks), " ")
    && forall i :: 0 <= i < |chunks| ==>
         chunks[i] != "" && |Words(chunks)[i]| <= 75 && QSafe(QText(chunks[i])) && DecodeWord(QText(chunks[i])) == Some(chunks[i])
  }

  lemma NoOpen(text: string)
    requires Find(text, "=?") == None
    ensures Decode(text) == Some(text)
  {
    forall k: nat
      ensures !At(text, OPEN, k)
    {
      if At(text, OPEN, k) {
        assert text[k..k + 2] == text[k..k + |OPEN|][..2];
        assert At(text, "=?", k);
        assert false;
      }
    }
  }

  lemma Finish(text: string, chunks: seq<string>)
    requires text != "" && Concat(chunks) == text
    requires forall k :: 0 <= k < |chunks| ==> chunks[k] != "" && |QText(chunks[k])| <= ENCODED_WORD_MAX - |OPEN| - |CLOSE|
    ensures var out := Join(Words(chunks), " "); Legal(out, chunks) && Decode(out) == Some(text) && Printable(out)
  {
    WordsRoundTrip(chunks);
    forall k | 0 <= k < |chunks|
      ensures Printable(Words(chunks)[k]) && QSafe(QText(chunks[k])) && DecodeWord(QText(chunks[k])) == Some(chunks[k])
    {
      QTextSafe(chunks[k]);
      QSafePrintable(QText(chunks[k]));
      WordRoundTrip(chunks[k]);
    }
    JoinPrintable(Words(chunks));
  }

  const BUDGET := ENCODED_WORD_MAX - |OPEN| - |CLOSE|

  /** `text` cut into finished chunks and an open one, each short enough for a word. */
  ghost predicate Cut(text: string, done: seq<string>, open: string) {
    && Concat(done) + open == text && |QText(open)| <= BUDGET
    && forall k :: 0 <= k < |done| ==> done[k] != "" && |QText(done[k])| <= BUDGET
  }

  /** The word had no room for the character after it. */
  predicate Full(word: string, next: string) {
    next != "" && |Word(QText(word))| + |QChar(next[0])| > 75
  }

  lemma FullAt(word: string, c: char)
    requires |QText(word)| + |QChar(c)| > BUDGET
    ensures Full(word, [c])
  {
  }

  /** No finished word had. */
  ghost predicate Packed(done: seq<string>, open: string) {
    && (forall k :: 0 < k < |done| ==> Full(done[k - 1], done[k]))
    && (done != [] && open != "" ==> Full(done[|done| - 1], open))
  }

  lemma PackedHere(done: seq<string>, open: string)
    requires Packed(done, open) && open != ""
    ensures Packed(done + [open], "")
  {
    hide Full;
  }

  lemma PackedGrows(done: seq<string>, open: string, c: char)
    requires Packed(done, open)
    requires open == "" && done != [] ==> Full(done[|done| - 1], [c])
    ensures Packed(done, open + [c])
  {
    if open != "" && done != [] {
      assert Full(done[|done| - 1], open);
      assert (open + [c])[0] == open[0];
    }
  }

  lemma CutHere(text: string, done: seq<string>, open: string)
    requires Cut(text, done, open) && open != ""
    ensures Cut(text, done + [open], "") && Words(done + [open]) == Words(done) + [Word(QText(open))]
  {
    ConcatSnoc(done, open);
    assert Concat(done + [open]) + "" == Concat(done + [open]);
    assert Words(done + [open]) == Words(done) + [Word(QText(open))];
  }

  lemma CutGrows(text: string, done: seq<string>, open: string, c: char)
    requires Cut(text, done, open) && |QText(open)| + |QChar(c)| <= BUDGET
    ensures Cut(text + [c], done, open + [c]) && QText(open + [c]) == QText(open) + QChar(c)
  {
    QTextSnoc(open, c);
    Assoc(Concat(done), open, [c]);
  }

  /** The loop's state: finished words, and the encoded text of the open chunk. */
  ghost predicate Folding(text: string, words: seq<string>, current: string, chunks: seq<string>, open: string) {
    words == Words(chunks) && current == QText(open) && Cut(text, chunks, open)
  }

  lemma QTextEmpty(s: string)
    ensures QText(s) == "" <==> s == ""
  {
  }

  lemma CloseWord(text: string, words: seq<string>, current: string, chunks: seq<string>, open: string)
    requires Folding(text, words, current, chunks, open) && current != ""
    ensures Folding(text, words + [Word(current)], "", chunks + [open], "")
  {
    CutHere(text, chunks, open);
  }

  lemma GrowWord(text: string, words: seq<string>, current: string, chunks: seq<string>, open: string, c: char)
    requires Folding(text, words, current, chunks, open) && |current| + |QChar(c)| <= BUDGET
    ensures Folding(text + [c], words, current + QChar(c), chunks, open + [c])
  {
    CutGrows(text, chunks, open, c);
  }

  lemma NothingOpen(text: string, words: seq<string>, chunks: seq<string>, open: string)
    requires Folding(text, words, "", chunks, open)
    ensures words == Words(chunks) && Cut(text, chunks, "")
  {
    QTextEmpty(open);
  }

  lemma OpenText(text: string, words: seq<string>, current: string, chunks: seq<string>, open: string)
    requires Folding(text, words, current, chunks, open)
    ensures current == QText(open) && (open == "" <==> current == "")
  {
    QTextEmpty(open);
  }

  lemma PackedStarts()
    ensures Packed([], "")
  {
  }

  lemma FoldingStarts()
    ensures Folding("", [], "", [], "")
  {
  }

  method FoldWords(text: string) returns (words: seq<string>, ghost chunks: seq<string>)
    ensures words == Words(chunks) && Cut(text, chunks, "") && Packed(chunks, "")
  {
    hide Folding, QText, QChar, Word, Words, Cut, Packed, Full;
    words := [];
    chunks := [];
    var current := "";
    ghost var open := "";
    var i := 0;
    FoldingStarts();
    PackedStarts();
    while i < |text|
      invariant 0 <= i <= |text|
      invariant Folding(text[..i], words, current, chunks, open)
      invariant Packed(chunks, open)
      invariant open == "" ==> chunks == []
    {
      var encoded := QChar(text[i]);
      OpenText(text[..i], words, current, chunks, open);
      if current != "" && |current| + |encoded| > BUDGET {
        CloseWord(text[..i], words, current, chunks, open);
        FullAt(open, text[i]);
        PackedHere(chunks, open);
        words := words + [Word(current)];
        chunks := chunks + [open];
        current, open := "", "";
      }
      GrowWord(text[..i], words, current, chunks, open, text[i]);
      PackedGrows(chunks, open, text[i]);
      assert text[..i + 1] == text[..i] + [text[i]];
      current := current + encoded;
      open := open + [text[i]];
      i := i + 1;
    }
    assert text[..i] == text;
    if current != "" {
      OpenText(text, words, current, chunks, open);
      CloseWord(text, words, current, chunks, open);
      PackedHere(chunks, open);
      words := words + [Word(current)];
      chunks := chunks + [open];
      open := "";
    } else {
      OpenText(text, words, current, chunks, open);
    }
    NothingOpen(text, words, chunks, open);
  }

  /** Whatever the title, what is displayed is the title with its control
      characters as spaces, trimmed; what is sent is printable ASCII. Plain text
      goes out as it is; otherwise it goes out in words of at most 75 characters,
      cut between characters. */
  method EncodeHeaderValue(raw: string) returns (out: string, ghost chunks: seq<string>)
    ensures Decode(out) == Some(Trim(Flatten(raw)))
    ensures Printable(out)
    ensures var text := Trim(Flatten(raw));
      if IsAscii(text) && Find(text, "=?").None? then out == text
      else Legal(out, chunks) && Concat(chunks) == text && Packed(chunks, "")
  {
    var text := Trim(Flatten(raw));
    if IsAscii(text) && Find(text, "=?").None? {
      PlainPrintable(raw);
      NoOpen(text);
      return text, [];
    }
    var words;
    words, chunks := FoldWords(text);
    assert Concat(chunks) + "" == Concat(chunks);
    Finish(text, chunks);
    out := Join(words, " ");
  }
}
