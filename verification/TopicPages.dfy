/** How topics become page names. */
module TopicPages {
  import opened Common
  import opened Text
  import opened LinkText
  import opened FactText
  import opened FactKey

  function SlugFrom(u: Unicode, s: string, lastDash: bool): string {
    if s == "" then ""
    else if u.alnum(s[0]) then u.lower(s[0]) + SlugFrom(u, s[1..], false)
    else if s[0] == '/' then "/" + SlugFrom(u, s[1..], true)
    else if !lastDash then "-" + SlugFrom(u, s[1..], true)
    else SlugFrom(u, s[1..], lastDash)
  }

  function TrimDashes(s: string): (r: string)
    ensures r <= s
    ensures r != "" ==> r[|r| - 1] != '-'
  {
    if s != "" && s[|s| - 1] == '-' then TrimDashes(s[..|s| - 1]) else s
  }

  function Slug(u: Unicode, topic: string): string {
    TrimDashes(SlugFrom(u, Trim(topic), true))
  }

  method Slugify(u: Unicode, topic: string) returns (out: string)
    ensures out == Slug(u, topic)
  {
    var s := Trim(topic);
    out := "";
    var lastDash := true;
    var i := 0;
    assert s[0..] == s;
    assert "" + SlugFrom(u, s, true) == SlugFrom(u, s, true);
    while i < |s|
      invariant 0 <= i <= |s|
      invariant SlugFrom(u, s, true) == out + SlugFrom(u, s[i..], lastDash)
    {
      var c := s[i];
      assert s[i..][1..] == s[i + 1..];
      if u.alnum(c) {
        Assoc(out, u.lower(c), SlugFrom(u, s[i + 1..], false));
        out := out + u.lower(c);
        lastDash := false;
      } else if c == '/' {
        Assoc(out, "/", SlugFrom(u, s[i + 1..], true));
        out := out + "/";
        lastDash := true;
      } else if !lastDash {
        Assoc(out, "-", SlugFrom(u, s[i + 1..], true));
        out := out + "-";
        lastDash := true;
      }
      i := i + 1;
    }
    out := TrimDashes(out + "");
    assert SlugFrom(u, s, true) + "" == SlugFrom(u, s, true);
  }

  predicate PageText(s: string) {
    forall i :: 0 <= i < |s| ==> PageChar(s[i])
  }

  lemma {:induction false} SlugFromText(u: Unicode, s: string, lastDash: bool)
    requires Sane(u)
    ensures PageText(SlugFrom(u, s, lastDash))
    decreases |s|
  {
    if s != "" {
      SlugFromText(u, s[1..], false);
      SlugFromText(u, s[1..], true);
      if u.alnum(s[0]) {
        assert PageText(u.lower(s[0]));
      }
    }
  }

  /** Every slug is a topic that survives the printed block, unless it is empty. */
  lemma SlugIsTopic(u: Unicode, topic: string)
    requires Sane(u) && Slug(u, topic) != ""
    ensures Topic(Slug(u, topic))
  {
    SlugFromText(u, Trim(topic), true);
    assert PageText(Slug(u, topic));
  }

  // ---- what a slug is made of ----

  /** No lower-case form has a dash in it. */
  ghost predicate NoDashes(u: Unicode) {
    forall c, i :: u.alnum(c) && 0 <= i < |u.lower(c)| ==> u.lower(c)[i] != '-'
  }

  function Runs(u: Unicode, s: string): seq<string> {
    Split(s, Sep(u))
  }

  function EndsApart(u: Unicode, s: string): bool {
    s != "" && !u.alnum(s[|s| - 1])
  }

  lemma {:induction false} SlugOfWord(u: Unicode, s: string, n: nat, lastDash: bool)
    requires n <= |s| && (forall i :: 0 <= i < n ==> u.alnum(s[i]))
    ensures SlugFrom(u, s, lastDash) == LowerWord(u, s[..n]) + SlugFrom(u, s[n..], if n == 0 then lastDash else false)
    decreases n
  {
    if n == 0 {
      assert s[..0] == "" && s[0..] == s;
    } else {
      SlugOfWord(u, s[1..], n - 1, false);
      assert s[1..][..n - 1] == s[..n][1..] && s[1..][n - 1..] == s[n..];
      Assoc(u.lower(s[0]), LowerWord(u, s[..n][1..]), SlugFrom(u, s[n..], false));
    }
  }

  /** The words with dashes between them, and one more after them if the text goes on. */
  function Dashed(words: seq<string>, more: bool): string {
    Join(words, "-") + if words != [] && more then "-" else ""
  }

  lemma DashedCons(w: string, words: seq<string>, more: bool)
    ensures Dashed([w] + words, more) == w + if words != [] then "-" + Dashed(words, more) else if more then "-" else ""
  {
    if words != [] {
      assert ([w] + words)[1..] == words;
      Assoc(w, "-", Join(words, "-"));
      Assoc(w, "-" + Join(words, "-"), if more then "-" else "");
      Assoc("-", Join(words, "-"), if more then "-" else "");
    }
  }

  lemma LoweredCons(u: Unicode, w: string, words: seq<string>)
    ensures Lowered(u, [w] + words) == [LowerWord(u, w)] + Lowered(u, words)
  {
  }

  lemma {:induction false} SlugIsDashed(u: Unicode, s: string)
    requires Sane(u) && '/' !in s
    ensures SlugFrom(u, s, true) == Dashed(Lowered(u, Runs(u, s)), EndsApart(u, s))
    decreases |s|
  {
    if s != "" {
      if !u.alnum(s[0]) {
        SlugIsDashed(u, s[1..]);
      } else {
        var n := RunLength(s, Sep(u));
        SlugOfRun(u, s, n);
      }
    }
  }

  lemma {:induction false} SlugOfRun(u: Unicode, s: string, n: nat)
    requires Sane(u) && '/' !in s && s != "" && u.alnum(s[0]) && n == RunLength(s, Sep(u))
    ensures SlugFrom(u, s, true) == Dashed(Lowered(u, Runs(u, s)), EndsApart(u, s))
    decreases |s|, 0
  {
    SlugOfWord(u, s, n, true);
    SplitWord(s, n, Sep(u));
    var w, rest := LowerWord(u, s[..n]), s[n..];
    LoweredCons(u, s[..n], Runs(u, rest));
    DashedCons(w, Lowered(u, Runs(u, rest)), EndsApart(u, s));
    if rest != "" {
      SlugIsDashed(u, rest[1..]);
      assert Sep(u)(rest[0]) && rest[0] in s;
      assert SlugFrom(u, rest, false) == "-" + SlugFrom(u, rest[1..], true);
      assert Runs(u, rest) == Runs(u, rest[1..]);
      assert EndsApart(u, s) == EndsApart(u, rest);
      if Runs(u, rest) == [] {
        if u.alnum(rest[|rest| - 1]) {
          HasRun(u, rest);
        }
        assert "-" + "" == "-";
      } else {
        assert rest[1..] != "";
      }
    } else {
      assert w + "" == w;
    }
  }

  lemma {:induction false} JoinEnds(parts: seq<string>, sep: string)
    requires parts != [] && parts[|parts| - 1] != ""
    ensures var last := parts[|parts| - 1]; Join(parts, sep) != "" && Join(parts, sep)[|Join(parts, sep)| - 1] == last[|last| - 1]
  {
    if |parts| > 1 {
      JoinEnds(parts[1..], sep);
    }
  }

  lemma {:induction false} LowerEnds(u: Unicode, w: string)
    requires Sane(u) && NoDashes(u) && w != "" && forall i :: 0 <= i < |w| ==> u.alnum(w[i])
    ensures LowerWord(u, w) != "" && LowerWord(u, w)[|LowerWord(u, w)| - 1] != '-'
  {
    if |w| > 1 {
      LowerEnds(u, w[1..]);
    } else {
      assert LowerWord(u, w) == u.lower(w[0]) + "";
    }
  }

  lemma TrimsDash(s: string)
    requires s == "" || s[|s| - 1] != '-'
    ensures TrimDashes(s) == s == TrimDashes(s + "-")
  {
    assert (s + "-")[..|s|] == s;
  }

  /** The slug of a topic without slashes: its runs of letters and digits, those
      the key of a statement is made of, in lower case with single dashes. */
  lemma SlugIsWords(u: Unicode, topic: string)
    requires Sane(u) && NoDashes(u) && '/' !in Trim(topic)
    ensures Slug(u, topic) == Join(Lowered(u, Split(Trim(topic), Sep(u))), "-")
  {
    var s := Trim(topic);
    SlugIsDashed(u, s);
    var runs := Runs(u, s);
    var words := Lowered(u, runs);
    if runs != [] {
      var last := runs[|runs| - 1];
      assert forall i :: 0 <= i < |last| ==> !Sep(u)(last[i]);
      LowerEnds(u, last);
      JoinEnds(words, "-");
    }
    TrimsDash(Join(words, "-"));
    assert Join(words, "-") + "" == Join(words, "-");
  }

  predicate Less(a: string, b: string) {
    if b == "" then false
    else if a == "" then true
    else a[0] < b[0] || (a[0] == b[0] && Less(a[1..], b[1..]))
  }

  lemma {:induction false} LessTotal(a: string, b: string)
    ensures Less(a, b) || a == b || Less(b, a)
    ensures !(Less(a, b) && Less(b, a)) && !Less(a, a)
    decreases |a|
  {
    if a != "" && b != "" {
      LessTotal(a[1..], b[1..]);
      assert a == [a[0]] + a[1..] && b == [b[0]] + b[1..];
    }
    if a != "" {
      LessTotal(a[1..], a[1..]);
    }
  }

  lemma {:induction false} LessTrans(a: string, b: string, c: string)
    requires Less(a, b) && Less(b, c)
    ensures Less(a, c)
    decreases |a|
  {
    if a != "" && a[0] == b[0] == c[0] {
      LessTrans(a[1..], b[1..], c[1..]);
    }
  }

  /** One name comes before another when it is a prefix of it, or has the smaller
      character where they first differ. */
  lemma {:induction false} LessIs(a: string, b: string, n: nat)
    requires n <= |a| && n <= |b| && a[..n] == b[..n]
    requires n < |a| && n < |b| ==> a[n] != b[n]
    ensures Less(a, b) <==> n < |b| && (n == |a| || a[n] < b[n])
    decreases n
  {
    if n > 0 {
      assert a[0] == a[..n][0] && b[0] == b[..n][0];
      assert a[1..][..n - 1] == a[..n][1..] && b[1..][..n - 1] == b[..n][1..];
      LessIs(a[1..], b[1..], n - 1);
    }
  }

  predicate Ascending(names: seq<string>) {
    forall i, j :: 0 <= i < j < |names| ==> Less(names[i], names[j])
  }

  function Insert(names: seq<string>, name: string): seq<string> {
    if names == [] || Less(name, names[0]) then [name] + names
    else if name == names[0] then names
    else [names[0]] + Insert(names[1..], name)
  }

  lemma {:induction false} InsertKeeps(names: seq<string>, name: string)
    requires Ascending(names)
    ensures Ascending(Insert(names, name))
    ensures forall x :: x in Insert(names, name) <==> x in names || x == name
  {
    if names == [] || Less(name, names[0]) {
      forall i | 0 <= i < |names|
        ensures Less(name, names[i])
      {
        if i > 0 {
          LessTrans(name, names[0], names[i]);
        }
      }
    } else if name != names[0] {
      LessTotal(name, names[0]);
      InsertKeeps(names[1..], name);
      assert Ascending(names[1..]);
      var rest := Insert(names[1..], name);
      forall i | 0 <= i < |rest|
        ensures Less(names[0], rest[i])
      {
        assert rest[i] in names[1..] || rest[i] == name;
      }
      assert names == [names[0]] + names[1..];
    }
  }

  /** `sort` and `dedup`. */
  function Sorted(names: seq<string>): seq<string> {
    if names == [] then [] else Insert(Sorted(names[..|names| - 1]), names[|names| - 1])
  }

  lemma {:induction false} SortedKeeps(names: seq<string>)
    ensures Ascending(Sorted(names))
    ensures forall x :: x in Sorted(names) <==> x in names
  {
    if names != [] {
      var m := |names| - 1;
      SortedKeeps(names[..m]);
      InsertKeeps(Sorted(names[..m]), names[m]);
      assert names == names[..m] + [names[m]];
    }
  }

  /** The slugs of the topics, blanks dropped. */
  function Slugs(u: Unicode, topics: seq<string>): seq<string> {
    if topics == [] then []
    else
      var m := |topics| - 1;
      Slugs(u, topics[..m]) + if Slug(u, topics[m]) == "" then [] else [Slug(u, topics[m])]
  }

  function Pages(u: Unicode, topics: seq<string>): seq<string> {
    Sorted(Slugs(u, topics))
  }

  method NormalizeTopics(u: Unicode, topics: seq<string>) returns (names: seq<string>)
    ensures names == Pages(u, topics)
  {
    names := [];
    var i := 0;
    while i < |topics|
      invariant 0 <= i <= |topics|
      invariant names == Pages(u, topics[..i])
    {
      var slug := Slugify(u, topics[i]);
      assert topics[..i + 1][..i] == topics[..i];
      var slugs := Slugs(u, topics[..i]);
      if slug != "" {
        assert Slugs(u, topics[..i + 1]) == slugs + [slug];
        assert (slugs + [slug])[..|slugs|] == slugs;
        names := Insert(names, slug);
      } else {
        assert Slugs(u, topics[..i + 1]) == slugs + [] == slugs;
      }
      i := i + 1;
    }
    assert topics[..i] == topics;
  }

  lemma {:induction false} SlugsAre(u: Unicode, topics: seq<string>)
    ensures forall x :: x in Slugs(u, topics) <==> x != "" && exists i :: 0 <= i < |topics| && x == Slug(u, topics[i])
  {
    if topics != [] {
      var m := |topics| - 1;
      SlugsAre(u, topics[..m]);
      assert topics == topics[..m] + [topics[m]];
    }
  }

  /** Normalized topics: sorted, each page once, and fit for a block. */
  lemma PagesAre(u: Unicode, topics: seq<string>)
    requires Sane(u)
    ensures Ascending(Pages(u, topics)) && Topics(Pages(u, topics))
    ensures forall x :: x in Pages(u, topics) <==> x != "" && exists i :: 0 <= i < |topics| && x == Slug(u, topics[i])
  {
    var names := Pages(u, topics);
    SortedKeeps(Slugs(u, topics));
    SlugsAre(u, topics);
    AscendingDistinct(names);
    forall i | 0 <= i < |names|
      ensures Topic(names[i])
    {
      assert names[i] in names;
      var k :| 0 <= k < |topics| && names[i] == Slug(u, topics[k]);
      SlugIsTopic(u, topics[k]);
    }
  }

  lemma AscendingDistinct(names: seq<string>)
    requires Ascending(names)
    ensures Distinct(names)
  {
    forall i, j | 0 <= i < j < |names|
      ensures names[i] != names[j]
    {
      LessTotal(names[i], names[j]);
    }
  }

  /** A topic spelled as a date is its own slug, so normalizing does not keep it out of a block. */
  lemma {:induction false} DateIsItsSlug(u: Unicode, date: string)
    requires Sane(u) && IsoShape(date)
    ensures Slug(u, date) == date
  {
    DateIsTopic(date);
    TrimsToItself(date);
    DateSlug(u, date, 10);
    assert IsDigit(date[9]);
  }

  lemma {:induction false} DateSlug(u: Unicode, date: string, n: nat)
    requires Sane(u) && IsoShape(date) && n <= 10
    ensures SlugFrom(u, date[10 - n..], n == 10) == date[10 - n..]
    ensures n < 10 && IsDigit(date[9 - n]) ==> SlugFrom(u, date[10 - n..], false) == date[10 - n..]
    decreases n
  {
    var s := date[10 - n..];
    if n > 0 {
      DateSlug(u, date, n - 1);
      assert s[1..] == date[11 - n..];
      assert s == [s[0]] + s[1..];
      assert u.alnum(s[0]) <==> s[0] != '-';
    }
  }
}
