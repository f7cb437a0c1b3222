/** The stdout channel of one persistent agent: which line answers which request. */
module Channel {
  // Frames arrive already decoded from JSON.

  import opened Common

  /** One field of a decoded JSON object. */
  datatype Field<+T> = Absent | Null | WrongType | Value(v: T)

  /** A line of the agent's stdout. `Noise` is anything that is not a JSON object. */
  datatype Line =
    | Noise
    | Object(kind: Field<string>, id: Field<string>, ok: Field<bool>,
             output: Field<string>, error: Field<string>, exitCode: Field<int>)

  datatype Frame = Frame(kind: Option<string>, id: Option<string>, ok: bool,
                         output: Option<string>, error: Option<string>, exitCode: Option<int>)
  {
    predicate IsReady() {
      kind == Some("ready")
    }

    /** A frame that can answer a request at all, whatever its id. */
    predicate IsReply() {
      kind == None || kind == Some("response")
    }

    predicate Answers(request: string) {
      IsReply() && (id == None || id == Some(request))
    }
  }

  function Optional<T>(f: Field<T>): Option<T> {
    if f.Value? then Some(f.v) else None
  }

  /** The kind filter first, then the typed decoding, as the reader applies them. */
  function Parse(line: Line): Option<Frame> {
    if line.Noise? then None
    else
      var hasResponseField := !line.id.Absent? || !line.output.Absent? || !line.error.Absent? || !line.exitCode.Absent?;
      var kindAccepted := match line.kind
        case Absent => hasResponseField
        case Value(k) => k == "hello" || k == "ready" || k == "response"
        case _ => false;
      var typed := !line.id.WrongType? && !line.output.WrongType? && !line.error.WrongType?
                   && !line.exitCode.WrongType? && (line.ok.Absent? || line.ok.Value?);
      if kindAccepted && typed then
        Some(Frame(Optional(line.kind), Optional(line.id), line.ok.Absent? || line.ok.v,
                   Optional(line.output), Optional(line.error), Optional(line.exitCode)))
      else None
  }

  /** Every field that is there has its type; only `ok` cannot be null. */
  predicate WellTyped(line: Line)
    requires line.Object?
  {
    && line.id != WrongType && line.output != WrongType && line.error != WrongType && line.exitCode != WrongType
    && (line.ok == Absent || line.ok.Value?)
  }

  /** A line answers request `id` exactly when it is an object with well-typed
      fields, of kind "response" or of no kind but with one of the fields of a
      response, null or not, and its id is missing, null or `id`. */
  lemma LineAnswersIff(line: Line, id: string)
    ensures Parse(line).Some? && Parse(line).value.Answers(id) <==>
      && line.Object? && WellTyped(line)
      && (line.kind == Value("response") ||
          (line.kind == Absent && !(line.id == Absent && line.output == Absent && line.error == Absent && line.exitCode == Absent)))
      && (line.id == Absent || line.id == Null || line.id == Value(id))
  {
  }

  /** A line is the ready frame exactly when it is a well-typed object of that
      kind, and then it answers nothing. It says that the agent is up unless its
      `ok` is false. */
  lemma LineReadyIff(line: Line)
    ensures Parse(line).Some? && Parse(line).value.IsReady() <==> line.Object? && WellTyped(line) && line.kind == Value("ready")
    ensures Parse(line).Some? && Parse(line).value.IsReady() ==>
      && (Parse(line).value.ok <==> line.ok != Value(false))
      && forall id :: !Parse(line).value.Answers(id)
  {
  }

  /** What an answer says is what its fields say. */
  lemma LineSays(line: Line)
    requires Parse(line).Some?
    ensures var f := Parse(line).value;
      && (forall x :: f.output == Some(x) <==> line.output == Value(x))
      && (forall x :: f.error == Some(x) <==> line.error == Value(x))
      && (forall x :: f.exitCode == Some(x) <==> line.exitCode == Value(x))
      && (f.ok <==> line.ok != Value(false))
  {
  }

  predicate IsReplyLine(line: Line) {
    Parse(line).Some? && Parse(line).value.IsReply()
  }

  /** A line as the agent wrote it: which request it is about, or 0 for none, and
      whether that request has no reply outstanding: the agent had replied to it
      already, or there is none. */
  datatype Emitted = Emitted(line: Line, about: nat, surplus: bool)
  {
    predicate Reply() {
      IsReplyLine(line)
    }

    predicate IdLess() {
      Reply() && Parse(line).value.id == None
    }

    /** A reply without an id that no request is owed: a second one, or one that
        is about no request at all. */
    predicate IdLessSurplus() {
      IdLess() && surplus
    }

    /** Replies name no request, or the request they are about. */
    predicate Honest() {
      Reply() ==> IdLess() || Parse(line).value.id == Some(NatText(about))
    }
  }

  /** What request number `id` was answered with. */
  datatype Answer = Answer(id: nat, item: Emitted)

  /** `asked` is the instance's `seq`; `open` says that request `asked` waits
      for its answer; `out` is written and not yet read; `spoken` are the
      requests that already have a reply, and 0. */
  datatype State = State(asked: nat, open: bool, out: seq<Emitted>, spoken: set<nat>, log: seq<Answer>)

  const Fresh := State(0, false, [], {0}, [])

  datatype Event =
    | Ask
    | Emit(line: Line, about: nat)
    | Read

  /** One event of the channel; `None` when it cannot happen. Agents reply to
      requests they were sent or print replies about none, and name no other
      request than the one they answer. */
  function Step(ch: State, e: Event): Option<State> {
    match e
    case Ask =>
      if ch.open then None else Some(ch.(asked := ch.asked + 1, open := true))
    case Emit(line, about) =>
      var item := Emitted(line, about, about in ch.spoken);
      if !item.Reply() then Some(ch.(out := ch.out + [item]))
      else if item.Honest() && about <= ch.asked then
        Some(ch.(out := ch.out + [item], spoken := ch.spoken + {about}))
      else None
    case Read =>
      if ch.out == [] then None
      else
        var item := ch.out[0];
        if ch.open && item.Reply() && Parse(item.line).value.Answers(NatText(ch.asked)) then
          Some(ch.(out := ch.out[1..], open := false, log := ch.log + [Answer(ch.asked, item)]))
        else Some(ch.(out := ch.out[1..]))
  }

  /** Every request so far got a reply that is about it. */
  predicate Genuine(ch: State) {
    forall i :: 0 <= i < |ch.log| ==> ch.log[i].item.about == ch.log[i].id
  }

  /** No answer so far was a second reply to some request. */
  predicate NoSurplusRead(ch: State) {
    forall i :: 0 <= i < |ch.log| ==> !ch.log[i].item.surplus
  }

  /** The agent never emitted an id-less surplus, unread lines included. */
  predicate NoIdLessSurplus(ch: State) {
    && (forall i :: 0 <= i < |ch.out| ==> !ch.out[i].IdLessSurplus())
    && (forall i :: 0 <= i < |ch.log| ==> !ch.log[i].item.IdLessSurplus())
  }

  /** What is known of the unread lines while every answer was genuine. */
  predicate Queue(ch: State) {
    && 0 in ch.spoken && (forall x :: x in ch.spoken ==> x <= ch.asked)
    && (forall x :: 1 <= x <= |ch.log| ==> x in ch.spoken)
    && (forall i :: 0 <= i < |ch.out| && ch.out[i].Reply() ==> ch.out[i].Honest() && ch.out[i].about in ch.spoken)
    && (forall i :: 0 <= i < |ch.out| && ch.out[i].IdLess() && !ch.out[i].surplus ==>
          ch.open && ch.out[i].about == ch.asked)
    && (forall i, j ::
          0 <= i < j < |ch.out| && ch.out[i].Reply() && ch.out[j].Reply() && ch.out[i].about == ch.out[j].about ==>
            ch.out[j].surplus)
    && (ch.open && ch.asked in ch.spoken ==> Waiting(ch))
    && EchoesFollow(ch)
  }

  /** Before any further reply to the open request there is an earlier one. */
  predicate EchoesFollow(ch: State) {
    forall i ::
      0 <= i < |ch.out| && ch.open && ch.out[i].Reply() && ch.out[i].about == ch.asked && ch.out[i].surplus ==>
        exists j :: 0 <= j < i && ch.out[j].Reply() && ch.out[j].about == ch.asked
  }

  /** The first reply to the open request is still unread. */
  predicate Waiting(ch: State) {
    exists j :: 0 <= j < |ch.out| && ch.out[j].Reply() && ch.out[j].about == ch.asked && !ch.out[j].surplus
  }

  ghost predicate Inv(ch: State) {
    && ch.asked == |ch.log| + (if ch.open then 1 else 0)
    && (forall i :: 0 <= i < |ch.log| ==> ch.log[i].id == i + 1)
    && (Genuine(ch) <==> NoSurplusRead(ch))
    && (Genuine(ch) ==> Queue(ch))
    && (forall i :: 0 <= i < |ch.log| && Genuine(ch) ==> ch.log[i].item.Reply())
    && (!Genuine(ch) ==> exists i :: 0 <= i < |ch.log| && ch.log[i].item.IdLess() && ch.log[i].item.surplus)
  }

  lemma AskKeepsInv(ch: State)
    requires Inv(ch) && Step(ch, Ask).Some?
    ensures Inv(Step(ch, Ask).value)
  {
    var ch' := Step(ch, Ask).value;
    assert ch'.out == ch.out && ch'.log == ch.log;
    assert Genuine(ch') == Genuine(ch) && NoSurplusRead(ch') == NoSurplusRead(ch);
  }

  lemma EmitKeepsInv(ch: State, line: Line, about: nat)
    requires Inv(ch) && Step(ch, Emit(line, about)).Some?
    ensures Inv(Step(ch, Emit(line, about)).value)
  {
    hide Parse, IsReplyLine;
    var ch' := Step(ch, Emit(line, about)).value;
    assert Genuine(ch') == Genuine(ch) && NoSurplusRead(ch') == NoSurplusRead(ch);
    if Genuine(ch) {
      var n := |ch.out|;
      assert forall i :: 0 <= i < n ==> ch'.out[i] == ch.out[i];
      if ch'.open && ch'.asked in ch'.spoken {
        if ch.asked in ch.spoken {
          var j :| 0 <= j < n && ch.out[j].Reply() && ch.out[j].about == ch.asked && !ch.out[j].surplus;
          assert ch'.out[j] == ch.out[j];
        } else {
          assert ch'.out[n].about == ch.asked;
        }
      }
      assert Queue(ch');
    }
  }

  lemma ReadKeepsInv(ch: State)
    requires Inv(ch) && Step(ch, Read).Some?
    ensures Inv(Step(ch, Read).value)
  {
    var ch' := Step(ch, Read).value;
    var item := ch.out[0];
    assert forall i :: 0 <= i < |ch'.out| ==> ch'.out[i] == ch.out[i + 1];
    if ch'.log == ch.log {
      assert Genuine(ch') == Genuine(ch) && NoSurplusRead(ch') == NoSurplusRead(ch);
      if Genuine(ch) {
        DropKeepsQueue(ch);
      }
    } else {
      var n := |ch.log|;
      assert forall i :: 0 <= i < n ==> ch'.log[i] == ch.log[i];
      assert ch'.log[n] == Answer(ch.asked, item);
      if Genuine(ch) {
        if !item.IdLess() && item.about != ch.asked {
          NatTextInjective(item.about, ch.asked);
          assert false;
        }
        assert item.about == ch.asked <==> !item.surplus;
        if item.about == ch.asked {
          AnswerKeepsQueue(ch);
        } else {
          assert ch'.log[n].item.IdLess() && ch'.log[n].item.surplus;
          assert !Genuine(ch') && !NoSurplusRead(ch');
        }
      } else {
        var i :| 0 <= i < n && ch.log[i].item.IdLess() && ch.log[i].item.surplus;
        assert ch'.log[i] == ch.log[i];
        var k :| 0 <= k < n && ch.log[k].item.about != ch.log[k].id;
        assert ch'.log[k] == ch.log[k];
      }
    }
  }

  /** A line that is dropped while a request is open is no reply to it. */
  lemma DroppedIsOther(ch: State)
    requires Inv(ch) && Genuine(ch) && ch.out != [] && ch.open && Step(ch, Read).value.log == ch.log
    ensures !(ch.out[0].Reply() && ch.out[0].about == ch.asked)
  {
  }

  lemma DropKeepsWaiting(ch: State, ch': State)
    requires ch.out != [] && ch' == ch.(out := ch.out[1..]) && Waiting(ch)
    requires !(ch.out[0].Reply() && ch.out[0].about == ch.asked)
    ensures Waiting(ch')
  {
    hide IsReplyLine;
    var j :| 0 <= j < |ch.out| && ch.out[j].Reply() && ch.out[j].about == ch.asked && !ch.out[j].surplus;
    assert ch'.out[j - 1] == ch.out[j];
  }

  lemma DropKeepsEchoes(ch: State, ch': State)
    requires ch.out != [] && ch' == ch.(out := ch.out[1..]) && EchoesFollow(ch)
    requires ch.open ==> !(ch.out[0].Reply() && ch.out[0].about == ch.asked)
    ensures EchoesFollow(ch')
  {
    hide IsReplyLine;
    forall i | 0 <= i < |ch'.out| && ch'.open && ch'.out[i].Reply() && ch'.out[i].about == ch'.asked && ch'.out[i].surplus
      ensures exists j :: 0 <= j < i && ch'.out[j].Reply() && ch'.out[j].about == ch'.asked
    {
      assert ch'.out[i] == ch.out[i + 1];
      var j :| 0 <= j < i + 1 && ch.out[j].Reply() && ch.out[j].about == ch.asked;
      assert ch'.out[j - 1] == ch.out[j];
    }
  }

  lemma DropKeepsQueue(ch: State)
    requires Inv(ch) && Genuine(ch) && ch.out != []
    requires var ch' := Step(ch, Read).value; ch'.log == ch.log
    ensures Queue(Step(ch, Read).value)
  {
    var ch' := Step(ch, Read).value;
    assert ch' == ch.(out := ch.out[1..]);
    if ch.open {
      DroppedIsOther(ch);
      if ch.asked in ch.spoken {
        DropKeepsWaiting(ch, ch');
      }
    }
    DropKeepsEchoes(ch, ch');
    hide EchoesFollow, Waiting, IsReplyLine, Parse;
    assert forall i :: 0 <= i < |ch'.out| ==> ch'.out[i] == ch.out[i + 1];
  }

  lemma AnswerKeepsQueue(ch: State)
    requires Inv(ch) && Genuine(ch) && ch.open && ch.out != []
    requires ch.out[0].Reply() && ch.out[0].about == ch.asked
    ensures Queue(Step(ch, Read).value)
  {
    var ch' := Step(ch, Read).value;
    assert forall i :: 0 <= i < |ch'.out| ==> ch'.out[i] == ch.out[i + 1];
  }

  /** Any event keeps the invariant. */
  lemma StepKeepsInv(ch: State, e: Event)
    requires Inv(ch) && Step(ch, e).Some?
    ensures Inv(Step(ch, e).value)
  {
    match e
    case Ask => AskKeepsInv(ch);
    case Emit(line, about) => EmitKeepsInv(ch, line, about);
    case Read => ReadKeepsInv(ch);
  }

  /** The channel after a whole history of events; events that cannot happen are skipped. */
  function RunFrom(ch: State, es: seq<Event>): State
    decreases |es|
  {
    if es == [] then ch
    else match Step(ch, es[0])
      case Some(ch') => RunFrom(ch', es[1..])
      case None => RunFrom(ch, es[1..])
  }

  lemma {:induction false} RunKeepsInv(ch: State, es: seq<Event>)
    requires Inv(ch)
    ensures Inv(RunFrom(ch, es))
    decreases |es|
  {
    if es != [] {
      match Step(ch, es[0])
      case Some(ch') =>
        StepKeepsInv(ch, es[0]);
        RunKeepsInv(ch', es[1..]);
      case None =>
        RunKeepsInv(ch, es[1..]);
    }
  }

  // ---- the lines of a history, apart from who was answered with them ----

  /** What the agent writes in one event. */
  function Written(ch: State, e: Event): seq<Emitted> {
    if e.Emit? then [Emitted(e.line, e.about, e.about in ch.spoken)] else []
  }

  /** When the event reads a line, whether a request was waiting for it. */
  function ReadFor(ch: State, e: Event): seq<bool> {
    if e.Read? then [ch.open] else []
  }

  /** The lines the agent wrote. */
  function Emissions(ch: State, es: seq<Event>): seq<Emitted>
    decreases |es|
  {
    if es == [] then []
    else match Step(ch, es[0])
      case Some(ch') => Written(ch, es[0]) + Emissions(ch', es[1..])
      case None => Emissions(ch, es[1..])
  }

  /** For each line that was read, in order, whether a request was waiting. */
  function Reads(ch: State, es: seq<Event>): seq<bool>
    decreases |es|
  {
    if es == [] then []
    else match Step(ch, es[0])
      case Some(ch') => ReadFor(ch, es[0]) + Reads(ch', es[1..])
      case None => Reads(ch, es[1..])
  }

  /** The earlier lines, or what was said before them, hold a reply about `x`. */
  predicate Spoken(ch: State, lines: seq<Emitted>, x: nat) {
    x in ch.spoken || exists j :: 0 <= j < |lines| && lines[j].Reply() && lines[j].about == x
  }

  /** A line is surplus exactly when it is about no request, or an earlier one is
      a reply about the same. */
  lemma {:induction false} SurplusIsRepeat(ch: State, es: seq<Event>, i: nat)
    requires i < |Emissions(ch, es)|
    ensures var lines := Emissions(ch, es); lines[i].surplus <==> Spoken(ch, lines[..i], lines[i].about)
    decreases |es|
  {
    match Step(ch, es[0])
    case None => SurplusIsRepeat(ch, es[1..], i);
    case Some(ch') =>
      var lines, rest := Emissions(ch, es), Emissions(ch', es[1..]);
      if !es[0].Emit? {
        SurplusIsRepeat(ch', es[1..], i);
        assert lines == rest && ch'.spoken == ch.spoken;
      } else if i > 0 {
        SurplusIsRepeat(ch', es[1..], i - 1);
        SpokenShift(ch, ch', lines[0], rest[..i - 1], rest[i - 1].about);
        assert lines[..i] == [lines[0]] + rest[..i - 1];
      }
  }

  lemma SpokenShift(ch: State, ch': State, item: Emitted, lines: seq<Emitted>, x: nat)
    requires ch'.spoken == if item.Reply() then ch.spoken + {item.about} else ch.spoken
    ensures Spoken(ch, [item] + lines, x) <==> Spoken(ch', lines, x)
  {
    hide IsReplyLine;
    var all := [item] + lines;
    if j :| 0 <= j < |lines| && lines[j].Reply() && lines[j].about == x {
      assert all[j + 1] == lines[j];
    }
    if j :| 0 <= j < |all| && all[j].Reply() && all[j].about == x {
      assert j > 0 ==> all[j] == lines[j - 1];
    }
    if item.Reply() && item.about == x {
      assert all[0] == item;
    }
  }

  /** Reading a line shifts the answers exactly when it is an id-less surplus and
      a request is waiting. */
  lemma ReadIsGenuine(ch: State)
    requires Inv(ch) && Step(ch, Read).Some?
    ensures Genuine(Step(ch, Read).value) <==> Genuine(ch) && !(ch.open && ch.out[0].IdLessSurplus())
  {
    var ch' := Step(ch, Read).value;
    var item := ch.out[0];
    if ch'.log != ch.log {
      var n := |ch.log|;
      assert forall i :: 0 <= i < n ==> ch'.log[i] == ch.log[i];
      assert ch'.log[n] == Answer(ch.asked, item);
      if Genuine(ch) && !item.IdLess() && item.about != ch.asked {
        NatTextInjective(item.about, ch.asked);
        assert false;
      }
    }
  }

  /** No line that was read while a request was waiting is an id-less surplus. */
  predicate NoIdLessRead(lines: seq<Emitted>, waits: seq<bool>) {
    |waits| <= |lines| && forall i :: 0 <= i < |waits| && waits[i] ==> !lines[i].IdLessSurplus()
  }

  lemma ReadShift(line: Emitted, lines: seq<Emitted>, waiting: bool, waits: seq<bool>)
    ensures NoIdLessRead([line] + lines, [waiting] + waits) <==> !(waiting && line.IdLessSurplus()) && NoIdLessRead(lines, waits)
  {
    hide IsReplyLine;
    var all, flags := [line] + lines, [waiting] + waits;
    if NoIdLessRead(all, flags) {
      assert flags[0] ==> !all[0].IdLessSurplus();
      forall i | 0 <= i < |waits| && waits[i]
        ensures !lines[i].IdLessSurplus()
      {
        assert all[i + 1] == lines[i] && flags[i + 1] == waits[i];
      }
    }
  }

  lemma {:induction false} ReadsFit(ch: State, es: seq<Event>)
    ensures |Reads(ch, es)| <= |ch.out| + |Emissions(ch, es)|
    decreases |es|
  {
    if es != [] {
      match Step(ch, es[0])
      case None => ReadsFit(ch, es[1..]);
      case Some(ch') => ReadsFit(ch', es[1..]);
    }
  }

  lemma GenuineStep(ch: State, e: Event, lines: seq<Emitted>, waits: seq<bool>)
    requires Inv(ch) && Step(ch, e).Some?
    ensures var ch' := Step(ch, e).value;
      Genuine(ch') && NoIdLessRead(ch'.out + lines, waits) <==>
        Genuine(ch) && NoIdLessRead(ch.out + (Written(ch, e) + lines), ReadFor(ch, e) + waits)
  {
    var ch' := Step(ch, e).value;
    match e
    case Ask =>
      hide NoIdLessRead, Inv;
      assert [] + lines == lines && [] + waits == waits;
    case Emit(line, about) =>
      hide NoIdLessRead, Inv;
      assert ch.out + (Written(ch, e) + lines) == ch'.out + lines && [] + waits == waits;
    case Read =>
      ReadIsGenuine(ch);
      ReadShift(ch.out[0], ch'.out + lines, ch.open, waits);
      hide NoIdLessRead, Inv, Genuine;
      assert ch.out + ([] + lines) == [ch.out[0]] + (ch'.out + lines);
  }

  lemma {:induction false} GenuineIff(ch: State, es: seq<Event>)
    requires Inv(ch)
    ensures Genuine(RunFrom(ch, es)) <==> Genuine(ch) && NoIdLessRead(ch.out + Emissions(ch, es), Reads(ch, es))
    decreases |es|
  {
    if es != [] {
      var next := Step(ch, es[0]);
      if next.Some? {
        StepKeepsInv(ch, es[0]);
        GenuineStep(ch, es[0], Emissions(next.value, es[1..]), Reads(next.value, es[1..]));
        hide Inv, Genuine, NoIdLessRead, Step;
        GenuineIff(next.value, es[1..]);
      } else {
        GenuineIff(ch, es[1..]);
      }
    }
  }

  /** Answers never shift: over every history, each of the requests 1..n was
      answered by a reply about it exactly when no line that was read while a
      request was waiting is a reply without an id that no request was owed: a
      second one to a request that had its reply, or one about no request at all.
      The i-th line written is the i-th one read. */
  lemma AnswersNeverShift(es: seq<Event>)
    ensures var ch, lines, waits := RunFrom(Fresh, es), Emissions(Fresh, es), Reads(Fresh, es);
      && |waits| <= |lines|
      && (Genuine(ch) <==> forall i :: 0 <= i < |waits| && waits[i] ==> !lines[i].IdLessSurplus())
    ensures var lines := Emissions(Fresh, es);
      forall i :: 0 <= i < |lines| ==> (lines[i].surplus <==> Spoken(Fresh, lines[..i], lines[i].about))
    ensures var ch := RunFrom(Fresh, es);
      && (Genuine(ch) <==> NoSurplusRead(ch))
      && (NoIdLessSurplus(ch) ==> Genuine(ch))
      && (forall i :: 0 <= i < |ch.log| ==> ch.log[i].id == i + 1)
      && |ch.log| <= ch.asked <= |ch.log| + 1
  {
    assert Inv(Fresh);
    RunKeepsInv(Fresh, es);
    GenuineIff(Fresh, es);
    ReadsFit(Fresh, es);
    assert Fresh.out + Emissions(Fresh, es) == Emissions(Fresh, es);
    forall i | 0 <= i < |Emissions(Fresh, es)|
      ensures var lines := Emissions(Fresh, es); lines[i].surplus <==> Spoken(Fresh, lines[..i], lines[i].about)
    {
      SurplusIsRepeat(Fresh, es, i);
    }
    hide Spoken, IsReplyLine, Queue;
  }

  function Reply(id: Field<string>, text: string): Line {
    Object(Absent, id, Absent, Value(text), Absent, Absent)
  }

  /** A reply without an id is taken down as it comes. */
  lemma IdLessIsEmitted(ch: State, text: string, about: nat)
    requires about <= ch.asked
    ensures var r := Reply(Absent, text);
      Step(ch, Emit(r, about)) == Some(ch.(out := ch.out + [Emitted(r, about, about in ch.spoken)], spoken := ch.spoken + {about}))
  {
    var item := Emitted(Reply(Absent, text), about, about in ch.spoken);
    assert item.Reply() && item.IdLess();
  }

  lemma Asks(ch: State)
    requires !ch.open
    ensures Step(ch, Ask) == Some(ch.(asked := ch.asked + 1, open := true))
  {
  }

  /** And it answers whatever request is open. */
  lemma IdLessIsRead(ch: State, item: Emitted, rest: seq<Emitted>, text: string)
    requires ch.open && ch.out == [item] + rest && item.line == Reply(Absent, text)
    ensures Step(ch, Read) == Some(ch.(out := rest, open := false, log := ch.log + [Answer(ch.asked, item)]))
  {
    assert item.Reply() && ch.out[1..] == rest;
  }

  /** The agent answers the first request twice, and then a second request is asked. */
  const Repeat := [Ask, Emit(Reply(Absent, "hi"), 1), Emit(Reply(Absent, "hi"), 1), Read, Ask, Read]

  /** Without an id, one reply too many becomes the answer to the next question. */
  lemma AnIdLessRepeatShifts()
    ensures var ch := RunFrom(Fresh, Repeat); |ch.log| == 2 && ch.log[1].id == 2 && ch.log[1].item.about == 1
  {
    hide Step, Parse, IsReplyLine;
    var r := Reply(Absent, "hi");
    var first, second := Emitted(r, 1, false), Emitted(r, 1, true);
    var c1 := State(1, true, [], {0}, []);
    var c2 := State(1, true, [first], {0, 1}, []);
    var c3 := State(1, true, [first, second], {0, 1}, []);
    var c4 := State(1, false, [second], {0, 1}, [Answer(1, first)]);
    var c5 := State(2, true, [second], {0, 1}, [Answer(1, first)]);
    var c6 := State(2, false, [], {0, 1}, [Answer(1, first), Answer(2, second)]);
    IdLessIsEmitted(c1, "hi", 1);
    IdLessIsEmitted(c2, "hi", 1);
    assert c1.out + [first] == c2.out && c2.out + [second] == c3.out;
    assert c1.spoken + {1} == c2.spoken && c2.spoken + {1} == c3.spoken;
    assert c3.log + [Answer(1, first)] == c4.log && c5.log + [Answer(2, second)] == c6.log;
    IdLessIsRead(c3, first, [second], "hi");
    IdLessIsRead(c5, second, [], "hi");
    Asks(Fresh);
    Asks(c4);
    assert RunFrom(c6, []) == c6;
    Unroll(c5, Read, [], c6);
    Unroll(c4, Ask, [Read], c5);
    Unroll(c3, Read, [Ask, Read], c4);
    Unroll(c2, Emit(r, 1), [Read, Ask, Read], c3);
    Unroll(c1, Emit(r, 1), [Emit(r, 1), Read, Ask, Read], c2);
    Unroll(Fresh, Ask, [Emit(r, 1), Emit(r, 1), Read, Ask, Read], c1);
    assert Repeat == [Ask] + [Emit(r, 1), Emit(r, 1), Read, Ask, Read];
  }

  /** A reply about nothing is printed before the first request is asked. */
  const Unsolicited := [Emit(Reply(Absent, "warming up"), 0), Ask, Read]

  /** Without an id, it becomes the answer to that request. */
  lemma AnUnsolicitedReplyShifts()
    ensures var ch := RunFrom(Fresh, Unsolicited); |ch.log| == 1 && ch.log[0].id == 1 && ch.log[0].item.about == 0
  {
    var r := Reply(Absent, "warming up");
    assert IsReplyLine(r) && Parse(r).value.id == None;
    var item := Emitted(r, 0, true);
    var c1 := State(0, false, [item], {0}, []);
    var c2 := State(1, true, [item], {0}, []);
    var c3 := State(1, false, [], {0}, [Answer(1, item)]);
    assert item.IdLess();
    assert Step(Fresh, Emit(r, 0)).value == c1;
    assert c2.out[1..] == [] && Step(c2, Read).value == c3;
    assert RunFrom(c3, []) == c3;
    Unroll(c2, Read, [], c3);
    Unroll(c1, Ask, [Read], c2);
    Unroll(Fresh, Emit(r, 0), [Ask, Read], c1);
    assert Unsolicited == [Emit(r, 0)] + [Ask, Read];
  }

  lemma Unroll(ch: State, e: Event, es: seq<Event>, ch': State)
    requires Step(ch, e) == Some(ch')
    ensures RunFrom(ch, [e] + es) == RunFrom(ch', es)
  {
    assert ([e] + es)[1..] == es;
  }
}
