/** One request against a process that may die, stall or be collected at any moment. */
module Exchange {
  // Writing the frame, reading the answer, and the retry.

  import opened Common
  import Channel
  import PoolModel

  type Byte = bv8

  const NEWLINE: Byte := 10

  /** What the pipe does with one write. */
  datatype Write = Took(count: nat) | Refused

  /** Why there is no further line on stdout. */
  datatype End = Closed | Broken | Silent

  /** Everything the environment does during one exchange. `frame` is the
      serialized request, if it could be serialized; `writes` and `flushes` are
      the pipe's answers; `lines` and `end` are the agent's stdout until the
      timeout; the claims say whether the reaper owned the process by then. */
  datatype Peer = Peer(exited: bool, collected: bool, id: nat, frame: Option<seq<Byte>>,
                       writes: seq<Write>, flushes: bool, claimedWriting: bool,
                       lines: seq<Channel.Line>, end: End, claimedReading: bool)

  datatype Outcome = Answered(frame: Channel.Frame) | TimedOut | Dead | Lost

  datatype WriteResult = Written | Failed(wroteBytes: bool)

  function WireLine(frame: Option<seq<Byte>>): seq<Byte> {
    match frame
    case None => []
    case Some(bytes) => bytes + [NEWLINE]
  }

  /** A writer takes at most what it is given. */
  function Give(w: Write, left: nat): nat {
    match w
    case Refused => 0
    case Took(n) => if n <= left then n else left
  }

  /** How many of `left` bytes a pipe takes before it refuses or takes nothing. */
  function Taken(writes: seq<Write>, left: nat): (n: nat)
    ensures n <= left
  {
    if left == 0 || writes == [] || Give(writes[0], left) == 0 then 0
    else Give(writes[0], left) + Taken(writes[1..], left - Give(writes[0], left))
  }

  /** What the pipe is ready to take until it refuses, or takes nothing. */
  function Offered(writes: seq<Write>): nat {
    if writes == [] || writes[0].Refused? || writes[0].count == 0 then 0 else writes[0].count + Offered(writes[1..])
  }

  /** Of a line it takes that much, or all of it. */
  lemma {:induction false} TakenIs(writes: seq<Write>, left: nat)
    ensures Taken(writes, left) == if Offered(writes) <= left then Offered(writes) else left
    decreases |writes|
  {
    if left > 0 && writes != [] && Give(writes[0], left) > 0 {
      TakenIs(writes[1..], left - Give(writes[0], left));
    }
  }

  /** Sends one frame. Whatever the pipe does, it has accepted a prefix of the
      line; success means the whole line, and a failure reports bytes exactly
      when the pipe accepted some. */
  method WriteFrame(frame: Option<seq<Byte>>, writes: seq<Write>, flushes: bool)
    returns (r: WriteResult, accepted: seq<Byte>)
    ensures accepted == WireLine(frame)[..Taken(writes, |WireLine(frame)|)]
    ensures r.Written? <==> frame.Some? && accepted == WireLine(frame) && flushes
    ensures r.Failed? ==> (r.wroteBytes <==> accepted != [])
    ensures r.Written? ==> accepted == frame.value + ['\n' as int as Byte]
  {
    if frame.None? {
      return Failed(false), [];
    }
    var line := WireLine(frame);
    var written := 0;
    var call := 0;
    while written < |line|
      invariant 0 <= written <= |line|
      invariant 0 <= call <= |writes|
      invariant written + Taken(writes[call..], |line| - written) == Taken(writes, |line|)
    {
      // A script that ends stands for a pipe that fails.
      var w := if call < |writes| then writes[call] else Refused;
      if call < |writes| {
        call := call + 1;
      }
      var count := Give(w, |line| - written);
      if count == 0 {
        return Failed(written > 0), line[..written];
      }
      written := written + count;
    }
    assert line[..written] == line;
    if !flushes {
      return Failed(true), line;
    }
    return Written, line;
  }

  predicate AnswersAt(lines: seq<Channel.Line>, i: nat, id: nat)
    requires i < |lines|
  {
    Channel.Parse(lines[i]).Some? && Channel.Parse(lines[i]).value.Answers(NatText(id))
  }

  /** The first line that answers `id`; everything before it is dropped. */
  method ReadAnswer(lines: seq<Channel.Line>, id: nat) returns (answer: Option<Channel.Frame>, read: nat)
    ensures read <= |lines|
    ensures answer.Some? ==>
      read > 0 && AnswersAt(lines, read - 1, id) && answer == Channel.Parse(lines[read - 1])
      && forall i :: 0 <= i < read - 1 ==> !AnswersAt(lines, i, id)
    ensures answer.None? ==> read == |lines| && forall i :: 0 <= i < |lines| ==> !AnswersAt(lines, i, id)
  {
    read := 0;
    while read < |lines|
      invariant read <= |lines|
      invariant forall i :: 0 <= i < read ==> !AnswersAt(lines, i, id)
    {
      var frame := Channel.Parse(lines[read]);
      read := read + 1;
      if frame.Some? && frame.value.Answers(NatText(id)) {
        return frame, read;
      }
    }
    return None, read;
  }

  /** The loop reads exactly as the channel's `Read` events do: with request `id`
      open, it stops at the line that closes it, and leaves the rest unread. */
  lemma {:induction false} ReadAnswerIsChannel(ch: Channel.State, read: nat)
    requires ch.open && read < |ch.out|
    requires forall i :: 0 <= i < |ch.out| ==> ch.out[i].Reply() == Channel.IsReplyLine(ch.out[i].line)
    requires var lines := Lines(ch.out);
      AnswersAt(lines, read, ch.asked) && forall i :: 0 <= i < read ==> !AnswersAt(lines, i, ch.asked)
    ensures Channel.RunFrom(ch, seq(read + 1, _ => Channel.Read)) ==
            ch.(out := ch.out[read + 1..], open := false, log := ch.log + [Channel.Answer(ch.asked, ch.out[read])])
    decreases read
  {
    var events := seq(read + 1, _ => Channel.Read);
    assert events[0] == Channel.Read && events[1..] == seq(read, _ => Channel.Read);
    var item := ch.out[0];
    assert Lines(ch.out)[0] == item.line;
    if read == 0 {
      assert Channel.RunFrom(ch, events) == Channel.Step(ch, Channel.Read).value;
    } else {
      var ch' := Channel.Step(ch, Channel.Read).value;
      assert !AnswersAt(Lines(ch.out), 0, ch.asked);
      assert ch' == ch.(out := ch.out[1..]);
      assert forall i :: 0 <= i < |ch'.out| ==> Lines(ch'.out)[i] == Lines(ch.out)[i + 1];
      forall i | 0 <= i < read - 1
        ensures !AnswersAt(Lines(ch'.out), i, ch'.asked)
      {
        assert !AnswersAt(Lines(ch.out), i + 1, ch.asked);
      }
      ReadAnswerIsChannel(ch', read - 1);
      assert ch'.out[read - 1] == ch.out[read];
      assert ch'.out[read..] == ch.out[read + 1..];
    }
  }

  function Lines(out: seq<Channel.Emitted>): seq<Channel.Line> {
    seq(|out|, i requires 0 <= i < |out| => out[i].line)
  }

  // ---- how a request can end, in terms of what the environment did ----

  /** The pipe took the whole line and the flush succeeded. */
  predicate Sent(peer: Peer) {
    peer.frame.Some? && Offered(peer.writes) >= |peer.frame.value| + 1 && peer.flushes
  }

  predicate Gone(peer: Peer) {
    peer.exited || peer.collected
  }

  predicate FirstAnswer(peer: Peer, i: nat) {
    && i < |peer.lines| && AnswersAt(peer.lines, i, peer.id)
    && forall j :: 0 <= j < i ==> !AnswersAt(peer.lines, j, peer.id)
  }

  predicate SomeAnswer(peer: Peer) {
    exists i :: 0 <= i < |peer.lines| && AnswersAt(peer.lines, i, peer.id)
  }

  /** The whole request went out, some line answers it, and the reaper kept away. */
  predicate GetsAnswer(peer: Peer) {
    !Gone(peer) && Sent(peer) && SomeAnswer(peer) && !peer.claimedReading
  }

  /** The time is up: the reaper came first, or nothing was said until the timeout. */
  predicate RunsOut(peer: Peer) {
    !Gone(peer) && if Sent(peer) then peer.claimedReading || (!SomeAnswer(peer) && peer.end.Silent?) else peer.claimedWriting
  }

  /** Some of the request went out, and then the process was lost. */
  predicate IsLost(peer: Peer) {
    && !Gone(peer)
    && if Sent(peer) then !peer.claimedReading && !SomeAnswer(peer) && !peer.end.Silent?
       else !peer.claimedWriting && peer.frame.Some? && Offered(peer.writes) > 0
  }

  /** Nothing of the request went out. */
  predicate Untouched(peer: Peer) {
    Gone(peer) || (!peer.claimedWriting && (peer.frame == None || Offered(peer.writes) == 0))
  }

  /** One request against one live process ends in one of four ways, each exactly
      when the environment did what it stands for; an answer is the first line
      that answers. */
  method Ask(peer: Peer) returns (o: Outcome, accepted: seq<Byte>)
    ensures accepted == if Gone(peer) then [] else WireLine(peer.frame)[..Taken(peer.writes, |WireLine(peer.frame)|)]
    ensures o.Dead? <==> Untouched(peer)
    ensures o.Lost? <==> IsLost(peer)
    ensures o.TimedOut? <==> RunsOut(peer)
    ensures o.Answered? <==> GetsAnswer(peer)
    ensures o.Answered? ==> exists i: nat :: FirstAnswer(peer, i) && Channel.Parse(peer.lines[i]) == Some(o.frame)
  {
    if peer.exited || peer.collected {
      return Dead, [];
    }
    TakenIs(peer.writes, |WireLine(peer.frame)|);
    var r;
    r, accepted := WriteFrame(peer.frame, peer.writes, peer.flushes);
    if r.Failed? {
      match PoolModel.ClassifyWriteFailure(peer.claimedWriting, r.wroteBytes) {
        case Late => return TimedOut, accepted;
        case Lost => return Lost, accepted;
        case Untouched => return Dead, accepted;
      }
    }
    var answer, read := ReadAnswer(peer.lines, peer.id);
    assert answer.Some? ==> FirstAnswer(peer, read - 1);
    if answer.None? && peer.end.Silent? {
      o := TimedOut;
    } else if peer.claimedReading {
      o := TimedOut;
    } else if answer.None? {
      o := Lost;
    } else {
      o := Answered(answer.value);
    }
  }

  /** What one attempt finds in the slot: a cell that was stopped meanwhile, a
      process that does not start, or a process to ask. */
  datatype Attempt = Detached | NoSpawn | Ready(peer: Peer)

  datatype Verdict = Replied(frame: Channel.Frame) | Expired | RequestLost | SpawnFailed | DiedTwice

  /** The attempt ends the request, whatever the verdict. */
  predicate Ends(a: Attempt) {
    a.NoSpawn? || (a.Ready? && !Untouched(a.peer))
  }

  /** Bytes of one request reach at most one process: of everything that was
      accepted, only the last attempt's share can be non-empty. There is a second
      attempt exactly when the first one did not end the request, and the verdict
      is that of the last one, both ways. */
  method AskWithRetry(attempts: seq<Attempt>) returns (v: Verdict, accepted: seq<seq<Byte>>)
    requires |attempts| == 2
    ensures |accepted| == if Ends(attempts[0]) then 1 else 2
    ensures forall i :: 0 <= i < |accepted| - 1 ==> accepted[i] == []
    ensures forall i :: 0 <= i < |accepted| ==>
      accepted[i] == if attempts[i].Ready? && !Gone(attempts[i].peer)
                     then WireLine(attempts[i].peer.frame)[..Taken(attempts[i].peer.writes, |WireLine(attempts[i].peer.frame)|)]
                     else []
    ensures var last := attempts[|accepted| - 1];
      && (v.Replied? <==> last.Ready? && GetsAnswer(last.peer))
      && (v.Replied? ==> exists i: nat :: FirstAnswer(last.peer, i) && Channel.Parse(last.peer.lines[i]) == Some(v.frame))
      && (v.Expired? <==> last.Ready? && RunsOut(last.peer))
      && (v.RequestLost? <==> last.Ready? && IsLost(last.peer))
      && (v.SpawnFailed? <==> last.NoSpawn?)
      && (v.DiedTwice? <==> !Ends(last))
  {
    accepted := [];
    var attempt := 0;
    while attempt < 2
      invariant attempt <= 2 && |accepted| == attempt
      invariant forall i :: 0 <= i < attempt ==> accepted[i] == [] && !Ends(attempts[i])
    {
      match attempts[attempt] {
        case Detached =>
          accepted := accepted + [[]];
        case NoSpawn =>
          accepted := accepted + [[]];
          v := SpawnFailed;
          return;
        case Ready(peer) =>
          var o, bytes := Ask(peer);
          accepted := accepted + [bytes];
          match o {
            case Answered(frame) =>
              v := Replied(frame);
              return;
            case TimedOut =>
              v := Expired;
              return;
            case Lost =>
              v := RequestLost;
              return;
            case Dead =>
          }
      }
      attempt := attempt + 1;
    }
    v := DiedTwice;
  }
}
