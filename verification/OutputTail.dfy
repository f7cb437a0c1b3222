/** What is kept of an agent's output. */
module OutputTail {
  import opened Text

  const STDERR_RING_LINES := 500

  /** The last `n` lines, or all of them when there are fewer. */
  function Last(lines: seq<string>, n: nat): seq<string> {
    if n <= |lines| then lines[|lines| - n..] else lines
  }

  class StderrRing {
    var lines: seq<string>
    var total: nat
    /** Every line ever pushed. */
    ghost var history: seq<string>

    ghost predicate Valid()
      reads this
    {
      total == |history| && lines == Last(history, STDERR_RING_LINES)
    }

    constructor ()
      ensures Valid() && history == []
    {
      lines := [];
      total := 0;
      history := [];
    }

    method Push(line: string)
      requires Valid()
      modifies this
      ensures Valid() && history == old(history) + [line]
    {
      total := total + 1;
      lines := lines + [line];
      history := history + [line];
      while |lines| > STDERR_RING_LINES
        invariant total == |history| && history == old(history) + [line]
        invariant |lines| >= STDERR_RING_LINES || lines == history
        invariant |lines| <= |history| && lines == Last(history, |lines|)
        decreases |lines|
      {
        lines := lines[1..];
      }
    }

    /** What the agent printed after `mark`, except what the window let go. */
    method Since(mark: nat) returns (text: string)
      requires Valid()
      ensures text == Join(Last(history[if mark <= |history| then mark else |history|..], 500), "\n")
    {
      var produced := if mark <= total then total - mark else 0;
      var take := if produced <= |lines| then produced else |lines|;
      var start := |lines| - take;
      text := Join(lines[start..], "\n");
      assert lines[start..] == Last(history[if mark <= |history| then mark else |history|..], STDERR_RING_LINES);
    }
  }

  // ---- a one-shot run's stdout ----

  const TAIL_LINES := 500

  /** `tail_lines`: the last lines of the whole text, and how many were dropped. */
  function TailLines(lines: seq<string>, n: nat): (string, nat) {
    (Join(Last(lines, n), "\n"), if |lines| > n then |lines| - n else 0)
  }

  /** Keeping a bounded tail while the lines stream by gives what cutting the
      whole output afterwards would have given. */
  method StreamTail(lines: seq<string>) returns (text: string, truncated: nat)
    ensures (text, truncated) == TailLines(lines, 500)
  {
    var tail: seq<string> := [];
    var total := 0;
    while total < |lines|
      invariant 0 <= total <= |lines|
      invariant tail == Last(lines[..total], TAIL_LINES)
    {
      assert lines[..total + 1] == lines[..total] + [lines[total]];
      if |tail| == TAIL_LINES {
        tail := tail[1..];
      }
      tail := tail + [lines[total]];
      total := total + 1;
    }
    assert lines[..total] == lines;
    text := Join(tail, "\n");
    truncated := if total > TAIL_LINES then total - TAIL_LINES else 0;
  }
}
