/** Whole recognizer sessions: the polled stream, the helper's input, and when calls succeed. */
module SessionResults {
  import opened Results
  import opened Pcm
  import opened StreamingLines
  import opened StreamingInput
  import opened SessionSteps
  import opened SessionRuns

  /** No call returned an error. */
  predicate Clean(c: Codec, calls: seq<Call>) {
    calls == [] || (
      var before := calls[..|calls| - 1];
      Clean(c, before) && Apply(c, Run(c, before), calls[|calls| - 1]).1 == Done)
  }

  /** The chunks pushed by some calls. */
  function PushesOf(calls: seq<Call>): seq<seq<i16>> {
    if calls == [] then []
    else
      var before := PushesOf(calls[..|calls| - 1]);
      if calls[|calls| - 1].Push? then before + [calls[|calls| - 1].samples] else before
  }

  function PhaseOf(calls: seq<Call>): Lifecycle {
    if calls == [] then Active
    else
      var before := PhaseOf(calls[..|calls| - 1]);
      match calls[|calls| - 1]
      case Finish(_, _, _, _) => if before == Active then Finished else before
      case Cancel(_, _) => Cancelled
      case _ => before
  }

  // ---- The stream and the input ----

  /** The polled stream holds `Completed` at most once, with nothing behind it, whatever is called in
      whatever order and whatever fails. */
  lemma {:induction false} CompletedAtMostOnce(c: Codec, calls: seq<Call>)
    ensures CompletedLast(Run(c, calls).history.polled)
  {
    hide Run;
    RunKeeps(c, calls);
    var s := Run(c, calls);
    CancelledStream(s.history.polled, s.out.events, s.emitted, s.process.Some?, s.lifecycle);
    assert s.history.polled + [] == s.history.polled;
    if !s.emitted {
      assert forall i | 0 <= i < |s.history.polled| :: s.history.polled[i] == (s.history.polled + s.out.events)[i];
    }
  }

  /** Once a finish has ended the stream and the queue has been polled, the stream ends in exactly one
      `Completed`. */
  lemma {:induction false} FinishedStreamEnds(c: Codec, calls: seq<Call>)
    requires Run(c, calls).lifecycle == Finished && Run(c, calls).emitted && Run(c, calls).out.events == []
    ensures EndsOnce(Run(c, calls).history.polled)
  {
    hide Run;
    RunKeeps(c, calls);
    assert Run(c, calls).history.polled + [] == Run(c, calls).history.polled;
  }

  lemma {:induction false} CleanFollows(c: Codec, calls: seq<Call>)
    requires Clean(c, calls)
    ensures
      var s := Run(c, calls);
      && s.lifecycle == PhaseOf(calls)
      && (s.lifecycle != Cancelled ==> !s.history.broken && s.history.pushes == PushesOf(calls))
  {
    if calls != [] {
      var before, call := calls[..|calls| - 1], calls[|calls| - 1];
      CleanFollows(c, before);
      OneClean(c, Run(c, before), call);
      RunKeeps(c, before);
      if call.Finish? && Run(c, before).lifecycle == Active {
        FinishOutcome(c, Run(c, before), call.starts, call.commit, call.finish, call.wait);
      }
    }
  }

  lemma OneClean(c: Codec, s: Session, call: Call)
    requires Apply(c, s, call).1 == Done
    ensures
      var t := Apply(c, s, call).0;
      match call
      case Push(samples, _, _, _) =>
        s.lifecycle == Active && t.lifecycle == Active && t.history.broken == s.history.broken
        && t.history.pushes == s.history.pushes + [samples]
      case Finish(_, _, _, _) => s.lifecycle != Cancelled && (s.lifecycle == Finished ==> t == s)
      case Cancel(_, _) => t.lifecycle == Cancelled
      case Poll(_) => t.history == s.history.(polled := t.history.polled) && t.lifecycle == s.lifecycle
  {
    hide Pump, Flush, Grows, SendFinish, Wait, WriteLine;
    match call
    case Push(samples, starts, script, after) =>
      if s.lifecycle == Active && Start(s, starts).1 == Done {
        var started := Start(s, starts).0;
        FlushKeeps(c, started, false, starts, script);
        var flushed := Flush(c, started, false, starts, script).0;
        PumpKeeps(c, flushed.(pendingSamples := samples,
                              history := flushed.history.(pushes := flushed.history.pushes + [samples])), after);
      }
    case Cancel(starts, script) =>
      if s.lifecycle != Cancelled && Start(s, starts).1 == Done {
        WriteLineKeeps(c, Start(s.(lifecycle := Cancelled), starts).0, CancelLine, starts, script);
      }
    case Poll(turn) =>
      PumpKeeps(c, s, turn);
    case _ =>
  }

  /** As long as no call fails, what the helper has accepted is exactly the lines of the pushes. */
  lemma {:induction false} InputIsLines(c: Codec, calls: seq<Call>)
    requires Clean(c, calls)
    ensures PhaseOf(calls) == Active ==> Run(c, calls).history.written == Wire(c.render, LinesSoFar(PushesOf(calls)))
    ensures PhaseOf(calls) == Finished ==> Run(c, calls).history.written == Wire(c.render, AllLines(PushesOf(calls)))
  {
    hide Run, LinesSoFar, AllLines, Wire, HeldBack;
    CleanFollows(c, calls);
    RunKeeps(c, calls);
  }

  /** After a cancel, whatever is called in between, pushes and finishes are refused and change
      nothing, and another cancel does nothing. */
  lemma {:induction false} CancelledForGood(c: Codec, calls: seq<Call>, i: nat, late: Call)
    requires i < |calls| && calls[i].Cancel?
    ensures Run(c, calls).lifecycle == Cancelled
    ensures !late.Poll? ==>
              Apply(c, Run(c, calls), late) == (Run(c, calls), if late.Cancel? then Done else Failed(WasCancelled))
    decreases |calls|
  {
    hide Pump, Grows, Flush, SendFinish, Wait, SendCancel;
    var before, call := calls[..|calls| - 1], calls[|calls| - 1];
    if i < |before| {
      CancelledForGood(c, before, i, late);
      if call.Poll? {
        PumpKeeps(c, Run(c, before), call.turn);
      }
    } else {
      OneClean(c, Run(c, before), call);
    }
  }

  /** After a finish has been begun, pushes are refused, and another finish does nothing. */
  lemma LateCalls(c: Codec, s: Session, call: Call)
    requires s.lifecycle == Finished
    ensures call.Push? ==> Apply(c, s, call) == (s, Failed(WasFinished))
    ensures call.Finish? ==> Apply(c, s, call) == (s, Done)
  {
    hide Pump, Flush, SendFinish, Wait, SendCancel;
  }

  // ---- When a write succeeds ----

  /** Every look succeeds and finds the input open, and no write fails. */
  predicate Smooth(c: Codec, s: Session, turns: seq<WriteTurn>)
    decreases |turns|
  {
    turns == [] || (
      var (looked, r) := Pump(c, s, turns[0].pump);
      && r == Done && StdinOpen(looked)
      && turns[0].write != WriteError && turns[0].write != Wrote(0)
      && Smooth(c, looked, turns[1..]))
  }

  /** How many bytes the helper is ready to accept. */
  function Accepted(turns: seq<WriteTurn>): nat {
    if turns == [] then 0
    else (if turns[0].write.Wrote? then turns[0].write.n else 0) + Accepted(turns[1..])
  }

  lemma {:induction false} SmoothIgnoresHistory(c: Codec, s: Session, h: History, turns: seq<WriteTurn>)
    ensures Smooth(c, s.(history := h), turns) == Smooth(c, s, turns)
    decreases |turns|
  {
    hide Pump;
    if turns != [] {
      PumpIgnoresHistory(c, s, h, turns[0].pump);
      SmoothIgnoresHistory(c, Pump(c, s, turns[0].pump).0, h, turns[1..]);
    }
  }

  /** A line gets through if and only if, in some number of turns before the deadline, all goes well
      and the helper accepts all of it. */
  lemma {:induction false} WriteSucceedsIff(c: Codec, s: Session, bytes: seq<byte>, turns: seq<WriteTurn>)
    ensures
      WriteFrom(c, s, bytes, turns).1 == Done <==>
      exists k :: 0 <= k <= |turns| && Smooth(c, s, turns[..k]) && |bytes| <= Accepted(turns[..k])
    decreases |turns|
  {
    hide Pump;
    if bytes == [] {
      assert Smooth(c, s, turns[..0]) && |bytes| <= Accepted(turns[..0]);
    } else if turns != [] {
      var (looked, r) := Pump(c, s, turns[0].pump);
      var write := turns[0].write;
      if r == Done && StdinOpen(looked) && write != WriteError && write != Wrote(0) {
        var n := if write.Wrote? then write.n else 0;
        var k := if n < |bytes| then n else |bytes|;
        var next := if write.Wrote? then Accept(looked, bytes[..k]) else looked;
        WriteSucceedsIff(c, next, bytes[k..], turns[1..]);
        forall j | 0 <= j <= |turns| - 1
          ensures Smooth(c, s, turns[..j + 1]) == Smooth(c, next, turns[1..][..j])
          ensures Accepted(turns[..j + 1]) == n + Accepted(turns[1..][..j])
        {
          assert turns[..j + 1][0] == turns[0] && turns[..j + 1][1..] == turns[1..][..j];
          SmoothIgnoresHistory(c, looked, next.history, turns[1..][..j]);
        }
        if WriteFrom(c, s, bytes, turns).1 == Done {
          var j :| 0 <= j <= |turns[1..]| && Smooth(c, next, turns[1..][..j])
              && |bytes[k..]| <= Accepted(turns[1..][..j]);
          assert Smooth(c, s, turns[..j + 1]) && |bytes| <= Accepted(turns[..j + 1]);
        }
        if j :| 0 <= j <= |turns| && Smooth(c, s, turns[..j]) && |bytes| <= Accepted(turns[..j]) {
          assert j > 0;
          assert Smooth(c, next, turns[1..][..j - 1]) && |bytes[k..]| <= Accepted(turns[1..][..j - 1]);
        }
      } else {
        forall j | 0 < j <= |turns|
          ensures !Smooth(c, s, turns[..j])
        {
          assert turns[..j][0] == turns[0];
        }
      }
    }
  }

  // ---- What the helper says ----

  function Decoded(lossy: Lossy, chunks: seq<seq<byte>>): seq<string> {
    if chunks == [] then [] else [lossy(chunks[0])] + Decoded(lossy, chunks[1..])
  }

  function Total(chunks: seq<seq<byte>>): nat {
    if chunks == [] then 0 else |chunks[0]| + Total(chunks[1..])
  }

  function ReaderOf(s: Session): Reader {
    Reader(s.out, s.stdoutBuffer, true)
  }

  /** Reads are taken in, read by read, exactly if they stay within the limit and every line they
      complete is JSON. */
  lemma {:induction false} ReadAllSucceedsIff(c: Codec, s: Session, chunks: seq<seq<byte>>)
    requires s.stdoutBytes <= MAX_COMMAND_OUTPUT_BYTES
    ensures
      var (t, r) := ReadAll(c, s, chunks);
      var fed := FeedAll(c.decode, ReaderOf(s), Decoded(c.lossy, chunks));
      && (r == Done <==> s.stdoutBytes + Total(chunks) <= MAX_COMMAND_OUTPUT_BYTES && fed.good)
      && (r == Done ==>
            t == s.(out := fed.out, stdoutBuffer := fed.buffer, stdoutBytes := s.stdoutBytes + Total(chunks)))
    decreases |chunks|
  {
    hide Drain;
    if chunks != [] {
      var (next, r) := Read(c, s, chunks[0]);
      var texts := Decoded(c.lossy, chunks);
      assert texts[0] == c.lossy(chunks[0]) && texts[1..] == Decoded(c.lossy, chunks[1..]);
      if r == Done {
        ReadAllSucceedsIff(c, next, chunks[1..]);
      }
    }
  }

  // ---- A helper that listens first and answers then ----

  /** The helper lives and says nothing. */
  predicate Quiet(turn: PumpTurn) {
    && turn.Turn? && turn.chunks == [] && turn.stderr.Some?
    && !turn.stdoutClosed && !turn.stderrClosed && turn.exited.None?
  }

  predicate Takes(turn: WriteTurn) {
    Quiet(turn.pump) && turn.write != WriteError && turn.write != Wrote(0)
  }

  /** Before the deadline the helper takes so many bytes. */
  predicate TakesAll(script: WriteScript, size: nat) {
    && (forall turn | turn in script.All() :: Takes(turn))
    && size <= Accepted(script.All())
    && Quiet(script.after)
  }

  /** What a session learns from a quiet helper. */
  predicate HeardNothing(s: Session, t: Session) {
    t == s.(process := Some(RUNNING), stderrTail := t.stderrTail, history := t.history)
  }

  lemma QuietPump(c: Codec, s: Session, turn: PumpTurn)
    requires s.process == Some(RUNNING) && Quiet(turn)
    ensures Pump(c, s, turn) == (s.(stderrTail := turn.stderr.value), Done)
  {
  }

  lemma {:induction false} QuietWrite(c: Codec, s: Session, bytes: seq<byte>, turns: seq<WriteTurn>)
    requires s.process == Some(RUNNING) && (forall turn | turn in turns :: Takes(turn)) && |bytes| <= Accepted(turns)
    ensures WriteFrom(c, s, bytes, turns).1 == Done && HeardNothing(s, WriteFrom(c, s, bytes, turns).0)
    decreases |turns|
  {
    hide Pump, Quiet;
    if bytes != [] {
      var turn := turns[0];
      assert Takes(turn);
      QuietPump(c, s, turn.pump);
      var looked := Pump(c, s, turn.pump).0;
      if turn.write.Wrote? {
        var k := if turn.write.n < |bytes| then turn.write.n else |bytes|;
        QuietWrite(c, Accept(looked, bytes[..k]), bytes[k..], turns[1..]);
      } else {
        QuietWrite(c, looked, bytes, turns[1..]);
      }
    }
  }

  /** The helper is there, or can be started. */
  predicate Ready(s: Session, starts: bool) {
    s.process == Some(RUNNING) || (s.process.None? && starts)
  }

  lemma QuietLine(c: Codec, s: Session, line: Line, starts: bool, script: WriteScript)
    requires Ready(s, starts) && TakesAll(script, |LineBytes(c, line)|)
    ensures WriteLine(c, s, line, starts, script).1 == Done && HeardNothing(s, WriteLine(c, s, line, starts, script).0)
  {
    hide Pump, Quiet, WriteFrom, LineBytes;
    var started := Start(s, starts).0;
    QuietWrite(c, started, LineBytes(c, line), script.All());
    QuietPump(c, WriteFrom(c, started, LineBytes(c, line), script.All()).0, script.after);
  }

  /** A script lets the chunk held back get through, if there is one. */
  predicate LetsThrough(c: Codec, held: seq<i16>, commit: bool, script: WriteScript) {
    held != [] ==> TakesAll(script, |LineBytes(c, Audio(held, commit))|)
  }

  lemma QuietFlush(c: Codec, s: Session, commit: bool, starts: bool, script: WriteScript)
    requires s.process == Some(RUNNING) && LetsThrough(c, s.pendingSamples, commit, script)
    ensures Flush(c, s, commit, starts, script).1 == Done
    ensures HeardNothing(s.(pendingSamples := []), Flush(c, s, commit, starts, script).0)
  {
    hide WriteLine, TakesAll, LineBytes;
    if s.pendingSamples != [] {
      QuietLine(c, s.(pendingSamples := []), Audio(s.pendingSamples, commit), starts, script);
    }
  }

  /** With the helper listening a push succeeds. */
  lemma QuietPush(c: Codec, s: Session, samples: seq<i16>, starts: bool, script: WriteScript, after: PumpTurn)
    requires s.lifecycle == Active && Ready(s, starts)
    requires LetsThrough(c, s.pendingSamples, false, script) && Quiet(after)
    ensures
      var (t, r) := PushCall(c, s, samples, starts, script, after);
      r == Done && HeardNothing(s.(pendingSamples := samples), t)
  {
    hide Flush, Pump, Quiet, LetsThrough;
    var started := Start(s, starts).0;
    QuietFlush(c, started, false, starts, script);
    var flushed := Flush(c, started, false, starts, script).0;
    QuietPump(c, flushed.(pendingSamples := samples,
                          history := flushed.history.(pushes := flushed.history.pushes + [samples])), after);
  }

  /** A helper that listens is told of a cancel: it accepts the whole cancel line and nothing more. */
  lemma CancelIsTold(c: Codec, s: Session, starts: bool, script: WriteScript)
    requires s.lifecycle != Cancelled && Ready(s, starts) && TakesAll(script, |LineBytes(c, CancelLine)|)
    ensures
      var t := CancelCall(c, s, starts, script).0;
      var before := if s.process.Some? then s.history else s.history.(written := [], lines := []);
      && t.history.written == before.written + c.render(CancelLine) + [NEWLINE]
      && t.history.lines == before.lines + [CancelLine] && t.history.broken == s.history.broken
  {
    hide WriteLine, TakesAll, LineBytes;
    var started := Start(s.(lifecycle := Cancelled), starts).0;
    QuietLine(c, started, CancelLine, starts, script);
    WriteLineKeeps(c, started, CancelLine, starts, script);
    assert LineBytes(c, CancelLine) == c.render(CancelLine) + [NEWLINE] by {
      TheLine(c, CancelLine);
    }
  }

  lemma TheLine(c: Codec, line: Line)
    ensures LineBytes(c, line) == c.render(line) + [NEWLINE]
  {
  }

  /** Pushes to a listening helper, each with time enough for the line it writes. */
  predicate Heeded(c: Codec, calls: seq<Call>) {
    calls == [] || (
      var before, call := calls[..|calls| - 1], calls[|calls| - 1];
      && Heeded(c, before)
      && call.Push? && call.starts && Quiet(call.after)
      && LetsThrough(c, HeldBack(PushesOf(before)), false, call.script))
  }

  lemma {:induction false} HeededIsClean(c: Codec, calls: seq<Call>)
    requires Heeded(c, calls)
    ensures Clean(c, calls) && PhaseOf(calls) == Active
    ensures
      var s := Run(c, calls);
      && s == NEW.(process := s.process, pendingSamples := HeldBack(PushesOf(calls)), stderrTail := s.stderrTail,
                   history := s.history)
      && Ready(s, true)
  {
    hide PushCall, LetsThrough, Quiet;
    if calls != [] {
      var before, call := calls[..|calls| - 1], calls[|calls| - 1];
      HeededIsClean(c, before);
      QuietPush(c, Run(c, before), call.samples, call.starts, call.script, call.after);
      HeldIsLast(PushesOf(before), call.samples);
    }
  }

  lemma HeldIsLast(pushes: seq<seq<i16>>, samples: seq<i16>)
    ensures HeldBack(pushes + [samples]) == samples
  {
  }

  /** The reader after a helper's whole answer. */
  function Answer(c: Codec, chunks: seq<seq<byte>>): Reader {
    FeedAll(c.decode, Reader(SILENT, "", true), Decoded(c.lossy, chunks))
  }

  /** A helper that answers in its next turn with a final text, within the limit and in JSON, and
      exits. */
  predicate Answers(c: Codec, wait: WaitScript) {
    && wait.turns != [] && wait.turns[0].Turn? && wait.turns[0].stderr.Some? && wait.turns[0].exited == Some(true)
    && Total(wait.turns[0].chunks) <= MAX_COMMAND_OUTPUT_BYTES
    && Answer(c, wait.turns[0].chunks).good && Answer(c, wait.turns[0].chunks).out.sawFinal
    && wait.end.Turn?
  }

  lemma AnsweredWait(c: Codec, s: Session, wait: WaitScript)
    requires s.process == Some(RUNNING.(stdinOpen := false))
    requires s.out == SILENT && s.stdoutBuffer == "" && s.stdoutBytes == 0
    requires !s.emitted && Answers(c, wait)
    ensures
      var (t, r) := Wait(c, s, wait);
      && r == Done && t.emitted && t.process.None?
      && t.out.events == Answer(c, wait.turns[0].chunks).out.events + [Completed]
      && t.lifecycle == s.lifecycle && t.history == s.history
  {
    hide ReadAll, FeedAll, Decoded, Total;
    var turn := wait.turns[0];
    ReadAllSucceedsIff(c, s, turn.chunks);
    var answered := Pump(c, s, turn).0;
    assert wait.All()[0] == turn && |wait.All()| > 1;
    assert Await(c, answered, wait.All()[1..]) == (answered, Done, false);
    assert Await(c, s, wait.All()) == (answered, Done, false);
    assert Grace(c, answered, wait.grace) == (answered, Done);
  }

  /** A finish whose lines get through comes down to the wait. */
  lemma SentFinish(c: Codec, s: Session, commit: WriteScript, finish: WriteScript, wait: WaitScript)
    requires s.lifecycle == Active && Ready(s, true)
    requires LetsThrough(c, s.pendingSamples, true, commit) && TakesAll(finish, |LineBytes(c, FinishLine)|)
    ensures
      var closing := CloseStdin(SendFinish(c, Start(s, true).0.(lifecycle := Finished), true, commit, finish).0);
      && closing == s.(process := Some(RUNNING.(stdinOpen := false)), pendingSamples := [], lifecycle := Finished,
                       stderrTail := closing.stderrTail, history := closing.history)
      && FinishCall(c, s, true, commit, finish, wait) == Wait(c, closing, wait)
  {
    hide Flush, WriteLine, Wait, LetsThrough, TakesAll, LineBytes;
    var finishing := Start(s, true).0.(lifecycle := Finished);
    QuietFlush(c, finishing, true, true, commit);
    QuietLine(c, Flush(c, finishing, true, true, commit).0, FinishLine, true, finish);
  }

  lemma AnsweredFinish(c: Codec, s: Session, commit: WriteScript, finish: WriteScript, wait: WaitScript)
    requires
      && s == NEW.(process := s.process, pendingSamples := s.pendingSamples, stderrTail := s.stderrTail,
                   history := s.history)
      && Ready(s, true)
    requires LetsThrough(c, s.pendingSamples, true, commit) && TakesAll(finish, |LineBytes(c, FinishLine)|)
             && Answers(c, wait)
    ensures
      var (t, r) := FinishCall(c, s, true, commit, finish, wait);
      && r == Done && t.emitted && t.lifecycle == Finished && t.process.None?
      && t.out.events == Answer(c, wait.turns[0].chunks).out.events + [Completed]
  {
    hide FinishCall, SendFinish, Wait, LetsThrough, TakesAll, LineBytes, Answers, Answer;
    SentFinish(c, s, commit, finish, wait);
    AnsweredWait(c, CloseStdin(SendFinish(c, Start(s, true).0.(lifecycle := Finished), true, commit, finish).0), wait);
  }

  /** A whole session: pushes to a listening helper, a finish it answers, a poll. Every call succeeds,
      the helper has got all lines of all pushes, and the stream is its answer and one `Completed`. */
  lemma {:induction false} AnsweredSession(c: Codec, pushes: seq<Call>, finish: Call, poll: PumpTurn)
    requires Heeded(c, pushes) && finish.Finish? && finish.starts
    requires LetsThrough(c, HeldBack(PushesOf(pushes)), true, finish.commit)
    requires TakesAll(finish.finish, |LineBytes(c, FinishLine)|) && Answers(c, finish.wait)
    ensures
      var calls := pushes + [finish] + [Poll(poll)];
      var s := Run(c, calls);
      && Clean(c, calls)
      && s.history.written == Wire(c.render, AllLines(PushesOf(pushes)))
      && s.history.polled == Answer(c, finish.wait.turns[0].chunks).out.events + [Completed]
      && EndsOnce(s.history.polled)
  {
    hide FinishCall, LetsThrough, TakesAll, Answers, Answer, EndsOnce, AllLines, Wire, Heeded, HeldBack;
    var finished := pushes + [finish];
    var calls := finished + [Poll(poll)];
    assert finished[..|pushes|] == pushes && calls[..|finished|] == finished;
    HeededIsClean(c, pushes);
    AnsweredFinish(c, Run(c, pushes), finish.commit, finish.finish, finish.wait);
    assert Clean(c, finished) && PushesOf(finished) == PushesOf(pushes) && PhaseOf(finished) == Finished;
    NothingPolled(c, pushes);
    InputIsLines(c, finished);
    RunKeeps(c, pushes);
    FinishKeepsPolled(c, Run(c, pushes), finish);
    var s := Run(c, finished);
    assert PollCall(c, s, poll).1 == Done;
    assert [] + s.out.events == s.out.events;
    FinishedStreamEnds(c, calls);
  }

  lemma {:induction false} NothingPolled(c: Codec, calls: seq<Call>)
    requires Heeded(c, calls)
    ensures Run(c, calls).history.polled == []
  {
    hide Pump, Flush, Grows, LetsThrough, Quiet;
    if calls != [] {
      var before, call := calls[..|calls| - 1], calls[|calls| - 1];
      NothingPolled(c, before);
      HeededIsClean(c, before);
      PushKeepsPolled(c, Run(c, before), call);
    }
  }

  lemma PushKeepsPolled(c: Codec, s: Session, call: Call)
    requires call.Push?
    ensures Apply(c, s, call).0.history.polled == s.history.polled
  {
    hide Pump, Flush, Grows;
    if s.lifecycle == Active && Start(s, call.starts).1 == Done {
      var started := Start(s, call.starts).0;
      FlushKeeps(c, started, false, call.starts, call.script);
      var flushed := Flush(c, started, false, call.starts, call.script).0;
      PumpKeeps(c, flushed.(pendingSamples := call.samples,
                            history := flushed.history.(pushes := flushed.history.pushes + [call.samples])),
                 call.after);
    }
  }

  lemma FinishKeepsPolled(c: Codec, s: Session, call: Call)
    requires call.Finish? && Inv(c, s)
    ensures Apply(c, s, call).0.history.polled == s.history.polled
  {
    hide SendFinish, Wait, Inv;
    if s.lifecycle == Active {
      FinishOutcome(c, s, call.starts, call.commit, call.finish, call.wait);
    }
  }

  // ---- A helper that keeps talking ----

  function PollOf(chunks: seq<seq<byte>>): Call {
    Poll(Turn(chunks, false, Some(""), false, None))
  }

  function Polls(looks: seq<seq<seq<byte>>>): seq<Call> {
    if looks == [] then [] else Polls(looks[..|looks| - 1]) + [PollOf(looks[|looks| - 1])]
  }

  /** All that is read, as text, and its size. */
  function Pieces(lossy: Lossy, looks: seq<seq<seq<byte>>>): seq<string> {
    if looks == [] then [] else Pieces(lossy, looks[..|looks| - 1]) + Decoded(lossy, looks[|looks| - 1])
  }

  function TotalOf(looks: seq<seq<seq<byte>>>): nat {
    if looks == [] then 0 else TotalOf(looks[..|looks| - 1]) + Total(looks[|looks| - 1])
  }

  /** A session that has only been launched and polled. */
  predicate Heard(s: Session, fed: Reader, bytes: nat) {
    && s == NEW.(process := Some(RUNNING), out := fed.out.(events := []), stdoutBuffer := fed.buffer,
                 stdoutBytes := bytes, stderrTail := s.stderrTail, history := s.history)
    && s.history.polled == fed.out.events
  }

  /** One more poll continues the reading of everything heard before, although the queue was emptied
      in between; it fails exactly if the limit or a line stands against it. */
  lemma HeardMore(c: Codec, s: Session, before: seq<string>, fed: Reader, bytes: nat, chunks: seq<seq<byte>>)
    requires fed == FeedAll(c.decode, Reader(SILENT, "", true), before) && fed.good && Heard(s, fed, bytes)
    requires bytes <= MAX_COMMAND_OUTPUT_BYTES
    ensures
      var (t, r) := Apply(c, s, PollOf(chunks));
      var all := FeedAll(c.decode, Reader(SILENT, "", true), before + Decoded(c.lossy, chunks));
      && (r == Done <==> bytes + Total(chunks) <= MAX_COMMAND_OUTPUT_BYTES && all.good)
      && (r == Done ==> Heard(t, all, bytes + Total(chunks)))
  {
    hide FeedAll, Decoded, Total, ReadAll;
    var texts := Decoded(c.lossy, chunks);
    FeedInTwoParts(c.decode, Reader(SILENT, "", true), before, texts);
    FeedBehind(c.decode, fed.out.events, ReaderOf(s), texts);
    assert fed.out.events + [] == fed.out.events;
    ReadAllSucceedsIff(c, s, chunks);
  }

  lemma {:induction false} AllHeard(c: Codec, launch: Call, looks: seq<seq<seq<byte>>>)
    requires launch.Push? && launch.samples == [] && launch.starts && Quiet(launch.after)
    ensures
      var calls := [launch] + Polls(looks);
      var fed := FeedAll(c.decode, Reader(SILENT, "", true), Pieces(c.lossy, looks));
      && (Clean(c, calls) <==> TotalOf(looks) <= MAX_COMMAND_OUTPUT_BYTES && fed.good)
      && (Clean(c, calls) ==> Heard(Run(c, calls), fed, TotalOf(looks)))
    decreases |looks|
  {
    hide Apply, FeedAll, Decoded, Total, Heard;
    if looks == [] {
      JustLaunched(c, launch);
    } else {
      var before, last := looks[..|looks| - 1], looks[|looks| - 1];
      var calls := [launch] + Polls(before);
      assert [launch] + Polls(looks) == calls + [PollOf(last)];
      assert (calls + [PollOf(last)])[..|calls|] == calls;
      AllHeard(c, launch, before);
      var fed := FeedAll(c.decode, Reader(SILENT, "", true), Pieces(c.lossy, before));
      FeedInTwoParts(c.decode, Reader(SILENT, "", true), Pieces(c.lossy, before), Decoded(c.lossy, last));
      if Clean(c, calls) {
        HeardMore(c, Run(c, calls), Pieces(c.lossy, before), fed, TotalOf(before), last);
      } else {
        BadStays(c.decode, fed, Decoded(c.lossy, last));
      }
    }
  }

  lemma BadStays(decode: Decoder, r: Reader, pieces: seq<string>)
    ensures !r.good ==> FeedAll(decode, r, pieces) == r
  {
  }

  lemma JustLaunched(c: Codec, launch: Call)
    requires launch.Push? && launch.samples == [] && launch.starts && Quiet(launch.after)
    ensures Clean(c, [launch] + Polls([])) && Heard(Run(c, [launch] + Polls([])), Reader(SILENT, "", true), 0)
    ensures FeedAll(c.decode, Reader(SILENT, "", true), Pieces(c.lossy, [])) == Reader(SILENT, "", true)
            && TotalOf([]) == 0
  {
    hide Pump, Quiet;
    assert [launch] + Polls([]) == [launch] && [launch][..0] == [];
    QuietPump(c, NEW.(process := Some(RUNNING), history := NEW.history.(pushes := [] + [[]])), launch.after);
  }

  /** A new session is launched and then polled while its helper writes newline-terminated output and
      keeps running. Whatever reads the output comes in, and however often it is polled, the stream is
      that of the one-shot parser over the whole output, without `Completed`. A poll fails if and only
      if the output is too long or not JSON. */
  lemma {:induction false} ListenIsOneShot(c: Codec, launch: Call, looks: seq<seq<seq<byte>>>)
    requires launch.Push? && launch.samples == [] && launch.starts && Quiet(launch.after)
    requires Remainder(Concat(Pieces(c.lossy, looks))) == ""
    ensures
      var calls := [launch] + Polls(looks);
      var parsed := OneShot(c.decode, Concat(Pieces(c.lossy, looks)));
      && (Clean(c, calls) <==> TotalOf(looks) <= MAX_COMMAND_OUTPUT_BYTES && parsed != Err(NotJson))
      && (Clean(c, calls) && parsed.Ok? ==> Run(c, calls).history.polled == WithoutCompleted(parsed.value))
      && (Clean(c, calls) && parsed == Err(NoEvents) ==> Run(c, calls).history.polled == [])
  {
    hide Run, Clean, FeedAll, Pieces, OneShot, Remainder, Concat, WithoutCompleted, TotalOf, Polls;
    AllHeard(c, launch, looks);
    IncrementalIsOneShot(c.decode, SILENT, Pieces(c.lossy, looks));
    var parsed := OneShot(c.decode, Concat(Pieces(c.lossy, looks)));
    if parsed.Ok? {
      assert [] + WithoutCompleted(parsed.value) == WithoutCompleted(parsed.value);
    }
  }
}
