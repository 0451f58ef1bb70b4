/** Runs of a recognizer session in which the outcome of a call is not what one would expect. */
module SessionCases {
  import opened Results
  import opened Pcm
  import opened StreamingLines
  import opened StreamingInput
  import opened SessionSteps
  import opened SessionRuns
  import opened SessionResults

  // ---- A helper with three things to say ----

  const SAYS_ERROR: seq<byte> := [0]
  const SAYS_CLOSED: seq<byte> := [1]
  const SAYS_FINAL: seq<byte> := [2]

  function Text(chunk: seq<byte>): string {
    if chunk == SAYS_ERROR then "e\n" else if chunk == SAYS_CLOSED then "c\n" else "f\n"
  }

  function Decode(text: string): Option<Payload> {
    if text == "e" then Some(Payload(Some("error"), None, None))
    else if text == "c" then Some(Payload(Some("closed"), None, None))
    else Some(Payload(Some("final"), Some("hi"), None))
  }

  function Helper(render: Renderer): Codec {
    Codec(Decode, Text, render)
  }

  function Says(chunks: seq<seq<byte>>): PumpTurn {
    Turn(chunks, false, Some(""), false, None)
  }

  const EXITS := Turn([], false, Some(""), false, Some(true))

  /** A write that the helper takes at once. */
  function TakenAtOnce(size: nat): WriteScript {
    WriteScript([], WriteTurn(Says([]), Wrote(if size == 0 then 1 else size)), Says([]))
  }

  lemma TakesAtOnce(size: nat)
    ensures TakesAll(TakenAtOnce(size), size)
  {
    assert TakenAtOnce(size).All()[1..] == [];
  }

  function Launch(c: Codec): Call {
    Push([], true, TakenAtOnce(1), Says([]))
  }

  function FinishWith(c: Codec, wait: WaitScript): Call {
    Finish(true, TakenAtOnce(1), TakenAtOnce(|LineBytes(c, FinishLine)|), wait)
  }

  // ---- What it comes to ----

  lemma DrainLine(decode: Decoder, o: Output, line: string)
    requires '\n' !in line && ParseLine(decode, line).Some?
    ensures Drain(decode, o, line + "\n") == Reader(HandleAll(o, ParseLine(decode, line).value), "", true)
  {
    hide ParseLine, HandleAll;
    var text := line + "\n";
    assert text[|line|] == '\n';
    assert forall i | 0 <= i < |line| :: text[i] == line[i] && line[i] in line;
    assert LineEnd(text) == |line|;
    assert FirstLine(text) == line && AfterLine(text) == "";
  }

  lemma Parsed()
    ensures ParseLine(Decode, "e") == Some([ErrorEvent("failed.")])
    ensures ParseLine(Decode, "c") == Some([Completed])
    ensures ParseLine(Decode, "f") == Some([FinalText("hi")])
  {
    assert Trim("e") == "e" && Trim("c") == "c" && Trim("f") == "f" && Trim("hi") == "hi";
    assert "c" != "e" && "f" != "e" && "f" != "c";
    assert "error"[0] == 'e' && "closed"[0] == 'c' && "partial"[0] == 'p' && "final"[0] == 'f';
  }

  /** One thing said to a session with an empty buffer. */
  lemma Heard(c: Codec, s: Session, chunk: seq<byte>)
    requires c.decode == Decode && c.lossy == Text && s.stdoutBuffer == "" && s.stdoutBytes < 100
    requires chunk == SAYS_ERROR || chunk == SAYS_CLOSED || chunk == SAYS_FINAL
    ensures
      var e := if chunk == SAYS_ERROR then ErrorEvent("failed.") else if chunk == SAYS_CLOSED then Completed
          else FinalText("hi");
      Read(c, s, chunk) == (s.(out := Handle(s.out, e), stdoutBytes := s.stdoutBytes + 1), Done)
  {
    hide ParseLine, Handle, Drain;
    Parsed();
    var line := if chunk == SAYS_ERROR then "e" else if chunk == SAYS_CLOSED then "c" else "f";
    DrainLine(Decode, s.out, line);
    assert s.stdoutBuffer + Text(chunk) == line + "\n";
    OneEvent(s.out, ParseLine(Decode, line).value);
  }

  lemma OneEvent(o: Output, events: seq<RecognitionEvent>)
    requires |events| == 1
    ensures HandleAll(o, events) == Handle(o, events[0])
  {
  }

  lemma HeardOne(c: Codec, s: Session, chunk: seq<byte>)
    requires c.decode == Decode && c.lossy == Text && s.stdoutBuffer == "" && s.stdoutBytes < 100
    requires s.process.Some? && s.process.value.stdoutOpen && s.process.value.stderrOpen && s.process.value.exited.None?
    requires chunk == SAYS_ERROR || chunk == SAYS_CLOSED || chunk == SAYS_FINAL
    ensures Pump(c, s, Says([chunk])) == (Read(c, s, chunk).0.(stderrTail := ""), Done)
  {
    hide Read;
    Heard(c, s, chunk);
    var chunks := [chunk];
    assert |chunks[1..]| == 0;
    assert ReadAll(c, s, chunks) == Read(c, s, chunk);
  }

  lemma TwoCalls(c: Codec, a: Call, b: Call)
    ensures Run(c, [a, b]) == Apply(c, Apply(c, NEW, a).0, b).0
    ensures Clean(c, [a, b]) <==> Apply(c, NEW, a).1 == Done && Apply(c, Apply(c, NEW, a).0, b).1 == Done
  {
    hide Apply;
    assert [a, b][..1] == [a] && [a][..0] == [];
    assert Run(c, [a]) == Apply(c, NEW, a).0;
    assert Clean(c, [a]) <==> Apply(c, NEW, a).1 == Done;
  }

  lemma ThreeCalls(c: Codec, a: Call, b: Call, d: Call)
    ensures Run(c, [a, b, d]) == Apply(c, Run(c, [a, b]), d).0
    ensures Clean(c, [a, b, d]) <==> Clean(c, [a, b]) && Apply(c, Run(c, [a, b]), d).1 == Done
  {
    hide Apply;
    assert [a, b, d][..2] == [a, b];
  }

  lemma AfterLaunch(c: Codec)
    ensures
      var (s, r) := Apply(c, NEW, Launch(c));
      && r == Done
      && s == NEW.(process := Some(RUNNING), stderrTail := s.stderrTail, history := s.history)
      && s.history.polled == []
  {
    hide PushCall;
    QuietPush(c, NEW, [], true, TakenAtOnce(1), Says([]));
    PushKeepsPolled(c, NEW, Launch(c));
  }

  /** What a finish right now comes to. */
  lemma FinishNow(c: Codec, s: Session, wait: WaitScript) returns (closing: Session)
    requires s.lifecycle == Active && s.process == Some(RUNNING) && s.pendingSamples == [] && Inv(c, s)
    ensures closing == s.(process := Some(RUNNING.(stdinOpen := false)), lifecycle := Finished,
                          stderrTail := closing.stderrTail, history := closing.history)
    ensures Apply(c, s, FinishWith(c, wait)) == Wait(c, closing, wait)
    ensures Wait(c, closing, wait).0.history.polled == s.history.polled
  {
    hide Wait, FinishCall, SendFinish, LineBytes, TakesAll, Inv;
    TakesAtOnce(|LineBytes(c, FinishLine)|);
    SentFinish(c, s, TakenAtOnce(1), TakenAtOnce(|LineBytes(c, FinishLine)|), wait);
    closing := CloseStdin(SendFinish(c, Start(s, true).0.(lifecycle := Finished), true, TakenAtOnce(1),
                                     TakenAtOnce(|LineBytes(c, FinishLine)|)).0);
    FinishKeepsPolled(c, s, FinishWith(c, wait));
  }

  // ---- The cases ----

  /** The helper reports an error, which is polled, and exits without any text: the finish succeeds. */
  lemma PolledErrorSucceeds(render: Renderer)
    ensures
      var c := Helper(render);
      var calls := [Launch(c), Poll(Says([SAYS_ERROR])), FinishWith(c, WaitScript([EXITS], EXITS, [], EXITS))];
      var s := Run(c, calls);
      Clean(c, calls) && s.out.sawError && !s.out.sawFinal && s.history.polled == [ErrorEvent("failed.")]
  {
    hide Apply, Inv, Run, Clean;
    var c := Helper(render);
    var poll := Poll(Says([SAYS_ERROR]));
    var wait := WaitScript([EXITS], EXITS, [], EXITS);
    AfterLaunch(c);
    TwoCalls(c, Launch(c), poll);
    ThreeCalls(c, Launch(c), poll, FinishWith(c, wait));
    RunKeeps(c, [Launch(c), poll]);
    var polled := Run(c, [Launch(c), poll]);
    PollsError(c, Apply(c, NEW, Launch(c)).0);
    var closing := FinishNow(c, polled, wait);
    ExitEndsWait(c, closing);
  }

  lemma PollsError(c: Codec, s: Session)
    requires c.decode == Decode && c.lossy == Text && s.process == Some(RUNNING)
    requires s.out == SILENT && s.stdoutBuffer == "" && s.stdoutBytes == 0 && s.history.polled == []
    ensures
      var (t, r) := Apply(c, s, Poll(Says([SAYS_ERROR])));
      && r == Done
      && t == s.(out := Output([], "", false, true, false), stdoutBytes := 1, stderrTail := "", history := t.history)
      && t.history.polled == [ErrorEvent("failed.")]
  {
    hide Read, Pump;
    HeardOne(c, s, SAYS_ERROR);
    Heard(c, s, SAYS_ERROR);
    FailedIsClean();
  }

  lemma ExitEndsWait(c: Codec, s: Session)
    requires s.process == Some(RUNNING.(stdinOpen := false)) && s.out == Output([], "", false, true, false)
             && !s.emitted
    ensures
      var (t, r) := Wait(c, s, WaitScript([EXITS], EXITS, [], EXITS));
      r == Done && t.out.sawError && !t.out.sawFinal
  {
    var wait := WaitScript([EXITS], EXITS, [], EXITS);
    var exited := Pump(c, s, EXITS).0;
    assert exited == s.(process := Some(Process(false, false, false, Some(true))), stderrTail := "");
    assert wait.All()[0] == EXITS && wait.All()[1..] == [EXITS];
    assert Await(c, s, wait.All()) == (exited, Done, false);
    assert [] + [Completed] == [Completed] && [Completed][1..] == [];
    assert FirstError([Completed]) == None;
  }

  /** The final text comes with the last look before the deadline: the finish times out. */
  lemma FinalTextTimesOut(render: Renderer)
    ensures
      var c := Helper(render);
      var finish := FinishWith(c, WaitScript([], Says([SAYS_FINAL]), [], EXITS));
      var (s, r) := Apply(c, Apply(c, NEW, Launch(c)).0, finish);
      r == Failed(Reported("timed out.")) && s.out.sawFinal
  {
    hide Apply, Inv, Read;
    var c := Helper(render);
    var wait := WaitScript([], Says([SAYS_FINAL]), [], EXITS);
    AfterLaunch(c);
    NothingSent(c);
    ApplyKeeps(c, NEW, Launch(c));
    var closing := FinishNow(c, Apply(c, NEW, Launch(c)).0, wait);
    HeardOne(c, closing, SAYS_FINAL);
    Heard(c, closing, SAYS_FINAL);
    assert wait.All() == [Says([SAYS_FINAL])];
    TimedOutIsClean();
  }

  /** The helper reports an error and closes, and the last look brings a final text after all: the
      finish reports the error although nothing timed out. */
  lemma FinalTextTooLate(render: Renderer)
    ensures
      var c := Helper(render);
      var finish := FinishWith(c, WaitScript([Says([SAYS_ERROR, SAYS_CLOSED])], EXITS, [], Says([SAYS_FINAL])));
      var (s, r) := Apply(c, Apply(c, NEW, Launch(c)).0, finish);
      r == Failed(Reported("failed.")) && s.out.sawFinal
  {
    hide Apply, Inv;
    var c := Helper(render);
    var wait := WaitScript([Says([SAYS_ERROR, SAYS_CLOSED])], EXITS, [], Says([SAYS_FINAL]));
    AfterLaunch(c);
    NothingSent(c);
    ApplyKeeps(c, NEW, Launch(c));
    var closing := FinishNow(c, Apply(c, NEW, Launch(c)).0, wait);
    ClosesThenFinal(c, closing);
  }

  lemma ClosesThenFinal(c: Codec, s: Session)
    requires c.decode == Decode && c.lossy == Text && s.process == Some(RUNNING.(stdinOpen := false))
    requires s.out == SILENT && s.stdoutBuffer == "" && s.stdoutBytes == 0 && !s.emitted
    ensures
      var (t, r) := Wait(c, s, WaitScript([Says([SAYS_ERROR, SAYS_CLOSED])], EXITS, [], Says([SAYS_FINAL])));
      r == Failed(Reported("failed.")) && t.out.sawFinal
  {
    hide Read;
    var wait := WaitScript([Says([SAYS_ERROR, SAYS_CLOSED])], EXITS, [], Says([SAYS_FINAL]));
    Heard(c, s, SAYS_ERROR);
    var first := Read(c, s, SAYS_ERROR).0;
    Heard(c, first, SAYS_CLOSED);
    var second := Read(c, first, SAYS_CLOSED).0;
    var chunks := [SAYS_ERROR, SAYS_CLOSED];
    var rest := chunks[1..];
    assert rest == [SAYS_CLOSED] && |rest[1..]| == 0;
    assert ReadAll(c, first, rest) == (second, Done);
    assert ReadAll(c, s, chunks) == (second, Done);
    FailedIsClean();
    var closed := second.(stderrTail := "");
    assert Pump(c, s, Says(chunks)) == (closed, Done);
    assert wait.All()[0] == Says(chunks) && wait.All()[1..] == [EXITS];
    assert Await(c, closed, [EXITS]) == (closed, Done, false);
    assert Await(c, s, wait.All()) == (closed, Done, false);
    Heard(c, closed, SAYS_FINAL);
    HeardOne(c, closed, SAYS_FINAL);
    var final := Pump(c, closed, Says([SAYS_FINAL])).0;
    assert final.out.events == [ErrorEvent("failed."), FinalText("hi")];
    assert EndStream(Told(final)).out.events[0] == ErrorEvent("failed.");
  }

  /** A cancel after a finish whose `Completed` has not been polled drops it for good: no poll will
      ever bring it. */
  lemma {:induction false} CancelSwallows(c: Codec, calls: seq<Call>, cancel: Call, polls: seq<PumpTurn>)
    requires cancel.Cancel? && Run(c, calls).emitted && Run(c, calls).lifecycle == Finished
    requires Completed in Run(c, calls).out.events
    ensures
      var s := Run(c, calls + [cancel] + PollsOf(polls));
      && s.history.polled == Run(c, calls).history.polled && Completed !in s.history.polled
      && s.process.None? && s.out.events == []
    decreases |polls|
  {
    hide Apply, Inv, SendCancel;
    if polls == [] {
      var all := calls + [cancel] + PollsOf(polls);
      assert all == calls + [cancel] && all[..|all| - 1] == calls;
      RunKeeps(c, calls);
      CancelIsSilent(c, Run(c, calls), cancel);
    } else {
      var before := calls + [cancel] + PollsOf(polls[..|polls| - 1]);
      var all := calls + [cancel] + PollsOf(polls);
      assert all[..|all| - 1] == before && all[|all| - 1] == Poll(polls[|polls| - 1]);
      CancelSwallows(c, calls, cancel, polls[..|polls| - 1]);
      PollsNothing(c, Run(c, before), polls[|polls| - 1]);
    }
  }

  /** The exact condition: after a cancel and a poll the stream ends in its one `Completed`, unless a
      finish had queued it before and nobody polled it in time. */
  lemma {:induction false} CancelDeliversIff(c: Codec, calls: seq<Call>, cancel: Call, polls: seq<PumpTurn>)
    requires cancel.Cancel? && Run(c, calls).lifecycle != Cancelled && polls != []
    ensures
      var before, s := Run(c, calls), Run(c, calls + [cancel] + PollsOf(polls));
      && s.history.polled == before.history.polled + (if before.emitted then [] else [Completed])
      && (EndsOnce(s.history.polled) <==> !(before.emitted && Completed in before.out.events))
      && s.process.None? && s.out.events == []
    decreases |polls|
  {
    hide Apply, Inv, SendCancel, EndsOnce;
    var last := |polls| - 1;
    var before := calls + [cancel] + PollsOf(polls[..last]);
    var all := calls + [cancel] + PollsOf(polls);
    assert all[..|all| - 1] == before && all[|all| - 1] == Poll(polls[last]);
    if last == 0 {
      assert before == calls + [cancel] && before[..|calls|] == calls;
      RunKeeps(c, calls);
      PolledAfterCancel(c, Run(c, calls), cancel, polls[last]);
    } else {
      CancelDeliversIff(c, calls, cancel, polls[..last]);
      PollsNothing(c, Run(c, before), polls[last]);
    }
  }

  lemma PolledAfterCancel(c: Codec, s: Session, cancel: Call, turn: PumpTurn)
    requires Inv(c, s) && cancel.Cancel? && s.lifecycle != Cancelled
    ensures
      var t := Apply(c, Apply(c, s, cancel).0, Poll(turn)).0;
      && t.history.polled == s.history.polled + (if s.emitted then [] else [Completed])
      && (EndsOnce(t.history.polled) <==> !(s.emitted && Completed in s.out.events))
      && t.process.None? && t.out.events == []
  {
    hide SendCancel, InputIs;
    CancelKeeps(c, s, cancel.starts, cancel.script);
    EndOfCancelled(s.history.polled, s.out.events, s.emitted, s.process.Some?, s.lifecycle);
  }

  lemma EndOfCancelled(
      polled: seq<RecognitionEvent>, events: seq<RecognitionEvent>, emitted: bool, running: bool, lifecycle: Lifecycle)
    requires StreamIs(polled, events, emitted, running, lifecycle) && lifecycle != Cancelled
    ensures EndsOnce(polled + (if emitted then [] else [Completed])) <==> !(emitted && Completed in events)
  {
    if emitted {
      assert polled + [] == polled;
      if Completed in events {
        var i :| 0 <= i < |events| && events[i] == Completed;
        assert (polled + events)[|polled| + i] == Completed;
        assert |polled| > 0 ==> (polled + events)[|polled| - 1] == polled[|polled| - 1];
      }
    } else {
      assert forall e | e in polled :: e in polled + events;
    }
  }

  lemma PollsNothing(c: Codec, s: Session, turn: PumpTurn)
    requires s.process.None? && s.out.events == []
    ensures Apply(c, s, Poll(turn)) == (s, Done)
  {
    assert s.history.polled + [] == s.history.polled;
  }

  lemma CancelIsSilent(c: Codec, s: Session, cancel: Call)
    requires Inv(c, s) && cancel.Cancel? && s.emitted && s.lifecycle == Finished && Completed in s.out.events
    ensures
      var t := Apply(c, s, cancel).0;
      && t.process.None? && t.out.events == [] && t.history.polled == s.history.polled && Completed !in t.history.polled
  {
    hide SendCancel, InputIs;
    CancelKeeps(c, s, cancel.starts, cancel.script);
    var i :| 0 <= i < |s.out.events| && s.out.events[i] == Completed;
    assert (s.history.polled + s.out.events)[|s.history.polled| + i] == Completed;
    forall k | 0 <= k < |s.history.polled|
      ensures s.history.polled[k] != Completed
    {
      assert (s.history.polled + s.out.events)[k] == s.history.polled[k];
    }
  }

  function PollsOf(turns: seq<PumpTurn>): seq<Call> {
    if turns == [] then [] else PollsOf(turns[..|turns| - 1]) + [Poll(turns[|turns| - 1])]
  }
}
