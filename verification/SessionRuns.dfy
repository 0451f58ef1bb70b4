/** What holds in every run of a recognizer session. */
module SessionRuns {
  import opened Results
  import opened Pcm
  import opened StreamingLines
  import opened StreamingInput
  import opened SessionSteps

  // ---- Event streams ----

  /** Nothing follows a `Completed`. */
  predicate CompletedLast(events: seq<RecognitionEvent>) {
    forall i | 0 <= i < |events| - 1 :: events[i] != Completed
  }

  /** One `Completed`, at the end. */
  predicate EndsOnce(events: seq<RecognitionEvent>) {
    |events| > 0 && events[|events| - 1] == Completed && CompletedLast(events)
  }

  predicate ErrorIn(events: seq<RecognitionEvent>) {
    exists i :: 0 <= i < |events| && events[i].ErrorEvent?
  }

  predicate FinalIn(events: seq<RecognitionEvent>) {
    exists i :: 0 <= i < |events| && events[i].FinalText?
  }

  /** The flags for errors and final texts are raised by exactly the events that are appended. */
  predicate Raises(a: Output, b: Output) {
    && a.events <= b.events
    && (b.sawError <==> a.sawError || ErrorIn(b.events[|a.events|..]))
    && (b.sawFinal <==> a.sawFinal || FinalIn(b.events[|a.events|..]))
  }

  lemma RaisesTransitively(a: Output, b: Output, c: Output)
    requires Raises(a, b) && Raises(b, c)
    ensures Raises(a, c)
  {
    hide ErrorIn, FinalIn;
    assert c.events[|a.events|..] == b.events[|a.events|..] + c.events[|b.events|..];
    InEither(b.events[|a.events|..], c.events[|b.events|..]);
  }

  lemma InEither(x: seq<RecognitionEvent>, y: seq<RecognitionEvent>)
    ensures ErrorIn(x + y) <==> ErrorIn(x) || ErrorIn(y)
    ensures FinalIn(x + y) <==> FinalIn(x) || FinalIn(y)
  {
    var all := x + y;
    assert forall i | 0 <= i < |x| :: all[i] == x[i];
    assert forall i | 0 <= i < |y| :: all[|x| + i] == y[i];
    if ErrorIn(all) {
      var i :| 0 <= i < |all| && all[i].ErrorEvent?;
      assert i < |x| || y[i - |x|] == all[i];
    }
    if FinalIn(all) {
      var i :| 0 <= i < |all| && all[i].FinalText?;
      assert i < |x| || y[i - |x|] == all[i];
    }
  }

  /** What reading helper output may do to a queue: events other than `Completed` are appended and
      flags are raised. */
  predicate Grows(a: Output, b: Output) {
    && a.events <= b.events
    && (Completed in b.events ==> Completed in a.events)
    && Raises(a, b)
    && (a.completed ==> b.completed)
  }

  lemma GrowsReflexively(o: Output)
    ensures Grows(o, o)
  {
  }

  lemma GrowsTransitively(a: Output, b: Output, c: Output)
    requires Grows(a, b) && Grows(b, c)
    ensures Grows(a, c)
  {
    hide Raises;
    RaisesTransitively(a, b, c);
  }

  lemma HandleGrows(o: Output, e: RecognitionEvent)
    ensures Grows(o, Handle(o, e))
  {
    hide Trim;
    OneMore(o.events, Handle(o, e).events);
  }

  /** At most one event was appended. */
  lemma OneMore(before: seq<RecognitionEvent>, after: seq<RecognitionEvent>)
    requires before <= after && |after| <= |before| + 1
    ensures
      var added := after[|before|..];
      && (ErrorIn(added) <==> |added| == 1 && after[|before|].ErrorEvent?)
      && (FinalIn(added) <==> |added| == 1 && after[|before|].FinalText?)
  {
    if |after| == |before| + 1 {
      assert after[|before|..][0] == after[|before|];
    }
  }

  lemma {:induction false} HandleAllGrows(o: Output, events: seq<RecognitionEvent>)
    ensures Grows(o, HandleAll(o, events))
    decreases |events|
  {
    if events != [] {
      HandleGrows(o, events[0]);
      HandleAllGrows(Handle(o, events[0]), events[1..]);
      GrowsTransitively(o, Handle(o, events[0]), HandleAll(o, events));
    }
  }

  lemma {:induction false} DrainGrows(decode: Decoder, o: Output, buffer: string)
    ensures Grows(o, Drain(decode, o, buffer).out)
    decreases |buffer|
  {
    hide ParseLine, Grows, HandleAll;
    GrowsReflexively(o);
    if HasLine(buffer) {
      var events := ParseLine(decode, FirstLine(buffer));
      if events.Some? {
        var next := HandleAll(o, events.value);
        HandleAllGrows(o, events.value);
        DrainGrows(decode, next, AfterLine(buffer));
        GrowsTransitively(o, next, Drain(decode, o, buffer).out);
      }
    }
  }

  lemma PushErrorGrows(o: Output, message: string)
    ensures Grows(o, PushError(o, message)) && PushError(o, message).sawError
  {
    hide Trim;
    OneMore(o.events, PushError(o, message).events);
  }

  // ---- What each step leaves alone ----

  /** `b` is `a` after the helper's output was looked at. */
  predicate Looked(a: Session, b: Session) {
    && b == a.(process := b.process, out := b.out, stdoutBuffer := b.stdoutBuffer, stdoutBytes := b.stdoutBytes,
               stderrTail := b.stderrTail)
    && (a.process.Some? <==> b.process.Some?)
    && Grows(a.out, b.out)
  }

  predicate NotReported(r: Outcome) {
    r == Done || !r.error.Reported?
  }

  lemma {:induction false} ReadAllKeeps(c: Codec, s: Session, chunks: seq<seq<byte>>)
    ensures
      var (t, r) := ReadAll(c, s, chunks);
      Looked(s, t) && t.process == s.process && NotReported(r)
    decreases |chunks|
  {
    hide Drain, Grows;
    GrowsReflexively(s.out);
    if chunks != [] {
      var (next, r) := Read(c, s, chunks[0]);
      DrainGrows(c.decode, s.out, s.stdoutBuffer + c.lossy(chunks[0]));
      if r == Done {
        ReadAllKeeps(c, next, chunks[1..]);
        GrowsTransitively(s.out, next.out, ReadAll(c, s, chunks).0.out);
      }
    }
  }

  lemma PumpKeeps(c: Codec, s: Session, turn: PumpTurn)
    ensures
      var (t, r) := Pump(c, s, turn);
      Looked(s, t) && NotReported(r)
  {
    hide ReadAll, Grows, PushError;
    GrowsReflexively(s.out);
    if turn.Turn? && s.process.Some? {
      ReadAllKeeps(c, s, turn.chunks);
      var read := ReadPipes(c, s, turn).0;
      GrowsReflexively(read.out);
      PushErrorGrows(read.out, StderrOr(read.stderrTail, "failed."));
      GrowsTransitively(s.out, read.out, Pump(c, s, turn).0.out);
    }
  }

  // ---- What is reported when the helper fails ----

  /** What the helper has left on standard error, or else a fixed text. */
  predicate IsReport(message: string, tail: string, fallback: string) {
    message == if Trim(tail) == "" then fallback else Trim(tail)
  }

  lemma ReportIsQueued(o: Output, tail: string, fallback: string)
    requires Trim(fallback) == fallback != ""
    ensures
      var queued := PushError(o, StderrOr(tail, fallback));
      && queued.sawError && |queued.events| == |o.events| + 1 && queued.events[..|o.events|] == o.events
      && queued.events[|o.events|].ErrorEvent? && IsReport(queued.events[|o.events|].message, tail, fallback)
  {
    hide White;
    TrimIsTight(tail);
  }

  /** An exit is noticed once and closes all pipes; an unsuccessful one is reported unless something
      final has been said, and a successful one never. */
  lemma ExitIsNoticed(c: Codec, s: Session, turn: PumpTurn)
    requires s.process.Some? && s.process.value.exited.None? && turn.Turn? && turn.exited.Some?
    requires ReadPipes(c, s, turn).1 == Done
    ensures
      var (t, r) := Pump(c, s, turn);
      var read := ReadPipes(c, s, turn).0;
      && r == Done && t.process == Some(Process(false, false, false, turn.exited))
      && if turn.exited.value || read.out.sawError || read.out.sawFinal then t.out == read.out
         else
           && t.out.sawError && |t.out.events| == |read.out.events| + 1
           && t.out.events[..|read.out.events|] == read.out.events && t.out.events[|read.out.events|].ErrorEvent?
           && IsReport(t.out.events[|read.out.events|].message, read.stderrTail, "failed.")
  {
    hide ReadPipes, StderrOr, PushError, IsReport;
    FailedIsClean();
    ReportIsQueued(ReadPipes(c, s, turn).0.out, ReadPipes(c, s, turn).0.stderrTail, "failed.");
  }

  lemma ExitIsNoticedOnce(c: Codec, s: Session, turn: PumpTurn)
    requires s.process.Some? && turn.Turn?
    requires exists exited :: s.process.value == Process(false, false, false, Some(exited))
    ensures Pump(c, s, turn) == (s, Done)
  {
  }

  /** A pipe that was seen closed is not read again. */
  lemma ClosedPipeIsLeft(c: Codec, s: Session, turn: PumpTurn, later: PumpTurn)
    requires s.process.Some? && turn.Turn? && turn.stdoutClosed && Pump(c, s, turn).1 == Done && later.Turn?
    ensures
      var t := Pump(c, s, turn).0;
      && t.process.Some? && !t.process.value.stdoutOpen
      && Pump(c, t, later) == Pump(c, t, later.(chunks := []))
      && Pump(c, t, later).0.stdoutBytes == t.stdoutBytes
  {
    hide ReadAll, AfterExit;
  }

  /** A wait that runs into its deadline reports the helper's standard error or the time-out. */
  lemma {:induction false} TimeOutIsReported(c: Codec, s: Session, turns: seq<PumpTurn>)
    requires turns != [] && Await(c, s, turns).2
    ensures
      var r := Await(c, s, turns).1;
      && r.Failed? && r.error.Reported?
      && IsReport(r.error.message, AfterLooks(c, s, turns).stderrTail, "timed out.")
    decreases |turns|
  {
    hide Pump, Stops, EndStream, PushError;
    var looked := Pump(c, s, turns[0]).0;
    if |turns| == 1 {
      assert AfterLooks(c, looked, turns[1..]) == looked;
    } else {
      TimeOutIsReported(c, looked, turns[1..]);
    }
  }

  /** Without a final text or an error, the last word is standard error or the lack of a text. */
  lemma SilenceIsReported(s: Session)
    requires !s.out.sawFinal && !s.out.sawError
    ensures
      var events := Told(s).out.events;
      && |events| == |s.out.events| + 1 && events[..|s.out.events|] == s.out.events
      && events[|s.out.events|].ErrorEvent?
      && IsReport(events[|s.out.events|].message, s.stderrTail, "returned no text.")
  {
    hide White, PushError, StderrOr, IsReport;
    NoTextIsClean();
    ReportIsQueued(s.out, s.stderrTail, "returned no text.");
  }

  lemma NoTextIsClean()
    ensures Trim("returned no text.") == "returned no text."
  {
    TightStays("returned no text.");
  }

  /** Looking does not depend on what has happened before. */
  lemma {:induction false} ReadAllIgnoresHistory(c: Codec, s: Session, h: History, chunks: seq<seq<byte>>)
    ensures ReadAll(c, s.(history := h), chunks) == (ReadAll(c, s, chunks).0.(history := h), ReadAll(c, s, chunks).1)
    decreases |chunks|
  {
    hide Drain;
    if chunks != [] {
      ReadAllIgnoresHistory(c, Read(c, s, chunks[0]).0, h, chunks[1..]);
    }
  }

  lemma PumpIgnoresHistory(c: Codec, s: Session, h: History, turn: PumpTurn)
    ensures Pump(c, s.(history := h), turn) == (Pump(c, s, turn).0.(history := h), Pump(c, s, turn).1)
  {
    hide ReadAll, AfterExit;
    if turn.Turn? {
      ReadAllIgnoresHistory(c, s, h, turn.chunks);
    }
  }

  /** However little each write accepts: success means that the helper got the bytes exactly once,
      failure that it got a part of them from the front. */
  lemma {:induction false} WriteFromKeeps(c: Codec, s: Session, bytes: seq<byte>, turns: seq<WriteTurn>)
    ensures
      var (t, r) := WriteFrom(c, s, bytes, turns);
      var sent := s.history.written + bytes;
      && Looked(s.(history := t.history), t) && NotReported(r)
      && t.history == s.history.(written := t.history.written)
      && s.history.written <= t.history.written <= sent
      && (r == Done ==> t.history.written == sent)
    decreases |turns|
  {
    hide Pump, Grows;
    GrowsReflexively(s.out);
    if bytes == [] {
      assert s.history.written + [] == s.history.written;
    } else if turns != [] {
      PumpKeeps(c, s, turns[0].pump);
      var looked := Pump(c, s, turns[0].pump).0;
      if Pump(c, s, turns[0].pump).1 == Done && StdinOpen(looked) {
        match turns[0].write
        case Wrote(n) =>
          if n > 0 {
            var k := if n < |bytes| then n else |bytes|;
            WriteFromKeeps(c, Accept(looked, bytes[..k]), bytes[k..], turns[1..]);
            assert looked.history.written + bytes[..k] + bytes[k..] == s.history.written + bytes;
            GrowsTransitively(s.out, looked.out, WriteFrom(c, s, bytes, turns).0.out);
          }
        case WriteError =>
        case _ =>
          WriteFromKeeps(c, looked, bytes, turns[1..]);
          GrowsTransitively(s.out, looked.out, WriteFrom(c, s, bytes, turns).0.out);
      }
    }
  }

  lemma WriteLineKeeps(c: Codec, s: Session, line: Line, starts: bool, script: WriteScript)
    ensures
      var (t, r) := WriteLine(c, s, line, starts, script);
      var started := Start(s, starts).0;
      && Looked(started.(history := t.history), t) && NotReported(r)
      && t.history == started.history.(written := t.history.written, lines := t.history.lines)
      && (r == Done ==>
            && t.process.Some?
            && t.history.written == started.history.written + LineBytes(c, line)
            && t.history.lines == started.history.lines + [line])
  {
    hide Pump, WriteFrom, Grows, LineBytes;
    var started := Start(s, starts).0;
    GrowsReflexively(started.out);
    if Start(s, starts).1 == Done {
      var (wrote, w) := WriteFrom(c, started, LineBytes(c, line), script.All());
      WriteFromKeeps(c, started, LineBytes(c, line), script.All());
      if w == Done {
        PumpKeeps(c, wrote, script.after);
        GrowsTransitively(started.out, wrote.out, Pump(c, wrote, script.after).0.out);
      }
    }
  }

  lemma FlushKeeps(c: Codec, s: Session, commit: bool, starts: bool, script: WriteScript)
    requires s.process.Some?
    ensures
      var (t, r) := Flush(c, s, commit, starts, script);
      var sent := if s.pendingSamples == [] then [] else [Audio(s.pendingSamples, commit)];
      && Looked(s.(history := t.history, pendingSamples := []), t) && NotReported(r)
      && t.history == s.history.(written := t.history.written, lines := t.history.lines)
      && (r == Done ==>
            && t.history.lines == s.history.lines + sent
            && (s.history.written == Wire(c.render, s.history.lines) ==>
                t.history.written == Wire(c.render, t.history.lines)))
  {
    hide WriteLine, Grows, Wire;
    GrowsReflexively(s.out);
    if s.pendingSamples == [] {
      assert s.history.lines + [] == s.history.lines;
    } else {
      var line := Audio(s.pendingSamples, commit);
      WriteLineKeeps(c, s.(pendingSamples := []), line, starts, script);
      WireAppend(c.render, s.history.lines, line);
    }
  }

  // ---- The final wait ----

  /** A session whose stream is still open. */
  predicate Open(s: Session) {
    !s.emitted && Completed !in s.out.events
  }

  /** The stream was closed: a final or error flag is set, everything queued before is still there,
      `Completed` was queued once, last, and the helper is gone. */
  predicate Closed(s: Session, t: Session) {
    && t == s.(process := None, out := t.out, stdoutBuffer := t.stdoutBuffer, stdoutBytes := t.stdoutBytes,
               stderrTail := t.stderrTail, emitted := true)
    && (t.out.sawFinal || t.out.sawError)
    && |t.out.events| > |s.out.events| && s.out.events <= t.out.events
    && t.out.events[|t.out.events| - 1] == Completed && Completed !in t.out.events[..|t.out.events| - 1]
  }

  lemma ClosingCloses(s: Session, told: Session)
    requires Open(s) && Looked(s, told) && (told.out.sawFinal || told.out.sawError)
    ensures Closed(s, EndStream(told))
    ensures EndStream(told).out == told.out.(events := told.out.events + [Completed], completed := true)
  {
    assert (told.out.events + [Completed])[..|told.out.events|] == told.out.events;
  }

  lemma LookedTransitively(a: Session, b: Session, c: Session)
    requires Looked(a, b) && Looked(b, c)
    ensures Looked(a, c)
  {
    hide Grows;
    GrowsTransitively(a.out, b.out, c.out);
  }

  lemma LookedReflexively(s: Session)
    ensures Looked(s, s)
  {
  }

  /** `late` tells that the deadline closed the stream. Otherwise the wait ends with the stream open. */
  lemma {:induction false} AwaitKeeps(c: Codec, s: Session, turns: seq<PumpTurn>)
    requires Open(s) && s.process.Some? && turns != []
    ensures
      var (t, r, late) := Await(c, s, turns);
      if late then Closed(s, t) && r.Failed? && r.error.Reported? && ErrorEvent(r.error.message) in t.out.events
      else Looked(s, t) && Open(t) && NotReported(r) && (r == Done ==> Stops(t))
    decreases |turns|
  {
    hide Pump, Looked, Closed, PushError, StderrOr;
    LookedReflexively(s);
    if !Stops(s) {
      var (looked, r) := Pump(c, s, turns[0]);
      PumpKeeps(c, s, turns[0]);
      StaysOpen(s, looked);
      if r == Done {
        if |turns| == 1 {
          ErrorQueued(s, looked, StderrOr(looked.stderrTail, "timed out."));
          StderrOrIsClean(looked.stderrTail);
          ClosingCloses(s, looked.(out := PushError(looked.out, StderrOr(looked.stderrTail, "timed out."))));
        } else {
          AwaitKeeps(c, looked, turns[1..]);
          OpenOnTheWay(s, looked, Await(c, s, turns).0);
        }
      }
    }
  }

  lemma StaysOpen(s: Session, t: Session)
    requires Open(s) && Looked(s, t)
    ensures Open(t) && (s.process.Some? ==> t.process.Some?) && (s.out.sawFinal ==> t.out.sawFinal)
  {
  }

  lemma OpenOnTheWay(s: Session, looked: Session, t: Session)
    requires Looked(s, looked)
    ensures Looked(looked, t) ==> Looked(s, t)
    ensures Closed(looked, t) ==> Closed(s, t)
  {
    if Looked(looked, t) {
      LookedTransitively(s, looked, t);
    }
  }

  lemma ErrorQueued(s: Session, looked: Session, message: string)
    requires Looked(s, looked)
    ensures
      var told := looked.(out := PushError(looked.out, message));
      && Looked(s, told) && told.out.sawError
      && (Trim(message) == message != "" ==> ErrorEvent(message) in told.out.events)
  {
    hide Trim, Raises;
    var told := looked.(out := PushError(looked.out, message));
    PushErrorGrows(looked.out, message);
    RaisesTransitively(s.out, looked.out, told.out);
    assert told.out.events[|told.out.events| - 1].ErrorEvent?;
  }

  lemma StderrOrIsClean(tail: string)
    ensures var message := StderrOr(tail, "timed out."); Trim(message) == message != ""
  {
    hide White;
    TrimIsTight(tail);
    TimedOutIsClean();
  }

  lemma TimedOutIsClean()
    ensures Trim("timed out.") == "timed out."
  {
  }

  lemma {:induction false} GraceKeeps(c: Codec, s: Session, turns: seq<PumpTurn>)
    ensures
      var (t, r) := Grace(c, s, turns);
      Looked(s, t) && NotReported(r)
    decreases |turns|
  {
    hide Pump, Looked;
    LookedReflexively(s);
    if !s.out.completed && !Exited(s) && turns != [] {
      var (looked, r) := Pump(c, s, turns[0]);
      PumpKeeps(c, s, turns[0]);
      if r == Done {
        GraceKeeps(c, looked, turns[1..]);
        LookedTransitively(s, looked, Grace(c, s, turns).0);
      }
    }
  }

  lemma {:induction false} FirstErrorFacts(events: seq<RecognitionEvent>)
    ensures FirstError(events).None? <==> forall e | e in events :: !e.ErrorEvent?
    ensures FirstError(events).Some? ==> ErrorEvent(FirstError(events).value) in events
    ensures forall i ::
              0 <= i < |events| && events[i].ErrorEvent? && (forall j | 0 <= j < i :: !events[j].ErrorEvent?) ==>
                FirstError(events) == Some(events[i].message)
  {
    if events != [] {
      assert forall e :: e in events <==> e == events[0] || e in events[1..];
      FirstErrorFacts(events[1..]);
      assert forall i | 0 < i < |events| :: events[i] == events[1..][i - 1];
    }
  }

  /** The deadline closed the stream. */
  predicate Late(c: Codec, s: Session, script: WaitScript) {
    Await(c, s, script.All()).2
  }

  /** A final text ended the wait. */
  predicate Early(c: Codec, s: Session, script: WaitScript) {
    Await(c, s, script.All()).1 == Done && Await(c, s, script.All()).0.out.sawFinal
  }

  /** Unless looking at the helper fails, the wait closes the stream. It then succeeds if and only if
      the deadline did not close it, and either a final text ended the wait or no error is left in the
      queue; a failure reports an error that is still queued. */
  lemma WaitOutcome(c: Codec, s: Session, script: WaitScript)
    requires Open(s) && s.process.Some?
    ensures
      var (t, r) := Wait(c, s, script);
      if NotReported(r) && r != Done then Looked(s, t) && Open(t)
      else
        && Closed(s, t)
        && (r == Done <==> !Late(c, s, script) && (Early(c, s, script) || !ErrorIn(t.out.events)))
        && (r != Done ==> ErrorEvent(r.error.message) in t.out.events)
  {
    hide Pump, Looked, Await, Closed, PushError, StderrOr, Grace, EndStream;
    AwaitKeeps(c, s, script.All());
    var (waited, r, late) := Await(c, s, script.All());
    if r == Done {
      if waited.out.sawFinal {
        GraceKeeps(c, waited, script.grace);
        var graced := Grace(c, waited, script.grace).0;
        StaysOpen(waited, graced);
        PumpKeeps(c, graced, script.end);
        var looked := Pump(c, graced, script.end).0;
        StaysOpen(graced, looked);
        LookedTransitively(s, waited, graced);
        LookedTransitively(s, graced, looked);
        ClosingCloses(s, looked);
      } else {
        PumpKeeps(c, waited, script.end);
        var looked := Pump(c, waited, script.end).0;
        StaysOpen(waited, looked);
        LookedTransitively(s, waited, looked);
        ErrorQueued(s, looked, StderrOr(looked.stderrTail, "returned no text."));
        ClosingCloses(s, Told(looked));
        FirstErrorFacts(EndStream(Told(looked)).out.events);
      }
    }
  }

  /** The session after some looks. */
  function AfterLooks(c: Codec, s: Session, turns: seq<PumpTurn>): Session
    decreases |turns|
  {
    if turns == [] then s else AfterLooks(c, Pump(c, s, turns[0]).0, turns[1..])
  }

  /** When look `k` is due nothing has ended the wait, and the look does not fail. */
  predicate Goes(c: Codec, s: Session, turns: seq<PumpTurn>, k: nat)
    requires k < |turns|
  {
    var at := AfterLooks(c, s, turns[..k]);
    !Stops(at) && Pump(c, at, turns[k]).1 == Done
  }

  /** All looks before `k` took place without ending the wait, which ends then. */
  predicate EndsAt(c: Codec, s: Session, turns: seq<PumpTurn>, k: nat)
    requires k < |turns|
  {
    (forall j: nat | j < k :: Goes(c, s, turns, j)) && Stops(AfterLooks(c, s, turns[..k]))
  }

  lemma GoesLater(c: Codec, s: Session, turns: seq<PumpTurn>, k: nat)
    requires 0 < k < |turns|
    ensures
      var looked := Pump(c, s, turns[0]).0;
      && AfterLooks(c, s, turns[..k]) == AfterLooks(c, looked, turns[1..][..k - 1])
      && (Goes(c, s, turns, k) <==> Goes(c, looked, turns[1..], k - 1))
  {
    hide Pump, Stops;
    assert turns[..k][1..] == turns[1..][..k - 1] && turns[1..][k - 1] == turns[k];
  }

  /** The deadline passes if and only if every look takes place and none but perhaps the last brings
      anything that ends the wait. */
  lemma {:induction false} AwaitMeans(c: Codec, s: Session, turns: seq<PumpTurn>)
    requires turns != []
    ensures Await(c, s, turns).2 <==> forall k: nat | k < |turns| :: Goes(c, s, turns, k)
    ensures Await(c, s, turns).1 == Done ==> exists k: nat :: k < |turns| && EndsAt(c, s, turns, k)
    ensures forall k: nat | k < |turns| && EndsAt(c, s, turns, k) ::
              Await(c, s, turns) == (AfterLooks(c, s, turns[..k]), Done, false)
    decreases |turns|
  {
    hide Pump, Stops, Goes, EndsAt, EndStream, PushError, StderrOr;
    var (looked, r) := Pump(c, s, turns[0]);
    FirstLook(c, s, turns);
    if Goes(c, s, turns, 0) && |turns| > 1 {
      var rest := turns[1..];
      AwaitMeans(c, looked, rest);
      forall k: nat | 0 < k < |turns|
        ensures AfterLooks(c, s, turns[..k]) == AfterLooks(c, looked, rest[..k - 1])
        ensures Goes(c, s, turns, k) <==> Goes(c, looked, rest, k - 1)
        ensures EndsAt(c, s, turns, k) <==> EndsAt(c, looked, rest, k - 1)
      {
        GoesLater(c, s, turns, k);
        EndsLater(c, s, turns, k);
      }
      if k: nat :| k < |rest| && EndsAt(c, looked, rest, k) {
        assert EndsAt(c, s, turns, k + 1);
      }
      if forall k: nat | k < |rest| :: Goes(c, looked, rest, k) {
        forall k: nat | k < |turns|
          ensures Goes(c, s, turns, k)
        {
          assert k > 0 ==> Goes(c, looked, rest, k - 1);
        }
      }
      if forall k: nat | k < |turns| :: Goes(c, s, turns, k) {
        forall k: nat | k < |rest|
          ensures Goes(c, looked, rest, k)
        {
          assert Goes(c, s, turns, k + 1);
        }
      }
    }
  }

  lemma FirstLook(c: Codec, s: Session, turns: seq<PumpTurn>)
    requires turns != []
    ensures AfterLooks(c, s, turns[..0]) == s
    ensures Goes(c, s, turns, 0) <==> !Stops(s) && Pump(c, s, turns[0]).1 == Done
    ensures EndsAt(c, s, turns, 0) <==> Stops(s)
    ensures forall k: nat | 0 < k < |turns| && EndsAt(c, s, turns, k) :: Goes(c, s, turns, 0)
  {
    hide Pump, Stops;
  }

  lemma EndsLater(c: Codec, s: Session, turns: seq<PumpTurn>, k: nat)
    requires 0 < k < |turns| && Goes(c, s, turns, 0)
    ensures EndsAt(c, s, turns, k) <==> EndsAt(c, Pump(c, s, turns[0]).0, turns[1..], k - 1)
  {
    hide Pump, Stops, Goes;
    var looked, rest := Pump(c, s, turns[0]).0, turns[1..];
    GoesLater(c, s, turns, k);
    forall j: nat | 0 < j < k
      ensures Goes(c, s, turns, j) <==> Goes(c, looked, rest, j - 1)
    {
      GoesLater(c, s, turns, j);
    }
    if EndsAt(c, s, turns, k) {
      forall j: nat | j < k - 1
        ensures Goes(c, looked, rest, j)
      {
        assert Goes(c, s, turns, j + 1);
      }
    }
  }

  /** After the last look no error is queued, and there is a reason for that: an error that has been
      reported before the wait, or a final text. */
  predicate NothingWrong(s: Session, last: Session) {
    !ErrorIn(last.out.events) && (s.out.sawError || last.out.sawFinal)
  }

  /** Before the deadline's look something ends the wait; either a final text has come by then, or
      nothing is wrong after one more look. */
  predicate Succeeds(c: Codec, s: Session, script: WaitScript) {
    exists k: nat :: k < |script.All()| && EndsAt(c, s, script.All(), k) && (
      var at := AfterLooks(c, s, script.All()[..k]);
      at.out.sawFinal || NothingWrong(s, Pump(c, at, script.end).0))
  }

  /** When a wait that closes the stream succeeds, in terms of what the looks find. */
  lemma WaitSucceedsIff(c: Codec, s: Session, script: WaitScript)
    requires Open(s) && s.process.Some?
    ensures
      var r := Wait(c, s, script).1;
      !NotReported(r) || r == Done ==> (r == Done <==> Succeeds(c, s, script))
  {
    hide Pump, Looked, Await, Closed, PushError, StderrOr, Grace, EndsAt, AfterLooks, Raises;
    var all := script.All();
    AwaitMeans(c, s, all);
    AwaitKeeps(c, s, all);
    var (waited, r, late) := Await(c, s, all);
    if r == Done {
      var k: nat :| k < |all| && EndsAt(c, s, all, k);
      assert waited == AfterLooks(c, s, all[..k]);
      var last := Pump(c, waited, script.end).0;
      PumpKeeps(c, waited, script.end);
      LookedTransitively(s, waited, last);
      LeftByThen(s, last);
      assert Succeeds(c, s, script) <==> waited.out.sawFinal || NothingWrong(s, last) by {
        forall j: nat | j < |all| && EndsAt(c, s, all, j)
          ensures AfterLooks(c, s, all[..j]) == waited
        {
        }
      }
      if waited.out.sawFinal {
        GraceKeeps(c, waited, script.grace);
        PumpKeeps(c, Grace(c, waited, script.grace).0, script.end);
      }
    }
  }

  lemma LeftByThen(s: Session, last: Session)
    requires Looked(s, last)
    ensures FirstError(EndStream(Told(last)).out.events).None? <==> NothingWrong(s, last)
  {
    var told := Told(last);
    PushErrorGrows(last.out, StderrOr(last.stderrTail, "returned no text."));
    FirstErrorFacts(EndStream(told).out.events);
  }

  // ---- The invariant ----

  /** The polled stream followed by the queue holds `Completed` at most once, at its end, and not
      before it was emitted; after that there is no process left that could add to the queue. After
      a finish that emitted it, it is there. */
  predicate StreamIs(
      polled: seq<RecognitionEvent>, events: seq<RecognitionEvent>, emitted: bool, running: bool, lifecycle: Lifecycle)
  {
    && CompletedLast(polled + events)
    && (Completed in polled + events ==> emitted)
    && (emitted ==> !running && lifecycle != Active)
    && (emitted && lifecycle == Finished ==> EndsOnce(polled + events))
  }

  /** What the helper has been told, as long as no line got stuck: in an active session all pushes but
      the held-back one, in a finished session all of them. */
  ghost predicate InputIs(render: Renderer, h: History, held: seq<i16>, running: bool, lifecycle: Lifecycle) {
    h.broken || (
      && h.written == Wire(render, h.lines)
      && (lifecycle == Active ==>
            h.lines == LinesSoFar(h.pushes) && held == HeldBack(h.pushes) && (running || h.pushes == []))
      && (lifecycle == Finished ==> h.lines == AllLines(h.pushes)))
  }

  ghost predicate Inv(c: Codec, s: Session) {
    && StreamIs(s.history.polled, s.out.events, s.emitted, s.process.Some?, s.lifecycle)
    && InputIs(c.render, s.history, s.pendingSamples, s.process.Some?, s.lifecycle)
  }

  lemma NothingSent(c: Codec)
    ensures Wire(c.render, []) == [] && LinesSoFar([]) == [] && HeldBack([]) == [] && Inv(c, NEW)
  {
  }

  /** Growing a queue without a `Completed` anywhere keeps the stream free of it. */
  lemma StreamGrows(polled: seq<RecognitionEvent>, a: Output, b: Output, running: bool, lifecycle: Lifecycle)
    requires Grows(a, b) && Completed !in polled + a.events
    ensures Completed !in polled + b.events && StreamIs(polled, b.events, false, running, lifecycle)
  {
  }

  /** A chunk goes out uncommitted and is replaced. */
  lemma PushKeepsInput(c: Codec, s: Session, samples: seq<i16>, starts: bool, script: WriteScript, after: PumpTurn)
    requires Inv(c, s) && s.lifecycle == Active
    ensures
      var t := PushCall(c, s, samples, starts, script, after).0;
      InputIs(c.render, t.history, t.pendingSamples, t.process.Some?, t.lifecycle)
  {
    hide Flush, Pump, Grows, StreamIs, Wire, LinesSoFar, HeldBack;
    NothingSent(c);
    var (started, r) := Start(s, starts);
    if r == Done {
      FlushKeeps(c, started, false, starts, script);
      var (flushed, f) := Flush(c, started, false, starts, script);
      if f == Done {
        PushMoves(s.history.pushes, samples);
        var pushed := flushed.(pendingSamples := samples,
                               history := flushed.history.(pushes := flushed.history.pushes + [samples]));
        PumpKeeps(c, pushed, after);
      }
    }
  }

  lemma PushKeepsStream(c: Codec, s: Session, samples: seq<i16>, starts: bool, script: WriteScript, after: PumpTurn)
    requires Inv(c, s) && s.lifecycle == Active
    ensures
      var t := PushCall(c, s, samples, starts, script, after).0;
      StreamIs(t.history.polled, t.out.events, t.emitted, t.process.Some?, t.lifecycle)
  {
    hide Flush, Pump, Grows, InputIs, CompletedLast;
    GrowsReflexively(s.out);
    var t := PushCall(c, s, samples, starts, script, after).0;
    var (started, r) := Start(s, starts);
    if r == Done {
      FlushKeeps(c, started, false, starts, script);
      var (flushed, f) := Flush(c, started, false, starts, script);
      if f == Done {
        var pushed := flushed.(pendingSamples := samples,
                               history := flushed.history.(pushes := flushed.history.pushes + [samples]));
        PumpKeeps(c, pushed, after);
        GrowsTransitively(s.out, flushed.out, t.out);
      }
    }
    StreamGrows(s.history.polled, s.out, t.out, t.process.Some?, t.lifecycle);
  }

  /** Sending the finish line: either everything is sent, or the input counts as broken. */
  lemma SendFinishKeeps(c: Codec, s: Session, starts: bool, commit: WriteScript, finish: WriteScript)
    requires s.process.Some? && s.lifecycle == Finished
    requires s.history.broken || (s.history.written == Wire(c.render, s.history.lines)
               && s.history.lines == LinesSoFar(s.history.pushes) && s.pendingSamples == HeldBack(s.history.pushes))
    ensures
      var (t, r) := SendFinish(c, s, starts, commit, finish);
      && Looked(s.(history := t.history, pendingSamples := []), t) && NotReported(r)
      && t.history.polled == s.history.polled && t.history.pushes == s.history.pushes
      && InputIs(c.render, t.history, t.pendingSamples, t.process.Some?, Finished)
      && (r == Done ==> t.history.broken == s.history.broken)
  {
    hide Flush, WriteLine, Grows, Wire, LinesSoFar, HeldBack;
    FlushKeeps(c, s, true, starts, commit);
    var (flushed, f) := Flush(c, s, true, starts, commit);
    if f == Done {
      WriteLineKeeps(c, flushed, FinishLine, starts, finish);
      WireAppend(c.render, flushed.history.lines, FinishLine);
      GrowsTransitively(s.out, flushed.out, SendFinish(c, s, starts, commit, finish).0.out);
    }
  }

  /** What a finish comes to: the stream is closed unless the input or a look fails. */
  lemma FinishOutcome(
      c: Codec, s: Session, starts: bool, commit: WriteScript, finish: WriteScript, wait: WaitScript)
    requires Inv(c, s) && s.lifecycle == Active
    ensures
      var (t, r) := FinishCall(c, s, starts, commit, finish, wait);
      && Inv(c, t)
      && t.history.polled == s.history.polled && t.history.pushes == s.history.pushes
      && s.out.events <= t.out.events
      && (r == Done || r.error.Reported? <==> t.emitted)
      && (t.emitted ==> t.lifecycle == Finished && (t.out.sawFinal || t.out.sawError) && EndsOnce(t.out.events))
      && (r == Done ==> t.lifecycle == Finished && t.history.broken == s.history.broken)
  {
    hide SendFinish, Wait, Grows, Wire, LinesSoFar, HeldBack, AllLines, CompletedLast, Late, Early;
    NothingSent(c);
    GrowsReflexively(s.out);
    StreamGrows(s.history.polled, s.out, s.out, s.process.Some?, Active);
    var (started, r) := Start(s, starts);
    if r == Done {
      var finishing := started.(lifecycle := Finished);
      SendFinishKeeps(c, finishing, starts, commit, finish);
      var (sent, w) := SendFinish(c, finishing, starts, commit, finish);
      StreamGrows(s.history.polled, s.out, sent.out, true, Finished);
      EventsGrow(s.out, sent.out);
      if w == Done {
        var closing := CloseStdin(sent);
        OpenStream(s.history.polled, sent.out);
        WaitOutcome(c, closing, wait);
        var t := Wait(c, closing, wait).0;
        if t.emitted {
          ClosedStream(s.history.polled, closing, t);
        } else {
          StreamGrows(s.history.polled, sent.out, t.out, true, Finished);
          EventsGrow(sent.out, t.out);
        }
      }
    }
  }

  lemma OpenStream(polled: seq<RecognitionEvent>, o: Output)
    requires Completed !in polled + o.events
    ensures Completed !in polled && Completed !in o.events
  {
  }

  lemma EventsGrow(a: Output, b: Output)
    requires Grows(a, b)
    ensures a.events <= b.events
  {
  }

  lemma ClosedStream(polled: seq<RecognitionEvent>, s: Session, t: Session)
    requires Closed(s, t) && Completed !in polled
    ensures StreamIs(polled, t.out.events, true, false, Finished) && EndsOnce(t.out.events)
  {
  }

  lemma CancelKeeps(c: Codec, s: Session, starts: bool, script: WriteScript)
    requires Inv(c, s) && s.lifecycle != Cancelled
    ensures
      var (t, r) := CancelCall(c, s, starts, script);
      && Inv(c, t) && r == Done && t.lifecycle == Cancelled && t.emitted && t.history.polled == s.history.polled
      && t.out.events == (if s.emitted then [] else [Completed])
      && t.process.None? && t.pendingSamples == []
  {
    hide WriteLine, Grows, Wire, LinesSoFar, HeldBack, AllLines, CompletedLast, StreamIs, EndsOnce;
    NothingSent(c);
    CancelledStream(s.history.polled, s.out.events, s.emitted, s.process.Some?, s.lifecycle);
    var (started, r) := Start(s.(lifecycle := Cancelled), starts);
    if r == Done {
      WriteLineKeeps(c, started, CancelLine, starts, script);
      WireAppend(c.render, started.history.lines, CancelLine);
    }
    assert [] + [Completed] == [Completed];
  }

  lemma CancelledStream(
      polled: seq<RecognitionEvent>, events: seq<RecognitionEvent>, emitted: bool, running: bool, lifecycle: Lifecycle)
    requires StreamIs(polled, events, emitted, running, lifecycle)
    ensures StreamIs(polled, if emitted then [] else [Completed], true, false, Cancelled)
  {
    forall i | 0 <= i < |polled| - 1
      ensures polled[i] != Completed
    {
      assert (polled + events)[i] == polled[i];
    }
    if !emitted {
      assert forall e | e in polled :: e in polled + events;
    } else {
      assert polled + [] == polled;
    }
  }

  lemma PollKeeps(c: Codec, s: Session, turn: PumpTurn)
    requires Inv(c, s)
    ensures Inv(c, PollCall(c, s, turn).0)
  {
    hide Pump, Grows, InputIs, CompletedLast;
    PumpKeeps(c, s, turn);
    var (looked, r) := Pump(c, s, turn);
    if !s.emitted {
      StreamGrows(s.history.polled, s.out, looked.out, looked.process.Some?, looked.lifecycle);
    } else {
      assert looked == s by {
        PumpsNothing(c, s, turn);
      }
    }
    assert s.history.polled + looked.out.events + [] == s.history.polled + looked.out.events;
    InputStays(c, s, PollCall(c, s, turn).0);
  }

  lemma PumpsNothing(c: Codec, s: Session, turn: PumpTurn)
    requires s.process.None?
    ensures Pump(c, s, turn) == (s, Done)
  {
  }

  lemma InputStays(c: Codec, s: Session, t: Session)
    requires InputIs(c.render, s.history, s.pendingSamples, s.process.Some?, s.lifecycle)
    requires t.history == s.history.(polled := t.history.polled) && t.pendingSamples == s.pendingSamples
    requires t.lifecycle == s.lifecycle && (s.process.Some? <==> t.process.Some?)
    ensures InputIs(c.render, t.history, t.pendingSamples, t.process.Some?, t.lifecycle)
  {
  }

  lemma ApplyKeeps(c: Codec, s: Session, call: Call)
    requires Inv(c, s)
    ensures Inv(c, Apply(c, s, call).0)
  {
    hide StreamIs, InputIs, Flush, Pump, SendFinish, Wait;
    match call
    case Push(samples, starts, script, after) =>
      if s.lifecycle == Active {
        PushKeepsInput(c, s, samples, starts, script, after);
        PushKeepsStream(c, s, samples, starts, script, after);
      }
    case Finish(starts, commit, finish, wait) =>
      if s.lifecycle == Active {
        FinishOutcome(c, s, starts, commit, finish, wait);
      }
    case Cancel(starts, script) =>
      if s.lifecycle != Cancelled {
        CancelKeeps(c, s, starts, script);
      }
    case Poll(turn) =>
      PollKeeps(c, s, turn);
  }

  lemma {:induction false} RunKeeps(c: Codec, calls: seq<Call>)
    ensures Inv(c, Run(c, calls))
  {
    hide Inv, Apply;
    if calls == [] {
      NothingSent(c);
    } else {
      RunKeeps(c, calls[..|calls| - 1]);
      ApplyKeeps(c, Run(c, calls[..|calls| - 1]), calls[|calls| - 1]);
    }
  }
}
