/** The incremental recognizer session as it is written: fields updated call by call. */
module StreamingSession {
  import opened Results
  import opened Pcm
  import opened StreamingLines
  import opened StreamingInput
  import opened SessionSteps
  import opened SessionRuns
  import opened SessionResults

  const EVENT_FINAL: bv8 := 1
  const EVENT_ERROR: bv8 := 2
  const EVENT_COMPLETED: bv8 := 4
  const EVENT_COMPLETED_EMITTED: bv8 := 8

  predicate Has(flags: bv8, bit: bv8) {
    flags & bit != 0
  }

  /** Setting one flag leaves the other three alone. */
  lemma SetFlag(flags: bv8, bit: bv8)
    requires bit in {EVENT_FINAL, EVENT_ERROR, EVENT_COMPLETED, EVENT_COMPLETED_EMITTED}
    ensures Has(flags | bit, EVENT_FINAL) <==> bit == EVENT_FINAL || Has(flags, EVENT_FINAL)
    ensures Has(flags | bit, EVENT_ERROR) <==> bit == EVENT_ERROR || Has(flags, EVENT_ERROR)
    ensures Has(flags | bit, EVENT_COMPLETED) <==> bit == EVENT_COMPLETED || Has(flags, EVENT_COMPLETED)
    ensures Has(flags | bit, EVENT_COMPLETED_EMITTED) <==>
            bit == EVENT_COMPLETED_EMITTED || Has(flags, EVENT_COMPLETED_EMITTED)
  {
  }

  lemma NoFlags()
    ensures !Has(0, EVENT_FINAL) && !Has(0, EVENT_ERROR) && !Has(0, EVENT_COMPLETED) && !Has(0, EVENT_COMPLETED_EMITTED)
  {
  }

  lemma WrittenPart(bytes: seq<byte>, offset: nat, end: nat)
    requires offset <= end <= |bytes|
    ensures bytes[offset..][..end - offset] == bytes[offset..end] && bytes[offset..][end - offset..] == bytes[end..]
  {
  }

  class LegacyCommandStreamingSession {
    const codec: Codec

    var process: Option<Process>
    var pendingSamples: seq<i16>
    var events: seq<RecognitionEvent>
    var stdoutBuffer: string
    var stdoutBytes: nat
    var stderrTail: string
    var lastPartialText: string
    var eventFlags: bv8
    var lifecycle: Lifecycle
    ghost var history: History

    constructor (codec: Codec)
      ensures State() == NEW && this.codec == codec
    {
      this.codec := codec;
      process := None;
      pendingSamples, events := [], [];
      stdoutBuffer, stdoutBytes, stderrTail, lastPartialText := "", 0, "", "";
      eventFlags := 0;
      lifecycle := Active;
      history := History([], [], [], [], false);
      NoFlags();
    }

    function Out(): Output
      reads this
    {
      Output(events, lastPartialText, Has(eventFlags, EVENT_FINAL), Has(eventFlags, EVENT_ERROR),
          Has(eventFlags, EVENT_COMPLETED))
    }

    ghost function State(): Session
      reads this
    {
      Session(process, pendingSamples, Out(), stdoutBuffer, stdoutBytes, stderrTail,
          Has(eventFlags, EVENT_COMPLETED_EMITTED),
              lifecycle, history)
    }

    // ---- Helper output ----

    method QueueError(message: string)
      modifies `events, `eventFlags
      ensures State() == old(State()).(out := PushError(old(Out()), message))
    {
      hide Has, Trim;
      var text := if Trim(message) == "" then "failed." else Trim(message);
      SetFlag(eventFlags, EVENT_ERROR);
      eventFlags := eventFlags | EVENT_ERROR;
      events := events + [ErrorEvent(text)];
    }

    method HandleEvent(e: RecognitionEvent)
      modifies `events, `eventFlags, `lastPartialText
      ensures Out() == Handle(old(Out()), e)
      ensures Has(eventFlags, EVENT_COMPLETED_EMITTED) == old(Has(eventFlags, EVENT_COMPLETED_EMITTED))
    {
      hide Has, PushError;
      match e
      case PartialText(text) =>
        if text != lastPartialText {
          lastPartialText := text;
          events := events + [e];
        }
      case FinalText(text) =>
        lastPartialText := "";
        SetFlag(eventFlags, EVENT_FINAL);
        eventFlags := eventFlags | EVENT_FINAL;
        events := events + [e];
      case ErrorEvent(message) =>
        QueueError(message);
      case Completed =>
        SetFlag(eventFlags, EVENT_COMPLETED);
        eventFlags := eventFlags | EVENT_COMPLETED;
    }

    /** One line updates the queue as its parsed events say; a line that is not JSON changes nothing. */
    method HandleOutputLine(line: string) returns (r: Outcome)
      modifies `events, `eventFlags, `lastPartialText
      ensures
        match ParseLine(codec.decode, line)
        case None => r == Failed(InvalidJson) && State() == old(State())
        case Some(events) => r == Done && State() == old(State()).(out := HandleAll(old(Out()), events))
    {
      hide Has, ParseLine, Handle;
      var parsed := ParseLine(codec.decode, line);
      if parsed.None? {
        return Failed(InvalidJson);
      }
      var todo := parsed.value;
      ghost var after := HandleAll(Out(), todo);
      while todo != []
        invariant after == HandleAll(Out(), todo)
        invariant State() == old(State()).(out := Out())
        decreases |todo|
      {
        HandleEvent(todo[0]);
        todo := todo[1..];
      }
      return Done;
    }

    /** A read within the limit is drained line by line, up to the first line that is not JSON. */
    method ConsumeStdoutBytes(chunk: seq<byte>) returns (r: Outcome)
      modifies `events, `eventFlags, `lastPartialText, `stdoutBuffer, `stdoutBytes
      ensures (State(), r) == Read(codec, old(State()), chunk)
    {
      hide Has, ParseLine, HandleAll, SaturatingAdd;
      stdoutBytes := SaturatingAdd(stdoutBytes, |chunk|);
      if stdoutBytes > MAX_COMMAND_OUTPUT_BYTES {
        return Failed(TooMuchOutput);
      }
      stdoutBuffer := stdoutBuffer + codec.lossy(chunk);
      ghost var whole := Drain(codec.decode, Out(), stdoutBuffer);
      while HasLine(stdoutBuffer)
        invariant whole == Drain(codec.decode, Out(), stdoutBuffer)
        invariant stdoutBytes == SaturatingAdd(old(stdoutBytes), |chunk|)
        invariant State() == old(State()).(out := Out(), stdoutBuffer := stdoutBuffer, stdoutBytes := stdoutBytes)
        decreases |stdoutBuffer|
      {
        var line := FirstLine(stdoutBuffer);
        stdoutBuffer := AfterLine(stdoutBuffer);
        var handled := HandleOutputLine(line);
        if handled != Done {
          return handled;
        }
      }
      return Done;
    }

    /** The reads of one look, up to the first that is refused. */
    method ConsumeAll(chunks: seq<seq<byte>>) returns (r: Outcome)
      modifies `events, `eventFlags, `lastPartialText, `stdoutBuffer, `stdoutBytes
      ensures (State(), r) == ReadAll(codec, old(State()), chunks)
    {
      hide Has, Read;
      var todo := chunks;
      while todo != []
        invariant ReadAll(codec, State(), todo) == ReadAll(codec, old(State()), chunks)
        decreases |todo|
      {
        var consumed := ConsumeStdoutBytes(todo[0]);
        if consumed != Done {
          return consumed;
        }
        todo := todo[1..];
      }
      return Done;
    }

    /** One look at the helper. */
    method PumpIo(turn: PumpTurn) returns (r: Outcome)
      modifies `process, `events, `eventFlags, `lastPartialText, `stdoutBuffer, `stdoutBytes, `stderrTail
      ensures (State(), r) == Pump(codec, old(State()), turn)
      ensures Looked(old(State()), State()) && NotReported(r)
    {
      hide Has, ReadAll, PushError, StderrOr, Looked;
      PumpKeeps(codec, State(), turn);
      if process.None? {
        return Done;
      }
      var was := process.value;
      if turn.Broken? {
        return Failed(PipeFailed);
      }
      if was.stdoutOpen {
        r := ConsumeAll(turn.chunks);
        if r != Done {
          return;
        }
      }
      if was.stderrOpen {
        if turn.stderr.None? {
          return Failed(TooMuchOutput);
        }
        stderrTail := turn.stderr.value;
      }
      process := Some(was.(stdoutOpen := was.stdoutOpen && !turn.stdoutClosed,
                           stderrOpen := was.stderrOpen && !turn.stderrClosed));
      if was.exited.None? && turn.exited.Some? {
        process := Some(Process(false, false, false, turn.exited));
        if turn.exited == Some(false) && !Out().sawError && !Out().sawFinal {
          QueueError(StderrOr(stderrTail, "failed."));
        }
      }
      return Done;
    }

    // ---- Helper input ----

    method EnsureStarted(starts: bool) returns (r: Outcome)
      modifies `process, `history
      ensures (State(), r) == Start(old(State()), starts)
    {
      if process.Some? {
        return Done;
      }
      if !starts {
        return Failed(SpawnFailed);
      }
      process := Some(RUNNING);
      history := history.(written := [], lines := []);
      return Done;
    }

    /** The write loop: however little each write accepts, until the deadline. */
    method WriteBytes(bytes: seq<byte>, script: WriteScript) returns (r: Outcome)
      modifies `process, `events, `eventFlags, `lastPartialText, `stdoutBuffer, `stdoutBytes, `stderrTail, `history
      ensures (State(), r) == WriteFrom(codec, old(State()), bytes, script.All())
      ensures old(history.written) <= history.written <= old(history.written) + bytes
      ensures r == Done ==> history.written == old(history.written) + bytes
    {
      hide Has, Pump, Looked;
      var offset := 0;
      WriteFromKeeps(codec, State(), bytes, script.All());
      var todo := script.turns + [script.last];
      while offset < |bytes|
        invariant offset <= |bytes| && (offset < |bytes| ==> todo != [])
        invariant WriteFrom(codec, State(), bytes[offset..], todo)
                  == WriteFrom(codec, old(State()), bytes, script.All())
        decreases |todo|
      {
        var late := |todo| == 1;
        var turn := todo[0];
        r := PumpIo(turn.pump);
        if r != Done {
          return;
        }
        if process.None? || !process.value.stdinOpen {
          return Failed(StdinClosed);
        }
        match turn.write {
          case Wrote(n) =>
            if n == 0 {
              return Failed(StdinClosed);
            }
            var end := if offset + n < |bytes| then offset + n else |bytes|;
            WrittenPart(bytes, offset, end);
            history := history.(written := history.written + bytes[offset..end]);
            offset := end;
          case WouldBlock =>
            if late {
              return Failed(TimedOut);
            }
          case Interrupted =>
          case WriteError =>
            return Failed(WriteFailed);
        }
        if late && offset < |bytes| {
          return Failed(TimedOut);
        }
        todo := todo[1..];
      }
      return Done;
    }

    method WriteJsonLine(line: Line, starts: bool, script: WriteScript) returns (r: Outcome)
      modifies `process, `events, `eventFlags, `lastPartialText, `stdoutBuffer, `stdoutBytes, `stderrTail, `history
      ensures (State(), r) == WriteLine(codec, old(State()), line, starts, script)
    {
      hide Has, Pump, WriteFrom;
      r := EnsureStarted(starts);
      if r != Done {
        return;
      }
      r := WriteBytes(codec.render(line) + [NEWLINE], script);
      if r != Done {
        return;
      }
      r := PumpIo(script.after);
      if r == Done {
        history := history.(lines := history.lines + [line]);
      }
    }

    method FlushPendingChunk(commit: bool, starts: bool, script: WriteScript) returns (r: Outcome)
      modifies `pendingSamples, `process, `events, `eventFlags, `lastPartialText, `stdoutBuffer, `stdoutBytes,
               `stderrTail
      modifies `history
      ensures (State(), r) == Flush(codec, old(State()), commit, starts, script)
    {
      hide Has, WriteLine;
      if pendingSamples == [] {
        return Done;
      }
      var line := Audio(pendingSamples, commit);
      pendingSamples := [];
      r := WriteJsonLine(line, starts, script);
    }

    // ---- The final wait ----

    method QueueCompleted()
      modifies `events, `eventFlags
      ensures State() == Emit(old(State()))
    {
      hide Has;
      if Has(eventFlags, EVENT_COMPLETED_EMITTED) {
        return;
      }
      SetFlag(eventFlags, EVENT_COMPLETED);
      eventFlags := eventFlags | EVENT_COMPLETED;
      SetFlag(eventFlags, EVENT_COMPLETED_EMITTED);
      eventFlags := eventFlags | EVENT_COMPLETED_EMITTED;
      events := events + [Completed];
    }

    method CleanupProcess()
      modifies `process
      ensures State() == old(State()).(process := None)
    {
      process := None;
    }

    method FirstErrorMessage() returns (message: Option<string>)
      ensures message == FirstError(events)
    {
      var todo := events;
      while todo != []
        invariant FirstError(todo) == FirstError(events)
        decreases |todo|
      {
        if todo[0].ErrorEvent? {
          return Some(todo[0].message);
        }
        todo := todo[1..];
      }
      return None;
    }

    /** Waits for the helper to say something final, and ends the stream. */
    method WaitForFinish(script: WaitScript) returns (r: Outcome)
      modifies `process, `events, `eventFlags, `lastPartialText, `stdoutBuffer, `stdoutBytes, `stderrTail
      ensures (State(), r) == Wait(codec, old(State()), script)
      ensures old(Open(State())) && old(process).Some? && (r == Done || r.error.Reported?) ==>
                Closed(old(State()), State())
    {
      hide Has, Pump, PushError, StderrOr, FirstError, Emit, Looked, Closed, Late, Early;
      if Open(State()) && process.Some? {
        WaitOutcome(codec, State(), script);
      }
      ghost var all := script.All();
      var i := 0;
      while !Out().sawFinal && !Out().completed && !(process.Some? && process.value.exited.Some?)
        invariant i <= |script.turns|
        invariant Await(codec, State(), all[i..]) == Await(codec, old(State()), all)
        decreases |script.turns| - i
      {
        var late := i == |script.turns|;
        var turn := if late then script.last else script.turns[i];
        assert all[i..][0] == turn && all[i..][1..] == all[i + 1..];
        r := PumpIo(turn);
        if r != Done {
          return;
        }
        if late {
          var message := StderrOr(stderrTail, "timed out.");
          QueueError(message);
          QueueCompleted();
          CleanupProcess();
          return Failed(Reported(message));
        }
        i := i + 1;
      }
      assert Await(codec, old(State()), all) == (State(), Done, false);
      if Out().sawFinal {
        ghost var waited := State();
        var turns := script.grace;
        while !Out().completed && !(process.Some? && process.value.exited.Some?) && turns != []
          invariant Grace(codec, State(), turns) == Grace(codec, waited, script.grace)
          decreases |turns|
        {
          r := PumpIo(turns[0]);
          if r != Done {
            return;
          }
          turns := turns[1..];
        }
        r := PumpIo(script.end);
        if r != Done {
          return;
        }
        QueueCompleted();
        CleanupProcess();
        return Done;
      }
      r := PumpIo(script.end);
      if r != Done {
        return;
      }
      if !Out().sawFinal && !Out().sawError {
        QueueError(StderrOr(stderrTail, "returned no text."));
      }
      QueueCompleted();
      var error := FirstErrorMessage();
      CleanupProcess();
      return if error.None? then Done else Failed(Reported(error.value));
    }

    // ---- The session interface ----

    method PushAudio(samples: seq<i16>, starts: bool, script: WriteScript, after: PumpTurn) returns (r: Outcome)
      modifies this
      ensures (State(), r) == PushCall(codec, old(State()), samples, starts, script, after)
      ensures old(Inv(codec, State())) ==> Inv(codec, State())
    {
      hide Has, Pump, Flush, Start, Inv;
      if Inv(codec, State()) {
        ApplyKeeps(codec, State(), Push(samples, starts, script, after));
      }
      if lifecycle == Cancelled {
        return Failed(WasCancelled);
      }
      if lifecycle == Finished {
        return Failed(WasFinished);
      }
      r := EnsureStarted(starts);
      if r != Done {
        return;
      }
      r := FlushPendingChunk(false, starts, script);
      if r != Done {
        history := history.(broken := true);
        return;
      }
      pendingSamples := samples;
      history := history.(pushes := history.pushes + [samples]);
      r := PumpIo(after);
    }

    method FinishSession(starts: bool, commit: WriteScript, finish: WriteScript, wait: WaitScript) returns (r: Outcome)
      modifies this
      ensures (State(), r) == FinishCall(codec, old(State()), starts, commit, finish, wait)
      ensures old(Inv(codec, State())) ==> Inv(codec, State())
    {
      hide Has, Flush, Start, WriteLine, Wait, Inv;
      if Inv(codec, State()) {
        ApplyKeeps(codec, State(), Finish(starts, commit, finish, wait));
      }
      if lifecycle == Cancelled {
        return Failed(WasCancelled);
      }
      if lifecycle == Finished {
        return Done;
      }
      r := EnsureStarted(starts);
      if r != Done {
        return;
      }
      lifecycle := Finished;
      r := FlushPendingChunk(true, starts, commit);
      if r != Done {
        history := history.(broken := true);
        return;
      }
      r := WriteJsonLine(FinishLine, starts, finish);
      if r != Done {
        history := history.(broken := true);
        return;
      }
      if process.Some? {
        process := Some(process.value.(stdinOpen := false));
      }
      r := WaitForFinish(wait);
    }

    /** The helper is told to stop; whether it can be does not matter. */
    method SendCancelLine(starts: bool, script: WriteScript)
      modifies `process, `events, `eventFlags, `lastPartialText, `stdoutBuffer, `stdoutBytes, `stderrTail, `history
      ensures State() == SendCancel(codec, old(State()), starts, script)
    {
      hide Has, WriteLine;
      var ignored := WriteJsonLine(CancelLine, starts, script);
      if ignored != Done {
        history := history.(broken := true);
      }
    }

    method CancelSession(starts: bool, script: WriteScript) returns (r: Outcome)
      modifies this
      ensures (State(), r) == CancelCall(codec, old(State()), starts, script)
      ensures old(Inv(codec, State())) ==> Inv(codec, State())
    {
      hide Has, SendCancel, Start, Emit, Inv;
      if Inv(codec, State()) {
        ApplyKeeps(codec, State(), Cancel(starts, script));
      }
      if lifecycle == Cancelled {
        return Done;
      }
      lifecycle := Cancelled;
      var started := EnsureStarted(starts);
      if started == Done {
        SendCancelLine(starts, script);
      }
      pendingSamples := [];
      events := [];
      QueueCompleted();
      CleanupProcess();
      return Done;
    }

    method PollEvents(turn: PumpTurn) returns (r: Outcome, batch: seq<RecognitionEvent>)
      modifies this
      ensures (State(), r) == PollCall(codec, old(State()), turn)
      ensures old(Inv(codec, State())) ==> Inv(codec, State())
      ensures history.polled == old(history.polled) + batch
      ensures if r == Done then old(events) <= batch && events == [] else batch == [] && old(events) <= events
    {
      hide Has, Pump, Inv;
      PumpKeeps(codec, State(), turn);
      if Inv(codec, State()) {
        ApplyKeeps(codec, State(), Poll(turn));
      }
      r := PumpIo(turn);
      if r != Done {
        return r, [];
      }
      batch := events;
      history := history.(polled := history.polled + batch);
      events := [];
    }
  }

  /** One call, and what it hands out. */
  method Perform(s: LegacyCommandStreamingSession, call: Call) returns (r: Outcome, batch: seq<RecognitionEvent>)
    requires Inv(s.codec, s.State())
    modifies s
    ensures (s.State(), r) == Apply(s.codec, old(s.State()), call)
    ensures s.history.polled == old(s.history.polled) + batch
  {
    hide PushCall, FinishCall, CancelCall, PollCall, Inv, Has;
    OnlyPollsAreSeen(s.codec, s.State(), call);
    batch := [];
    match call {
      case Push(samples, starts, script, after) =>
        r := s.PushAudio(samples, starts, script, after);
      case Finish(starts, commit, finish, wait) =>
        r := s.FinishSession(starts, commit, finish, wait);
      case Cancel(starts, script) =>
        r := s.CancelSession(starts, script);
      case Poll(turn) =>
        r, batch := s.PollEvents(turn);
    }
  }

  /** Any sequence of calls on a new session hands out the stream of the run, with the outcome of each
      call; that stream holds `Completed` at most once, with nothing behind it. */
  method WholeSession(codec: Codec, calls: seq<Call>) returns (stream: seq<RecognitionEvent>, outcomes: seq<Outcome>)
    ensures stream == Run(codec, calls).history.polled && CompletedLast(stream)
    ensures |outcomes| == |calls|
    ensures forall i | 0 <= i < |calls| :: outcomes[i] == Apply(codec, Run(codec, calls[..i]), calls[i]).1
  {
    hide Apply, CompletedLast, Inv, Has;
    var s := new LegacyCommandStreamingSession(codec);
    stream, outcomes := [], [];
    assert calls[..0] == [];
    for i := 0 to |calls|
      invariant fresh(s) && s.codec == codec && s.State() == Run(codec, calls[..i]) && s.history.polled == stream
      invariant |outcomes| == i
      invariant forall k | 0 <= k < i :: outcomes[k] == Apply(codec, Run(codec, calls[..k]), calls[k]).1
    {
      assert calls[..i + 1][..i] == calls[..i];
      RunKeeps(codec, calls[..i]);
      var r, batch := Perform(s, calls[i]);
      stream := stream + batch;
      outcomes := outcomes + [r];
    }
    assert calls[..|calls|] == calls;
    CompletedAtMostOnce(codec, calls);
  }

  lemma OnlyPollsAreSeen(c: Codec, s: Session, call: Call)
    requires Inv(c, s)
    ensures !call.Poll? ==> Apply(c, s, call).0.history.polled == s.history.polled
  {
    hide Inv, PushCall, FinishCall, CancelCall;
    match call
    case Push(_, _, _, _) => PushKeepsPolled(c, s, call);
    case Finish(_, _, _, _) => FinishKeepsPolled(c, s, call);
    case Cancel(_, _) => CancelKeepsPolled(c, s, call);
    case Poll(_) =>
  }

  lemma CancelKeepsPolled(c: Codec, s: Session, call: Call)
    requires Inv(c, s) && call.Cancel?
    ensures Apply(c, s, call).0.history.polled == s.history.polled
  {
    hide Inv, Emit, SendCancel;
    if s.lifecycle != Cancelled {
      CancelKeeps(c, s, call.starts, call.script);
    }
  }
}
