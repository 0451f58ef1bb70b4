/** What a session reads in any of its calls, and what becomes of it. */
module SessionHearing {
  import opened Results
  import opened Pcm
  import opened StreamingLines
  import opened StreamingInput
  import opened SessionSteps
  import opened SessionRuns
  import opened SessionResults

  // ---- What the helper does ----

  /** The helper does not exit unsuccessfully. */
  predicate Fair(turn: PumpTurn) {
    turn.Turn? ==> turn.exited != Some(false)
  }

  predicate FairScript(script: WriteScript) {
    (forall turn | turn in script.All() :: Fair(turn.pump)) && Fair(script.after)
  }

  predicate FairWait(script: WaitScript) {
    && (forall turn | turn in script.All() :: Fair(turn))
    && (forall turn | turn in script.grace :: Fair(turn))
    && Fair(script.end)
  }

  predicate FairCall(call: Call) {
    match call
    case Push(_, _, script, after) => FairScript(script) && Fair(after)
    case Finish(_, commit, finish, wait) => FairScript(commit) && FairScript(finish) && FairWait(wait)
    case Cancel(_, script) => FairScript(script)
    case Poll(turn) => Fair(turn)
  }

  // ---- What is read ----

  function PumpHears(c: Codec, s: Session, turn: PumpTurn): seq<string> {
    if s.process.Some? && s.process.value.stdoutOpen && turn.Turn? then Decoded(c.lossy, turn.chunks) else []
  }

  function WriteHears(c: Codec, s: Session, bytes: seq<byte>, turns: seq<WriteTurn>): seq<string>
    decreases |turns|
  {
    if bytes == [] || turns == [] then []
    else
      var looked := Pump(c, s, turns[0].pump).0;
      PumpHears(c, s, turns[0].pump) +
      match turns[0].write
      case Wrote(n) =>
        var k := if n < |bytes| then n else |bytes|;
        WriteHears(c, Accept(looked, bytes[..k]), bytes[k..], turns[1..])
      case _ => WriteHears(c, looked, bytes, turns[1..])
  }

  function LineHears(c: Codec, s: Session, line: Line, starts: bool, script: WriteScript): seq<string> {
    var started := Start(s, starts).0;
    WriteHears(c, started, LineBytes(c, line), script.All())
    + PumpHears(c, WriteFrom(c, started, LineBytes(c, line), script.All()).0, script.after)
  }

  function FlushHears(c: Codec, s: Session, commit: bool, starts: bool, script: WriteScript): seq<string> {
    if s.pendingSamples == [] then []
    else LineHears(c, s.(pendingSamples := []), Audio(s.pendingSamples, commit), starts, script)
  }

  function PushHears(c: Codec, s: Session, starts: bool, script: WriteScript, after: PumpTurn): seq<string> {
    var started := Start(s, starts).0;
    FlushHears(c, started, false, starts, script)
    + PumpHears(c, Flush(c, started, false, starts, script).0, after)
  }

  function AwaitHears(c: Codec, s: Session, turns: seq<PumpTurn>): seq<string>
    decreases |turns|
  {
    if Stops(s) || turns == [] then []
    else PumpHears(c, s, turns[0]) + AwaitHears(c, Pump(c, s, turns[0]).0, turns[1..])
  }

  function GraceHears(c: Codec, s: Session, turns: seq<PumpTurn>): seq<string>
    decreases |turns|
  {
    if s.out.completed || Exited(s) || turns == [] then []
    else PumpHears(c, s, turns[0]) + GraceHears(c, Pump(c, s, turns[0]).0, turns[1..])
  }

  function WaitHears(c: Codec, s: Session, script: WaitScript): seq<string> {
    var waited := Await(c, s, script.All()).0;
    AwaitHears(c, s, script.All()) +
    if waited.out.sawFinal then
      GraceHears(c, waited, script.grace) + PumpHears(c, Grace(c, waited, script.grace).0, script.end)
    else PumpHears(c, waited, script.end)
  }

  function FinishHears(
      c: Codec, s: Session, starts: bool, commit: WriteScript, finish: WriteScript, wait: WaitScript): seq<string>
  {
    var finishing := Start(s, starts).0.(lifecycle := Finished);
    FlushHears(c, finishing, true, starts, commit)
    + LineHears(c, Flush(c, finishing, true, starts, commit).0, FinishLine, starts, finish)
    + WaitHears(c, CloseStdin(SendFinish(c, finishing, starts, commit, finish).0), wait)
  }

  /** What a call that succeeds reads. */
  function CallHears(c: Codec, s: Session, call: Call): seq<string> {
    match call
    case Push(_, starts, script, after) => PushHears(c, s, starts, script, after)
    case Finish(starts, commit, finish, wait) =>
      if s.lifecycle == Active then FinishHears(c, s, starts, commit, finish, wait) else []
    case Cancel(_, _) => []
    case Poll(turn) => PumpHears(c, s, turn)
  }

  /** All that is read in a run, in order. */
  function RunHears(c: Codec, calls: seq<Call>): seq<string> {
    if calls == [] then []
    else
      var before := calls[..|calls| - 1];
      RunHears(c, before) + CallHears(c, Run(c, before), calls[|calls| - 1])
  }

  // ---- Every step reads on ----

  /** From `s` to `t` the session has only read on. */
  predicate Fed(c: Codec, s: Session, t: Session, heard: seq<string>) {
    && ReaderOf(t) == FeedAll(c.decode, ReaderOf(s), heard)
    && t.stdoutBytes <= MAX_COMMAND_OUTPUT_BYTES
    && t.history.polled == s.history.polled && t.emitted == s.emitted
  }

  lemma FedTransitively(c: Codec, s: Session, t: Session, u: Session, a: seq<string>, b: seq<string>)
    requires Fed(c, s, t, a) && Fed(c, t, u, b)
    ensures Fed(c, s, u, a + b)
  {
    hide FeedAll;
    FeedInTwoParts(c.decode, ReaderOf(s), a, b);
  }

  lemma PumpFeeds(c: Codec, s: Session, turn: PumpTurn)
    requires s.stdoutBytes <= MAX_COMMAND_OUTPUT_BYTES && Fair(turn) && Pump(c, s, turn).1 == Done
    ensures Fed(c, s, Pump(c, s, turn).0, PumpHears(c, s, turn))
  {
    hide ReadAll, FeedAll, Decoded, Total;
    NothingFed(c.decode, ReaderOf(s));
    if s.process.Some? {
      ReadAllSucceedsIff(c, s, turn.chunks);
    }
  }

  lemma NothingFed(decode: Decoder, r: Reader)
    ensures FeedAll(decode, r, []) == r
  {
  }

  lemma {:induction false} WriteFeeds(c: Codec, s: Session, bytes: seq<byte>, turns: seq<WriteTurn>)
    requires s.stdoutBytes <= MAX_COMMAND_OUTPUT_BYTES && (forall turn | turn in turns :: Fair(turn.pump))
    requires WriteFrom(c, s, bytes, turns).1 == Done
    ensures Fed(c, s, WriteFrom(c, s, bytes, turns).0, WriteHears(c, s, bytes, turns))
    decreases |turns|
  {
    hide Pump, PumpHears, FeedAll, Fair;
    if bytes == [] {
      NothingFed(c.decode, ReaderOf(s));
    } else {
      assert turns[0] in turns;
      PumpFeeds(c, s, turns[0].pump);
      var looked := Pump(c, s, turns[0].pump).0;
      if turns[0].write.Wrote? {
        var k := if turns[0].write.n < |bytes| then turns[0].write.n else |bytes|;
        var next := Accept(looked, bytes[..k]);
        WriteFeeds(c, next, bytes[k..], turns[1..]);
        FedTransitively(c, s, next, WriteFrom(c, s, bytes, turns).0, PumpHears(c, s, turns[0].pump),
                        WriteHears(c, next, bytes[k..], turns[1..]));
      } else {
        WriteFeeds(c, looked, bytes, turns[1..]);
        FedTransitively(c, s, looked, WriteFrom(c, s, bytes, turns).0, PumpHears(c, s, turns[0].pump),
                        WriteHears(c, looked, bytes, turns[1..]));
      }
    }
  }

  lemma LineFeeds(c: Codec, s: Session, line: Line, starts: bool, script: WriteScript)
    requires s.stdoutBytes <= MAX_COMMAND_OUTPUT_BYTES && FairScript(script)
    requires WriteLine(c, s, line, starts, script).1 == Done
    ensures Fed(c, s, WriteLine(c, s, line, starts, script).0, LineHears(c, s, line, starts, script))
  {
    hide Pump, WriteFrom, LineBytes, PumpHears, WriteHears, FeedAll, Fair;
    var started := Start(s, starts).0;
    var bytes := LineBytes(c, line);
    WriteFeeds(c, started, bytes, script.All());
    var wrote := WriteFrom(c, started, bytes, script.All()).0;
    var written := WriteHears(c, started, bytes, script.All());
    PumpFeeds(c, wrote, script.after);
    var looked := Pump(c, wrote, script.after).0;
    FedTransitively(c, s, wrote, looked, written, PumpHears(c, wrote, script.after));
  }

  lemma FlushFeeds(c: Codec, s: Session, commit: bool, starts: bool, script: WriteScript)
    requires s.stdoutBytes <= MAX_COMMAND_OUTPUT_BYTES && FairScript(script)
    requires Flush(c, s, commit, starts, script).1 == Done
    ensures Fed(c, s, Flush(c, s, commit, starts, script).0, FlushHears(c, s, commit, starts, script))
  {
    hide WriteLine, LineHears, FeedAll, FairScript;
    NothingFed(c.decode, ReaderOf(s));
    if s.pendingSamples != [] {
      var flushing, line := s.(pendingSamples := []), Audio(s.pendingSamples, commit);
      LineFeeds(c, flushing, line, starts, script);
    }
  }

  lemma PushFeeds(c: Codec, s: Session, samples: seq<i16>, starts: bool, script: WriteScript, after: PumpTurn)
    requires s.stdoutBytes <= MAX_COMMAND_OUTPUT_BYTES && FairScript(script) && Fair(after)
    requires PushCall(c, s, samples, starts, script, after).1 == Done
    ensures Fed(c, s, PushCall(c, s, samples, starts, script, after).0, PushHears(c, s, starts, script, after))
  {
    hide Pump, Flush, FlushHears, FeedAll, FairScript, Fair;
    var started := Start(s, starts).0;
    FlushFeeds(c, started, false, starts, script);
    var flushed := Flush(c, started, false, starts, script).0;
    var flush := FlushHears(c, started, false, starts, script);
    var pushed := flushed.(pendingSamples := samples,
                           history := flushed.history.(pushes := flushed.history.pushes + [samples]));
    PumpFeeds(c, pushed, after);
    FedTransitively(c, s, pushed, Pump(c, pushed, after).0, flush, PumpHears(c, pushed, after));
  }

  lemma {:induction false} AwaitFeeds(c: Codec, s: Session, turns: seq<PumpTurn>)
    requires s.stdoutBytes <= MAX_COMMAND_OUTPUT_BYTES && (forall turn | turn in turns :: Fair(turn)) && turns != []
    requires Await(c, s, turns).1 == Done
    ensures Fed(c, s, Await(c, s, turns).0, AwaitHears(c, s, turns))
    decreases |turns|
  {
    hide Pump, PumpHears, FeedAll, Fair, Stops, EndStream, PushError, StderrOr;
    NothingFed(c.decode, ReaderOf(s));
    if !Stops(s) {
      assert turns[0] in turns;
      PumpFeeds(c, s, turns[0]);
      var looked := Pump(c, s, turns[0]).0;
      AwaitFeeds(c, looked, turns[1..]);
      FedTransitively(c, s, looked, Await(c, s, turns).0, PumpHears(c, s, turns[0]), AwaitHears(c, looked, turns[1..]));
    }
  }

  lemma {:induction false} GraceFeeds(c: Codec, s: Session, turns: seq<PumpTurn>)
    requires s.stdoutBytes <= MAX_COMMAND_OUTPUT_BYTES && (forall turn | turn in turns :: Fair(turn))
    requires Grace(c, s, turns).1 == Done
    ensures Fed(c, s, Grace(c, s, turns).0, GraceHears(c, s, turns))
    decreases |turns|
  {
    hide Pump, PumpHears, FeedAll, Fair, Exited;
    NothingFed(c.decode, ReaderOf(s));
    if !(s.out.completed || Exited(s) || turns == []) {
      assert turns[0] in turns;
      PumpFeeds(c, s, turns[0]);
      var looked := Pump(c, s, turns[0]).0;
      GraceFeeds(c, looked, turns[1..]);
      FedTransitively(c, s, looked, Grace(c, s, turns).0, PumpHears(c, s, turns[0]), GraceHears(c, looked, turns[1..]));
    }
  }

  // ---- A finish that succeeds ----

  /** All that was heard is queued, and the stream is closed behind it. */
  predicate Ended(c: Codec, s: Session, t: Session, heard: seq<string>) {
    var fed := FeedAll(c.decode, ReaderOf(s), heard);
    && fed.good && t.emitted && t.process.None?
    && t.out.events == fed.out.events + [Completed] && t.history.polled == s.history.polled
  }

  /** A wait that succeeds queues what it reads and then `Completed`, and nothing else. */
  lemma WaitFeeds(c: Codec, s: Session, script: WaitScript)
    requires s.stdoutBytes <= MAX_COMMAND_OUTPUT_BYTES && FairWait(script) && !s.emitted
    requires Wait(c, s, script).1 == Done
    ensures Ended(c, s, Wait(c, s, script).0, WaitHears(c, s, script))
  {
    hide Pump, Await, Grace, AwaitHears, GraceHears, PumpHears, FeedAll, Fair, EndStream, Told, FirstError, Ended;
    var all := script.All();
    AwaitFeeds(c, s, all);
    var waited := Await(c, s, all).0;
    var heard := AwaitHears(c, s, all);
    if waited.out.sawFinal {
      GraceFeeds(c, waited, script.grace);
      var graced := Grace(c, waited, script.grace).0;
      PumpFeeds(c, graced, script.end);
      var last := Pump(c, graced, script.end).0;
      var more := GraceHears(c, waited, script.grace) + PumpHears(c, graced, script.end);
      FedTransitively(c, waited, graced, last, GraceHears(c, waited, script.grace), PumpHears(c, graced, script.end));
      FedTransitively(c, s, waited, last, heard, more);
      EndingEnds(c, s, last, heard + more);
    } else {
      PumpFeeds(c, waited, script.end);
      var last := Pump(c, waited, script.end).0;
      FedTransitively(c, s, waited, last, heard, PumpHears(c, waited, script.end));
      ToldNothing(last);
      EndingEnds(c, s, last, heard + PumpHears(c, waited, script.end));
    }
  }

  lemma EndingEnds(c: Codec, s: Session, last: Session, heard: seq<string>)
    requires Fed(c, s, last, heard) && !s.emitted
    ensures Ended(c, s, EndStream(last), heard)
  {
    hide FeedAll;
  }

  /** A finish that found nothing to report has queued no error of its own. */
  lemma ToldNothing(last: Session)
    requires FirstError(EndStream(Told(last)).out.events).None?
    ensures Told(last) == last
  {
    LookedReflexively(last);
    LeftByThen(last, last);
  }

  lemma FinishFeeds(
      c: Codec, s: Session, starts: bool, commit: WriteScript, finish: WriteScript, wait: WaitScript)
    requires s.stdoutBytes <= MAX_COMMAND_OUTPUT_BYTES && FairScript(commit) && FairScript(finish) && FairWait(wait)
    requires s.lifecycle == Active && !s.emitted && FinishCall(c, s, starts, commit, finish, wait).1 == Done
    ensures
      Ended(c, s, FinishCall(c, s, starts, commit, finish, wait).0, FinishHears(c, s, starts, commit, finish, wait))
  {
    hide Flush, WriteLine, FlushHears, LineHears, WaitHears, Wait, FeedAll, Ended, FairScript, FairWait;
    var finishing := Start(s, starts).0.(lifecycle := Finished);
    FlushFeeds(c, finishing, true, starts, commit);
    var flushed := Flush(c, finishing, true, starts, commit).0;
    var flush := FlushHears(c, finishing, true, starts, commit);
    LineFeeds(c, flushed, FinishLine, starts, finish);
    var sent := SendFinish(c, finishing, starts, commit, finish).0;
    var line := LineHears(c, flushed, FinishLine, starts, finish);
    FedTransitively(c, s, flushed, sent, flush, line);
    var closing := CloseStdin(sent);
    WaitFeeds(c, closing, wait);
    EndedLater(c, s, closing, Wait(c, closing, wait).0, flush + line, WaitHears(c, closing, wait));
  }

  lemma EndedLater(c: Codec, s: Session, t: Session, u: Session, a: seq<string>, b: seq<string>)
    requires Fed(c, s, t, a) && Ended(c, t, u, b)
    ensures Ended(c, s, u, a + b)
  {
    hide FeedAll;
    FeedInTwoParts(c.decode, ReaderOf(s), a, b);
  }

  // ---- Whole sessions ----

  /** The polled stream and the queue are what a reader of everything heard has collected, closed by
      one `Completed` once a finish has succeeded. */
  predicate Carries(s: Session, fed: Reader) {
    fed.good &&
    if s.emitted then s.process.None? && s.history.polled + s.out.events == fed.out.events + [Completed]
    else
      && s.stdoutBytes <= MAX_COMMAND_OUTPUT_BYTES
      && Reader(Behind(s.history.polled, s.out), s.stdoutBuffer, true) == fed
  }

  lemma FedCarries(c: Codec, s: Session, t: Session, fed: Reader, heard: seq<string>)
    requires Carries(s, fed) && !s.emitted && Fed(c, s, t, heard)
    ensures Carries(t, FeedAll(c.decode, fed, heard))
  {
    hide FeedAll;
    FeedBehind(c.decode, s.history.polled, ReaderOf(s), heard);
  }

  lemma EndedCarries(c: Codec, s: Session, t: Session, fed: Reader, heard: seq<string>)
    requires Carries(s, fed) && !s.emitted && Ended(c, s, t, heard)
    ensures Carries(t, FeedAll(c.decode, fed, heard))
  {
    hide FeedAll;
    FeedBehind(c.decode, s.history.polled, ReaderOf(s), heard);
    var events := FeedAll(c.decode, ReaderOf(s), heard).out.events;
    assert s.history.polled + (events + [Completed]) == s.history.polled + events + [Completed];
  }

  lemma PolledCarries(s: Session, fed: Reader)
    requires Carries(s, fed)
    ensures Carries(s.(out := s.out.(events := []),
                       history := s.history.(polled := s.history.polled + s.out.events)), fed)
  {
    assert s.history.polled + s.out.events + [] == s.history.polled + s.out.events;
  }

  /** Every call that succeeds keeps that. */
  lemma CallCarries(c: Codec, s: Session, call: Call, fed: Reader)
    requires Inv(c, s) && Carries(s, fed) && FairCall(call) && !call.Cancel? && Apply(c, s, call).1 == Done
    ensures Carries(Apply(c, s, call).0, FeedAll(c.decode, fed, CallHears(c, s, call)))
  {
    hide PushCall, FinishCall, Pump, PushHears, FinishHears, InputIs, CompletedLast, FeedAll, Ended;
    hide FairScript, FairWait, Fair;
    NothingFed(c.decode, fed);
    OneClean(c, s, call);
    match call
    case Push(samples, starts, script, after) =>
      PushFeeds(c, s, samples, starts, script, after);
      FedCarries(c, s, PushCall(c, s, samples, starts, script, after).0, fed, PushHears(c, s, starts, script, after));
    case Finish(starts, commit, finish, wait) =>
      if s.lifecycle == Active {
        FinishFeeds(c, s, starts, commit, finish, wait);
        EndedCarries(c, s, FinishCall(c, s, starts, commit, finish, wait).0, fed,
                     FinishHears(c, s, starts, commit, finish, wait));
      }
    case Poll(turn) =>
      var looked := Pump(c, s, turn).0;
      if s.emitted {
        PumpsNothing(c, s, turn);
        PolledCarries(s, fed);
      } else {
        PumpFeeds(c, s, turn);
        FedCarries(c, s, looked, fed, PumpHears(c, s, turn));
        PolledCarries(looked, FeedAll(c.decode, fed, PumpHears(c, s, turn)));
      }
  }

  predicate FairCalls(calls: seq<Call>) {
    forall call | call in calls :: FairCall(call) && !call.Cancel?
  }

  lemma {:induction false} RunCarries(c: Codec, calls: seq<Call>)
    requires Clean(c, calls) && FairCalls(calls)
    ensures Carries(Run(c, calls), FeedAll(c.decode, Reader(SILENT, "", true), RunHears(c, calls)))
  {
    hide Apply, CallHears, FeedAll, Inv, FairCall;
    if calls == [] {
      NothingCarried(c);
    } else {
      var before, call := calls[..|calls| - 1], calls[|calls| - 1];
      assert call in calls && forall other | other in before :: other in calls;
      RunCarries(c, before);
      RunKeeps(c, before);
      var fed := FeedAll(c.decode, Reader(SILENT, "", true), RunHears(c, before));
      CallCarries(c, Run(c, before), call, fed);
      FeedInTwoParts(c.decode, Reader(SILENT, "", true), RunHears(c, before), CallHears(c, Run(c, before), call));
    }
  }

  lemma NothingCarried(c: Codec)
    ensures FeedAll(c.decode, Reader(SILENT, "", true), []) == Reader(SILENT, "", true)
    ensures Carries(NEW, Reader(SILENT, "", true))
  {
  }

  /** No call that succeeds leaves a finished session without its end. */
  lemma {:induction false} FinishedIsEmitted(c: Codec, calls: seq<Call>)
    requires Clean(c, calls) && FairCalls(calls)
    ensures PhaseOf(calls) != Active ==> Run(c, calls).emitted
  {
    hide FinishCall, PushCall, Inv, Pump, FairCall;
    if calls != [] {
      var before, call := calls[..|calls| - 1], calls[|calls| - 1];
      assert call in calls && forall other | other in before :: other in calls;
      FinishedIsEmitted(c, before);
      CleanFollows(c, before);
      OneClean(c, Run(c, before), call);
      RunKeeps(c, before);
      if call.Finish? && PhaseOf(before) == Active {
        FinishOutcome(c, Run(c, before), call.starts, call.commit, call.finish, call.wait);
      }
      if call.Poll? {
        PumpKeeps(c, Run(c, before), call.turn);
      }
    }
  }

  /** Whatever calls are made in whatever order, and whichever of them reads the helper's output: as
      long as they succeed, nothing is cancelled and the helper does not exit unsuccessfully (a one-shot
      helper that does is never parsed), the polled stream and the queue hold the events that the
      one-shot parser finds in all that was read, closed by one `Completed` once a finish has
      succeeded. */
  lemma SessionIsOneShot(c: Codec, calls: seq<Call>)
    requires Clean(c, calls) && FairCalls(calls) && Remainder(Concat(RunHears(c, calls))) == ""
    ensures
      var s, parsed := Run(c, calls), OneShot(c.decode, Concat(RunHears(c, calls)));
      && parsed != Err(NotJson)
      && s.history.polled + s.out.events ==
           (if parsed.Ok? then WithoutCompleted(parsed.value) else []) + (if s.emitted then [Completed] else [])
      && (PhaseOf(calls) == Finished ==> s.emitted)
  {
    hide Run, Clean, FeedAll, RunHears, OneShot, Remainder, Concat, WithoutCompleted, FairCalls;
    RunCarries(c, calls);
    IncrementalIsOneShot(c.decode, SILENT, RunHears(c, calls));
    FinishedIsEmitted(c, calls);
    var parsed := OneShot(c.decode, Concat(RunHears(c, calls)));
    var events := if parsed.Ok? then WithoutCompleted(parsed.value) else [];
    assert SILENT.events + events == events && events + [] == events;
    assert parsed.Err? ==> parsed == Err(parsed.error) && (parsed.error.NotJson? || parsed.error.NoEvents?);
  }
}
