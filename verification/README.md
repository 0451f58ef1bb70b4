# Verified model of a voice-input method

The repository is a speech-to-text input method: a Rust daemon records audio through PipeWire, hands
it to a speech recognizer, and an addon for the fcitx5 input-method framework drives it. This project
models the parts of it that are protocols or codecs, in the form the code has (classes for objects
that are updated in place, loops where the code loops, functions where it computes), and proves what
they are for.

| file | what it models |
|---|---|
| `CaptureWorker.dfy`, `IdleTimer.dfy`, `CaptureProtocol.dfy`, `CaptureProgress.dfy`, `CaptureOutcomes.dfy`, `EventLog.dfy` | the PipeWire capture worker with its reusable stream, the idle timer, and the system of recorder, worker and timer exchanging messages in any order |
| `StreamingInput.dfy`, `StreamingLines.dfy`, `HelperOutput.dfy`, `SessionSteps.dfy`, `SessionRuns.dfy`, `SessionResults.dfy`, `SessionHearing.dfy`, `SessionCases.dfy`, `StreamingSession.dfy`, `Base64.dfy` | the incremental session with a command recognizer: the delay line of audio chunks, partial writes, newline framing, event bookkeeping; the one-shot parser; the Base64 encoder |
| `Pcm.dfy`, `Wave.dfy`, `FrameChunks.dfy`, `SourceRecorder.dfy` | PCM buffers, the RIFF/WAVE decoder and encoder, frame chunking, the recorder over a one-shot source |
| `SymlinkTarget.dfy`, `ConfigWrite.dfy` | where a config write goes, and its file-system steps up to any crash point |
| `EventTime.dfy`, `MenuRefresh.dfy` | the addon's 32-bit event clock, and its two menus with their background refreshes |
| `Sorting.dfy`, `Checksums.dfy`, `ReleaseManifest.dfy`, `ReleaseAssembly.dfy`, `ReleaseWorld.dfy` | the release bundle's assembler and its strict verifier |
| `SpeechRanges.dfy` | padding and collecting detected speech |

Everything outside a component is a parameter of its steps: whether the audio server accepts a call,
how many bytes a write takes, what a helper prints and when it exits, which file-system step fails,
what the clock says. A theorem over all step sequences therefore speaks of every behaviour of the
environment and every interleaving.

## How the main results fit together

* **Capture.** Methods of `PipeWireWorker` compute the pure step functions `BeginStep`, `FinishStep`,
  `ExpireStep`, `ShutdownStep` and `BufferStep`; `CaptureProtocol` runs these steps in all
  interleavings with the recorder's calls and the timer. An invariant kept by every step gives: no
  request is ever rejected, the flags of recorder and worker agree, a successful finish returns the
  samples of every buffer since its begin, and an expiry removes the stream exactly when the worker
  is idle and its 64-bit generation has moved a multiple of 2^64 times since the finish that issued
  it. The last statement is exact, wrap-around included; `WrappedGenerationExpires` is the run in
  which the width of the counter is used up. Every call of the recorder returns in every interleaving
  in which the agents do not all rest for ever (`BusyRunsReturn`), and has done then what it is for
  (`EveryInterleavingReachesGoal`): a begin records exactly if a new recording was begun, which a
  willing server does; a stop or a cancel has ended the recording, with one expiry under way or the
  worker gone.
* **Recognizer session.** Each method of the session class computes a step function of
  `SessionSteps.dfy`, outcome included; `Run` composes the steps, and `WholeSession` ties the class to
  it. About runs it is proved that the stream ends in at most one `Completed`, that the helper gets
  exactly the lines of the pushes, when writes, reads, pushes and finishes succeed, and that reading
  output in pieces is reading it at once, which is the one-shot parser: `SessionIsOneShot` says so of
  whole sessions, with output read by pushes, writes, polls and the final wait alike. What a line says
  is fixed by printing: events printed as lines are the events that are read (`OutputIsEvents`).
* **WAVE.** The decoder's offset walk is a fold over the chunk list, the fold depends on the last
  `fmt ` and the last `data` chunk only, and the encoder's file is a chunk list of that kind. Any other
  bytes are such a list with a rest, or have no header, and `DecodeAnything` says what they give.
* **Release bundle.** `VerifyBundle` decides the declarative predicate `Acceptable`; `Assemble`
  produces acceptable bundles, and fails its own verification only for an empty package field or an
  empty artifact list. What is assumed of SHA-256, UTF-8 and JSON text (`Sound`) can be met:
  `SoundWorldExists` builds such a world.

## Where the code and its documentation part

* `write_config_file` promises that readers never see a partial document
  (`crates/vinpst-config/src/persistence.rs:104-108`). It keeps that promise if and only if the backup
  path is not the output itself, or there is nothing to lose: copying a file onto itself empties it
  first. `WriteConfigFile` states the exact condition on its inputs, `BackUpOntoItself` the failure for
  every disk.
* A config write that reports success has replaced the content, unless the backup path is the staging
  file: then the old content is still in place. `WriteConfigFile` states this, too, as a condition on
  the inputs (`StagedAs`), and `BackUpOntoStaged` the failure for every disk.
* `resolve_symlink_write_target` drops a `..` that leaves a missing directory, so that writing to
  `new/../config.json` goes to `new/config.json` while `new` does not exist (`MissingUpIsDropped`).
  `UpIsDroppedIff` says exactly when that happens, links followed, and `StaysIff` which paths stay as
  they are.
* One would expect a finish to succeed with a final text and to fail without one. `WaitSucceedsIff`
  says exactly when it succeeds, and three runs show the difference: it succeeds although the helper
  reported only an error, if that error had been polled before (`PolledErrorSucceeds`); it times out
  although a final text has arrived, if the text came with the last look before the deadline
  (`FinalTextTimesOut`); and it reports an error although a final text has arrived and nothing timed
  out, if the text came after the wait had ended otherwise (`FinalTextTooLate`).
* A `cancel` after a `finish` whose `Completed` was not polled yet removes that `Completed` for good
  (`CancelSwallows`). In every other case a cancel and a poll leave a stream that ends in its one
  `Completed` (`CancelDeliversIff`).
* Speech segments closer than twice the padding put samples into the trimmed audio twice
  (`CloseSegmentsRepeat`). `OrderedIffSpaced` gives the exact condition on the segments, `IncreasingIff`
  the one on the ranges.

No document speaks of the schema version's type: it is compared with Python's `==`, so that `true` and
`1.0` are as good as `1` (`AnyOneIsAVersion`).

## Model

| member | source | states |
|---|---|---|
| `CaptureWorker.PipeWireWorker.constructor` | crates/vinpst-audio/src/pipewire_backend.rs:666-700 | a worker starts idle, without a stream, at generation 0 |
| `CaptureWorker.PipeWireWorker.ActivateStream` | crates/vinpst-audio/src/pipewire_backend.rs:785-804 | samples are cleared; the stream accepts buffers afterwards if and only if activation succeeded |
| `CaptureWorker.PipeWireWorker.BeginRecording` | crates/vinpst-audio/src/pipewire_backend.rs:720-783 | for every combination of failing create, activate, re-create and retry: when recording starts, whether the stream was reused, and which stream is left after a failure |
| `CaptureWorker.PipeWireWorker.FinishRecording` | crates/vinpst-audio/src/pipewire_backend.rs:806-836 | a successful finish hands out all samples taken and the new generation; the worker is idle afterwards whatever happens |
| `CaptureWorker.PipeWireWorker.ExpireIdle` | crates/vinpst-audio/src/pipewire_backend.rs:702-708 | the stream is dropped only by an idle worker at that very generation |
| `CaptureWorker.PipeWireWorker.Shutdown` | crates/vinpst-audio/src/pipewire_backend.rs:838-849 | no stream, no recording, and earlier generations are stale |
| `CaptureWorker.PipeWireWorker.CaptureBuffer` | crates/vinpst-audio/src/pipewire_backend.rs:932-985 | a buffer is appended exactly when the stream accepts and its bounds are good; the callback gets the same samples |
| `CaptureWorker.BeginSucceedsIff` | crates/vinpst-audio/src/pipewire_backend.rs:720-783 | a begin is started if and only if the worker was idle and a matching stream activates, or a replacement of it is created and activates, or with no matching stream a new one does; what is left in each case is exact |
| `CaptureWorker.ChunkIsRead` | crates/vinpst-audio/src/pipewire_backend.rs:944-957 | the samples of a buffer are those of the bytes of its chunk and no others, up to an odd last byte |
| `CaptureWorker.StepsKeepConsistent` | crates/vinpst-audio/src/pipewire_backend.rs:720-849 | recording holds if and only if a stream is held that accepts, after every step and failure |
| `CaptureWorker.FinishOfRecordingLayout` | crates/vinpst-audio/src/pipewire_backend.rs:806-836 | with the recorder's mono layout a finish can fail only in deactivation |
| `CaptureWorker.CyclesCount` | crates/vinpst-audio/src/pipewire_backend.rs:737-829 | n recordings move the 64-bit generation by 2n, modulo 2^64 |
| `CaptureWorker.WrappedGenerationExpires` | crates/vinpst-audio/src/pipewire_backend.rs:514-516 | after exactly 2^63 further recordings a stale expiry would be obeyed |
| `IdleTimer.RunIdleDestroyTimer` | crates/vinpst-audio/src/pipewire_backend.rs:618-648 | for every sequence of wake-ups, time-outs no earlier than the pending deadline, the loop sends the schedule just received, once, and never a replaced one; it stops at the first stop or disconnect |
| `IdleTimer.FiresAfterDeadline` | crates/vinpst-audio/src/pipewire_backend.rs:624-631 | a firing comes right after a schedule was received and no earlier than its deadline |
| `CaptureProtocol.TimerStepsAreWakes` | crates/vinpst-audio/src/pipewire_backend.rs:618-648 | the timer steps of the system are turns of that loop |
| `CaptureProtocol.StepKeeps` | crates/vinpst-audio/src/pipewire_backend.rs:260-371 | every step of recorder, timer and worker keeps the system invariant |
| `CaptureProtocol.RunKeeps` | crates/vinpst-audio/src/pipewire_backend.rs:666-718 | the invariant holds after every sequence of steps |
| `CaptureProtocol.FlagsAgree` | crates/vinpst-audio/src/pipewire_backend.rs:260-371 | in every reachable state recording and accepting agree, and between calls the recorder's own flag equals the worker's |
| `CaptureProtocol.NothingIsRejected` | crates/vinpst-audio/src/pipewire_backend.rs:720-726 | no interleaving makes the worker reject a begin or a finish |
| `CaptureProtocol.StaleExpiryIsHarmless` | crates/vinpst-audio/src/pipewire_backend.rs:702-708 | an expiry that removes a stream finds the worker idle, belongs to a finish of the same worker, and nothing was begun, finished or shut down since (fewer than 2^64 generation moves) |
| `CaptureProtocol.ExpiryRemovesExactlyWhenUndisturbed` | crates/vinpst-audio/src/pipewire_backend.rs:514-516 | the removal happens if and only if the worker is idle and the generation has moved a multiple of 2^64 times; otherwise the worker is unchanged |
| `CaptureProtocol.FinishReturnsEverythingHeard` | crates/vinpst-audio/src/pipewire_backend.rs:806-836 | a successful finish returns the samples of all buffers since its matching begin, in order, across reuse, replacement and retry |
| `CaptureProtocol.CallbackHearsTheSame` | crates/vinpst-audio/src/pipewire_backend.rs:932-985 | a callback installed throughout receives the same samples as the finish returns |
| `CaptureProtocol.TimerFiresLatestSchedule` | crates/vinpst-audio/src/pipewire_backend.rs:618-648 | in every interleaving a firing is that of the latest schedule, at or after its deadline; a replaced one never fires |
| `CaptureProgress.AwaitedStepHelps` | crates/vinpst-audio/src/pipewire_backend.rs:260-371 | in no reachable state is a recorder call stuck: the step it waits for is possible and brings it closer to its end |
| `CaptureProgress.EveryCallReturns` | crates/vinpst-audio/src/pipewire_backend.rs:260-371 | from every reachable state the current call returns after the steps it waits for, whatever the audio server answers; what it has done then is stated in `CaptureOutcomes` |
| `CaptureProgress.StepsWork` | crates/vinpst-audio/src/pipewire_backend.rs:260-371 | while a call runs, no step of recorder, worker, timer, clock or audio stream adds to the work left, and every step that takes, fires or joins something does some of it |
| `CaptureProgress.AwaitedIsPossible` | crates/vinpst-audio/src/pipewire_backend.rs:260-371 | while a call runs, the step it waits for is one of those |
| `CaptureProgress.BusyRunsReturn` | crates/vinpst-audio/src/pipewire_backend.rs:260-371 | in every endless interleaving in which the agents do not all rest for ever while a call runs, every call returns |
| `CaptureOutcomes.GoalKept` | crates/vinpst-audio/src/pipewire_backend.rs:260-371 | no step of any agent turns a begin, a stop, a cancel or a drop under way from what it is for |
| `CaptureOutcomes.BeginRecords` | crates/vinpst-audio/src/pipewire_backend.rs:260-314 | from every reachable ready state that does not record, a begin comes back recording from the target asked for if the worker spawns and the server agrees; whatever they answer, it records if and only if a new recording was begun |
| `CaptureOutcomes.FinishEndsRecording` | crates/vinpst-audio/src/pipewire_backend.rs:322-371 | from every reachable ready state that records, a stop or a cancel comes back with the recording ended by a new finish, a successful one if the server agrees; after a successful stop with reuse exactly one expiry of it is under way, without reuse and after a cancel the worker is gone |
| `CaptureOutcomes.WorkerIsLetGo` | crates/vinpst-audio/src/pipewire_backend.rs:349-371 | a cancel without a recording and a drop come back with worker and timer gone |
| `CaptureOutcomes.EveryInterleavingReachesGoal` | crates/vinpst-audio/src/pipewire_backend.rs:260-371 | the same in every interleaving in which the agents do not all rest for ever: the call returns and has reached its goal |
| `StreamingInput.PushMoves` | crates/vinpst-asr/src/command_streaming.rs:432-444 | a push sends the chunk held back, uncommitted, and is held back itself |
| `StreamingInput.AllLinesFacts` | crates/vinpst-asr/src/command_streaming.rs:446-459 | after finish the audio lines hold all pushed samples in order; only the last one can be committed, and exists if and only if the last push was not empty |
| `StreamingInput.HelperReadsLines` | crates/vinpst-asr/src/command_streaming.rs:140-147 | splitting the written bytes at newlines gives the lines, once each, with nothing left over |
| `StreamingLines.TrimIsTight` | crates/vinpst-asr/src/command.rs:241-245 | trimming leaves no white space at the ends and is idempotent |
| `StreamingLines.TrimKeepsMiddle` | crates/vinpst-asr/src/command.rs:241-245 | trimming takes away white space at the two ends and nothing else |
| `StreamingLines.ParsedErrorsAreClean` | crates/vinpst-asr/src/command.rs:274-283 | error messages of the parser are trimmed and never blank |
| `StreamingLines.DrainOfConcat` | crates/vinpst-asr/src/command_streaming.rs:232-249 | consuming a, then b, is consuming a + b |
| `StreamingLines.PiecesDoNotMatter` | crates/vinpst-asr/src/command_streaming.rs:232-249 | any cut of the output into reads gives the same queue and buffer, or the same refusal |
| `StreamingLines.FeedBehind` | crates/vinpst-asr/src/command_streaming.rs:476-479 | emptying the queue by polling between reads loses and changes nothing |
| `StreamingLines.ParseStdout` | crates/vinpst-asr/src/command.rs:384-413 | the parser's loops compute the fold over the lines; its result ends in `Completed` |
| `StreamingLines.HandleAgrees` | crates/vinpst-asr/src/command_streaming.rs:277-297 | the session's handling of events queues what the parser collects, except `Completed` |
| `StreamingLines.DrainCollects` | crates/vinpst-asr/src/command_streaming.rs:239-247 | draining a buffer and collecting its complete lines stop at the same line with the same events |
| `StreamingLines.IncrementalIsOneShot` | crates/vinpst-asr/src/command.rs:384-413 | newline-terminated output in any pieces gives the one-shot events without `Completed`; both refuse the same output |
| `HelperOutput.PayloadYields` | crates/vinpst-asr/src/command.rs:246-286 | a payload yields one event, and that event, if and only if its type and its trimmed field say so; all others yield none |
| `HelperOutput.ReadInvertsPrint` | crates/vinpst-asr/src/command.rs:241-287 | an event printed as a line is the event that is read |
| `HelperOutput.OutputIsEvents` | crates/vinpst-asr/src/command.rs:384-413 | a whole printed output is read as its events, without interim texts that repeat the standing one, closed by `Completed` |
| `StreamingSession.SetFlag` | crates/vinpst-asr/src/command_streaming.rs:70-73 | the four event flags are independent bits |
| `StreamingSession.LegacyCommandStreamingSession.constructor` | crates/vinpst-asr/src/command_streaming.rs:99-114 | a new session is active, silent and without a process |
| `StreamingSession.LegacyCommandStreamingSession.QueueError` | crates/vinpst-asr/src/command_streaming.rs:299-307 | one trimmed, non-blank error is queued and the error flag raised |
| `StreamingSession.LegacyCommandStreamingSession.HandleEvent` | crates/vinpst-asr/src/command_streaming.rs:277-297 | one event changes queue, last partial text and flags as specified; repeated partial text is dropped |
| `StreamingSession.LegacyCommandStreamingSession.HandleOutputLine` | crates/vinpst-asr/src/command_streaming.rs:277-297 | a JSON line queues its events; any other line is an error and changes nothing |
| `StreamingSession.LegacyCommandStreamingSession.ConsumeStdoutBytes` | crates/vinpst-asr/src/command_streaming.rs:232-249 | the drain loop is the recursive specification, saturating count and limit included |
| `StreamingSession.LegacyCommandStreamingSession.PumpIo` | crates/vinpst-asr/src/command_streaming.rs:180-230 | one look is the step `Pump`: it drops no queued event, queues no `Completed` and lowers no flag, whatever fails |
| `StreamingSession.LegacyCommandStreamingSession.EnsureStarted` | crates/vinpst-asr/src/command_streaming.rs:116-123 | a helper is spawned only if there is none |
| `StreamingSession.LegacyCommandStreamingSession.WriteBytes` | crates/vinpst-asr/src/command_streaming.rs:150-176 | however short the writes: success means the bytes arrived exactly once, failure that a prefix of them did; which of the two is exact |
| `StreamingSession.LegacyCommandStreamingSession.WriteJsonLine` | crates/vinpst-asr/src/command_streaming.rs:140-178 | one line with its newline is the step `WriteLine` |
| `StreamingSession.LegacyCommandStreamingSession.FlushPendingChunk` | crates/vinpst-asr/src/command_streaming.rs:131-138 | the held-back chunk is sent if it is not empty, and is gone either way |
| `StreamingSession.LegacyCommandStreamingSession.QueueCompleted` | crates/vinpst-asr/src/command_streaming.rs:309-316 | `Completed` is queued the first time and never again |
| `StreamingSession.LegacyCommandStreamingSession.FirstErrorMessage` | crates/vinpst-asr/src/command_streaming.rs:380-387 | the message of the first queued error, if there is one |
| `StreamingSession.LegacyCommandStreamingSession.WaitForFinish` | crates/vinpst-asr/src/command_streaming.rs:318-356 | unless a look fails, a final or error flag is set, `Completed` is queued once and last and the process is gone; outcome and state are exact |
| `StreamingSession.LegacyCommandStreamingSession.PushAudio` | crates/vinpst-asr/src/command_streaming.rs:432-444 | keeps the invariant of stream and input; outcome and state are exact in every case |
| `StreamingSession.LegacyCommandStreamingSession.FinishSession` | crates/vinpst-asr/src/command_streaming.rs:446-459 | keeps the invariant of stream and input; outcome and state are exact in every case |
| `StreamingSession.LegacyCommandStreamingSession.CancelSession` | crates/vinpst-asr/src/command_streaming.rs:461-474 | keeps the invariant of stream and input, and never fails |
| `StreamingSession.LegacyCommandStreamingSession.PollEvents` | crates/vinpst-asr/src/command_streaming.rs:476-479 | hands out the whole queue and leaves it empty, or fails and loses nothing queued; keeps the invariant |
| `StreamingSession.WholeSession` | crates/vinpst-asr/src/command_streaming.rs:431-480 | any sequence of calls yields the stream and the outcomes of the specified run; the stream holds `Completed` at most once, last |
| `SessionRuns.PumpKeeps` | crates/vinpst-asr/src/command_streaming.rs:180-230 | no look at the helper queues `Completed`, drops a queued event or lowers a flag |
| `SessionRuns.ExitIsNoticed` | crates/vinpst-asr/src/command_streaming.rs:208-230 | an exit closes all pipes, and is reported with the helper's standard error if and only if it is unsuccessful and nothing final was said |
| `SessionRuns.ClosedPipeIsLeft` | crates/vinpst-asr/src/command_streaming.rs:180-207 | a pipe seen closed is not read again |
| `SessionRuns.WriteFromKeeps` | crates/vinpst-asr/src/command_streaming.rs:150-176 | however short the writes: success means the bytes arrived exactly once, failure that a prefix of them did |
| `SessionRuns.WaitOutcome` | crates/vinpst-asr/src/command_streaming.rs:318-356 | unless a look fails, a final or error flag is set and `Completed` is queued once and last; success if and only if the deadline did not close the stream and either a final text ended the wait or no error is left in the queue; a failure reports a queued error |
| `SessionRuns.AwaitMeans` | crates/vinpst-asr/src/command_streaming.rs:320-341 | the deadline closes the stream if and only if every look succeeds and nothing found before the last one ends the wait; otherwise the wait ends at the first look that finds something |
| `SessionRuns.WaitSucceedsIff` | crates/vinpst-asr/src/command_streaming.rs:318-356 | a wait that closes the stream succeeds if and only if something ends it before the deadline's look and either a final text has come by then or, after one more look, no error is queued and a final text or an earlier error is the reason |
| `SessionRuns.TimeOutIsReported` | crates/vinpst-asr/src/command_streaming.rs:322-329 | a wait that runs into its deadline reports the helper's standard error, or else the time-out |
| `SessionRuns.SilenceIsReported` | crates/vinpst-asr/src/command_streaming.rs:342-347 | without a final text or an error, the last queued event is standard error, or else the lack of a text |
| `SessionRuns.FinishOutcome` | crates/vinpst-asr/src/command_streaming.rs:446-459 | a finish keeps the invariant and all queued events, and ends the stream if and only if it succeeds or reports the helper's error |
| `SessionRuns.CancelKeeps` | crates/vinpst-asr/src/command_streaming.rs:461-474 | after a cancel the queue is exactly one `Completed`, or nothing if one had been queued before |
| `SessionRuns.ApplyKeeps` | crates/vinpst-asr/src/command_streaming.rs:431-480 | every call, whatever fails in it, keeps the invariant of stream and input |
| `SessionRuns.RunKeeps` | crates/vinpst-asr/src/command_streaming.rs:431-480 | the invariant holds after every sequence of calls |
| `SessionResults.CompletedAtMostOnce` | crates/vinpst-asr/src/command_streaming.rs:299-316 | over a whole session the polled stream holds `Completed` at most once, with nothing behind it |
| `SessionResults.FinishedStreamEnds` | crates/vinpst-asr/src/command_streaming.rs:446-480 | a finished and polled session's stream ends in exactly one `Completed` |
| `SessionResults.InputIsLines` | crates/vinpst-asr/src/command_streaming.rs:131-178 | while no call fails, the helper has accepted exactly the lines of the pushes, once each and in order |
| `SessionResults.CancelledForGood` | crates/vinpst-asr/src/command_streaming.rs:432-474 | after a cancel, whatever comes in between, pushes and finishes are refused and change nothing |
| `SessionResults.CancelIsTold` | crates/vinpst-asr/src/command_streaming.rs:461-474 | a listening helper accepts the whole cancel line behind what it was told before |
| `SessionResults.WriteSucceedsIff` | crates/vinpst-asr/src/command_streaming.rs:150-176 | a line gets through if and only if within the deadline all looks and writes go well and the helper accepts all of it |
| `SessionResults.ReadAllSucceedsIff` | crates/vinpst-asr/src/command_streaming.rs:232-249 | reads are taken in exactly if they stay within the limit and complete only JSON lines |
| `SessionResults.QuietPush` | crates/vinpst-asr/src/command_streaming.rs:432-444 | a push to a listening helper succeeds |
| `SessionResults.HeededIsClean` | crates/vinpst-asr/src/command_streaming.rs:432-444 | any number of pushes to a listening helper succeed |
| `SessionResults.AnsweredSession` | crates/vinpst-asr/src/command_streaming.rs:431-480 | pushes to a listening helper, a finish it answers and a poll all succeed; the helper got all lines and the stream is its answer and one `Completed` |
| `SessionResults.ListenIsOneShot` | crates/vinpst-asr/src/command_streaming.rs:180-297 | for all reads and polls of a running helper's newline-terminated output the stream is that of the one-shot parser without `Completed`; a poll fails if and only if the output is too long or not JSON |
| `SessionHearing.CallCarries` | crates/vinpst-asr/src/command_streaming.rs:431-480 | every call that succeeds, whichever of its looks read something, leaves the reader of all output read so far, and a finish closes its events with one `Completed` |
| `SessionHearing.WaitFeeds` | crates/vinpst-asr/src/command_streaming.rs:318-356 | a wait that succeeds has queued the events of all it read and `Completed`, and no error of its own |
| `SessionHearing.SessionIsOneShot` | crates/vinpst-asr/src/command_streaming.rs:431-480 | over any successful calls but cancels, stream and queue are the one-shot parser's events for the newline-terminated output read in all of them, closed by one `Completed` once a finish has succeeded |
| `SessionCases.PolledErrorSucceeds` | crates/vinpst-asr/src/command_streaming.rs:343-355 | the run in which a finish succeeds although the helper said nothing but an error |
| `SessionCases.FinalTextTimesOut` | crates/vinpst-asr/src/command_streaming.rs:320-329 | the run in which a final text arrives and the finish times out |
| `SessionCases.FinalTextTooLate` | crates/vinpst-asr/src/command_streaming.rs:342-355 | the run in which a final text arrives, nothing times out, and the finish reports an error |
| `SessionCases.CancelSwallows` | crates/vinpst-asr/src/command_streaming.rs:461-474 | after such a cancel no poll ever brings a `Completed` |
| `SessionCases.CancelDeliversIff` | crates/vinpst-asr/src/command_streaming.rs:461-479 | after a cancel and any number of polls the stream ends in exactly one `Completed` if and only if no emitted `Completed` was still queued at the cancel; what the polls bring is exact |
| `Base64.TableIsTheAlphabet` | crates/vinpst-asr/src/command.rs:215 | each of the 64 table entries is the character section 4 of RFC 4648 gives its value |
| `Base64.EncodeBase64` | crates/vinpst-asr/src/command.rs:214-235 | a decoder of section 4 of RFC 4648 recovers the bytes |
| `Base64.GroupInvertsChunk` | crates/vinpst-asr/src/command.rs:218-232 | each group of four characters decodes to its one, two or three bytes |
| `Base64.DecodeInvertsEncode` | crates/vinpst-asr/src/command.rs:214-235 | decoding inverts encoding for all byte strings |
| `Base64.EncodedShape` | crates/vinpst-asr/src/command.rs:216-232 | the length is 4 ceil(n/3), and n mod 3 decides the padding |
| `Base64.AudioFieldRoundTrip` | crates/vinpst-asr/src/command.rs:195-202 | the audio field of a line decodes to the samples it was made of |
| `Pcm.WithSpec` | crates/vinpst-audio/src/lib.rs:128-138 | a buffer is built if and only if the layout is valid and the samples are whole frames |
| `Pcm.DecodeInvertsEncode` | crates/vinpst-audio/src/lib.rs:97-103 | reading little-endian samples back gives the samples |
| `Pcm.EncodeInvertsDecode` | crates/vinpst-audio/src/lib.rs:146-155 | writing decoded samples gives the bytes back, up to an odd last one |
| `Pcm.LowByteFirst` | crates/vinpst-audio/src/lib.rs:97-103 | words, double words and samples are written low byte first |
| `Pcm.BytesMakeABuffer` | crates/vinpst-audio/src/lib.rs:146-155 | bytes make a buffer if and only if they are whole samples and frames of a valid layout; nothing is lost then |
| `Pcm.I16SamplesToLeBytes` | crates/vinpst-audio/src/lib.rs:97-103 | the loop writes the little-endian image of all samples |
| `Wave.DecodeWavPcm16Le` | crates/vinpst-audio/src/lib.rs:800-837 | the offset walk, without an index out of bounds, is the fold over the chunk list, for all byte strings |
| `Wave.WalkIsFold` | crates/vinpst-audio/src/lib.rs:808-830 | walking by offsets equals splitting into chunks and folding |
| `Wave.SplitInvertsSerialize` | crates/vinpst-audio/src/lib.rs:808-830 | walking serialized padded chunks finds exactly those chunks |
| `Wave.ScanKeepsLast` | crates/vinpst-audio/src/lib.rs:816-828 | the fold keeps the last `fmt ` and the last `data` chunk, and stops at the first bad `fmt ` |
| `Wave.DecodeWellFormed` | crates/vinpst-audio/src/lib.rs:800-837 | a well-formed file decodes to what its last `fmt ` and `data` chunks say, or fails with its first bad `fmt ` |
| `Wave.DecodeAnything` | crates/vinpst-audio/src/lib.rs:800-837 | any bytes have no header, or are a chunk list and a rest, perhaps without the last filler byte; the first bad `fmt ` decides, then a chunk past the end, then the last `fmt ` and `data` |
| `Wave.UnknownChunkIsIgnored` | crates/vinpst-audio/src/lib.rs:816-829 | an unknown chunk of any size anywhere changes nothing |
| `Wave.FmtAcceptsExactly` | crates/vinpst-audio/src/lib.rs:839-875 | a `fmt ` chunk is accepted if and only if its first sixteen bytes are the image of a valid layout |
| `Wave.EncodePcm16LeWav` | crates/vinpst-asr/src/remote.rs:475-517 | encoding succeeds exactly when layout, frames and all header fields fit, and then writes the canonical file |
| `Wave.CanonicalLayout` | crates/vinpst-asr/src/remote.rs:501-516 | the canonical chunk file, field by field |
| `Wave.RiffSizeCountsTheRest` | crates/vinpst-asr/src/remote.rs:484-488 | the RIFF size counts every byte after itself |
| `Wave.DecodeInvertsEncode` | crates/vinpst-asr/src/remote.rs:475-517 | decoding an encoded file gives back layout and samples |
| `Wave.DecodedSpecFits` | crates/vinpst-audio/src/lib.rs:839-875 | every decoded layout fits the encoder's fields |
| `Wave.ReencodedFileDecodesAlike` | crates/vinpst-audio/src/lib.rs:800-875 | re-encoding any decoded file either overflows the RIFF size or decodes to the same buffer |
| `FrameChunks.ChunkRangesByFrames` | crates/vinpst-audio/src/lib.rs:218-237 | the ranges tile all frames: no gap, no overlap, none empty, only the last one short |
| `FrameChunks.ChunksByFrames` | crates/vinpst-audio/src/lib.rs:240-252 | the chunks are valid buffers that concatenate to the buffer |
| `SourceRecorder.SourceAudioRecorder.constructor` | crates/vinpst-audio/src/lib.rs:657-680 | a new recorder is idle and has delivered nothing |
| `SourceRecorder.SourceAudioRecorder.DeliverCapture` | crates/vinpst-audio/src/lib.rs:687-699 | an installed callback receives one delivery, a partition of the capture |
| `SourceRecorder.SourceAudioRecorder.BeginRecording` | crates/vinpst-audio/src/lib.rs:703-724 | with a callback the source is read and delivered at once; a failing read leaves the recorder idle |
| `SourceRecorder.SourceAudioRecorder.StopAndGetBuffer` | crates/vinpst-audio/src/lib.rs:730-741 | a capture read at begin is returned without a second delivery; otherwise it is read and delivered now |
| `SourceRecorder.SourceAudioRecorder.CancelRecording` | crates/vinpst-audio/src/lib.rs:743-747 | the recorder is idle and holds no capture |
| `SourceRecorder.SourceAudioRecorder.RecordOnce` | crates/vinpst-audio/src/lib.rs:702-747 | a recording delivers its capture's chunks exactly once, whether the callback came before begin or before stop |
| `SourceRecorder.SourceAudioRecorder.Perform` | crates/vinpst-audio/src/lib.rs:687-747 | every call moves the recorder, its reads and its deliveries as specified |
| `SourceRecorder.DeliveredIff` | crates/vinpst-audio/src/lib.rs:687-747 | over any sequence of calls a stop's capture is delivered if and only if a callback was installed when the recording began or when it stopped, and no capture twice |
| `SymlinkTarget.RelativeLinkLeads` | crates/vinpst-config/src/persistence.rs:195-204 | a relative link leads to its target in the directory that holds the link, for every directory, and resolves to it if it is there |
| `SymlinkTarget.AbsoluteLinkLeads` | crates/vinpst-config/src/persistence.rs:195-204 | an absolute link leads to its target from wherever it is |
| `SymlinkTarget.ResultIsNoLink` | crates/vinpst-config/src/persistence.rs:187-221 | a successful result is no symlink and has below it what the path has below it |
| `SymlinkTarget.ResolvedLeads` | crates/vinpst-config/src/persistence.rs:187-204 | success follows a definite number of links, fewer than 32 |
| `SymlinkTarget.LeadsResolves` | crates/vinpst-config/src/persistence.rs:187-221 | fewer than 32 links always resolve, 32 or more always report too many |
| `SymlinkTarget.ResolveIff` | crates/vinpst-config/src/persistence.rs:183-221 | a path resolves to a result if and only if following fewer than 32 links ends there |
| `SymlinkTarget.TooManyIff` | crates/vinpst-config/src/persistence.rs:187-221 | too many links are reported if and only if as many links can be followed as there are levels |
| `SymlinkTarget.CycleIsReported` | crates/vinpst-config/src/persistence.rs:188-193 | a path that leads back to itself after any number of links is reported |
| `SymlinkTarget.UpIsDroppedIff` | crates/vinpst-config/src/persistence.rs:187-221 | the result differs from the one with every part put back if and only if some missing directory met on the way, links followed, is left by `..`; it is a shorter path then, and errors are the same |
| `SymlinkTarget.StaysIff` | crates/vinpst-config/src/persistence.rs:187-221 | a path resolves to itself if and only if it exists and is no link, or is missing under a name in a directory that resolves to itself |
| `SymlinkTarget.MissingUpIsDropped` | crates/vinpst-config/src/persistence.rs:207-217 | the concrete path whose result is a different place |
| `ConfigWrite.FileSystem.CreateTemporaryFile` | crates/vinpst-config/src/persistence.rs:233-262 | success, with a new empty file under the first unused name, if and only if that name is among 32 and no try up to it is refused; failure changes nothing |
| `ConfigWrite.FileSystem.WriteAll` | crates/vinpst-config/src/persistence.rs:136-147 | every intermediate disk differs in that file only; success means all bytes |
| `ConfigWrite.FileSystem.Copy` | crates/vinpst-config/src/persistence.rs:152-155 | every intermediate disk differs in the target only, which is emptied first |
| `ConfigWrite.FileSystem.Stage` | crates/vinpst-config/src/persistence.rs:135-147 | exactly when creation and writing succeed, the new contents are complete beside the output under the first unused temporary name; else everything but a leftover temporary is as before |
| `ConfigWrite.FileSystem.BackUp` | crates/vinpst-config/src/persistence.rs:152-162 | when the backup succeeds; and the output stays whole throughout if and only if the backup is not a non-empty output itself |
| `ConfigWrite.FileSystem.Commit` | crates/vinpst-config/src/persistence.rs:149-172 | when it succeeds, and then the staged file is in place and the old one in the backup; after a failure the staged file is gone again if it can be removed |
| `ConfigWrite.FileSystem.WriteConfigFile` | crates/vinpst-config/src/persistence.rs:109-177 | when the write succeeds and which error it reports, in terms of its inputs; on every disk up to any failure or crash the output is the old or the complete new one if and only if no non-empty output is backed up onto itself; errors before the backup leave every existing file alone, and after any error nothing but the backup is changed if files can be removed; success states the whole new disk, and that the new content is in place if and only if the backup path is not the first unused temporary name or the old content was the same |
| `ConfigWrite.BackUpOntoItself` | crates/vinpst-config/src/persistence.rs:152-155 | for every disk, backing a non-empty config up onto itself succeeds and tears it on the way |
| `ConfigWrite.BackUpOntoStaged` | crates/vinpst-config/src/persistence.rs:149-177 | for every disk, backing a config up onto its staging file succeeds and leaves the disk as it was |
| `ConfigWrite.OneStep` | crates/vinpst-config/src/persistence.rs:104-108 | a history stays free of torn outputs exactly if its next disk is whole |
| `ConfigWrite.OtherFileTouched` | crates/vinpst-config/src/persistence.rs:135-147 | steps on another file never tear the output |
| `ConfigWrite.SelfCopyTears` | crates/vinpst-config/src/persistence.rs:152-155 | copying the output onto itself tears it exactly when it has content |
| `EventTime.TriggerEventTimeMapper.Resolve` | cpp/fcitx5-addon/src/fcitx_trigger_mode.cpp:60-88 | the step function, and a result within a minute behind and a second ahead of the observation |
| `EventTime.OutputsStayNearObservation` | cpp/fcitx5-addon/src/fcitx_trigger_mode.cpp:81-84 | the same for every output of every run |
| `EventTime.OutputsNeverFallBackASecond` | cpp/fcitx5-addon/src/fcitx_trigger_mode.cpp:73-87 | with observations in order no output is more than a second below any earlier one |
| `EventTime.ElapsedIsTrueDifference` | cpp/fcitx5-addon/src/fcitx_trigger_mode.cpp:73 | the 32-bit difference is the true one across a wrap |
| `EventTime.DifferencesAreTrue` | cpp/fcitx5-addon/src/fcitx_trigger_mode.cpp:66-87 | between re-anchors output differences are the true source differences, over any number of wraps |
| `EventTime.AnchoredIff` | cpp/fcitx5-addon/src/fcitx_trigger_mode.cpp:62-87 | a stamp is taken as an anchor, and mapped to its observation, if and only if it or the one before is zero or the true difference leads more than a minute behind or a second ahead of the observation |
| `EventTime.TrueIffNear` | cpp/fcitx5-addon/src/fcitx_trigger_mode.cpp:62-87 | over a whole run no stamp is taken as an anchor if and only if all true positions are that near their observations; all outputs are the true positions then |
| `MenuRefresh.FcitxMenus.HideSceneMenu` | cpp/fcitx5-addon/src/fcitx_addon_menu.cpp:458-461 | hiding unbinds the menu and makes its refreshes stale |
| `MenuRefresh.FcitxMenus.HideAsrMenu` | cpp/fcitx5-addon/src/fcitx_addon_menu.cpp:546-549 | the same for the recognizer menu |
| `MenuRefresh.FcitxMenus.ShowSceneMenu` | cpp/fcitx5-addon/src/fcitx_addon_menu.cpp:381-389 | nothing without a context or while recording; else the other menu is hidden, this one bound, and a refresh started with a fresh number |
| `MenuRefresh.FcitxMenus.ShowAsrMenu` | cpp/fcitx5-addon/src/fcitx_addon_menu.cpp:473-481 | the same for the recognizer menu |
| `MenuRefresh.FcitxMenus.SceneRefreshed` | cpp/fcitx5-addon/src/fcitx_addon_menu.cpp:434-455 | a refresh is stored only if the addon lives, its number is current and its context valid; a failed one hides the menu it belongs to |
| `MenuRefresh.FcitxMenus.AsrRefreshed` | cpp/fcitx5-addon/src/fcitx_addon_menu.cpp:522-543 | the same for the recognizer menu |
| `MenuRefresh.DeliverInDelivers` | cpp/fcitx5-addon/src/fcitx_addon_menu.cpp:434-455 | the system's delivery step changes the menus as the callback does |
| `MenuRefresh.StepKeeps` | cpp/fcitx5-addon/src/fcitx_addon_menu.cpp:417-461 | every UI event and thread step keeps the invariant |
| `MenuRefresh.RunKeeps` | cpp/fcitx5-addon/src/fcitx_addon_menu.cpp:417-549 | the invariant holds in every interleaving |
| `MenuRefresh.NeverBothBound` | cpp/fcitx5-addon/src/fcitx_addon_menu.cpp:381-481 | the two menus are never bound at once |
| `MenuRefresh.AcceptedIsNewestAndBound` | cpp/fcitx5-addon/src/fcitx_addon_menu.cpp:437-452 | an accepted refresh is the newest request, nothing was hidden since, and the menu is still bound to its context (fewer than 2^64 moves) |
| `MenuRefresh.UndisturbedRefreshIsStored` | cpp/fcitx5-addon/src/fcitx_addon_menu.cpp:417-455 | from every reachable state a request that nothing disturbs is accepted and stored |
| `MenuRefresh.UndisturbedFailureHides` | cpp/fcitx5-addon/src/fcitx_addon_menu.cpp:441-452 | from every reachable state a request that nothing disturbs and whose fetch or rebuild fails hides its menu |
| `MenuRefresh.NothingAfterDestruction` | cpp/fcitx5-addon/src/fcitx_addon.cpp:225-230 | in no run is a refresh accepted or requested once the addon is destroyed |
| `Sorting.SortFacts` | scripts/release/release_manifest.py:123-126 | sorting orders, keeps the elements, and changes nothing exactly when they are ordered |
| `Sorting.SortKeepsDistinct` | scripts/release/release_manifest.py:123-126 | sorting keeps names and roles distinct |
| `Checksums.ParseChecksumFile` | scripts/release/release_manifest.py:189-202 | the loop computes the specified result; accepted entries are sorted with distinct names |
| `Checksums.ParseInvertsPrint` | scripts/release/release_manifest.py:194-197 | a printed line parses to its entry |
| `Checksums.PrintInvertsParse` | scripts/release/release_manifest.py:194-197 | a parsed line prints as it was |
| `Checksums.LineIsEntryIff` | scripts/release/release_manifest.py:189-202 | a line is read as an entry if and only if it is the print of that entry, a digest with a name without slashes |
| `Checksums.ParseAllPrinted` | scripts/release/release_manifest.py:68-71 | every printed line is read back, in order |
| `Checksums.ParseInvertsChecksums` | scripts/release/release_manifest.py:189-202 | a printed list parses to itself if and only if it is sorted with distinct names |
| `ReleaseManifest.AnyOneIsAVersion` | scripts/release/release_manifest.py:221-224 | a readable manifest stays readable with another schema version if and only if that equals one in Python, and then reads the same |
| `ReleaseManifest.CheckRecords` | scripts/release/release_manifest.py:249-278 | the loop accepts exactly the well-formed records with distinct names and roles |
| `ReleaseManifest.CheckFiles` | scripts/release/release_manifest.py:289-298 | every recorded artifact is there with its size and digest |
| `ReleaseManifest.InventoryIff` | scripts/release/release_manifest.py:300-308 | the comparison of name sets is the completeness of the bundle |
| `ReleaseManifest.VerifyBundle` | scripts/release/release_manifest.py:205-308 | accepts exactly the acceptable bundles |
| `ReleaseAssembly.CheckSources` | scripts/release/release_manifest.py:84-105 | passes exactly the usable sources with distinct names and roles |
| `ReleaseAssembly.SortedRecords` | scripts/release/release_manifest.py:123-126 | the sorted records are well formed, distinct, and those of the sources |
| `ReleaseAssembly.RecordReadsBack` | scripts/release/release_manifest.py:249-278 | a record is read from its own image and from nothing else, and only if it is well formed |
| `ReleaseAssembly.ManifestReadIff` | scripts/release/release_manifest.py:205-248 | a manifest is read from its own image, or one with another schema version that equals one, and only with all its fields valid |
| `ReleaseAssembly.ManifestReadsBack` | scripts/release/release_manifest.py:128-141 | the written manifest is read back if and only if the package fields are not empty |
| `ReleaseAssembly.ChecksumsReadBack` | scripts/release/release_manifest.py:68-76 | the written checksum list is what the verifier expects, and holds no carriage return that reading might change |
| `ReleaseAssembly.BuiltIsComplete` | scripts/release/release_manifest.py:116-141 | the staged files are exactly the recorded ones, the manifest and the checksum list |
| `ReleaseAssembly.BuiltIsAcceptable` | scripts/release/release_manifest.py:116-142 | what is built from usable sources is acceptable if and only if the package is named and there is an artifact |
| `ReleaseAssembly.Assemble` | scripts/release/release_manifest.py:79-148 | succeeds exactly when its checks pass and the package is named; its result is acceptable |
| `ReleaseAssembly.AcceptedIsListed` | scripts/release/release_manifest.py:282-308 | in an accepted bundle exactly the files that are no metadata are listed, each with its digest |
| `ReleaseAssembly.AcceptedIsRecorded` | scripts/release/release_manifest.py:282-308 | the manifest of an accepted bundle tells size and digest of the checksum list and of every file that is no metadata |
| `SpeechRanges.SaturationIsInvisible` | crates/vinpst-asr/src/sherpa_vad.rs:283-292 | the saturating arithmetic computes the unbounded one |
| `SpeechRanges.RangesCoverWhatIsKept` | crates/vinpst-asr/src/sherpa_vad.rs:274-295 | ranges are non-empty, in bounds, and cover exactly the samples within the padding of a segment or the leading guard |
| `SpeechRanges.SpeechIsCovered` | crates/vinpst-asr/src/sherpa_vad.rs:274-295 | all in-bounds speech is kept |
| `SpeechRanges.AudibleIff` | crates/vinpst-asr/src/sherpa_vad.rs:283-292 | a segment yields a range if and only if some sample is to be kept for it |
| `SpeechRanges.CollectRanges` | crates/vinpst-asr/src/sherpa_vad.rs:298-304 | the collected audio is the samples at the ranges' positions, in order |
| `SpeechRanges.IncreasingIff` | crates/vinpst-asr/src/sherpa_vad.rs:298-304 | the collected audio is a subsequence of the input if and only if the ranges are disjoint and increasing |
| `SpeechRanges.OrderedIffSpaced` | crates/vinpst-asr/src/sherpa_vad.rs:274-295 | the ranges are disjoint and increasing if and only if the segments that leave something to keep are in order and at least twice the padding apart |
| `SpeechRanges.KeptIsNearSpeech` | crates/vinpst-asr/src/sherpa_vad.rs:274-304 | a sample is kept if and only if it is near speech in unbounded arithmetic; each is kept once and in order if and only if the segments that leave something to keep are spaced |
| `SpeechRanges.Trim` | crates/vinpst-asr/src/sherpa_vad.rs:243-271 | the trimmed audio is the samples at the kept positions, or the whole input when there are none |
| `SpeechRanges.CloseSegmentsRepeat` | crates/vinpst-asr/src/sherpa_vad.rs:283-292 | two close segments whose ranges overlap |

## Left out

- Real devices and services: PipeWire, processes and signals, D-Bus, HTTP, speech detection and recognition, the fcitx panel. Their answers are parameters of the steps.
- Elapsed time: the begin latencies the recorder reports, sleep intervals, and deadlines other than "before" and "after"; a script's last turn stands for the deadline.
- Recorder methods of the capture protocol: modelled as steps on a value rather than as a class, because a call spans several steps between which other agents run.
- Death of a worker or timer thread by panic, poisoned locks, and failing channel sends.
- JSON text: lines, the config and the manifest are values with a decoder and an encoder as parameters; a manifest's duplicate keys are resolved by the decoder.
- UTF-8 decoding across reads: a read is decoded by a function of its bytes, so a character split between two reads becomes what that function makes of its halves, as in the code.
- Standard error of the helper: only the last line it leaves and its size limit, not its framing.
- Unread helper output is lost when the helper exits, as in the code; `ListenIsOneShot` therefore speaks of a helper that keeps running, and `SessionIsOneShot` of the output that is read.
- Cleanup of helper processes beyond dropping them.
- Floating-point gain and normalization of PCM, and durations in milliseconds.
- The branch of the WAVE decoder for a chunk end that overflows a 32-bit `usize`.
- `.` components of paths, and file systems that change while a path is resolved.
- Durability and ordering of disk writes behind the steps of a config write, permissions as such, and several names for one file: a name stands for the file it leads to.
- Validation and serialization of the config: one of the failures before anything is written.
- Overflow of the steady clock of the addon.
- What the menus show, filter and execute; only binding, refreshing and hiding are modelled.
- Destruction of an input context while a menu is bound to it.
- The window between removing an old release bundle and moving the new one into place, and the copying of artifacts as a step that can fail.
- Trigger modes and frontend controllers, whose decisions are made in a foreign library that is not part of this model; parsing of the idle-time setting and of other environment variables.
