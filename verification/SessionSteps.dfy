/** The calls of an incremental recognizer session as steps on a value. */
module SessionSteps {
  import opened Results
  import opened Pcm
  import opened StreamingLines
  import opened StreamingInput

  // ---- The environment ----

  /** A running helper: which pipes are open, and whether it succeeded once it has exited. */
  datatype Process = Process(stdinOpen: bool, stdoutOpen: bool, stderrOpen: bool, exited: Option<bool>)

  const RUNNING := Process(true, true, true, None)

  /** What the helper does between two looks at it. */
  datatype PumpTurn =
    | Broken
    | Turn(chunks: seq<seq<byte>>, stdoutClosed: bool, stderr: Option<string>, stderrClosed: bool, exited: Option<bool>)

  /** How far one write to the helper's standard input gets. */
  datatype Write = Wrote(n: nat) | WouldBlock | Interrupted | WriteError

  /** The turns of a write loop; the deadline has passed with the last of them. */
  datatype WriteTurn = WriteTurn(pump: PumpTurn, write: Write)
  datatype WriteScript = WriteScript(turns: seq<WriteTurn>, last: WriteTurn, after: PumpTurn) {
    function All(): (turns: seq<WriteTurn>)
      ensures turns != []
    {
      turns + [last]
    }
  }

  /** The turns of the final wait: up to its deadline, during the grace period, and one more. */
  datatype WaitScript = WaitScript(turns: seq<PumpTurn>, last: PumpTurn, grace: seq<PumpTurn>, end: PumpTurn) {
    function All(): (turns: seq<PumpTurn>)
      ensures turns != []
    {
      turns + [last]
    }
  }

  /** Lossy UTF-8 decoding of one read. */
  type Lossy = seq<byte> -> string

  datatype Codec = Codec(decode: Decoder, lossy: Lossy, render: Renderer)

  datatype SessionError =
    | WasCancelled
    | WasFinished
    | SpawnFailed
    | StdinClosed
    | WriteFailed
    | TimedOut
    | PipeFailed
    | TooMuchOutput
    | InvalidJson
    | Reported(message: string)

  datatype Outcome = Done | Failed(error: SessionError)

  datatype Lifecycle = Active | Finished | Cancelled

  const MAX_COMMAND_OUTPUT_BYTES: nat := 1024 * 1024
  const USIZE_MAX: nat := 0xFFFF_FFFF_FFFF_FFFF

  function SaturatingAdd(a: nat, b: nat): nat {
    if a + b > USIZE_MAX then USIZE_MAX else a + b
  }

  // ---- The session ----

  /** What has happened, which no step looks at: the polled events, the bytes the helper has accepted
      with the lines and pushes they belong to, and whether a line got stuck half-way. */
  datatype History = History(
    polled: seq<RecognitionEvent>, written: seq<byte>, lines: seq<Line>, pushes: seq<seq<i16>>, broken: bool)

  datatype Session = Session(
    process: Option<Process>, pendingSamples: seq<i16>, out: Output, stdoutBuffer: string, stdoutBytes: nat,
    stderrTail: string, emitted: bool, lifecycle: Lifecycle, history: History)

  const SILENT := Output([], "", false, false, false)

  const NEW := Session(None, [], SILENT, "", 0, "", false, Active, History([], [], [], [], false))

  // ---- Looking at the helper ----

  function Read(c: Codec, s: Session, chunk: seq<byte>): (Session, Outcome) {
    var bytes := SaturatingAdd(s.stdoutBytes, |chunk|);
    if bytes > MAX_COMMAND_OUTPUT_BYTES then (s.(stdoutBytes := bytes), Failed(TooMuchOutput))
    else
      var reader := Drain(c.decode, s.out, s.stdoutBuffer + c.lossy(chunk));
      (s.(out := reader.out, stdoutBuffer := reader.buffer, stdoutBytes := bytes),
       if reader.good then Done else Failed(InvalidJson))
  }

  function ReadAll(c: Codec, s: Session, chunks: seq<seq<byte>>): (Session, Outcome)
    decreases |chunks|
  {
    if chunks == [] then (s, Done)
    else
      var (next, r) := Read(c, s, chunks[0]);
      if r != Done then (next, r) else ReadAll(c, next, chunks[1..])
  }

  /** Takes in what the pipes have; a failing read loses what was read before it. */
  function ReadPipes(c: Codec, s: Session, turn: PumpTurn): (Session, Outcome)
    requires s.process.Some?
  {
    if turn.Broken? then (s, Failed(PipeFailed))
    else
      var (read, r) := if s.process.value.stdoutOpen then ReadAll(c, s, turn.chunks) else (s, Done);
      if r != Done then (read, r)
      else if !s.process.value.stderrOpen then (read, Done)
      else if turn.stderr.None? then (read, Failed(TooMuchOutput))
      else (read.(stderrTail := turn.stderr.value), Done)
  }

  function StderrOr(tail: string, fallback: string): string {
    if Trim(tail) == "" then fallback else Trim(tail)
  }

  /** A helper that exits unsuccessfully without having said anything final reports an error. */
  function AfterExit(o: Output, success: bool, tail: string): Output {
    if !success && !o.sawError && !o.sawFinal then PushError(o, StderrOr(tail, "failed.")) else o
  }

  /** One look: nothing without a process; else the reads, closed pipes, and an exit noticed once. */
  function Pump(c: Codec, s: Session, turn: PumpTurn): (Session, Outcome) {
    if s.process.None? then (s, Done)
    else
      var was := s.process.value;
      var (read, r) := ReadPipes(c, s, turn);
      if r != Done then (read, r)
      else if was.exited.None? && turn.exited.Some? then
        (read.(process := Some(Process(false, false, false, turn.exited)),
               out := AfterExit(read.out, turn.exited.value, read.stderrTail)), Done)
      else
        (read.(process := Some(was.(stdoutOpen := was.stdoutOpen && !turn.stdoutClosed,
                                    stderrOpen := was.stderrOpen && !turn.stderrClosed))), Done)
  }

  // ---- Writing to the helper ----

  function Start(s: Session, starts: bool): (Session, Outcome) {
    if s.process.Some? then (s, Done)
    else if !starts then (s, Failed(SpawnFailed))
    else (s.(process := Some(RUNNING), history := s.history.(written := [], lines := [])), Done)
  }

  function Accept(s: Session, bytes: seq<byte>): Session {
    s.(history := s.history.(written := s.history.written + bytes))
  }

  predicate StdinOpen(s: Session) {
    s.process.Some? && s.process.value.stdinOpen
  }

  /** Writes until all bytes are accepted; no turns left means that the deadline has passed. */
  function WriteFrom(c: Codec, s: Session, bytes: seq<byte>, turns: seq<WriteTurn>): (Session, Outcome)
    decreases |turns|
  {
    if bytes == [] then (s, Done)
    else if turns == [] then (s, Failed(TimedOut))
    else
      var (looked, r) := Pump(c, s, turns[0].pump);
      if r != Done then (looked, r)
      else if !StdinOpen(looked) then (looked, Failed(StdinClosed))
      else match turns[0].write
        case Wrote(n) =>
          if n == 0 then (looked, Failed(StdinClosed))
          else
            var k := if n < |bytes| then n else |bytes|;
            WriteFrom(c, Accept(looked, bytes[..k]), bytes[k..], turns[1..])
        case WriteError => (looked, Failed(WriteFailed))
        case _ => WriteFrom(c, looked, bytes, turns[1..])
  }

  function LineBytes(c: Codec, line: Line): (bytes: seq<byte>)
    ensures bytes != []
  {
    c.render(line) + [NEWLINE]
  }

  function WriteLine(c: Codec, s: Session, line: Line, starts: bool, script: WriteScript): (Session, Outcome) {
    var (started, r) := Start(s, starts);
    if r != Done then (started, r)
    else
      var (wrote, w) := WriteFrom(c, started, LineBytes(c, line), script.All());
      if w != Done then (wrote, w)
      else
        var (looked, l) := Pump(c, wrote, script.after);
        if l != Done then (looked, l)
        else (looked.(history := looked.history.(lines := looked.history.lines + [line])), Done)
  }

  /** The chunk held back is gone whether or not it gets through. */
  function Flush(c: Codec, s: Session, commit: bool, starts: bool, script: WriteScript): (Session, Outcome) {
    if s.pendingSamples == [] then (s, Done)
    else WriteLine(c, s.(pendingSamples := []), Audio(s.pendingSamples, commit), starts, script)
  }

  function Break(s: Session): Session {
    s.(history := s.history.(broken := true))
  }

  // ---- Ending the stream ----

  /** `Completed` is queued unless it was before. */
  function Emit(s: Session): Session {
    if s.emitted then s
    else s.(out := s.out.(events := s.out.events + [Completed], completed := true), emitted := true)
  }

  /** The stream is closed and the helper is gone. */
  function EndStream(s: Session): Session {
    Emit(s).(process := None)
  }

  function TimeOut(s: Session): (Session, Outcome) {
    var message := StderrOr(s.stderrTail, "timed out.");
    (EndStream(s.(out := PushError(s.out, message))), Failed(Reported(message)))
  }

  predicate Exited(s: Session) {
    s.process.Some? && s.process.value.exited.Some?
  }

  predicate Stops(s: Session) {
    s.out.sawFinal || s.out.completed || Exited(s)
  }

  /** Waits for something to end the wait; the deadline passes with the last turn, even if that turn
      brought what was waited for. The last component tells that it did. */
  function Await(c: Codec, s: Session, turns: seq<PumpTurn>): (Session, Outcome, bool)
    requires turns != []
    decreases |turns|
  {
    if Stops(s) then (s, Done, false)
    else
      var (looked, r) := Pump(c, s, turns[0]);
      if r != Done then (looked, r, false)
      else if |turns| == 1 then
        var (ended, t) := TimeOut(looked);
        (ended, t, true)
      else Await(c, looked, turns[1..])
  }

  /** After a final text the helper gets some more time to say it is done. */
  function Grace(c: Codec, s: Session, turns: seq<PumpTurn>): (Session, Outcome)
    decreases |turns|
  {
    if s.out.completed || Exited(s) || turns == [] then (s, Done)
    else
      var (looked, r) := Pump(c, s, turns[0]);
      if r != Done then (looked, r) else Grace(c, looked, turns[1..])
  }

  /** The message of the first error in a queue. */
  function FirstError(events: seq<RecognitionEvent>): Option<string> {
    if events == [] then None
    else if events[0].ErrorEvent? then Some(events[0].message)
    else FirstError(events[1..])
  }

  /** Without a final text or an error an error is queued. */
  function Told(s: Session): Session {
    if s.out.sawFinal || s.out.sawError then s
    else s.(out := PushError(s.out, StderrOr(s.stderrTail, "returned no text.")))
  }

  function Wait(c: Codec, s: Session, script: WaitScript): (Session, Outcome) {
    var (waited, r, late) := Await(c, s, script.All());
    if r != Done then (waited, r)
    else if waited.out.sawFinal then
      var (graced, g) := Grace(c, waited, script.grace);
      if g != Done then (graced, g)
      else
        var (looked, l) := Pump(c, graced, script.end);
        if l != Done then (looked, l) else (EndStream(looked), Done)
    else
      var (looked, l) := Pump(c, waited, script.end);
      if l != Done then (looked, l)
      else
        var ended := EndStream(Told(looked));
        var error := FirstError(ended.out.events);
        (ended, if error.None? then Done else Failed(Reported(error.value)))
  }

  // ---- The calls ----

  datatype Call =
    | Push(samples: seq<i16>, starts: bool, script: WriteScript, after: PumpTurn)
    | Finish(starts: bool, commit: WriteScript, finish: WriteScript, wait: WaitScript)
    | Cancel(starts: bool, script: WriteScript)
    | Poll(turn: PumpTurn)

  function PushCall(c: Codec, s: Session, samples: seq<i16>, starts: bool, script: WriteScript, after: PumpTurn)
    : (Session, Outcome)
  {
    if s.lifecycle == Cancelled then (s, Failed(WasCancelled))
    else if s.lifecycle == Finished then (s, Failed(WasFinished))
    else
      var (started, r) := Start(s, starts);
      if r != Done then (started, r)
      else
        var (flushed, f) := Flush(c, started, false, starts, script);
        if f != Done then (Break(flushed), f)
        else
          Pump(c, flushed.(pendingSamples := samples,
              history := flushed.history.(pushes := flushed.history.pushes + [samples])), after)
  }

  function CloseStdin(s: Session): Session {
    if s.process.None? then s else s.(process := Some(s.process.value.(stdinOpen := false)))
  }

  function SendFinish(c: Codec, s: Session, starts: bool, commit: WriteScript, finish: WriteScript): (Session,
      Outcome) {
    var (flushed, f) := Flush(c, s, true, starts, commit);
    if f != Done then (Break(flushed), f)
    else
      var (sent, w) := WriteLine(c, flushed, FinishLine, starts, finish);
      if w != Done then (Break(sent), w) else (sent, Done)
  }

  function FinishCall(c: Codec, s: Session, starts: bool, commit: WriteScript, finish: WriteScript, wait: WaitScript)
    : (Session, Outcome)
  {
    if s.lifecycle == Cancelled then (s, Failed(WasCancelled))
    else if s.lifecycle == Finished then (s, Done)
    else
      var (started, r) := Start(s, starts);
      if r != Done then (started, r)
      else
        var (sent, w) := SendFinish(c, started.(lifecycle := Finished), starts, commit, finish);
        if w != Done then (sent, w) else Wait(c, CloseStdin(sent), wait)
  }

  /** Tells the helper if it can be reached, and drops whatever is queued. */
  function CancelCall(c: Codec, s: Session, starts: bool, script: WriteScript): (Session, Outcome) {
    if s.lifecycle == Cancelled then (s, Done)
    else
      var (started, r) := Start(s.(lifecycle := Cancelled), starts);
      var told := if r == Done then SendCancel(c, started, starts, script) else started;
      (EndStream(told.(pendingSamples := [], out := told.out.(events := []))), Done)
  }

  function SendCancel(c: Codec, s: Session, starts: bool, script: WriteScript): Session {
    var (sent, w) := WriteLine(c, s, CancelLine, starts, script);
    if w == Done then sent else Break(sent)
  }

  function PollCall(c: Codec, s: Session, turn: PumpTurn): (Session, Outcome) {
    var (looked, r) := Pump(c, s, turn);
    if r != Done then (looked, r)
    else
      (looked.(out := looked.out.(events := []),
               history := looked.history.(polled := looked.history.polled + looked.out.events)), Done)
  }

  function Apply(c: Codec, s: Session, call: Call): (Session, Outcome) {
    match call
    case Push(samples, starts, script, after) => PushCall(c, s, samples, starts, script, after)
    case Finish(starts, commit, finish, wait) => FinishCall(c, s, starts, commit, finish, wait)
    case Cancel(starts, script) => CancelCall(c, s, starts, script)
    case Poll(turn) => PollCall(c, s, turn)
  }

  function Run(c: Codec, calls: seq<Call>): Session {
    if calls == [] then NEW else Apply(c, Run(c, calls[..|calls| - 1]), calls[|calls| - 1]).0
  }
}
