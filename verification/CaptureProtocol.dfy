/** The recorder, its worker and its idle timer as a system of message-passing steps. */
module CaptureProtocol {
  import opened Results
  import opened Pcm
  import opened EventLog
  import opened CaptureWorker
  import opened IdleTimer

  // ---- Messages ----
  //
  // `origin` is history: the position in the log of the Finish that issued a generation. No step
  // looks at it.

  datatype Command =
    | Begin(config: StreamConfig)
    | Finish
    | ExpireIdle(generation: nat, origin: nat)
    | Shutdown

  datatype Timer = Timer(queue: seq<TimerCommand>, pending: Option<Pending>)

  datatype Reply = BeginReply(started: bool) | FinishReply(issued: Option<Issue>)

  datatype Issue = Issue(generation: nat, origin: nat)

  // ---- The recorder's progress through a call ----

  /** What a recorder call goes on with once the old worker has been joined. */
  datatype After = Respawn(config: StreamConfig, spawns: bool) | Return | Gone

  datatype Phase =
    | Ready
    | AwaitBegin
    | AwaitFinish(cancel: bool)
    | JoinTimer(after: After)
    | JoinWorker(after: After)
    | Dropped

  // ---- History ----

  datatype Event =
    | Spawned
    | Began(reused: bool)
    | BeginFailed
    | BeginRejected
    | FinishOk(samples: seq<i16>, generation: nat)
    | FinishFailed
    | FinishRejected
    | Expired(generation: nat, origin: nat)
    | ExpiryIgnored(generation: nat)
    | ShutDown
    | Buffer(samples: seq<i16>, taken: bool, delivered: bool)
    | CallbackSet(installed: bool)
    | TimerArmed(deadline: nat, generation: nat)
    | TimerFired(generation: nat, at: nat)

  datatype System = System(
    recording: bool, phase: Phase, worker: Option<Worker>, commands: seq<Command>, timer: Option<Timer>,
    reply: Option<Reply>, now: nat, callback: bool, born: nat, log: seq<Event>)

  const START := System(false, Ready, None, [], None, None, 0, false, 0, [])

  datatype Step =
    | CallBegin(target: Target, reuse: bool, spawns: bool)
    | CallStop
    | CallCancel
    | CallDrop
    | SetCallback(installed: bool)
    | TakeReply(reuse: bool, delay: nat)
    | TimerTakes
    | TimerTimesOut
    | JoinedTimer
    | WorkerTakes(out: Outcomes)
    | WorkerBuffer(raw: RawBuffer)
    | JoinedWorker
    | Tick(elapsed: nat)

  // ---- Recorder steps ----

  /** Spawns a worker if there is none, then sends the Begin request. */
  function RequestBegin(s: System, config: StreamConfig, spawns: bool): System {
    if s.worker.Some? then s.(commands := s.commands + [Begin(config)], phase := AwaitBegin)
    else if !spawns then s.(phase := Ready)
    else
      s.(worker := Some(IDLE_WORKER), timer := Some(Timer([], None)), commands := [Begin(config)],
         phase := AwaitBegin, born := |s.log| + 1, log := s.log + [Spawned])
  }

  function StartShutdown(s: System, after: After): System
    requires s.timer.Some?
  {
    s.(timer := Some(s.timer.value.(queue := s.timer.value.queue + [StopTimer])), phase := JoinTimer(after))
  }

  function BeginCall(s: System, target: Target, reuse: bool, spawns: bool): System {
    if s.recording then s
    else if !reuse && s.worker.Some? && s.timer.Some? then StartShutdown(s, Respawn(ConfigFor(target), spawns))
    else RequestBegin(s, ConfigFor(target), spawns)
  }

  function FinishCall(s: System, cancel: bool): System {
    if s.recording && s.worker.Some? then s.(commands := s.commands + [Finish], phase := AwaitFinish(cancel))
    else if cancel && s.worker.Some? && s.timer.Some? then StartShutdown(s, Return)
    else s
  }

  function DropCall(s: System): System {
    if s.worker.Some? && s.timer.Some? then StartShutdown(s, Gone) else s.(phase := Dropped)
  }

  /** The recorder takes the worker's reply and goes on with the call. */
  function ReplyTaken(s: System, reuse: bool, delay: nat): System
    requires s.reply.Some? && s.timer.Some?
  {
    var taken := s.(reply := None);
    match s.reply.value
    case BeginReply(started) => taken.(recording := started, phase := Ready)
    case FinishReply(issued) =>
      var stopped := taken.(recording := false, phase := Ready);
      if s.phase == AwaitFinish(true) then StartShutdown(stopped, Return)
      else if issued.None? then stopped
      else if !reuse then StartShutdown(stopped, Return)
      else if delay == 0 then
        stopped.(commands := s.commands + [ExpireIdle(issued.value.generation, issued.value.origin)])
      else
        stopped.(timer := Some(s.timer.value.(queue := s.timer.value.queue
                   + [Schedule(delay, issued.value.generation, issued.value.origin)])))
  }

  function WorkerGone(s: System, after: After): System {
    match after
    case Respawn(config, spawns) => RequestBegin(s, config, spawns)
    case Return => s.(phase := Ready)
    case Gone => s.(phase := Dropped)
  }

  // ---- Timer steps ----

  function TimerTakesIn(s: System): System
    requires s.timer.Some? && s.timer.value.queue != []
  {
    var timer := s.timer.value;
    match timer.queue[0]
    case Schedule(delay, generation, origin) =>
      s.(timer := Some(Timer(timer.queue[1..], Some(Pending(s.now + delay, generation, origin)))),
         log := s.log + [TimerArmed(s.now + delay, generation)])
    case StopTimer => s.(timer := None)
  }

  function TimerFires(s: System): System
    requires s.timer.Some? && s.timer.value.pending.Some?
  {
    var pending := s.timer.value.pending.value;
    s.(timer := Some(s.timer.value.(pending := None)),
       commands := s.commands + [ExpireIdle(pending.generation, pending.origin)],
       log := s.log + [TimerFired(pending.generation, s.now)])
  }

  /** The timer's steps are turns of its loop: a command received, or a time-out at the deadline. */
  lemma TimerStepsAreWakes(s: System, wakes: seq<Wake>)
    requires s.timer.Some? && PendingAfter(wakes) == s.timer.value.pending
    ensures
      s.timer.value.queue != [] ==>
        var next := TimerTakesIn(s).timer;
        var wake := Received(s.timer.value.queue[0], s.now);
        if Stops(wake) then next.None?
        else next.Some? && next.value.pending == PendingAfter(wakes + [wake])
    ensures
      s.timer.value.pending.Some? && s.timer.value.pending.value.deadline <= s.now ==>
        var wake := TimedOut(s.now);
        && (Possible(wakes) ==> Possible(wakes + [wake]))
        && TimerFires(s).timer.Some? && TimerFires(s).timer.value.pending == PendingAfter(wakes + [wake])
        && SentFor(wakes + [wake]) == SentFor(wakes) + [s.timer.value.pending.value]
        && TimerFires(s).commands ==
           s.commands + [ExpireIdle(s.timer.value.pending.value.generation, s.timer.value.pending.value.origin)]
  {
    if s.timer.value.pending.Some? && s.timer.value.pending.value.deadline <= s.now {
      var more := wakes + [TimedOut(s.now)];
      assert more[..|wakes|] == wakes;
      if Possible(wakes) {
        forall i | 0 <= i < |more| && more[i].TimedOut?
          ensures PendingAfter(more[..i]).Some? && PendingAfter(more[..i]).value.deadline <= more[i].now
        {
          if i < |wakes| {
            assert more[..i] == wakes[..i] && more[i] == wakes[i];
          }
        }
      }
    }
  }

  // ---- Worker steps ----

  function WorkerTakesIn(s: System, out: Outcomes): System
    requires s.worker.Some? && s.commands != []
  {
    var w := s.worker.value;
    var rest := s.(commands := s.commands[1..]);
    match s.commands[0]
    case Begin(config) =>
      var (next, begun) := BeginStep(w, config, out);
      rest.(worker := Some(next), reply := Some(BeginReply(begun.Started?)),
            log := s.log + [match begun
                            case Rejected => BeginRejected
                            case Failed => BeginFailed
                            case Started(reused) => Began(reused)])
    case Finish =>
      var (next, finished) := FinishStep(w, out);
      (match finished
       case Captured(pcm, generation) =>
         rest.(worker := Some(next), reply := Some(FinishReply(Some(Issue(generation, |s.log|)))),
               log := s.log + [FinishOk(pcm.samples, generation)])
       case DeactivateFailed =>
         rest.(worker := Some(next), reply := Some(FinishReply(None)), log := s.log + [FinishFailed])
       case NotRecording =>
         rest.(worker := Some(next), reply := Some(FinishReply(None)), log := s.log + [FinishRejected])
       case BadLayout =>
         rest.(worker := Some(next), reply := Some(FinishReply(None)), log := s.log + [FinishRejected]))
    case ExpireIdle(generation, origin) =>
      rest.(worker := Some(ExpireStep(w, generation)),
            log := s.log + [if ShouldExpire(w, generation) then Expired(generation, origin)
                else ExpiryIgnored(generation)])
    case Shutdown => s.(worker := None, commands := [], log := s.log + [ShutDown])
  }

  /** The process callback of the held stream; an empty or out-of-range buffer leaves no trace. */
  function WorkerBufferIn(s: System, raw: RawBuffer): System
    requires s.worker.Some?
  {
    if s.worker.value.stream.None? || ChunkSamples(raw) == [] then s
    else
      var taken := Takes(s.worker.value, raw);
      s.(worker := Some(BufferStep(s.worker.value, raw)),
         log := s.log + [Buffer(ChunkSamples(raw), taken, taken && s.callback)])
  }

  // ---- The system ----

  /** One step of any of the three agents; a step that is not possible changes nothing. */
  function Apply(s: System, step: Step): System {
    match step
    case CallBegin(target, reuse, spawns) => if s.phase.Ready? then BeginCall(s, target, reuse, spawns) else s
    case CallStop => if s.phase.Ready? then FinishCall(s, false) else s
    case CallCancel => if s.phase.Ready? then FinishCall(s, true) else s
    case CallDrop => if s.phase.Ready? then DropCall(s) else s
    case SetCallback(installed) =>
      if s.phase.Ready? then s.(callback := installed, log := s.log + [CallbackSet(installed)]) else s
    case TakeReply(reuse, delay) => if s.reply.Some? && s.timer.Some? then ReplyTaken(s, reuse, delay) else s
    case TimerTakes => if s.timer.Some? && s.timer.value.queue != [] then TimerTakesIn(s) else s
    case TimerTimesOut =>
      if s.timer.Some? && s.timer.value.pending.Some? && s.timer.value.pending.value.deadline <= s.now
      then TimerFires(s) else s
    case JoinedTimer =>
      if s.phase.JoinTimer? && s.timer.None?
      then s.(commands := s.commands + [Shutdown], phase := JoinWorker(s.phase.after)) else s
    case WorkerTakes(out) => if s.worker.Some? && s.commands != [] then WorkerTakesIn(s, out) else s
    case WorkerBuffer(raw) => if s.worker.Some? then WorkerBufferIn(s, raw) else s
    case JoinedWorker => if s.phase.JoinWorker? && s.worker.None? then WorkerGone(s, s.phase.after) else s
    case Tick(elapsed) => s.(now := s.now + elapsed)
  }

  function Run(steps: seq<Step>): System {
    if steps == [] then START else Apply(Run(steps[..|steps| - 1]), steps[|steps| - 1])
  }

  // ---- Reading the history ----

  /** The events that move the worker's generation on. */
  ghost function Bumps(): Event -> bool {
    (e: Event) => e.Began? || e.BeginFailed? || e.FinishOk?
  }

  predicate EndsRecording(e: Event) {
    e.FinishOk? || e.FinishFailed? || e.ShutDown? || e.Spawned?
  }

  /** Whether the last begin has not been ended. */
  predicate RecordingAfter(log: seq<Event>) {
    if log == [] then false
    else
      var last := log[|log| - 1];
      if last.Began? then true
      else if EndsRecording(last) then false
      else RecordingAfter(log[..|log| - 1])
  }

  /** The samples of all buffers since the last begin. */
  function HeardAfter(log: seq<Event>): seq<i16> {
    if log == [] then []
    else
      var last := log[|log| - 1];
      if last.Began? then []
      else if last.Buffer? then HeardAfter(log[..|log| - 1]) + last.samples
      else HeardAfter(log[..|log| - 1])
  }

  predicate CallbackAfter(log: seq<Event>) {
    if log == [] then false
    else
      var last := log[|log| - 1];
      if last.CallbackSet? then last.installed else CallbackAfter(log[..|log| - 1])
  }

  /** The deadline and generation the timer was last armed with and has not fired yet. */
  function ArmedAfter(log: seq<Event>): Option<(nat, nat)> {
    if log == [] then None
    else
      var last := log[|log| - 1];
      if last.TimerArmed? then Some((last.deadline, last.generation))
      else if last.TimerFired? || last.Spawned? then None
      else ArmedAfter(log[..|log| - 1])
  }

  // ---- What an event may follow ----

  /** Expiry happens to an idle worker, for a generation a Finish of the same worker issued, with a
      multiple of 2^64 generation moves and no shutdown since. */
  ghost predicate ExpiryFits(before: seq<Event>, generation: nat, origin: nat) {
    && !RecordingAfter(before)
    && origin < |before| && before[origin].FinishOk? && before[origin].generation == generation
    && (forall k | origin < k < |before| :: !before[k].Spawned? && !before[k].ShutDown?)
    && Word(Count(before[origin + 1..], Bumps())) == 0
  }

  ghost predicate Fits(before: seq<Event>, e: Event) {
    match e
    case Expired(generation, origin) => ExpiryFits(before, generation, origin)
    case FinishOk(samples, _) => RecordingAfter(before) && samples == HeardAfter(before)
    case Buffer(_, taken, delivered) => taken == RecordingAfter(before) && delivered == (taken && CallbackAfter(before))
    case TimerFired(generation, at) =>
      ArmedAfter(before).Some? && ArmedAfter(before).value.0 <= at && ArmedAfter(before).value.1 == generation
    case Began(_) => !RecordingAfter(before)
    case BeginRejected => false
    case FinishRejected => false
    case _ => true
  }

  ghost predicate LogFits(log: seq<Event>) {
    log == [] || (LogFits(log[..|log| - 1]) && Fits(log[..|log| - 1], log[|log| - 1]))
  }

  lemma {:induction false} LogFitsAt(log: seq<Event>, i: nat)
    requires LogFits(log) && i < |log|
    ensures LogFits(log[..i]) && Fits(log[..i], log[i])
  {
    var last := |log| - 1;
    if i < last {
      LogFitsAt(log[..last], i);
      assert log[..last][..i] == log[..i];
    }
  }

  lemma Appended(log: seq<Event>, e: Event)
    ensures (log + [e])[..|log|] == log && (log + [e])[|log|] == e
    ensures LogFits(log + [e]) <==> LogFits(log) && Fits(log, e)
    ensures RecordingAfter(log + [e]) == if e.Began? then true else if EndsRecording(e) then false
            else RecordingAfter(log)
    ensures HeardAfter(log + [e]) ==
            if e.Began? then [] else if e.Buffer? then HeardAfter(log) + e.samples else HeardAfter(log)
    ensures CallbackAfter(log + [e]) == if e.CallbackSet? then e.installed else CallbackAfter(log)
    ensures ArmedAfter(log + [e]) ==
            if e.TimerArmed? then Some((e.deadline, e.generation))
            else if e.TimerFired? || e.Spawned? then None
            else ArmedAfter(log)
  {
    assert (log + [e])[..|log|] == log;
  }

  // ---- The invariant ----

  /** The worker's state is what the history says, counted from its birth. */
  ghost predicate WorkerFits(w: Worker, born: nat, log: seq<Event>)
    requires born <= |log|
  {
    && w.Consistent() && w.recording == RecordingAfter(log)
    && (w.stream.Some? ==> w.stream.value.config.spec == RECORDING_SPEC)
    && (w.recording ==> w.stream.value.samples == HeardAfter(log))
    && w.idleGeneration == Word(Count(log[born..], Bumps()))
    && (forall k | born <= k < |log| :: !log[k].Spawned? && !log[k].ShutDown?)
  }

  /** A generation in flight was issued by a Finish of the living worker. */
  ghost predicate Issued(generation: nat, origin: nat, born: nat, log: seq<Event>) {
    && born <= origin < |log| && log[origin].FinishOk? && log[origin].generation == generation
    && generation == Word(Count(log[born..origin + 1], Bumps()))
  }

  ghost predicate CommandFits(c: Command, born: nat, log: seq<Event>) {
    && (c.ExpireIdle? ==> Issued(c.generation, c.origin, born, log))
    && (c.Begin? ==> c.config.spec == RECORDING_SPEC)
  }

  ghost predicate CommandsFit(s: System) {
    forall c | c in s.commands :: CommandFits(c, s.born, s.log)
  }

  ghost predicate TimerFits(s: System) {
    s.timer.Some? ==>
      && (forall c | c in s.timer.value.queue && c.Schedule? :: Issued(c.generation, c.origin, s.born, s.log))
      && (s.timer.value.pending.Some? ==>
            Issued(s.timer.value.pending.value.generation, s.timer.value.pending.value.origin, s.born, s.log)
            && ArmedAfter(s.log) == Some((s.timer.value.pending.value.deadline,
                s.timer.value.pending.value.generation)))
  }

  ghost predicate ReplyFits(s: System) {
    s.reply.Some? && s.reply.value.FinishReply? && s.reply.value.issued.Some? ==>
      Issued(s.reply.value.issued.value.generation, s.reply.value.issued.value.origin, s.born, s.log)
  }

  /** The queued commands that are not expiries, in order. */
  function Requests(commands: seq<Command>): seq<Command> {
    if commands == [] then []
    else (if commands[0].ExpireIdle? then [] else [commands[0]]) + Requests(commands[1..])
  }

  lemma {:induction false} RequestsAppend(commands: seq<Command>, c: Command)
    ensures Requests(commands + [c]) == Requests(commands) + if c.ExpireIdle? then [] else [c]
  {
    if commands == [] {
      assert commands + [c] == [c] && Requests([c][1..]) == [];
    } else {
      assert (commands + [c])[1..] == commands[1..] + [c];
      RequestsAppend(commands[1..], c);
    }
  }

  predicate TimerRuns(s: System) {
    s.timer.Some? && StopTimer !in s.timer.value.queue
  }

  /** At most one request is under way, and the recorder's flag agrees with the worker's. */
  predicate PhaseFits(s: System) {
    match s.phase
    case Ready =>
      && s.reply.None? && Requests(s.commands) == []
      && (s.worker.Some? ==> TimerRuns(s) && s.recording == s.worker.value.recording)
      && (s.worker.None? ==> !s.recording && s.timer.None?)
    case AwaitBegin =>
      && s.worker.Some? && TimerRuns(s) && !s.recording
      && (s.reply.None? ==>
            !s.worker.value.recording && |Requests(s.commands)| == 1 && Requests(s.commands)[0].Begin?)
      && (s.reply.Some? ==>
            Requests(s.commands) == [] && s.reply.value == BeginReply(s.worker.value.recording))
    case AwaitFinish(_) =>
      && s.worker.Some? && TimerRuns(s) && s.recording
      && (s.reply.None? ==> s.worker.value.recording && Requests(s.commands) == [Finish])
      && (s.reply.Some? ==>
            !s.worker.value.recording && Requests(s.commands) == [] && s.reply.value.FinishReply?)
    case JoinTimer(after) =>
      && s.worker.Some? && s.reply.None? && Requests(s.commands) == []
      && (after.Respawn? ==> after.config.spec == RECORDING_SPEC)
      && (!after.Gone? ==> !s.recording && !s.worker.value.recording)
      && (s.timer.Some? ==> StopTimer in s.timer.value.queue)
    case JoinWorker(after) =>
      && s.reply.None? && s.timer.None?
      && (after.Respawn? ==> after.config.spec == RECORDING_SPEC)
      && (!after.Gone? ==> !s.recording)
      && (s.worker.Some? ==> Requests(s.commands) == [Shutdown] && (!after.Gone? ==> !s.worker.value.recording))
      && (s.worker.None? ==> s.commands == [])
    case Dropped => s.worker.None? && s.reply.None? && s.timer.None? && s.commands == []
  }

  ghost predicate Inv(s: System) {
    && s.born <= |s.log| && LogFits(s.log)
    && (s.worker.Some? ==> WorkerFits(s.worker.value, s.born, s.log))
    && (s.worker.None? ==> s.commands == [] && !RecordingAfter(s.log))
    && CommandsFit(s) && TimerFits(s) && ReplyFits(s)
    && s.callback == CallbackAfter(s.log)
    && PhaseFits(s)
  }

  // ---- How each part of the invariant survives one more event ----

  lemma IssuedKept(generation: nat, origin: nat, born: nat, log: seq<Event>, e: Event)
    requires Issued(generation, origin, born, log)
    ensures Issued(generation, origin, born, log + [e])
  {
    assert (log + [e])[born..origin + 1] == log[born..origin + 1];
  }

  lemma BumpsCounted(born: nat, log: seq<Event>, e: Event)
    requires born <= |log|
    ensures Count((log + [e])[born..], Bumps()) == Count(log[born..], Bumps()) + if Bumps()(e) then 1 else 0
  {
    assert (log + [e])[born..] == log[born..] + [e];
    CountAppend(log[born..], e, Bumps());
  }

  /** A worker that answers an event keeps fitting the history. */
  lemma WorkerKept(w: Worker, next: Worker, born: nat, log: seq<Event>, e: Event)
    requires born <= |log| && WorkerFits(w, born, log) && !e.Spawned? && !e.ShutDown?
    requires next.Consistent() && (next.stream.Some? ==> next.stream.value.config.spec == RECORDING_SPEC)
    requires next.recording == if e.Began? then true else if EndsRecording(e) then false else w.recording
    requires next.recording && e.Began? ==> next.stream.value.samples == []
    requires next.recording && !e.Began? ==>
               next.stream.value.samples == w.stream.value.samples + if e.Buffer? then e.samples else []
    requires next.idleGeneration == if Bumps()(e) then NextWord(w.idleGeneration) else w.idleGeneration
    ensures WorkerFits(next, born, log + [e])
  {
    Appended(log, e);
    BumpsCounted(born, log, e);
    NextWordOfCount(Count(log[born..], Bumps()));
  }

  /** Events of the timer and the callback do not concern the worker. */
  lemma WorkerUntouched(w: Worker, born: nat, log: seq<Event>, e: Event)
    requires born <= |log| && WorkerFits(w, born, log)
    requires e.TimerArmed? || e.TimerFired? || e.CallbackSet?
    ensures WorkerFits(w, born, log + [e])
  {
    hide Count, Word, NextWord, HeardAfter, RecordingAfter;
    assert w.recording ==> w.stream.value.samples + [] == w.stream.value.samples;
    WorkerKept(w, w, born, log, e);
  }

  /** Messages already in flight stay justified when the log grows. */
  lemma MessagesKept(s: System, next: System, e: Event)
    requires CommandsFit(s) && TimerFits(s) && ReplyFits(s)
    requires next.log == s.log + [e] && next.born == s.born
    requires forall c | c in next.commands :: c in s.commands
    requires next.timer == s.timer && (s.timer.Some? ==> !e.TimerArmed? && !e.TimerFired? && !e.Spawned?)
    requires next.reply == s.reply || next.reply.None?
    ensures CommandsFit(next) && TimerFits(next) && ReplyFits(next)
  {
    hide LogFits, HeardAfter, RecordingAfter;
    Appended(s.log, e);
    forall c | c in next.commands
      ensures CommandFits(c, next.born, next.log)
    {
      CommandKept(c, s.born, s.log, e);
    }
    if s.timer.Some? {
      QueueKept(s.timer.value.queue, s.born, s.log, e);
      if s.timer.value.pending.Some? {
        IssuedKept(s.timer.value.pending.value.generation, s.timer.value.pending.value.origin, s.born, s.log, e);
      }
    }
    if s.reply.Some? && s.reply.value.FinishReply? && s.reply.value.issued.Some? {
      IssuedKept(s.reply.value.issued.value.generation, s.reply.value.issued.value.origin, s.born, s.log, e);
    }
  }

  lemma CommandKept(c: Command, born: nat, log: seq<Event>, e: Event)
    requires CommandFits(c, born, log)
    ensures CommandFits(c, born, log + [e])
  {
    if c.ExpireIdle? {
      IssuedKept(c.generation, c.origin, born, log, e);
    }
  }

  lemma QueueKept(queue: seq<TimerCommand>, born: nat, log: seq<Event>, e: Event)
    requires forall c | c in queue && c.Schedule? :: Issued(c.generation, c.origin, born, log)
    ensures forall c | c in queue && c.Schedule? :: Issued(c.generation, c.origin, born, log + [e])
  {
    forall c | c in queue && c.Schedule?
      ensures Issued(c.generation, c.origin, born, log + [e])
    {
      IssuedKept(c.generation, c.origin, born, log, e);
    }
  }

  // ---- Recorder steps keep the invariant ----

  lemma RequestBeginKeeps(s: System, config: StreamConfig, spawns: bool)
    requires Inv(s) && !s.recording && config.spec == RECORDING_SPEC
    requires s.phase.Ready? || (s.phase.JoinWorker? && s.worker.None? && s.phase.after.Respawn?)
    ensures Inv(RequestBegin(s, config, spawns))
  {
    hide LogFits, HeardAfter, RecordingAfter, ArmedAfter, CallbackAfter, Fits, Issued;
    RequestsAppend(s.commands, Begin(config));
    RequestsAppend([], Begin(config));
    assert [] + [Begin(config)] == [Begin(config)];
    if s.worker.None? && spawns {
      Appended(s.log, Spawned);
      SpawnedFits(s.log);
    }
  }

  lemma SpawnedFits(log: seq<Event>)
    ensures Fits(log, Spawned) && WorkerFits(IDLE_WORKER, |log| + 1, log + [Spawned])
  {
    Appended(log, Spawned);
    assert (log + [Spawned])[|log| + 1..] == [];
  }

  lemma StartShutdownKeeps(s: System, after: After)
    requires Inv(s) && s.phase.Ready? && s.worker.Some?
    requires after.Respawn? ==> after.config.spec == RECORDING_SPEC
    requires !after.Gone? ==> !s.recording
    ensures Inv(StartShutdown(s, after))
  {
    hide LogFits, HeardAfter, RecordingAfter, ArmedAfter, CallbackAfter, Fits, Issued, WorkerFits;
  }

  lemma FinishCallKeeps(s: System, cancel: bool)
    requires Inv(s) && s.phase.Ready?
    ensures Inv(FinishCall(s, cancel))
  {
    hide LogFits, HeardAfter, RecordingAfter, ArmedAfter, CallbackAfter, Fits, Issued, WorkerFits;
    RequestsAppend(s.commands, Finish);
    if s.worker.Some? && !s.recording {
      StartShutdownKeeps(s, Return);
    }
  }

  lemma SetCallbackKeeps(s: System, installed: bool)
    requires Inv(s) && s.phase.Ready?
    ensures Inv(s.(callback := installed, log := s.log + [CallbackSet(installed)]))
  {
    hide LogFits, HeardAfter, RecordingAfter, ArmedAfter, CallbackAfter, Issued, Count;
    var e := CallbackSet(installed);
    var next := s.(callback := installed, log := s.log + [e]);
    Appended(s.log, e);
    MessagesKept(s, next, e);
    if s.worker.Some? {
      WorkerKept(s.worker.value, s.worker.value, s.born, s.log, e);
    }
  }

  lemma ReplyTakenKeeps(s: System, reuse: bool, delay: nat)
    requires Inv(s) && s.reply.Some? && s.timer.Some?
    ensures Inv(ReplyTaken(s, reuse, delay))
  {
    hide Inv;
    ReplyReceived(s);
    if s.reply.value.FinishReply? {
      var stopped := s.(reply := None, recording := false, phase := Ready);
      if s.phase == AwaitFinish(true) || s.reply.value.issued.None? || !reuse {
        StartShutdownKeeps(stopped, Return);
      } else {
        var issue := s.reply.value.issued.value;
        ExpiryQueuedKeeps(stopped, issue);
        ScheduleQueuedKeeps(stopped, delay, issue);
      }
    }
  }

  /** The call ends with the recorder's flag at what the worker reported. */
  lemma ReplyReceived(s: System)
    requires Inv(s) && s.reply.Some? && s.timer.Some?
    ensures s.reply.value.BeginReply? ==> Inv(s.(reply := None, recording := s.reply.value.started, phase := Ready))
    ensures s.reply.value.FinishReply? ==> Inv(s.(reply := None, recording := false, phase := Ready)) && s.worker.Some?
    ensures s.reply.value.FinishReply? && s.reply.value.issued.Some? ==>
              Issued(s.reply.value.issued.value.generation, s.reply.value.issued.value.origin, s.born, s.log)
  {
    hide LogFits, HeardAfter, RecordingAfter, ArmedAfter, CallbackAfter, Fits, Issued, WorkerFits, Requests;
    if s.reply.value.BeginReply? {
      assert s.phase == AwaitBegin;
    } else {
      assert s.phase.AwaitFinish?;
    }
  }

  lemma ExpiryQueuedKeeps(s: System, issue: Issue)
    requires Inv(s) && s.phase.Ready? && s.worker.Some? && Issued(issue.generation, issue.origin, s.born, s.log)
    ensures Inv(s.(commands := s.commands + [ExpireIdle(issue.generation, issue.origin)]))
  {
    hide LogFits, HeardAfter, RecordingAfter, ArmedAfter, CallbackAfter, Fits, Issued, WorkerFits, TimerFits;
    RequestsAppend(s.commands, ExpireIdle(issue.generation, issue.origin));
    var next := s.(commands := s.commands + [ExpireIdle(issue.generation, issue.origin)]);
    assert TimerFits(next) by {
      SameTimer(s, next);
    }
  }

  lemma ScheduleQueuedKeeps(s: System, delay: nat, issue: Issue)
    requires Inv(s) && s.phase.Ready? && s.timer.Some? && Issued(issue.generation, issue.origin, s.born, s.log)
    ensures
      var queue := s.timer.value.queue + [Schedule(delay, issue.generation, issue.origin)];
      Inv(s.(timer := Some(s.timer.value.(queue := queue))))
  {
    hide LogFits, HeardAfter, RecordingAfter, ArmedAfter, CallbackAfter, Fits, Issued, WorkerFits, Requests;
  }

  lemma SameTimer(s: System, next: System)
    requires TimerFits(s) && next.timer == s.timer && next.born == s.born && next.log == s.log
    ensures TimerFits(next)
  {
  }

  lemma JoinedTimerKeeps(s: System)
    requires Inv(s) && s.phase.JoinTimer? && s.timer.None?
    ensures Inv(s.(commands := s.commands + [Shutdown], phase := JoinWorker(s.phase.after)))
  {
    hide LogFits, HeardAfter, RecordingAfter, ArmedAfter, CallbackAfter, Fits, Issued, WorkerFits;
    RequestsAppend(s.commands, Shutdown);
  }

  lemma WorkerGoneKeeps(s: System)
    requires Inv(s) && s.phase.JoinWorker? && s.worker.None?
    ensures Inv(WorkerGone(s, s.phase.after))
  {
    hide LogFits, HeardAfter, RecordingAfter, ArmedAfter, CallbackAfter, Fits, Issued, WorkerFits;
    if s.phase.after.Respawn? {
      RequestBeginKeeps(s, s.phase.after.config, s.phase.after.spawns);
    }
  }

  // ---- Timer steps keep the invariant ----

  lemma TimerTakesKeeps(s: System)
    requires Inv(s) && s.timer.Some? && s.timer.value.queue != []
    ensures Inv(TimerTakesIn(s))
  {
    hide LogFits, HeardAfter, RecordingAfter, CallbackAfter, Issued, Count, WorkerFits, Requests;
    var c := s.timer.value.queue[0];
    if c.Schedule? {
      var e := TimerArmed(s.now + c.delay, c.generation);
      Appended(s.log, e);
      IssuedKept(c.generation, c.origin, s.born, s.log, e);
      QueueKept(s.timer.value.queue[1..], s.born, s.log, e);
      MessagesKept(s.(timer := None), s.(timer := None, log := s.log + [e]), e) by {
        assert TimerFits(s.(timer := None));
      }
      if s.worker.Some? {
        WorkerUntouched(s.worker.value, s.born, s.log, e);
      }
    }
  }

  lemma TimerFiresKeeps(s: System)
    requires Inv(s) && s.timer.Some? && s.timer.value.pending.Some? && s.timer.value.pending.value.deadline <= s.now
    ensures Inv(TimerFires(s))
  {
    hide LogFits, HeardAfter, RecordingAfter, CallbackAfter, Issued, Count, WorkerFits, Requests;
    var pending := s.timer.value.pending.value;
    var e := TimerFired(pending.generation, s.now);
    var c := ExpireIdle(pending.generation, pending.origin);
    Appended(s.log, e);
    IssuedKept(pending.generation, pending.origin, s.born, s.log, e);
    QueueKept(s.timer.value.queue, s.born, s.log, e);
    MessagesKept(s.(timer := None), s.(timer := None, log := s.log + [e]), e) by {
      assert TimerFits(s.(timer := None));
    }
    RequestsAppend(s.commands, c);
    if s.worker.Some? {
      WorkerUntouched(s.worker.value, s.born, s.log, e);
    }
  }

  // ---- Worker steps keep the invariant ----

  /** The worker takes the first command and logs one event; what is left to show is the reply. */
  lemma CommandTaken(s: System, next: System, e: Event)
    requires Inv(s) && s.worker.Some? && s.commands != [] && next.worker.Some?
    requires next == s.(commands := s.commands[1..], worker := next.worker, reply := next.reply, log := s.log + [e])
    requires Fits(s.log, e) && !e.TimerArmed? && !e.TimerFired? && !e.Spawned? && !e.CallbackSet?
    requires WorkerFits(next.worker.value, s.born, next.log)
    requires next.reply != s.reply ==> ReplyFits(next)
    requires PhaseFits(next)
    ensures Inv(next)
  {
    hide LogFits, HeardAfter, RecordingAfter, ArmedAfter, CallbackAfter, Fits, Issued, WorkerFits, PhaseFits;
    Appended(s.log, e);
    MessagesKept(s, next.(reply := s.reply), e);
  }

  lemma BeginTakenKeeps(s: System, out: Outcomes)
    requires Inv(s) && s.worker.Some? && s.commands != [] && s.commands[0].Begin?
    ensures Inv(WorkerTakesIn(s, out))
  {
    hide LogFits, HeardAfter, RecordingAfter, ArmedAfter, CallbackAfter, Issued, Count, Word, NextWord;
    var next := WorkerTakesIn(s, out);
    var e := next.log[|s.log|];
    assert next.log == s.log + [e];
    assert CommandFits(s.commands[0], s.born, s.log);
    assert Requests(s.commands)[0] == s.commands[0];
    assert Requests(s.commands)[1..] == Requests(s.commands[1..]);
    assert s.phase.AwaitBegin? && s.reply.None?;
    WorkerKept(s.worker.value, next.worker.value, s.born, s.log, e);
    CommandTaken(s, next, e);
  }

  lemma FinishTakenKeeps(s: System, out: Outcomes)
    requires Inv(s) && s.worker.Some? && s.commands != [] && s.commands[0].Finish?
    ensures Inv(WorkerTakesIn(s, out))
  {
    hide LogFits, HeardAfter, RecordingAfter, ArmedAfter, CallbackAfter, Issued, Count, Word, NextWord;
    var w := s.worker.value;
    var next := WorkerTakesIn(s, out);
    var e := next.log[|s.log|];
    assert next.log == s.log + [e];
    assert Requests(s.commands)[0] == s.commands[0];
    assert Requests(s.commands)[1..] == Requests(s.commands[1..]);
    assert s.phase.AwaitFinish? && s.reply.None?;
    if out.deactivate {
      FinishOfRecordingLayout(w, out);
    }
    WorkerKept(w, next.worker.value, s.born, s.log, e);
    if out.deactivate {
      NewlyIssued(w, s.born, s.log, e);
    }
    CommandTaken(s, next, e);
  }

  lemma NewlyIssued(w: Worker, born: nat, log: seq<Event>, e: Event)
    requires born <= |log| && WorkerFits(w, born, log) && e.FinishOk? && e.generation == NextWord(w.idleGeneration)
    ensures Issued(e.generation, |log|, born, log + [e])
  {
    BumpsCounted(born, log, e);
    NextWordOfCount(Count(log[born..], Bumps()));
    assert (log + [e])[born..|log| + 1] == (log + [e])[born..];
  }

  lemma ExpiryIsJustified(w: Worker, generation: nat, origin: nat, born: nat, log: seq<Event>)
    requires born <= |log| && WorkerFits(w, born, log) && Issued(generation, origin, born, log)
    requires ShouldExpire(w, generation)
    ensures ExpiryFits(log, generation, origin)
  {
    hide Count, Word, HeardAfter, RecordingAfter;
    GenerationsAgree(w, generation, origin, born, log);
  }

  lemma ExpiryTakenKeeps(s: System, out: Outcomes)
    requires Inv(s) && s.worker.Some? && s.commands != [] && s.commands[0].ExpireIdle?
    ensures Inv(WorkerTakesIn(s, out))
  {
    hide LogFits, HeardAfter, RecordingAfter, ArmedAfter, CallbackAfter, Issued, Count, Word, NextWord, ExpiryFits;
    var w := s.worker.value;
    var c := s.commands[0];
    var next := WorkerTakesIn(s, out);
    var e := next.log[|s.log|];
    assert next.log == s.log + [e];
    assert CommandFits(c, s.born, s.log);
    assert Requests(s.commands) == [] + Requests(s.commands[1..]);
    if ShouldExpire(w, c.generation) {
      ExpiryIsJustified(w, c.generation, c.origin, s.born, s.log);
    }
    WorkerKept(w, next.worker.value, s.born, s.log, e);
    CommandTaken(s, next, e);
  }

  lemma ShutdownTakenKeeps(s: System, out: Outcomes)
    requires Inv(s) && s.worker.Some? && s.commands != [] && s.commands[0].Shutdown?
    ensures Inv(WorkerTakesIn(s, out))
  {
    hide LogFits, HeardAfter, RecordingAfter, ArmedAfter, CallbackAfter, Issued, Count, Word, NextWord, WorkerFits;
    assert Requests(s.commands)[0] == s.commands[0];
    assert s.phase.JoinWorker?;
    Appended(s.log, ShutDown);
  }

  lemma WorkerTakesKeeps(s: System, out: Outcomes)
    requires Inv(s) && s.worker.Some? && s.commands != []
    ensures Inv(WorkerTakesIn(s, out))
  {
    hide Inv, WorkerTakesIn;
    match s.commands[0]
    case Begin(_) => BeginTakenKeeps(s, out);
    case Finish => FinishTakenKeeps(s, out);
    case ExpireIdle(_, _) => ExpiryTakenKeeps(s, out);
    case Shutdown => ShutdownTakenKeeps(s, out);
  }

  lemma WorkerBufferKeeps(s: System, raw: RawBuffer)
    requires Inv(s) && s.worker.Some?
    ensures Inv(WorkerBufferIn(s, raw))
  {
    hide LogFits, HeardAfter, RecordingAfter, ArmedAfter, CallbackAfter, Issued, Count, Word, NextWord, ChunkSamples;
    var w := s.worker.value;
    if w.stream.Some? && ChunkSamples(raw) != [] {
      var next := WorkerBufferIn(s, raw);
      var e := next.log[|s.log|];
      Appended(s.log, e);
      WorkerKept(w, next.worker.value, s.born, s.log, e);
      MessagesKept(s, next, e);
    }
  }

  // ---- Every step, every run ----

  lemma {:induction false} StepKeeps(s: System, step: Step)
    requires Inv(s)
    ensures Inv(Apply(s, step))
  {
    hide LogFits, HeardAfter, RecordingAfter, ArmedAfter, CallbackAfter, Issued, Count, Word, NextWord, ChunkSamples;
    hide Fits, WorkerFits, WorkerTakesIn, WorkerBufferIn, TimerTakesIn, TimerFires, ReplyTaken, WorkerGone;
    match step
    case CallBegin(target, reuse, spawns) =>
      if s.phase.Ready? && !s.recording {
        if !reuse && s.worker.Some? {
          StartShutdownKeeps(s, Respawn(ConfigFor(target), spawns));
        } else {
          RequestBeginKeeps(s, ConfigFor(target), spawns);
        }
      }
    case CallStop =>
      if s.phase.Ready? {
        FinishCallKeeps(s, false);
      }
    case CallCancel =>
      if s.phase.Ready? {
        FinishCallKeeps(s, true);
      }
    case CallDrop =>
      if s.phase.Ready? && s.worker.Some? {
        StartShutdownKeeps(s, Gone);
      }
    case SetCallback(installed) =>
      if s.phase.Ready? {
        SetCallbackKeeps(s, installed);
      }
    case TakeReply(reuse, delay) =>
      if s.reply.Some? && s.timer.Some? {
        ReplyTakenKeeps(s, reuse, delay);
      }
    case TimerTakes =>
      if s.timer.Some? && s.timer.value.queue != [] {
        TimerTakesKeeps(s);
      }
    case TimerTimesOut =>
      if s.timer.Some? && s.timer.value.pending.Some? && s.timer.value.pending.value.deadline <= s.now {
        TimerFiresKeeps(s);
      }
    case JoinedTimer =>
      if s.phase.JoinTimer? && s.timer.None? {
        JoinedTimerKeeps(s);
      }
    case WorkerTakes(out) =>
      if s.worker.Some? && s.commands != [] {
        WorkerTakesKeeps(s, out);
      }
    case WorkerBuffer(raw) =>
      if s.worker.Some? {
        WorkerBufferKeeps(s, raw);
      }
    case JoinedWorker =>
      if s.phase.JoinWorker? && s.worker.None? {
        WorkerGoneKeeps(s);
      }
    case Tick(_) =>
  }

  lemma {:induction false} RunKeeps(steps: seq<Step>)
    ensures Inv(Run(steps))
  {
    hide Apply;
    if steps == [] {
      assert START.log == [];
    } else {
      RunKeeps(steps[..|steps| - 1]);
      StepKeeps(Run(steps[..|steps| - 1]), steps[|steps| - 1]);
    }
  }

  // ---- What holds in every run ----

  /** Whenever a worker is alive it records exactly while it holds an accepting stream; and between
      calls the recorder's own flag says the same. */
  lemma {:induction false} FlagsAgree(steps: seq<Step>)
    requires Run(steps).worker.Some?
    ensures Run(steps).worker.value.Consistent()
    ensures Run(steps).phase.Ready? ==> Run(steps).recording == Run(steps).worker.value.recording
  {
    RunKeeps(steps);
  }

  /** In no interleaving does the worker reject a request of the recorder. */
  lemma {:induction false} NothingIsRejected(steps: seq<Step>, i: nat)
    requires i < |Run(steps).log|
    ensures !Run(steps).log[i].BeginRejected? && !Run(steps).log[i].FinishRejected?
  {
    RunKeeps(steps);
    LogFitsAt(Run(steps).log, i);
  }

  /** An expiry that removes the stream finds the worker idle and answers a Finish of the same
      worker; since that Finish nothing was shut down, and the number of accepted begins and
      successful finishes is a multiple of 2^64: none at all, if there were fewer. */
  lemma {:induction false} StaleExpiryIsHarmless(steps: seq<Step>, i: nat)
    requires i < |Run(steps).log| && Run(steps).log[i].Expired?
    ensures
      var log := Run(steps).log;
      var origin := log[i].origin;
      && !RecordingAfter(log[..i])
      && origin < i && log[origin].FinishOk? && log[origin].generation == log[i].generation
      && (forall k | origin < k < i :: !log[k].ShutDown? && !log[k].Spawned?)
      && Word(Count(log[origin + 1..i], Bumps())) == 0
      && (Count(log[origin + 1..i], Bumps()) < WORD ==>
            forall k | origin < k < i :: !log[k].Began? && !log[k].BeginFailed? && !log[k].FinishOk?)
  {
    hide Run, LogFits;
    RunKeeps(steps);
    ExpiredInLog(Run(steps).log, i);
  }

  lemma {:induction false} ExpiredInLog(log: seq<Event>, i: nat)
    requires LogFits(log) && i < |log| && log[i].Expired?
    ensures
      var origin := log[i].origin;
      && !RecordingAfter(log[..i])
      && origin < i && log[origin].FinishOk? && log[origin].generation == log[i].generation
      && (forall k | origin < k < i :: !log[k].ShutDown? && !log[k].Spawned?)
      && Word(Count(log[origin + 1..i], Bumps())) == 0
      && (Count(log[origin + 1..i], Bumps()) < WORD ==>
            forall k | origin < k < i :: !log[k].Began? && !log[k].BeginFailed? && !log[k].FinishOk?)
  {
    hide Count, Word, LogFits, RecordingAfter;
    var origin := log[i].origin;
    LogFitsAt(log, i);
    var before, between := log[..i], log[origin + 1..i];
    assert before[origin + 1..] == between;
    forall k | origin < k < i
      ensures !log[k].ShutDown? && !log[k].Spawned?
    {
      assert before[k] == log[k];
    }
    NoBumps(between);
    forall k | origin < k < i && Count(between, Bumps()) < WORD
      ensures !log[k].Began? && !log[k].BeginFailed? && !log[k].FinishOk?
    {
      assert log[k] == between[k - origin - 1];
    }
  }

  /** And it does remove it: an expiry the worker takes removes the stream if and only if the worker
      is idle and its generation has moved a multiple of 2^64 times since the Finish. */
  lemma {:induction false} ExpiryRemovesExactlyWhenUndisturbed(steps: seq<Step>, out: Outcomes)
    requires Run(steps).worker.Some? && Run(steps).commands != [] && Run(steps).commands[0].ExpireIdle?
    ensures
      var s := Run(steps);
      var c := s.commands[0];
      var next := Apply(s, WorkerTakes(out));
      && c.origin < |s.log| && s.log[c.origin].FinishOk?
      && (next.log == s.log + [Expired(c.generation, c.origin)] <==>
            !RecordingAfter(s.log) && Word(Count(s.log[c.origin + 1..], Bumps())) == 0)
      && (next.log == s.log + [Expired(c.generation, c.origin)] ==> next.worker.value.stream.None?)
      && (next.log != s.log + [Expired(c.generation, c.origin)] ==> next.worker == s.worker)
  {
    hide Run, Inv;
    RunKeeps(steps);
    ExpiryTaken(Run(steps), out);
  }

  lemma {:induction false} ExpiryTaken(s: System, out: Outcomes)
    requires Inv(s) && s.worker.Some? && s.commands != [] && s.commands[0].ExpireIdle?
    ensures
      var c := s.commands[0];
      var next := Apply(s, WorkerTakes(out));
      && c.origin < |s.log| && s.log[c.origin].FinishOk?
      && (next.log == s.log + [Expired(c.generation, c.origin)] <==>
            !RecordingAfter(s.log) && Word(Count(s.log[c.origin + 1..], Bumps())) == 0)
      && (next.log == s.log + [Expired(c.generation, c.origin)] ==> next.worker.value.stream.None?)
      && (next.log != s.log + [Expired(c.generation, c.origin)] ==> next.worker == s.worker)
  {
    hide LogFits, RecordingAfter, HeardAfter, ArmedAfter, Count, Word, NextWord;
    var c := s.commands[0];
    assert CommandFits(c, s.born, s.log);
    GenerationsAgree(s.worker.value, c.generation, c.origin, s.born, s.log);
    var next := Apply(s, WorkerTakes(out));
    assert next.log[|s.log|] ==
           if ShouldExpire(s.worker.value, c.generation) then Expired(c.generation, c.origin)
           else ExpiryIgnored(c.generation);
  }

  lemma GenerationsAgree(w: Worker, generation: nat, origin: nat, born: nat, log: seq<Event>)
    requires born <= |log| && WorkerFits(w, born, log) && Issued(generation, origin, born, log)
    ensures w.idleGeneration == generation <==> Word(Count(log[origin + 1..], Bumps())) == 0
  {
    hide Count, Word, HeardAfter, RecordingAfter;
    var life := log[born..];
    var mid := origin + 1 - born;
    assert life[..mid] == log[born..origin + 1] && life[mid..] == log[origin + 1..];
    SameWord(life, mid, Bumps());
  }

  lemma NoBumps(between: seq<Event>)
    requires Word(Count(between, Bumps())) == 0
    ensures Count(between, Bumps()) < WORD ==> forall k | 0 <= k < |between| :: !Bumps()(between[k])
  {
    hide Count, Word;
    if Count(between, Bumps()) < WORD {
      SmallWord(Count(between, Bumps()));
    }
    CountZero(between, Bumps());
  }

  /** The samples of the buffers among some events, in order. */
  function BufferSamples(events: seq<Event>): seq<i16> {
    if events == [] then []
    else
      BufferSamples(events[..|events| - 1])
      + if events[|events| - 1].Buffer? then events[|events| - 1].samples else []
  }

  /** The samples of the chunks the callback received among some events, in order. */
  function DeliveredSamples(events: seq<Event>): seq<i16> {
    if events == [] then []
    else
      var last := events[|events| - 1];
      DeliveredSamples(events[..|events| - 1]) + if last.Buffer? && last.delivered then last.samples else []
  }

  /** The begin a recording in progress goes back to. */
  lemma {:induction false} MatchingBegin(log: seq<Event>) returns (j: nat)
    requires RecordingAfter(log)
    ensures j < |log| && log[j].Began?
    ensures forall k | j < k < |log| :: !log[k].Began? && !EndsRecording(log[k])
    ensures HeardAfter(log) == BufferSamples(log[j + 1..])
  {
    var last := |log| - 1;
    if log[last].Began? {
      j := last;
    } else {
      j := MatchingBegin(log[..last]);
      assert log[j + 1..][..|log[j + 1..]| - 1] == log[..last][j + 1..];
      forall k | j < k < |log|
        ensures !log[k].Began? && !EndsRecording(log[k])
      {
        assert k < last ==> log[k] == log[..last][k];
      }
    }
  }

  /** Every successful Finish returns exactly the samples of all buffers processed since the begin it
      matches, in order, whatever was reused, replaced or retried before. */
  lemma {:induction false} FinishReturnsEverythingHeard(steps: seq<Step>, i: nat) returns (j: nat)
    requires i < |Run(steps).log| && Run(steps).log[i].FinishOk?
    ensures
      var log := Run(steps).log;
      && j < i && log[j].Began?
      && (forall k | j < k < i :: !log[k].Began? && !EndsRecording(log[k]))
      && log[i].samples == BufferSamples(log[j + 1..i])
  {
    RunKeeps(steps);
    var log := Run(steps).log;
    LogFitsAt(log, i);
    j := MatchingBegin(log[..i]);
    assert log[..i][j + 1..] == log[j + 1..i];
    forall k | j < k < i
      ensures !log[k].Began? && !EndsRecording(log[k])
    {
      assert log[..i][k] == log[k];
    }
  }

  /** A callback that is installed at the begin and not touched until the finish receives chunks
      whose samples are, in order, the samples the finish returns. */
  lemma {:induction false} CallbackHearsTheSame(steps: seq<Step>, i: nat, j: nat)
    requires j < i < |Run(steps).log|
    requires
      var log := Run(steps).log;
      && log[j].Began? && log[i].FinishOk? && CallbackAfter(log[..j])
      && (forall k | j < k < i :: !EndsRecording(log[k]) && !log[k].CallbackSet?)
    ensures DeliveredSamples(Run(steps).log[j + 1..i]) == BufferSamples(Run(steps).log[j + 1..i])
  {
    RunKeeps(steps);
    AllDelivered(Run(steps).log, j, i);
  }

  lemma {:induction false} AllDelivered(log: seq<Event>, j: nat, i: nat)
    requires j < i <= |log| && LogFits(log) && log[j].Began? && CallbackAfter(log[..j])
    requires forall k | j < k < i :: !EndsRecording(log[k]) && !log[k].CallbackSet?
    ensures RecordingAfter(log[..i]) && CallbackAfter(log[..i])
    ensures DeliveredSamples(log[j + 1..i]) == BufferSamples(log[j + 1..i])
    decreases i
  {
    hide LogFits, Fits;
    var last := log[i - 1];
    assert log[..i] == log[..i - 1] + [last];
    Appended(log[..i - 1], last);
    if i > j + 1 {
      AllDelivered(log, j, i - 1);
      assert log[j + 1..i][..|log[j + 1..i]| - 1] == log[j + 1..i - 1];
      if last.Buffer? {
        BufferFits(log, i - 1);
      }
    }
  }

  lemma BufferFits(log: seq<Event>, i: nat)
    requires LogFits(log) && i < |log| && log[i].Buffer? && RecordingAfter(log[..i]) && CallbackAfter(log[..i])
    ensures log[i].delivered
  {
    LogFitsAt(log, i);
  }

  /** A timer's expiry is always that of the schedule it took last, at or after its deadline; a
      schedule that was replaced before, or has fired, never fires. */
  lemma {:induction false} TimerFiresLatestSchedule(steps: seq<Step>, i: nat) returns (j: nat)
    requires i < |Run(steps).log| && Run(steps).log[i].TimerFired?
    ensures
      var log := Run(steps).log;
      && j < i && log[j].TimerArmed? && log[j].generation == log[i].generation && log[j].deadline <= log[i].at
      && (forall k | j < k < i :: !log[k].TimerArmed? && !log[k].TimerFired? && !log[k].Spawned?)
  {
    RunKeeps(steps);
    var log := Run(steps).log;
    LogFitsAt(log, i);
    j := LastArmed(log[..i]);
    forall k | j < k < i
      ensures !log[k].TimerArmed? && !log[k].TimerFired? && !log[k].Spawned?
    {
      assert log[..i][k] == log[k];
    }
  }

  lemma {:induction false} LastArmed(log: seq<Event>) returns (j: nat)
    requires ArmedAfter(log).Some?
    ensures j < |log| && log[j].TimerArmed? && ArmedAfter(log) == Some((log[j].deadline, log[j].generation))
    ensures forall k | j < k < |log| :: !log[k].TimerArmed? && !log[k].TimerFired? && !log[k].Spawned?
  {
    var last := |log| - 1;
    if log[last].TimerArmed? {
      j := last;
    } else {
      j := LastArmed(log[..last]);
      forall k | j < k < |log|
        ensures !log[k].TimerArmed? && !log[k].TimerFired? && !log[k].Spawned?
      {
        assert k < last ==> log[k] == log[..last][k];
      }
    }
  }
}
