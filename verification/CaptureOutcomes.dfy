/** What the recorder's calls come to when they return, in any interleaving. */
module CaptureOutcomes {
  import opened Results
  import opened Pcm
  import opened EventLog
  import opened CaptureWorker
  import opened IdleTimer
  import opened CaptureProtocol
  import opened CaptureProgress

  // ---- What a call is to achieve ----

  /** A call under way that was made when the log had `from` entries. A willing server agrees to what
      the call asks of it; `reuse` is the recorder's setting. */
  datatype Goal =
    | ToBegin(from: nat, willing: bool, target: Target)
    | ToFinish(from: nat, willing: bool, cancel: bool, reuse: bool)
    | ToClose(after: After)

  /** The steps that fit what is known of the server and the settings. */
  predicate Allowed(g: Goal, step: Step) {
    match step
    case WorkerTakes(out) =>
      (g.ToBegin? && g.willing ==> out.create && out.activate) && (g.ToFinish? && g.willing ==> out.deactivate)
    case TakeReply(reuse, _) => g.ToFinish? ==> reuse == g.reuse
    case _ => true
  }

  ghost predicate NewBegan(log: seq<Event>, from: nat) {
    exists k :: from <= k < |log| && log[k].Began?
  }

  // ---- Expiries under way ----

  function Expiries(commands: seq<Command>, origin: nat): nat {
    if commands == [] then 0
    else (if commands[0].ExpireIdle? && commands[0].origin == origin then 1 else 0) + Expiries(commands[1..], origin)
  }

  function Schedules(queue: seq<TimerCommand>, origin: nat): nat {
    if queue == [] then 0
    else (if queue[0].Schedule? && queue[0].origin == origin then 1 else 0) + Schedules(queue[1..], origin)
  }

  /** How many expiries of the finish at `origin` are queued for the worker, queued for the timer, or
      pending in it. */
  function UnderWay(s: System, origin: nat): nat {
    Expiries(s.commands, origin) +
    match s.timer
    case None => 0
    case Some(timer) =>
      Schedules(timer.queue, origin)
      + if timer.pending.Some? && timer.pending.value.origin == origin then 1 else 0
  }

  lemma {:induction false} ExpiriesAppend(commands: seq<Command>, c: Command, origin: nat)
    ensures Expiries(commands + [c], origin)
            == Expiries(commands, origin) + if c.ExpireIdle? && c.origin == origin then 1 else 0
  {
    if commands == [] {
      assert (commands + [c])[1..] == [];
    } else {
      assert (commands + [c])[1..] == commands[1..] + [c];
      ExpiriesAppend(commands[1..], c, origin);
    }
  }

  lemma {:induction false} SchedulesAppend(queue: seq<TimerCommand>, c: TimerCommand, origin: nat)
    ensures Schedules(queue + [c], origin)
            == Schedules(queue, origin) + if c.Schedule? && c.origin == origin then 1 else 0
  {
    if queue == [] {
      assert (queue + [c])[1..] == [];
    } else {
      assert (queue + [c])[1..] == queue[1..] + [c];
      SchedulesAppend(queue[1..], c, origin);
    }
  }

  lemma {:induction false} NoExpiries(commands: seq<Command>, origin: nat)
    requires forall c | c in commands && c.ExpireIdle? :: c.origin < origin
    ensures Expiries(commands, origin) == 0
  {
    if commands != [] {
      NoExpiries(commands[1..], origin);
    }
  }

  lemma {:induction false} NoSchedules(queue: seq<TimerCommand>, origin: nat)
    requires forall c | c in queue && c.Schedule? :: c.origin < origin
    ensures Schedules(queue, origin) == 0
  {
    if queue != [] {
      NoSchedules(queue[1..], origin);
    }
  }

  /** Everything under way was issued before now. */
  lemma NoneIssuedYet(s: System)
    requires Inv(s)
    ensures UnderWay(s, |s.log|) == 0
  {
    hide LogFits, RecordingAfter, CallbackAfter, WorkerFits, Requests, Count, Word, PhaseFits, ArmedAfter;
    forall c | c in s.commands && c.ExpireIdle?
      ensures c.origin < |s.log|
    {
      assert CommandFits(c, s.born, s.log);
    }
    NoExpiries(s.commands, |s.log|);
    if s.timer.Some? {
      NoSchedules(s.timer.value.queue, |s.log|);
    }
  }

  // ---- How far the call has come ----

  ghost predicate BeginsAs(s: System, from: nat, willing: bool, target: Target) {
    from <= |s.log| &&
    match s.phase
    case Ready =>
      (s.recording <==> NewBegan(s.log, from)) && (willing ==> s.recording) && Records(s, s.recording, target)
    case AwaitBegin =>
      if s.reply.None? then !NewBegan(s.log, from) && Begin(ConfigFor(target)) in s.commands
      else s.reply.value.BeginReply? && (s.reply.value.started <==> NewBegan(s.log, from))
           && (willing ==> s.reply.value.started) && Records(s, s.reply.value.started, target)
    case JoinTimer(after) => RespawnsAs(s, after, from, willing, target)
    case JoinWorker(after) => RespawnsAs(s, after, from, willing, target)
    case _ => false
  }

  ghost predicate RespawnsAs(s: System, after: After, from: nat, willing: bool, target: Target) {
    !NewBegan(s.log, from) && after.Respawn? && (willing ==> after.spawns) && after.config == ConfigFor(target)
  }

  /** If the worker records, it does so from the target asked for. */
  predicate Records(s: System, records: bool, target: Target) {
    records ==>
      && s.worker.Some? && s.worker.value.recording && s.worker.value.stream.Some?
      && s.worker.value.stream.value.config == ConfigFor(target)
  }

  /** The finish that ended the recording, and what became of the worker. */
  predicate FinishedAt(s: System, k: nat, g: Goal)
    requires g.ToFinish?
  {
    && g.from <= k < |s.log|
    && (g.willing ==> s.log[k].FinishOk?)
    && if s.log[k].FinishOk? then
         if g.cancel || !g.reuse then s.phase.Ready? ==> s.worker.None? else UnderWay(s, k) == 1
       else s.log[k].FinishFailed? && (g.cancel && s.phase.Ready? ==> s.worker.None?)
  }

  ghost predicate FinishLogged(s: System, g: Goal)
    requires g.ToFinish?
  {
    exists k: nat :: FinishedAt(s, k, g)
  }

  ghost predicate FinishesAs(s: System, g: Goal)
    requires g.ToFinish?
  {
    g.from <= |s.log| &&
    match s.phase
    case Ready => !s.recording && FinishLogged(s, g)
    case AwaitFinish(cancel) => cancel == g.cancel && (s.reply.Some? ==> s.reply.value.FinishReply? && RepliesAs(s, g))
    case JoinTimer(after) =>
      after == Return && !s.recording && (g.cancel || !g.reuse) && FinishLogged(s, g)
    case JoinWorker(after) =>
      after == Return && !s.recording && (g.cancel || !g.reuse) && FinishLogged(s, g)
    case _ => false
  }

  ghost predicate RepliesAs(s: System, g: Goal)
    requires g.ToFinish? && s.reply.Some? && s.reply.value.FinishReply?
  {
    match s.reply.value.issued
    case None => !g.willing && exists k: nat :: g.from <= k < |s.log| && s.log[k].FinishFailed?
    case Some(issue) =>
      g.from <= issue.origin < |s.log| && s.log[issue.origin].FinishOk? && UnderWay(s, issue.origin) == 0
  }

  ghost predicate ClosesAs(s: System, after: After) {
    match s.phase
    case Ready => after == Return && !s.recording && s.worker.None?
    case Dropped => after == Gone && s.worker.None?
    case JoinTimer(a) => a == after && (after == Return ==> !s.recording)
    case JoinWorker(a) => a == after && (after == Return ==> !s.recording)
    case _ => false
  }

  ghost predicate Holds(g: Goal, s: System) {
    match g
    case ToBegin(from, willing, target) => BeginsAs(s, from, willing, target)
    case ToFinish(_, _, _, _) => FinishesAs(s, g)
    case ToClose(after) => (after == Return || after == Gone) && ClosesAs(s, after)
  }

  // ---- Every step keeps to it ----

  lemma BeganAppend(log: seq<Event>, e: Event, from: nat)
    requires from <= |log|
    ensures NewBegan(log + [e], from) <==> NewBegan(log, from) || e.Began?
  {
    var more := log + [e];
    if NewBegan(log, from) {
      var k :| from <= k < |log| && log[k].Began?;
      assert more[k].Began?;
    }
    if e.Began? {
      assert more[|log|].Began?;
    }
    if NewBegan(more, from) {
      var k :| from <= k < |more| && more[k].Began?;
      assert k < |log| ==> log[k].Began?;
    }
  }

  /** What a worker's command, a buffer and the timer leave to a begin under way. */
  lemma TimerLeavesBegin(s: System, from: nat, willing: bool, target: Target)
    requires s.timer.Some? && BeginsAs(s, from, willing, target)
    ensures s.timer.value.queue != [] ==> BeginsAs(TimerTakesIn(s), from, willing, target)
    ensures s.timer.value.pending.Some? ==> BeginsAs(TimerFires(s), from, willing, target)
  {
    hide NewBegan;
    if s.timer.value.queue != [] && s.timer.value.queue[0].Schedule? {
      var c := s.timer.value.queue[0];
      BeganAppend(s.log, TimerArmed(s.now + c.delay, c.generation), from);
    }
    if s.timer.value.pending.Some? {
      BeganAppend(s.log, TimerFired(s.timer.value.pending.value.generation, s.now), from);
    }
  }

  lemma BufferLeavesBegin(s: System, from: nat, willing: bool, target: Target, raw: RawBuffer)
    requires s.worker.Some? && BeginsAs(s, from, willing, target)
    ensures BeginsAs(WorkerBufferIn(s, raw), from, willing, target)
  {
    hide NewBegan, ChunkSamples;
    var next := WorkerBufferIn(s, raw);
    if next != s && |next.log| > |s.log| {
      BeganAppend(s.log, next.log[|s.log|], from);
      assert next.log == s.log + [next.log[|s.log|]];
    }
  }

  lemma WorkerKeepsBegin(s: System, from: nat, willing: bool, target: Target, out: Outcomes)
    requires Inv(s) && !Returned(s) && s.worker.Some? && s.commands != [] && BeginsAs(s, from, willing, target)
    requires willing ==> out.create && out.activate
    ensures BeginsAs(WorkerTakesIn(s, out), from, willing, target)
  {
    hide LogFits, RecordingAfter, CallbackAfter, CommandsFit, TimerFits, ReplyFits, NewBegan, FinishStep, BeginStep,
         WorkerFits;
    var next := WorkerTakesIn(s, out);
    BeganAppend(s.log, next.log[|s.log|], from);
    assert next.log == s.log + [next.log[|s.log|]];
    assert Requests(s.commands) == (if s.commands[0].ExpireIdle? then [] else [s.commands[0]])
                                   + Requests(s.commands[1..]);
    if s.commands[0].Begin? {
      BeginSucceedsIff(s.worker.value, s.commands[0].config, out);
      assert Requests(s.commands)[0] == s.commands[0];
      assert s.phase.AwaitBegin? && s.reply.None?;
      RequestIsThere(s.commands, Begin(ConfigFor(target)));
      assert s.commands[0].config == ConfigFor(target);
      var begun := BeginStep(s.worker.value, s.commands[0].config, out).1;
      assert next.reply == Some(BeginReply(begun.Started?));
      assert next.log[|s.log|].Began? <==> begun.Started?;
      assert willing ==> begun.Started?;
    } else if !s.commands[0].ExpireIdle? {
      assert Requests(s.commands)[0] == s.commands[0];
      assert s.phase.JoinWorker?;
    }
  }

  lemma {:induction false} RequestIsThere(commands: seq<Command>, c: Command)
    requires c in commands && !c.ExpireIdle?
    ensures c in Requests(commands)
  {
    if commands[0] != c {
      RequestIsThere(commands[1..], c);
    }
  }

  lemma RespawnBegins(s: System, from: nat, willing: bool, target: Target)
    requires Inv(s) && s.phase.JoinWorker? && s.worker.None? && BeginsAs(s, from, willing, target)
    ensures BeginsAs(WorkerGone(s, s.phase.after), from, willing, target)
  {
    hide LogFits, RecordingAfter, CallbackAfter, CommandsFit, TimerFits, ReplyFits, NewBegan, Requests;
    BeganAppend(s.log, Spawned, from);
  }

  lemma BeginKept(s: System, from: nat, willing: bool, target: Target, step: Step)
    requires Inv(s) && !Returned(s) && BeginsAs(s, from, willing, target)
    requires Allowed(ToBegin(from, willing, target), step)
    ensures BeginsAs(Apply(s, step), from, willing, target)
  {
    hide Inv, TimerTakesIn, TimerFires, WorkerTakesIn, WorkerBufferIn, WorkerGone, BeginCall, FinishCall, DropCall,
         NewBegan;
    match step
    case TimerTakes =>
      if CaptureProgress.Possible(s, step) {
        TimerLeavesBegin(s, from, willing, target);
      }
    case TimerTimesOut =>
      if CaptureProgress.Possible(s, step) {
        TimerLeavesBegin(s, from, willing, target);
      }
    case WorkerTakes(out) =>
      if CaptureProgress.Possible(s, step) {
        WorkerKeepsBegin(s, from, willing, target, out);
      }
    case WorkerBuffer(raw) =>
      if s.worker.Some? {
        BufferLeavesBegin(s, from, willing, target, raw);
      }
    case JoinedWorker =>
      if CaptureProgress.Possible(s, step) {
        RespawnBegins(s, from, willing, target);
      }
    case TakeReply(_, _) =>
      if s.reply.Some? {
        RepliesInPhase(s);
      }
    case _ =>
  }

  lemma RepliesInPhase(s: System)
    requires Inv(s) && s.reply.Some?
    ensures s.phase.AwaitBegin? || s.phase.AwaitFinish?
  {
    hide LogFits, RecordingAfter, CallbackAfter, CommandsFit, TimerFits, ReplyFits, Requests, WorkerFits;
  }

  // ---- A finish under way ----

  lemma FinishLoggedLater(s: System, next: System, g: Goal)
    requires g.ToFinish? && FinishLogged(s, g) && s.log <= next.log
    requires !s.phase.Ready? && (next.phase.Ready? ==> next.worker.None?) && (g.cancel || !g.reuse)
    ensures FinishLogged(next, g)
  {
    hide UnderWay;
    var k: nat :| FinishedAt(s, k, g);
    assert s.log[k] == next.log[k];
    assert FinishedAt(next, k, g);
  }

  /** What a step of the timer, a buffer or another command leaves to a reply that is not taken yet. */
  lemma RepliesLater(s: System, next: System, g: Goal)
    requires g.ToFinish? && s.reply.Some? && s.reply.value.FinishReply? && RepliesAs(s, g)
    requires next.reply == s.reply && s.log <= next.log
    requires forall origin :: UnderWay(s, origin) == 0 ==> UnderWay(next, origin) == 0
    ensures RepliesAs(next, g)
  {
    hide UnderWay;
    if s.reply.value.issued.None? {
      var k: nat :| g.from <= k < |s.log| && s.log[k].FinishFailed?;
      assert next.log[k].FinishFailed?;
    }
  }

  /** The timer passes expiries on; a replaced schedule is dropped. */
  lemma TimerPassesOn(s: System, origin: nat)
    requires s.timer.Some?
    ensures s.timer.value.queue != [] ==> UnderWay(TimerTakesIn(s), origin) <= UnderWay(s, origin)
    ensures s.timer.value.pending.Some? ==> UnderWay(TimerFires(s), origin) <= UnderWay(s, origin)
  {
    if s.timer.value.pending.Some? {
      var pending := s.timer.value.pending.value;
      ExpiriesAppend(s.commands, ExpireIdle(pending.generation, pending.origin), origin);
    }
  }

  lemma TimerLeavesFinish(s: System, g: Goal)
    requires g.ToFinish? && s.timer.Some? && !Returned(s) && FinishesAs(s, g)
    ensures s.timer.value.queue != [] ==> FinishesAs(TimerTakesIn(s), g)
    ensures s.timer.value.pending.Some? ==> FinishesAs(TimerFires(s), g)
  {
    hide UnderWay, RepliesAs, FinishLogged;
    forall origin
      ensures s.timer.value.queue != [] ==> UnderWay(TimerTakesIn(s), origin) <= UnderWay(s, origin)
      ensures s.timer.value.pending.Some? ==> UnderWay(TimerFires(s), origin) <= UnderWay(s, origin)
    {
      TimerPassesOn(s, origin);
    }
    if s.timer.value.queue != [] {
      FinishGoesOn(s, TimerTakesIn(s), g);
    }
    if s.timer.value.pending.Some? {
      FinishGoesOn(s, TimerFires(s), g);
    }
  }

  /** A step of another agent that keeps phase, reply and flag leaves the finish under way. */
  lemma FinishGoesOn(s: System, next: System, g: Goal)
    requires g.ToFinish? && !Returned(s) && FinishesAs(s, g)
    requires next.phase == s.phase && next.reply == s.reply && next.recording == s.recording && s.log <= next.log
    requires s.reply.Some? ==> forall origin :: UnderWay(next, origin) <= UnderWay(s, origin)
    ensures FinishesAs(next, g)
  {
    hide UnderWay, RepliesAs, FinishLogged;
    if s.phase.AwaitFinish? {
      if s.reply.Some? {
        RepliesLater(s, next, g);
      }
    } else {
      FinishLoggedLater(s, next, g);
    }
  }

  lemma BufferLeavesFinish(s: System, g: Goal, raw: RawBuffer)
    requires g.ToFinish? && s.worker.Some? && !Returned(s) && FinishesAs(s, g)
    ensures FinishesAs(WorkerBufferIn(s, raw), g)
  {
    hide FinishesAs, Takes, BufferStep, ChunkSamples;
    FinishGoesOn(s, WorkerBufferIn(s, raw), g);
  }

  /** The worker answers the finish, or takes an expiry or the shutdown. */
  lemma WorkerKeepsFinish(s: System, g: Goal, out: Outcomes)
    requires Inv(s) && !Returned(s) && s.worker.Some? && s.commands != [] && g.ToFinish? && FinishesAs(s, g)
    requires g.willing ==> out.deactivate
    ensures FinishesAs(WorkerTakesIn(s, out), g)
  {
    hide LogFits, RecordingAfter, CallbackAfter, CommandsFit, TimerFits, ReplyFits, BeginStep, ShouldExpire, ExpireStep,
         FinishStep, WorkerFits, FinishesAs, UnderWay;
    var next := WorkerTakesIn(s, out);
    assert Requests(s.commands) == (if s.commands[0].ExpireIdle? then [] else [s.commands[0]])
                                   + Requests(s.commands[1..]);
    PhasesOfFinish(s, g);
    if s.commands[0].Finish? {
      assert Requests(s.commands)[0] == s.commands[0];
      assert s.phase.AwaitFinish? && s.reply.None?;
      FinishAnswered(s, g, out);
    } else {
      if !s.commands[0].ExpireIdle? {
        assert Requests(s.commands)[0] == s.commands[0];
        assert s.phase.JoinWorker? && s.commands[0].Shutdown?;
      }
      forall origin
        ensures UnderWay(next, origin) <= UnderWay(s, origin)
      {
        CommandGone(s, next, origin);
      }
      FinishGoesOn(s, next, g);
    }
  }

  lemma PhasesOfFinish(s: System, g: Goal)
    requires g.ToFinish? && FinishesAs(s, g) && !Returned(s)
    ensures s.phase.AwaitFinish? || s.phase.JoinTimer? || s.phase.JoinWorker?
  {
  }

  lemma CommandGone(s: System, next: System, origin: nat)
    requires s.commands != [] && next.timer == s.timer && (next.commands == s.commands[1..] || next.commands == [])
    ensures UnderWay(next, origin) <= UnderWay(s, origin)
  {
  }

  lemma FinishAnswered(s: System, g: Goal, out: Outcomes)
    requires Inv(s) && s.worker.Some? && s.commands != [] && s.commands[0].Finish?
    requires s.phase.AwaitFinish? && s.reply.None?
    requires g.ToFinish? && FinishesAs(s, g) && (g.willing ==> out.deactivate)
    ensures FinishesAs(WorkerTakesIn(s, out), g)
  {
    hide LogFits, RecordingAfter, CallbackAfter, CommandsFit, TimerFits, ReplyFits, HeardAfter, Count, Word, UnderWay,
         Requests, NextWord;
    var next, n := WorkerTakesIn(s, out), |s.log|;
    NoneIssuedYet(s);
    CommandGone(s, next, n);
    if out.deactivate {
      FinishOfRecordingLayout(s.worker.value, out);
      assert next.log[n].FinishOk?;
    } else {
      assert next.log[n].FinishFailed?;
    }
  }

  /** With the reply the expiry of this finish gets under way, or the worker is shut down. */
  lemma ReplyEndsFinish(s: System, g: Goal, delay: nat)
    requires Inv(s) && !Returned(s) && s.reply.Some? && s.timer.Some? && g.ToFinish? && FinishesAs(s, g)
    ensures FinishesAs(ReplyTaken(s, g.reuse, delay), g)
  {
    hide Inv, UnderWay;
    RepliesInPhase(s);
    var next := ReplyTaken(s, g.reuse, delay);
    match s.reply.value.issued
    case None =>
      var k: nat :| g.from <= k < |s.log| && s.log[k].FinishFailed?;
      assert FinishedAt(next, k, g);
    case Some(issue) =>
      OneMoreUnderWay(s, next, issue);
      assert FinishedAt(next, issue.origin, g);
  }

  lemma OneMoreUnderWay(s: System, next: System, issue: Issue)
    requires s.timer.Some?
    ensures
      (next.timer == s.timer && next.commands == s.commands + [ExpireIdle(issue.generation, issue.origin)])
      || (next.commands == s.commands && next.timer.Some? && next.timer.value.pending == s.timer.value.pending
          && exists delay :: next.timer.value.queue
                             == s.timer.value.queue + [Schedule(delay, issue.generation, issue.origin)]) ==>
        UnderWay(next, issue.origin) == UnderWay(s, issue.origin) + 1
  {
    ExpiriesAppend(s.commands, ExpireIdle(issue.generation, issue.origin), issue.origin);
    if delay :| next.timer.Some? && next.timer.value.queue
                == s.timer.value.queue + [Schedule(delay, issue.generation, issue.origin)] {
      SchedulesAppend(s.timer.value.queue, Schedule(delay, issue.generation, issue.origin), issue.origin);
    }
  }

  lemma FinishKept(s: System, g: Goal, step: Step)
    requires Inv(s) && !Returned(s) && g.ToFinish? && FinishesAs(s, g) && Allowed(g, step)
    ensures FinishesAs(Apply(s, step), g)
  {
    hide Inv, TimerTakesIn, TimerFires, WorkerTakesIn, WorkerBufferIn, ReplyTaken, BeginCall, FinishCall, DropCall,
         UnderWay, RepliesAs, FinishLogged;
    match step
    case TimerTakes =>
      if CaptureProgress.Possible(s, step) {
        TimerLeavesFinish(s, g);
      }
    case TimerTimesOut =>
      if CaptureProgress.Possible(s, step) {
        TimerLeavesFinish(s, g);
      }
    case WorkerTakes(out) =>
      if CaptureProgress.Possible(s, step) {
        WorkerKeepsFinish(s, g, out);
      }
    case WorkerBuffer(raw) =>
      if s.worker.Some? {
        BufferLeavesFinish(s, g, raw);
      }
    case TakeReply(_, delay) =>
      if CaptureProgress.Possible(s, step) {
        ReplyEndsFinish(s, g, delay);
      }
    case JoinedTimer =>
      if CaptureProgress.Possible(s, step) {
        FinishLoggedLater(s, Apply(s, step), g);
      }
    case JoinedWorker =>
      if CaptureProgress.Possible(s, step) {
        FinishLoggedLater(s, Apply(s, step), g);
      }
    case Tick(_) =>
      FinishGoesOn(s, Apply(s, step), g) by {
        assert forall origin :: UnderWay(Apply(s, step), origin) == UnderWay(s, origin) by {
          TickPassesOn(s, step.elapsed);
        }
      }
    case _ =>
  }

  lemma TickPassesOn(s: System, elapsed: nat)
    ensures forall origin :: UnderWay(s.(now := s.now + elapsed), origin) == UnderWay(s, origin)
  {
  }

  lemma CloseKept(s: System, after: After, step: Step)
    requires Inv(s) && !Returned(s) && ClosesAs(s, after) && (after == Return || after == Gone)
    ensures ClosesAs(Apply(s, step), after)
  {
    hide LogFits, RecordingAfter, CallbackAfter, CommandsFit, TimerFits, ReplyFits, WorkerFits, Requests;
    hide BeginStep, FinishStep, ExpireStep, ShouldExpire, BufferStep, Takes, ChunkSamples, BeginCall, FinishCall,
         DropCall;
    if s.reply.Some? {
      RepliesInPhase(s);
    }
  }

  /** Whatever step of whatever agent comes next, a call under way keeps to its goal. */
  lemma GoalKept(g: Goal, s: System, step: Step)
    requires Inv(s) && !Returned(s) && Holds(g, s) && Allowed(g, step)
    ensures Holds(g, Apply(s, step))
  {
    hide Inv, BeginsAs, FinishesAs, ClosesAs, Apply;
    match g
    case ToBegin(from, willing, target) => BeginKept(s, from, willing, target, step);
    case ToFinish(_, _, _, _) => FinishKept(s, g, step);
    case ToClose(after) => CloseKept(s, after, step);
  }

  // ---- The calls ----

  lemma BeginStarts(s: System, target: Target, reuse: bool, spawns: bool, willing: bool)
    requires Inv(s) && s.phase.Ready? && !s.recording && (willing ==> spawns)
    ensures Holds(ToBegin(|s.log|, willing, target), Apply(s, CallBegin(target, reuse, spawns)))
  {
    hide LogFits, RecordingAfter, CallbackAfter, CommandsFit, TimerFits, ReplyFits, WorkerFits, Requests;
  }

  lemma FinishStarts(s: System, willing: bool, cancel: bool, reuse: bool)
    requires Inv(s) && s.phase.Ready? && s.recording
    ensures Holds(ToFinish(|s.log|, willing, cancel, reuse), Apply(s, if cancel then CallCancel else CallStop))
  {
    hide LogFits, RecordingAfter, CallbackAfter, CommandsFit, TimerFits, ReplyFits, WorkerFits, Requests;
  }

  lemma CloseStarts(s: System)
    requires Inv(s) && s.phase.Ready?
    ensures !s.recording ==> Holds(ToClose(Return), Apply(s, CallCancel))
    ensures Holds(ToClose(Gone), Apply(s, CallDrop))
  {
    hide LogFits, RecordingAfter, CallbackAfter, CommandsFit, TimerFits, ReplyFits, WorkerFits, Requests;
  }

  /** What a call comes to after the steps it waits for. */
  lemma {:induction false} DrivenToGoal(g: Goal, s: System, answers: System -> Answer) returns (n: nat)
    requires Inv(s) && Holds(g, s) && forall t :: Allowed(g, Awaited(t, answers(t)))
    ensures Returned(Drive(s, answers, n)) && Holds(g, Drive(s, answers, n)) && Inv(Drive(s, answers, n))
    decreases Rank(s), Waiting(s)
  {
    hide Inv, Apply, Holds, Allowed, Returned, Awaited;
    if Returned(s) {
      n := 0;
    } else {
      var step := Awaited(s, answers(s));
      AwaitedStepHelps(s, answers(s));
      StepKeeps(s, step);
      GoalKept(g, s, step);
      var rest := DrivenToGoal(g, Apply(s, step), answers);
      n := rest + 1;
    }
  }

  /** From every reachable ready state that is not recording a begin comes back recording, with a new
      `Began`, if a needed worker spawns and the server agrees; and in no case does it record without
      one, or not record with one. */
  lemma BeginRecords(
      steps: seq<Step>, target: Target, reuse: bool, spawns: bool, willing: bool, answers: System -> Answer)
    returns (n: nat)
    requires Run(steps).phase.Ready? && !Run(steps).recording
    requires willing ==> spawns && forall t :: answers(t).out.create && answers(t).out.activate
    ensures
      var s := Run(steps);
      var t := Drive(Apply(s, CallBegin(target, reuse, spawns)), answers, n);
      && t.phase.Ready? && (t.recording <==> NewBegan(t.log, |s.log|)) && (willing ==> t.recording)
      && Records(t, t.recording, target)
  {
    hide Inv, Apply, Run;
    var s := Run(steps);
    RunKeeps(steps);
    var call := CallBegin(target, reuse, spawns);
    BeginStarts(s, target, reuse, spawns, willing);
    StepKeeps(s, call);
    n := DrivenToGoal(ToBegin(|s.log|, willing, target), Apply(s, call), answers);
  }

  /** From every reachable ready state that records, a stop or a cancel comes back with the recording
      ended by a finish, which succeeds if the server agrees. After a successful stop exactly one
      expiry of it is under way if streams are kept; else, and after a cancel, the worker is gone. */
  lemma FinishEndsRecording(
      steps: seq<Step>, cancel: bool, reuse: bool, willing: bool, answers: System -> Answer) returns (n: nat)
    requires Run(steps).phase.Ready? && Run(steps).recording
    requires forall t :: answers(t).reuse == reuse && (willing ==> answers(t).out.deactivate)
    ensures
      var s := Run(steps);
      var t := Drive(Apply(s, if cancel then CallCancel else CallStop), answers, n);
      && t.phase.Ready? && !t.recording && (cancel ==> t.worker.None?)
      && EndedSince(t, |s.log|, willing, cancel || !reuse)
  {
    hide Inv, Apply, Run, UnderWay;
    var s := Run(steps);
    RunKeeps(steps);
    var call := if cancel then CallCancel else CallStop;
    FinishStarts(s, willing, cancel, reuse);
    StepKeeps(s, call);
    var g := ToFinish(|s.log|, willing, cancel, reuse);
    n := DrivenToGoal(g, Apply(s, call), answers);
    var t := Drive(Apply(s, call), answers, n);
    var k: nat :| FinishedAt(t, k, g);
    assert EndedBy(t, k, |s.log|, willing, cancel || !reuse);
  }

  /** Entry `k` ended the recording; after a success the worker is gone, or one expiry is under way. */
  predicate EndedBy(s: System, k: nat, from: nat, willing: bool, closes: bool) {
    && from <= k < |s.log|
    && (s.log[k].FinishOk? || (s.log[k].FinishFailed? && !willing))
    && (s.log[k].FinishOk? ==> if closes then s.worker.None? else UnderWay(s, k) == 1)
  }

  ghost predicate EndedSince(s: System, from: nat, willing: bool, closes: bool) {
    exists k: nat :: EndedBy(s, k, from, willing, closes)
  }

  /** A cancel without a recording and a drop come back with the worker gone. */
  lemma WorkerIsLetGo(steps: seq<Step>, drop: bool, answers: System -> Answer) returns (n: nat)
    requires Run(steps).phase.Ready? && (!drop ==> !Run(steps).recording)
    ensures
      var t := Drive(Apply(Run(steps), if drop then CallDrop else CallCancel), answers, n);
      t.worker.None? && t.timer.None? && (if drop then t.phase.Dropped? else t.phase.Ready? && !t.recording)
  {
    hide Inv, Apply, Run;
    var s := Run(steps);
    RunKeeps(steps);
    CloseStarts(s);
    var call := if drop then CallDrop else CallCancel;
    StepKeeps(s, call);
    n := DrivenToGoal(ToClose(if drop then Gone else Return), Apply(s, call), answers);
    NoTimerWithoutWorker(Drive(Apply(s, call), answers, n));
  }

  lemma NoTimerWithoutWorker(s: System)
    requires Inv(s) && Returned(s)
    ensures s.worker.None? ==> s.timer.None?
  {
    hide LogFits, RecordingAfter, CallbackAfter, CommandsFit, TimerFits, ReplyFits, WorkerFits, Requests;
  }

  // ---- Any interleaving ----

  /** The call made with step `i` returns at `n`, and not before. */
  ghost predicate ReturnsAt(run: nat -> Step, i: nat, n: nat) {
    i < n && Returned(At(run, n)) && forall m: nat | i < m < n :: !Returned(At(run, m))
  }

  lemma {:induction false} FirstReturn(run: nat -> Step, i: nat, last: nat) returns (n: nat)
    requires i < last && Returned(At(run, last))
    ensures ReturnsAt(run, i, n)
    decreases last
  {
    hide At, Returned;
    if m: nat :| i < m < last && Returned(At(run, m)) {
      n := FirstReturn(run, i, m);
    } else {
      n := last;
    }
  }

  lemma {:induction false} GoalAlong(g: Goal, run: nat -> Step, i: nat, n: nat)
    requires i < n && Holds(g, At(run, i + 1))
    requires forall m: nat | i < m < n :: !Returned(At(run, m)) && Allowed(g, run(m))
    ensures Holds(g, At(run, n))
    decreases n
  {
    hide Holds, Returned, Allowed, Apply, Inv, At;
    if n > i + 1 {
      GoalAlong(g, run, i, n - 1);
      AtKeeps(run, n - 1);
      NextAt(run, n - 1);
      GoalKept(g, At(run, n - 1), run(n - 1));
    }
  }

  /** The same holds whatever the other agents do meanwhile, as long as they do not all rest for ever:
      every call on a ready recorder returns, and has reached its goal when it does. */
  lemma {:induction false} EveryInterleavingReachesGoal(g: Goal, run: nat -> Step, i: nat) returns (n: nat)
    requires Busy(run) && At(run, i).phase.Ready? && Answers(g, At(run, i), run(i))
    requires forall m: nat | m > i :: Allowed(g, run(m))
    ensures ReturnsAt(run, i, n) && Holds(g, At(run, n))
  {
    hide Holds, Returned, Allowed, Inv, At, Busy;
    var last := BusyRunsReturn(run, i + 1);
    n := FirstReturn(run, i, last);
    AtKeeps(run, i);
    CallStarts(g, At(run, i), run(i));
    assert At(run, i + 1) == Apply(At(run, i), run(i)) by {
      NextAt(run, i);
    }
    GoalAlong(g, run, i, n);
  }

  lemma NextAt(run: nat -> Step, i: nat)
    ensures At(run, i + 1) == Apply(At(run, i), run(i))
  {
    hide Apply;
  }

  /** The calls and what each of them is for. */
  predicate Answers(g: Goal, s: System, call: Step) {
    match g
    case ToBegin(from, willing, target) => 
      from == |s.log| && call.CallBegin? && call.target == target && !s.recording && (willing ==> call.spawns)
    case ToFinish(from, _, cancel, _) =>
      from == |s.log| && s.recording && call == if cancel then CallCancel else CallStop
    case ToClose(after) =>
      (after == Return && call == CallCancel && !s.recording) || (after == Gone && call == CallDrop)
  }

  lemma CallStarts(g: Goal, s: System, call: Step)
    requires Inv(s) && s.phase.Ready? && Answers(g, s, call)
    ensures Holds(g, Apply(s, call))
  {
    hide Inv, Apply, Holds;
    match g
    case ToBegin(_, willing, _) => BeginStarts(s, call.target, call.reuse, call.spawns, willing);
    case ToFinish(_, willing, cancel, reuse) => FinishStarts(s, willing, cancel, reuse);
    case ToClose(_) => CloseStarts(s);
  }
}
