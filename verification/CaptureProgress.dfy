/** Every call of the recorder can come back. */
module CaptureProgress {
  import opened Results
  import opened Pcm
  import opened CaptureWorker
  import opened IdleTimer
  import opened CaptureProtocol

  /** What the audio server answers and what the recorder's settings are. */
  datatype Answer = Answer(out: Outcomes, reuse: bool, delay: nat)

  predicate Returned(s: System) {
    s.phase.Ready? || s.phase.Dropped?
  }

  /** The step the call waits for. */
  function Awaited(s: System, answer: Answer): Step {
    match s.phase
    case JoinTimer(_) => if s.timer.None? then JoinedTimer else TimerTakes
    case JoinWorker(_) => if s.worker.None? then JoinedWorker else WorkerTakes(answer.out)
    case _ => if s.reply.Some? then TakeReply(answer.reuse, answer.delay) else WorkerTakes(answer.out)
  }

  /** The system after some awaited steps, whatever is answered to them. */
  function Drive(s: System, answers: System -> Answer, n: nat): System
    decreases n
  {
    if n == 0 then s else Drive(Apply(s, Awaited(s, answers(s))), answers, n - 1)
  }

  // ---- How far a call has come ----

  function Rank(s: System): nat {
    match s.phase
    case AwaitFinish(_) => 4
    case JoinTimer(_) => 3
    case JoinWorker(_) => 2
    case AwaitBegin => 1
    case _ => 0
  }

  function Waiting(s: System): nat {
    match s.phase
    case JoinTimer(_) => if s.timer.Some? then |s.timer.value.queue| + 1 else 0
    case JoinWorker(_) => if s.worker.Some? then |s.commands| + 1 else 0
    case _ => |s.commands|
  }

  lemma SomeRequest(commands: seq<Command>)
    ensures Requests(commands) != [] ==> commands != []
  {
  }

  predicate Closer(s: System, next: System) {
    Rank(next) < Rank(s) || (Rank(next) == Rank(s) && Waiting(next) < Waiting(s))
  }

  lemma JoiningHelps(s: System, answer: Answer)
    requires Inv(s) && (s.phase.JoinTimer? || s.phase.JoinWorker?)
    ensures Closer(s, Apply(s, Awaited(s, answer)))
  {
    hide LogFits, RecordingAfter, CallbackAfter, WorkerFits, CommandsFit, TimerFits, ReplyFits, Requests;
    hide BeginStep, FinishStep, ExpireStep;
    SomeRequest(s.commands);
  }

  lemma RequestingHelps(s: System, answer: Answer)
    requires Inv(s) && (s.phase.AwaitBegin? || s.phase.AwaitFinish?)
    ensures Closer(s, Apply(s, Awaited(s, answer)))
  {
    hide LogFits, RecordingAfter, CallbackAfter, WorkerFits, CommandsFit, TimerFits, ReplyFits, Requests;
    hide BeginStep, FinishStep, ExpireStep;
    SomeRequest(s.commands);
  }

  /** In no reachable state is a call stuck: the step it waits for is possible and brings it on. */
  lemma AwaitedStepHelps(s: System, answer: Answer)
    requires Inv(s) && !Returned(s)
    ensures Closer(s, Apply(s, Awaited(s, answer)))
  {
    hide Inv, Closer, Apply;
    if s.phase.JoinTimer? || s.phase.JoinWorker? {
      JoiningHelps(s, answer);
    } else {
      RequestingHelps(s, answer);
    }
  }

  /** From every reachable state a call comes back after the steps it waits for, whatever the audio
      server answers to them. */
  lemma {:induction false} CallReturns(s: System, answers: System -> Answer) returns (n: nat)
    requires Inv(s)
    ensures Inv(Drive(s, answers, n)) && Returned(Drive(s, answers, n))
    decreases Rank(s), Waiting(s)
  {
    hide Inv, Apply;
    if Returned(s) {
      n := 0;
    } else {
      var step := Awaited(s, answers(s));
      AwaitedStepHelps(s, answers(s));
      StepKeeps(s, step);
      var rest := CallReturns(Apply(s, step), answers);
      n := rest + 1;
    }
  }

  /** Every call returns, in every run. */
  lemma {:induction false} EveryCallReturns(steps: seq<Step>, answers: System -> Answer) returns (n: nat)
    ensures Returned(Drive(Run(steps), answers, n))
  {
    hide Inv, Run;
    RunKeeps(steps);
    n := CallReturns(Run(steps), answers);
  }

  // ---- Any interleaving ----

  /** The agent whose step it is can take it: there is something to take, to fire or to join. */
  predicate Possible(s: System, step: Step) {
    match step
    case TakeReply(_, _) => s.reply.Some? && s.timer.Some?
    case TimerTakes => s.timer.Some? && s.timer.value.queue != []
    case TimerTimesOut =>
      s.timer.Some? && s.timer.value.pending.Some? && s.timer.value.pending.value.deadline <= s.now
    case JoinedTimer => s.phase.JoinTimer? && s.timer.None?
    case WorkerTakes(_) => s.worker.Some? && s.commands != []
    case JoinedWorker => s.phase.JoinWorker? && s.worker.None?
    case _ => false
  }

  function TimerWork(timer: Option<Timer>): nat {
    match timer
    case None => 0
    case Some(t) => 3 * |t.queue| + if t.pending.Some? then 2 else 0
  }

  /** A bound on the steps left until the call returns: a schedule becomes pending, then an expiry. */
  function Work(s: System): nat {
    4 * Rank(s) + TimerWork(s.timer) + |s.commands|
  }

  /** As long as a call runs, no step of any agent adds work, and every possible one does some. */
  lemma StepsWork(s: System, step: Step)
    requires Inv(s) && !Returned(s)
    ensures Work(Apply(s, step)) <= Work(s)
    ensures Possible(s, step) ==> Work(Apply(s, step)) < Work(s)
  {
    hide Inv, TimerTakesIn, TimerFires, WorkerTakesIn, WorkerBufferIn, ReplyTaken, WorkerGone, BeginCall, FinishCall,
         DropCall, TimerWork;
    match step
    case TimerTakes =>
      if Possible(s, step) {
        TimerWorks(s);
      }
    case TimerTimesOut =>
      if Possible(s, step) {
        TimerWorks(s);
      }
    case WorkerTakes(out) =>
      if Possible(s, step) {
        WorkerWorks(s, out);
      }
    case WorkerBuffer(raw) =>
      if s.worker.Some? {
        BuffersAreFree(s, raw);
      }
    case TakeReply(reuse, delay) =>
      if Possible(s, step) {
        ReplyWorks(s, reuse, delay);
      }
    case JoinedTimer =>
    case JoinedWorker =>
      if Possible(s, step) {
        RespawnWorks(s);
      }
    case _ =>
  }

  lemma TimerWorks(s: System)
    requires s.timer.Some?
    ensures s.timer.value.queue != [] ==> Work(TimerTakesIn(s)) < Work(s)
    ensures s.timer.value.pending.Some? ==> Work(TimerFires(s)) < Work(s)
  {
  }

  lemma WorkerWorks(s: System, out: Outcomes)
    requires s.worker.Some? && s.commands != []
    ensures Work(WorkerTakesIn(s, out)) < Work(s)
  {
    hide BeginStep, FinishStep, ExpireStep, ShouldExpire;
  }

  lemma BuffersAreFree(s: System, raw: RawBuffer)
    requires s.worker.Some?
    ensures Work(WorkerBufferIn(s, raw)) == Work(s)
  {
    hide BufferStep, Takes, ChunkSamples;
  }

  lemma ReplyWorks(s: System, reuse: bool, delay: nat)
    requires Inv(s) && !Returned(s) && s.reply.Some? && s.timer.Some?
    ensures Work(ReplyTaken(s, reuse, delay)) < Work(s)
  {
    hide LogFits, RecordingAfter, CallbackAfter, WorkerFits, CommandsFit, TimerFits, Requests;
  }

  lemma RespawnWorks(s: System)
    requires Inv(s) && s.phase.JoinWorker? && s.worker.None?
    ensures Work(WorkerGone(s, s.phase.after)) < Work(s)
  {
    hide LogFits, RecordingAfter, CallbackAfter, WorkerFits, CommandsFit, TimerFits, ReplyFits, Requests;
  }

  lemma AwaitedIsPossible(s: System, answer: Answer)
    requires Inv(s) && !Returned(s)
    ensures Possible(s, Awaited(s, answer))
  {
    hide LogFits, RecordingAfter, CallbackAfter, WorkerFits, CommandsFit, TimerFits, ReplyFits, Requests;
    SomeRequest(s.commands);
  }

  /** The system along an endless run. */
  function At(run: nat -> Step, i: nat): System {
    if i == 0 then START else Apply(At(run, i - 1), run(i - 1))
  }

  /** The agents do not all rest for ever while a call runs; otherwise they may step in any order, and
      time, audio buffers and steps that are not possible may come in between. */
  ghost predicate Busy(run: nat -> Step) {
    forall i: nat :: Acts(run, i)
  }

  ghost predicate Acts(run: nat -> Step, i: nat) {
    exists j: nat :: j >= i && (Returned(At(run, j)) || Possible(At(run, j), run(j)))
  }

  lemma {:induction false} AtKeeps(run: nat -> Step, i: nat)
    ensures Inv(At(run, i))
  {
    hide Inv, Apply;
    if i == 0 {
      RunKeeps([]);
    } else {
      AtKeeps(run, i - 1);
      StepKeeps(At(run, i - 1), run(i - 1));
    }
  }

  /** Work is only added after a return. */
  lemma {:induction false} WorkFalls(run: nat -> Step, i: nat, j: nat)
    requires i <= j && forall n: nat | i <= n < j :: !Returned(At(run, n))
    ensures Work(At(run, j)) <= Work(At(run, i))
    decreases j
  {
    hide Inv, Apply, Work, Returned;
    if i < j {
      WorkFalls(run, i, j - 1);
      AtKeeps(run, j - 1);
      StepsWork(At(run, j - 1), run(j - 1));
    }
  }

  lemma NextAct(run: nat -> Step, i: nat) returns (j: nat)
    requires Busy(run)
    ensures j >= i && (Returned(At(run, j)) || Possible(At(run, j), run(j)))
  {
    hide At, Returned, Possible;
    assert Acts(run, i);
    j :| j >= i && (Returned(At(run, j)) || Possible(At(run, j), run(j)));
  }

  /** In every such run every call returns. */
  lemma {:induction false} BusyRunsReturn(run: nat -> Step, i: nat) returns (n: nat)
    requires Busy(run)
    ensures n >= i && Returned(At(run, n))
    decreases Work(At(run, i))
  {
    hide Inv, Apply, Work, Returned, Possible, Busy;
    var j := NextAct(run, i);
    if m: nat :| i <= m <= j && Returned(At(run, m)) {
      n := m;
    } else {
      WorkFalls(run, i, j);
      AtKeeps(run, j);
      StepsWork(At(run, j), run(j));
      n := BusyRunsReturn(run, j + 1);
    }
  }
}
