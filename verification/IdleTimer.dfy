/** The timer thread that asks the worker to drop an idle stream. */
module IdleTimer {
  import opened Results

  /** `origin` is history: the position in a log of what issued the generation. No step looks at it. */
  datatype TimerCommand = Schedule(delay: nat, generation: nat, origin: nat) | StopTimer

  datatype Pending = Pending(deadline: nat, generation: nat, origin: nat)

  /** What one turn of the timer's wait can bring. */
  datatype Wake = Received(command: TimerCommand, now: nat) | TimedOut(now: nat) | Disconnected

  /** The schedule pending after some wakes. */
  function PendingAfter(wakes: seq<Wake>): Option<Pending> {
    if wakes == [] then None
    else match wakes[|wakes| - 1]
      case Received(Schedule(delay, generation, origin), now) => Some(Pending(now + delay, generation, origin))
      case Received(StopTimer, _) => None
      case TimedOut(_) => None
      case Disconnected => None
  }

  predicate Stops(wake: Wake) {
    wake == Disconnected || (wake.Received? && wake.command == StopTimer)
  }

  /** A wait times out only while a schedule is pending, and not before its deadline. */
  predicate Possible(wakes: seq<Wake>) {
    forall i | 0 <= i < |wakes| && wakes[i].TimedOut? ::
      PendingAfter(wakes[..i]).Some? && PendingAfter(wakes[..i]).value.deadline <= wakes[i].now
  }

  /** What was sent: at each time-out the schedule received just before it. */
  function SentFor(wakes: seq<Wake>): seq<Pending> {
    if |wakes| < 2 then []
    else
      var last, before := wakes[|wakes| - 1], wakes[|wakes| - 2];
      SentFor(wakes[..|wakes| - 1])
      + if last.TimedOut? && before.Received? && before.command.Schedule? then
          [Pending(before.now + before.command.delay, before.command.generation, before.command.origin)]
        else []
  }

  /** The thread's loop. A time-out sends the latest schedule and nothing else; a schedule that is
      replaced before it times out is never sent. */
  method RunIdleDestroyTimer(wakes: seq<Wake>) returns (sent: seq<Pending>, handled: nat)
    requires Possible(wakes)
    ensures handled <= |wakes|
    ensures forall i | 0 <= i < handled - 1 :: !Stops(wakes[i])
    ensures handled < |wakes| ==> handled > 0 && Stops(wakes[handled - 1])
    ensures sent == SentFor(wakes[..handled])
  {
    var pending: Option<Pending> := None;
    sent, handled := [], 0;
    while handled < |wakes|
      invariant handled <= |wakes|
      invariant forall i | 0 <= i < handled :: !Stops(wakes[i])
      invariant pending == PendingAfter(wakes[..handled])
      invariant sent == SentFor(wakes[..handled])
    {
      var wake := wakes[handled];
      assert wakes[..handled + 1][..handled] == wakes[..handled];
      handled := handled + 1;
      match wake
      case TimedOut(_) =>
        assert pending.Some?;
        sent := sent + [pending.value];
        pending := None;
      case Disconnected =>
        return;
      case Received(command, now) =>
        match command {
          case Schedule(delay, generation, origin) => pending := Some(Pending(now + delay, generation, origin));
          case StopTimer => return;
        }
    }
    assert wakes[..handled] == wakes;
  }

  /** Every firing comes at or after the deadline of the schedule it sends. */
  lemma {:induction false} FiresAfterDeadline(wakes: seq<Wake>, i: nat)
    requires Possible(wakes) && i < |wakes| && wakes[i].TimedOut?
    ensures i > 0 && wakes[i - 1].Received? && wakes[i - 1].command.Schedule?
    ensures wakes[i - 1].now + wakes[i - 1].command.delay <= wakes[i].now
  {
    assert PendingAfter(wakes[..i]).Some?;
    assert wakes[..i][i - 1] == wakes[i - 1];
  }
}
