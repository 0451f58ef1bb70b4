/** The stateful recorder over a one-shot audio source. */
module SourceRecorder {
  import opened Results
  import opened Pcm
  import opened FrameChunks

  /** What the callback receives for one capture: the capture itself, or its chunks. */
  ghost predicate DeliveryOf(pcm: PcmBuffer, chunkFrames: Option<nat>, chunks: seq<PcmBuffer>) {
    match chunkFrames
    case None => chunks == [pcm]
    case Some(limit) => ChunksOf(pcm, limit, chunks)
  }

  /** One capture handed to the callback: its position in the source and the chunks passed on. */
  datatype Delivery = Delivery(index: nat, chunks: seq<PcmBuffer>)

  // ---- Any sequence of calls ----

  datatype Call = Install(callback: bool) | Begin | Stop | Cancel

  /** How far a recorder is, and which reads of the source its callback has received. */
  datatype State = State(next: nat, recording: bool, callback: bool, pending: Option<nat>, heard: seq<nat>)

  const NEW := State(0, false, false, None, [])

  /** Which reads of the source succeed. */
  type Reads = nat -> bool

  function Act(s: State, call: Call, readable: Reads): State {
    match call
    case Install(callback) => s.(callback := callback)
    case Begin =>
      if s.recording then s
      else if !s.callback then s.(recording := true)
      else if !readable(s.next) then s.(next := s.next + 1)
      else s.(next := s.next + 1, recording := true, pending := Some(s.next), heard := s.heard + [s.next])
    case Stop =>
      if !s.recording then s
      else if s.pending.Some? then s.(recording := false, pending := None)
      else s.(next := s.next + 1, recording := false,
              heard := s.heard + if readable(s.next) && s.callback then [s.next] else [])
    case Cancel => s.(recording := false, pending := None)
  }

  function Run(calls: seq<Call>, readable: Reads): State {
    if calls == [] then NEW else Act(Run(calls[..|calls| - 1], readable), calls[|calls| - 1], readable)
  }

  /** The read that a stop returns, if it returns one. */
  function Returned(s: State, readable: Reads): Option<nat> {
    if !s.recording then None
    else if s.pending.Some? then s.pending
    else if readable(s.next) then Some(s.next)
    else None
  }

  /** Whether a callback was installed when the current recording began. */
  predicate HadCallback(calls: seq<Call>, readable: Reads) {
    if calls == [] then false
    else
      var before := Run(calls[..|calls| - 1], readable);
      if calls[|calls| - 1].Begin? && !before.recording then before.callback
      else HadCallback(calls[..|calls| - 1], readable)
  }

  /** Reads are heard once, in order, and one that waits for its stop has been heard. */
  predicate HeardOnce(s: State) {
    && (forall i, j | 0 <= i < j < |s.heard| :: s.heard[i] < s.heard[j])
    && (forall i | 0 <= i < |s.heard| :: s.heard[i] < s.next)
    && (s.pending.Some? ==> s.recording && s.pending.value in s.heard)
  }

  lemma ActKeeps(s: State, call: Call, readable: Reads)
    requires HeardOnce(s)
    ensures HeardOnce(Act(s, call, readable))
  {
    var t := Act(s, call, readable);
    assert t.heard == s.heard || t.heard == s.heard + [s.next];
    if s.pending.Some? {
      var i :| 0 <= i < |s.heard| && s.heard[i] == s.pending.value;
      assert t.heard[i] == s.heard[i];
    }
    if |t.heard| > |s.heard| {
      assert t.heard[|s.heard|] == s.next;
    }
  }

  /** A capture waits for its stop exactly in a recording that began with a callback. */
  lemma {:induction false} RunFacts(calls: seq<Call>, readable: Reads)
    ensures
      var s := Run(calls, readable);
      && HeardOnce(s)
      && (s.recording ==> (s.pending.Some? <==> HadCallback(calls, readable)))
  {
    if calls != [] {
      var before := calls[..|calls| - 1];
      RunFacts(before, readable);
      ActKeeps(Run(before, readable), calls[|calls| - 1], readable);
    }
  }

  lemma {:induction false} HeardStays(calls: seq<Call>, more: seq<Call>, readable: Reads, i: nat)
    requires i < Run(calls, readable).next
    ensures i in Run(calls + more, readable).heard <==> i in Run(calls, readable).heard
    ensures Run(calls, readable).next <= Run(calls + more, readable).next
    decreases |more|
  {
    var all := calls + more;
    if more == [] {
      assert all == calls;
    } else {
      assert all[..|all| - 1] == calls + more[..|more| - 1];
      HeardStays(calls, more[..|more| - 1], readable, i);
    }
  }

  /** Whatever is called before and after it in whatever order, a stop that returns a capture has had
      it delivered if and only if a callback was installed when the recording began or ended, and no
      capture is ever delivered twice. */
  lemma DeliveredIff(calls: seq<Call>, more: seq<Call>, readable: Reads)
    ensures
      var s, heard := Run(calls, readable), Run(calls + [Stop] + more, readable).heard;
      && (Returned(s, readable).Some? ==>
            (Returned(s, readable).value in heard <==> HadCallback(calls, readable) || s.callback))
      && (forall i, j | 0 <= i < j < |heard| :: heard[i] != heard[j])
  {
    var s, stopped := Run(calls, readable), calls + [Stop];
    assert stopped[..|calls|] == calls;
    RunFacts(calls, readable);
    RunFacts(stopped + more, readable);
    if Returned(s, readable).Some? {
      HeardStays(stopped, more, readable, Returned(s, readable).value);
    }
  }

  function Indices(deliveries: seq<Delivery>): seq<nat> {
    seq(|deliveries|, i requires 0 <= i < |deliveries| => deliveries[i].index)
  }

  class SourceAudioRecorder {
    /** What the source returns, read by read; after the last entry it is exhausted. */
    const source: seq<Result<PcmBuffer, AudioError>>
    const chunkFrames: Option<nat>
    var next: nat
    var recording: bool
    var callback: bool
    var pendingCapture: Option<PcmBuffer>
    ghost var deliveries: seq<Delivery>

    ghost predicate Valid()
      reads this
    {
      && (forall r | r in source && r.Ok? :: r.value.Valid())
      && chunkFrames != Some(0)
      && (pendingCapture.Some? ==> recording && 0 < next && ReadAt(next - 1) == Ok(pendingCapture.value))
      && (forall i | 0 <= i < |deliveries| ::
            deliveries[i].index < next && ReadAt(deliveries[i].index).Ok?
            && DeliveryOf(ReadAt(deliveries[i].index).value, chunkFrames, deliveries[i].chunks))
      && (forall i, j | 0 <= i < j < |deliveries| :: deliveries[i].index < deliveries[j].index)
    }

    function ReadAt(i: nat): Result<PcmBuffer, AudioError> {
      if i < |source| then source[i] else Err(SourceExhausted)
    }

    constructor (source: seq<Result<PcmBuffer, AudioError>>, chunkFrames: Option<nat>)
      requires forall r | r in source && r.Ok? :: r.value.Valid()
      requires chunkFrames != Some(0)
      ensures Valid() && !recording && !callback && next == 0 && deliveries == []
      ensures this.source == source && this.chunkFrames == chunkFrames
    {
      this.source := source;
      this.chunkFrames := chunkFrames;
      next, recording, callback, pendingCapture, deliveries := 0, false, false, None, [];
    }

    method SetChunkCallback(installed: bool)
      requires Valid()
      modifies this`callback
      ensures Valid() && callback == installed
    {
      callback := installed;
    }

    /** Passes the capture just read to the callback, if one is installed; it cannot fail. */
    method DeliverCapture(captured: PcmBuffer)
      requires Valid() && 0 < next && ReadAt(next - 1) == Ok(captured)
      requires forall d | d in deliveries :: d.index < next - 1
      modifies this`deliveries
      ensures Valid()
      ensures !callback ==> deliveries == old(deliveries)
      ensures callback ==>
                |deliveries| == |old(deliveries)| + 1 && deliveries[..|old(deliveries)|] == old(deliveries)
                && deliveries[|old(deliveries)|].index == next - 1
    {
      if !callback {
        return;
      }
      assert captured.Valid() by {
        assert source[next - 1] in source;
      }
      var chunks;
      if chunkFrames.Some? {
        var split := ChunksByFrames(captured, chunkFrames.value);
        chunks := split.value;
      } else {
        chunks := [captured];
      }
      deliveries := deliveries + [Delivery(next - 1, chunks)];
    }

    method BeginRecording() returns (r: Result<(), AudioError>)
      requires Valid()
      modifies this
      ensures Valid() && callback == old(callback)
      ensures old(recording) ==>
                r == Err(RecorderAlreadyRecording) && recording && next == old(next)
                && pendingCapture == old(pendingCapture) && deliveries == old(deliveries)
      ensures !old(recording) && !callback ==>
                r.Ok? && recording && next == old(next) && pendingCapture.None? && deliveries == old(deliveries)
      ensures !old(recording) && callback ==>
                && next == old(next) + 1
                && (ReadAt(old(next)).Ok? ==>
                      r.Ok? && recording && pendingCapture == Some(ReadAt(old(next)).value)
                      && |deliveries| == |old(deliveries)| + 1 && deliveries[..|old(deliveries)|] == old(deliveries)
                      && deliveries[|old(deliveries)|].index == old(next))
                && (ReadAt(old(next)).Err? ==>
                      r == Err(ReadAt(old(next)).error) && !recording && deliveries == old(deliveries))
    {
      if recording {
        return Err(RecorderAlreadyRecording);
      }
      recording := true;
      if callback {
        var captured := ReadAt(next);
        next := next + 1;
        if captured.Err? {
          recording := false;
          return Err(captured.error);
        }
        DeliverCapture(captured.value);
        pendingCapture := Some(captured.value);
      }
      r := Ok(());
    }

    method StopAndGetBuffer() returns (r: Result<PcmBuffer, AudioError>)
      requires Valid()
      modifies this
      ensures Valid() && callback == old(callback) && !recording
      ensures !old(recording) ==>
                r == Err(RecorderNotRecording) && next == old(next) && deliveries == old(deliveries)
      ensures old(recording) && old(pendingCapture).Some? ==>
                r == Ok(old(pendingCapture).value) && next == old(next) && deliveries == old(deliveries)
      ensures old(recording) && old(pendingCapture).None? ==>
                && next == old(next) + 1 && r == ReadAt(old(next))
                && (r.Ok? && callback ==>
                      |deliveries| == |old(deliveries)| + 1 && deliveries[..|old(deliveries)|] == old(deliveries)
                      && deliveries[|old(deliveries)|].index == old(next))
                && (r.Err? || !callback ==> deliveries == old(deliveries))
    {
      if !recording {
        return Err(RecorderNotRecording);
      }
      recording := false;
      if pendingCapture.Some? {
        r := Ok(pendingCapture.value);
        pendingCapture := None;
        return;
      }
      var captured := ReadAt(next);
      next := next + 1;
      if captured.Err? {
        return captured;
      }
      DeliverCapture(captured.value);
      r := captured;
    }

    method CancelRecording()
      requires Valid()
      modifies this`recording, this`pendingCapture
      ensures Valid() && !recording && pendingCapture.None?
    {
      recording := false;
      pendingCapture := None;
    }

    ghost function Progress(): State
      reads this
      requires Valid()
    {
      State(next, recording, callback, if pendingCapture.Some? then Some(next - 1) else None, Indices(deliveries))
    }

    ghost function Readable(): Reads {
      (i: nat) => ReadAt(i).Ok?
    }

    /** Every call moves the recorder as specified, and a stop returns the read it says. */
    method Perform(call: Call) returns (r: Result<PcmBuffer, AudioError>)
      requires Valid()
      modifies this
      ensures Valid() && Progress() == Act(old(Progress()), call, Readable())
      ensures call.Stop? ==>
                match Returned(old(Progress()), Readable())
                case Some(i) => r == ReadAt(i) && r.Ok?
                case None => r.Err?
    {
      hide DeliveryOf;
      r := Err(RecorderNotRecording);
      match call {
        case Install(installed) =>
          SetChunkCallback(installed);
        case Begin =>
          var begun := BeginRecording();
        case Stop =>
          r := StopAndGetBuffer();
        case Cancel =>
          CancelRecording();
      }
      if |deliveries| > |old(deliveries)| {
        assert Indices(deliveries) == Indices(old(deliveries)) + [deliveries[|old(deliveries)|].index] by {
          assert forall i | 0 <= i < |old(deliveries)| :: deliveries[i] == old(deliveries)[i];
        }
      }
    }

    /** A begin and a stop, with the callback installed before either of them: the same capture is
        returned, one source read is used, and the callback has seen that capture exactly once. */
    method RecordOnce(installBeforeBegin: bool) returns (r: Result<PcmBuffer, AudioError>)
      requires Valid() && !recording && !callback
      modifies this
      ensures Valid() && !recording && next == old(next) + 1
      ensures r == ReadAt(old(next))
      ensures r.Err? ==> deliveries == old(deliveries)
      ensures r.Ok? ==>
                |deliveries| == |old(deliveries)| + 1 && deliveries[..|old(deliveries)|] == old(deliveries)
                && deliveries[|old(deliveries)|].index == old(next)
                && DeliveryOf(r.value, chunkFrames, deliveries[|old(deliveries)|].chunks)
    {
      if installBeforeBegin {
        SetChunkCallback(true);
      }
      var begun := BeginRecording();
      if begun.Err? {
        return Err(begun.error);
      }
      if !installBeforeBegin {
        SetChunkCallback(true);
      }
      r := StopAndGetBuffer();
    }
  }
}
