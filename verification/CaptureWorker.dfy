/** The capture worker: one reusable stream, toggled between recordings. */
module CaptureWorker {
  import opened Results
  import opened Pcm
  import opened EventLog

  datatype Target = DefaultTarget | NamedObject(name: string)

  datatype StreamConfig = StreamConfig(target: Target, spec: PcmSpec)

  const RECORDING_SPEC: PcmSpec := PcmSpec(16_000, 1)

  function ConfigFor(target: Target): StreamConfig {
    StreamConfig(target, RECORDING_SPEC)
  }

  /** A connected stream with the cells it shares with its process callback. */
  datatype Stream = Stream(config: StreamConfig, samples: seq<i16>, accepting: bool)

  /** The worker's state; the generation is a 64-bit word. */
  datatype Worker = Worker(stream: Option<Stream>, recording: bool, idleGeneration: nat) {
    /** A recording is in progress exactly while a stream is held that accepts buffers. */
    predicate Consistent() {
      recording <==> stream.Some? && stream.value.accepting
    }
  }

  const IDLE_WORKER := Worker(None, false, 0)

  /** How the audio server answers the calls one command may make, in order. */
  datatype Outcomes = Outcomes(create: bool, activate: bool, createAgain: bool, activateAgain: bool, deactivate: bool)

  datatype Begun = Rejected | Failed | Started(reused: bool)

  datatype Finished = NotRecording | DeactivateFailed | BadLayout | Captured(pcm: PcmBuffer, generation: nat)

  function CanReuse(existing: Option<Stream>, config: StreamConfig): bool {
    existing.Some? && existing.value.config == config
  }

  function ArmedStream(config: StreamConfig): Stream {
    Stream(config, [], true)
  }

  function FreshStream(config: StreamConfig): Stream {
    Stream(config, [], false)
  }

  /** A Begin command. Only a rejected one leaves the generation alone. */
  function BeginStep(w: Worker, config: StreamConfig, out: Outcomes): (Worker, Begun) {
    if w.recording then (w, Rejected)
    else
      var bumped := w.(idleGeneration := NextWord(w.idleGeneration));
      if CanReuse(w.stream, config) then
        if out.activate then (bumped.(stream := Some(ArmedStream(config)), recording := true), Started(true))
        else if !out.createAgain then (bumped.(stream := None), Failed)
        else if !out.activateAgain then (bumped.(stream := Some(FreshStream(config))), Failed)
        else (bumped.(stream := Some(ArmedStream(config)), recording := true), Started(false))
      else if !out.create then (bumped, Failed)
      else if !out.activate then (bumped.(stream := None), Failed)
      else (bumped.(stream := Some(ArmedStream(config)), recording := true), Started(false))
  }

  function FinishStep(w: Worker, out: Outcomes): (Worker, Finished) {
    if !w.recording || w.stream.None? then (w, NotRecording)
    else if !out.deactivate then (Worker(None, false, w.idleGeneration), DeactivateFailed)
    else
      var stream := w.stream.value;
      var next := NextWord(w.idleGeneration);
      match WithSpec(stream.config.spec, stream.samples)
      case Ok(pcm) => (Worker(Some(stream.(samples := [], accepting := false)), false, next), Captured(pcm, next))
      case Err(_) => (Worker(Some(stream.(samples := [], accepting := false)), false, next), BadLayout)
  }

  predicate ShouldExpire(w: Worker, generation: nat) {
    !w.recording && w.idleGeneration == generation
  }

  function ExpireStep(w: Worker, generation: nat): Worker {
    if ShouldExpire(w, generation) then w.(stream := None) else w
  }

  function ShutdownStep(w: Worker): Worker {
    Worker(None, false, NextWord(w.idleGeneration))
  }

  /** A buffer as the audio server hands it over: the mapped bytes and the chunk within them. */
  datatype RawBuffer = RawBuffer(data: seq<byte>, offset: nat, size: nat)

  /** The samples of a buffer; none when the chunk does not lie within the mapped bytes. */
  function ChunkSamples(raw: RawBuffer): seq<i16> {
    if raw.offset + raw.size <= |raw.data| then DecodeSamples(raw.data[raw.offset..raw.offset + raw.size]) else []
  }

  predicate Takes(w: Worker, raw: RawBuffer) {
    w.stream.Some? && w.stream.value.accepting && ChunkSamples(raw) != []
  }

  function BufferStep(w: Worker, raw: RawBuffer): Worker {
    if Takes(w, raw) then
      w.(stream := Some(w.stream.value.(samples := w.stream.value.samples + ChunkSamples(raw))))
    else w
  }

  // ---- The worker as it is written ----

  class PipeWireWorker {
    var stream: Option<Stream>
    var recording: bool
    var idleGeneration: nat

    ghost function State(): Worker
      reads this
    {
      Worker(stream, recording, idleGeneration)
    }

    constructor ()
      ensures State() == IDLE_WORKER
    {
      stream, recording, idleGeneration := None, false, 0;
    }

    method ActivateStream(serverAccepts: bool) returns (ok: bool)
      requires stream.Some?
      modifies this`stream
      ensures ok == serverAccepts && stream == Some(Stream(old(stream).value.config, [], ok))
    {
      stream := Some(stream.value.(samples := []));
      stream := Some(stream.value.(accepting := true));
      if !serverAccepts {
        stream := Some(stream.value.(accepting := false));
        return false;
      }
      return true;
    }

    method BeginRecording(config: StreamConfig, out: Outcomes) returns (r: Begun)
      requires State().Consistent()
      modifies this
      ensures State() == BeginStep(old(State()), config, out).0 && r == BeginStep(old(State()), config, out).1
      ensures State().Consistent()
      ensures r.Rejected? <==> old(recording)
      ensures r.Started? <==> recording && !old(recording)
      ensures r.Started? <==> !old(recording) && Succeeds(old(stream), config, out)
      ensures r.Started? ==>
                stream == Some(Stream(config, [], true)) && r.reused == (Matches(old(stream), config) && out.activate)
      ensures r.Failed? ==> stream == LeftBehind(old(stream), config, out)
    {
      if recording {
        return Rejected;
      }
      idleGeneration := NextWord(idleGeneration);
      var reusable := CanReuse(stream, config);
      if !reusable {
        if !out.create {
          return Failed;
        }
        stream := Some(FreshStream(config));
      }
      var activated := ActivateStream(out.activate);
      if activated {
        recording := true;
        return Started(reusable);
      }
      if reusable {
        stream := None;
        if !out.createAgain {
          return Failed;
        }
        stream := Some(FreshStream(config));
        var again := ActivateStream(out.activateAgain);
        if !again {
          return Failed;
        }
        recording := true;
        return Started(false);
      }
      stream := None;
      return Failed;
    }

    method FinishRecording(out: Outcomes) returns (r: Finished)
      requires State().Consistent()
      modifies this
      ensures State() == FinishStep(old(State()), out).0 && r == FinishStep(old(State()), out).1
      ensures State().Consistent() && !recording
      ensures r.Captured? ==> r.pcm.samples == old(stream).value.samples && r.generation == idleGeneration
    {
      if !recording {
        return NotRecording;
      }
      if stream.None? {
        return NotRecording;
      }
      stream := Some(stream.value.(accepting := false));
      if !out.deactivate {
        recording := false;
        stream := None;
        return DeactivateFailed;
      }
      recording := false;
      idleGeneration := NextWord(idleGeneration);
      var generation := idleGeneration;
      var samples := stream.value.samples;
      stream := Some(stream.value.(samples := []));
      var pcm := WithSpec(stream.value.config.spec, samples);
      if pcm.Err? {
        return BadLayout;
      }
      return Captured(pcm.value, generation);
    }

    method ExpireIdle(generation: nat)
      requires State().Consistent()
      modifies this`stream
      ensures State() == ExpireStep(old(State()), generation) && State().Consistent()
      ensures stream == if !recording && idleGeneration == generation then None else old(stream)
    {
      if !recording && idleGeneration == generation {
        stream := None;
      }
    }

    method Shutdown()
      modifies this
      ensures State() == ShutdownStep(old(State())) && State().Consistent()
      ensures stream.None? && !recording && idleGeneration == NextWord(old(idleGeneration))
    {
      if stream.Some? {
        stream := Some(stream.value.(accepting := false));
      }
      recording := false;
      idleGeneration := NextWord(idleGeneration);
      stream := None;
    }

    /** The process callback; `delivered` is what the chunk callback receives when installed. */
    method CaptureBuffer(raw: RawBuffer, callback: bool) returns (delivered: Option<seq<i16>>)
      requires State().Consistent()
      modifies this`stream
      ensures State() == BufferStep(old(State()), raw) && State().Consistent()
      ensures delivered == if Takes(old(State()), raw) && callback
                              && WithSpec(old(stream).value.config.spec, ChunkSamples(raw)).Ok?
                           then Some(ChunkSamples(raw)) else None
    {
      if stream.None? {
        return None;
      }
      if raw.offset + raw.size > |raw.data| {
        return None;
      }
      var chunk := DecodeSamples(raw.data[raw.offset..raw.offset + raw.size]);
      if chunk == [] {
        return None;
      }
      if !stream.value.accepting {
        return None;
      }
      stream := Some(stream.value.(samples := stream.value.samples + chunk));
      if callback && WithSpec(stream.value.config.spec, chunk).Ok? {
        return Some(chunk);
      }
      return None;
    }
  }

  // ---- When a recording begins ----

  /** The held stream is the one asked for. */
  predicate Matches(held: Option<Stream>, config: StreamConfig) {
    held.Some? && held.value.config.target == config.target && held.value.config.spec == config.spec
  }

  /** A matching stream is activated, or else replaced and activated; any other one is replaced first
      and has one try. */
  predicate Succeeds(held: Option<Stream>, config: StreamConfig, out: Outcomes) {
    if Matches(held, config) then out.activate || (out.createAgain && out.activateAgain)
    else out.create && out.activate
  }

  /** What a failed begin leaves: the old stream only if no new one could take its place, and a
      replacement that would not start. */
  function LeftBehind(held: Option<Stream>, config: StreamConfig, out: Outcomes): Option<Stream> {
    if Matches(held, config) then (if out.createAgain then Some(Stream(config, [], false)) else None)
    else if out.create then None
    else held
  }

  lemma BeginSucceedsIff(w: Worker, config: StreamConfig, out: Outcomes)
    ensures
      var (next, r) := BeginStep(w, config, out);
      && (r.Rejected? <==> w.recording)
      && (r.Started? <==> !w.recording && Succeeds(w.stream, config, out))
      && (r.Rejected? ==> next == w)
      && (r.Started? ==>
            && r.reused == (Matches(w.stream, config) && out.activate)
            && next == Worker(Some(Stream(config, [], true)), true, NextWord(w.idleGeneration)))
      && (r.Failed? ==> next == Worker(LeftBehind(w.stream, config, out), false, NextWord(w.idleGeneration)))
  {
    if w.stream.Some? {
      var c := w.stream.value.config;
      assert c == config <==> c.target == config.target && c.spec == config.spec;
    }
  }

  // ---- What a buffer holds ----

  /** The samples of a buffer are those whose image are the bytes of its chunk and no others, up to an
      odd last byte; a chunk that does not lie within the mapped bytes has none. */
  lemma ChunkIsRead(raw: RawBuffer)
    ensures
      if raw.offset + raw.size <= |raw.data| then
        EncodeSamples(ChunkSamples(raw)) == raw.data[raw.offset..raw.offset + raw.size - raw.size % 2]
      else ChunkSamples(raw) == []
  {
    hide DecodeSamples, EncodeSamples;
    if raw.offset + raw.size <= |raw.data| {
      var bytes := raw.data[raw.offset..raw.offset + raw.size];
      EncodeInvertsDecode(bytes);
      assert bytes[..|bytes| - |bytes| % 2] == raw.data[raw.offset..raw.offset + raw.size - raw.size % 2];
    }
  }

  // ---- Step properties ----

  /** Every command and buffer keeps recording and accepting in step, whatever the server answers. */
  lemma StepsKeepConsistent(w: Worker, config: StreamConfig, out: Outcomes, generation: nat, raw: RawBuffer)
    requires w.Consistent()
    ensures BeginStep(w, config, out).0.Consistent() && FinishStep(w, out).0.Consistent()
    ensures ExpireStep(w, generation).Consistent() && ShutdownStep(w).Consistent() && BufferStep(w, raw).Consistent()
  {
  }

  /** A recording on the recorder's own layout always yields a buffer: one channel aligns anything. */
  lemma FinishOfRecordingLayout(w: Worker, out: Outcomes)
    requires w.recording && w.Consistent() && out.deactivate
    requires w.stream.value.config.spec == RECORDING_SPEC
    ensures FinishStep(w, out).1
            == Captured(PcmBuffer(RECORDING_SPEC, w.stream.value.samples), NextWord(w.idleGeneration))
  {
  }

  // ---- Wrap-around of the generation ----

  /** `n` recordings, begun and finished, from an idle worker whose stream already fits. */
  function Cycles(w: Worker, config: StreamConfig, n: nat): Worker
    decreases n
  {
    if n == 0 then w
    else
      var ok := Outcomes(true, true, true, true, true);
      Cycles(FinishStep(BeginStep(w, config, ok).0, ok).0, config, n - 1)
  }

  lemma {:induction false} CyclesCount(w: Worker, config: StreamConfig, n: nat)
    requires !w.recording && w.stream == Some(FreshStream(config)) && config.spec == RECORDING_SPEC
    requires w.idleGeneration < WORD
    ensures Cycles(w, config, n) == Worker(w.stream, false, Word(w.idleGeneration + 2 * n))
    decreases n
  {
    hide Word;
    SmallWord(w.idleGeneration);
    if n > 0 {
      var ok := Outcomes(true, true, true, true, true);
      var armed := BeginStep(w, config, ok).0;
      FinishOfRecordingLayout(armed, ok);
      var next := FinishStep(armed, ok).0;
      WordIsSmall(NextWord(w.idleGeneration) + 1);
      CyclesCount(next, config, n - 1);
      TwoMore(w.idleGeneration, n);
    }
  }

  lemma WordIsSmall(n: nat)
    ensures Word(n) < WORD
  {
  }

  lemma TwoMore(g: nat, n: nat)
    requires n > 0
    ensures Word(NextWord(NextWord(g)) + 2 * (n - 1)) == Word(g + 2 * n)
  {
    hide Word;
    WordOfSum(g + 1, 1);
    WordOfSum(g + 2, 2 * (n - 1));
  }

  /** The 64-bit guard is only as good as its width: after exactly 2^63 further recordings the
      expiry of an old one removes the stream again. */
  lemma WrappedGenerationExpires(w: Worker, config: StreamConfig)
    requires !w.recording && w.stream == Some(FreshStream(config)) && config.spec == RECORDING_SPEC
    requires w.idleGeneration < WORD
    ensures ExpireStep(Cycles(w, config, WORD / 2), w.idleGeneration).stream.None?
  {
    CyclesCount(w, config, WORD / 2);
    WholeTurn(w.idleGeneration);
  }

  lemma WholeTurn(g: nat)
    requires g < WORD
    ensures Word(g + 2 * (WORD / 2)) == g
  {
  }
}
