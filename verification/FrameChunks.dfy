/** Splitting a PCM buffer into whole-frame chunks. */
module FrameChunks {
  import opened Results
  import opened Pcm

  datatype ChunkRange = ChunkRange(startFrame: nat, frameLen: nat) {
    function End(): nat {
      startFrame + frameLen
    }
  }

  /** The ranges follow one another from frame 0 to frame `total` without gap or overlap, none is
      empty, none is longer than the limit and only the last may be shorter. */
  predicate Tiles(ranges: seq<ChunkRange>, total: nat, limit: nat) {
    && (forall i | 0 <= i < |ranges| :: 0 < ranges[i].frameLen <= limit)
    && (forall i | 0 <= i < |ranges| - 1 :: ranges[i].frameLen == limit && ranges[i + 1].startFrame == ranges[i].End())
    && (if ranges == [] then total == 0 else ranges[0].startFrame == 0 && ranges[|ranges| - 1].End() == total)
  }

  method ChunkRangesByFrames(pcm: PcmBuffer, maxFrames: nat) returns (r: Result<seq<ChunkRange>, AudioError>)
    requires pcm.Valid()
    ensures maxFrames == 0 ==> r == Err(InvalidChunkFrameCount)
    ensures maxFrames > 0 ==> r.Ok? && Tiles(r.value, pcm.FrameLen(), maxFrames)
  {
    hide PcmBuffer.FrameLen;
    if maxFrames == 0 {
      return Err(InvalidChunkFrameCount);
    }
    var ranges: seq<ChunkRange> := [];
    var startFrame := 0;
    var totalFrames := pcm.FrameLen();
    while startFrame < totalFrames
      invariant startFrame <= totalFrames && Tiles(ranges, startFrame, maxFrames)
      invariant startFrame < totalFrames ==> forall i | 0 <= i < |ranges| :: ranges[i].frameLen == maxFrames
    {
      var frameLen := if totalFrames - startFrame <= maxFrames then totalFrames - startFrame else maxFrames;
      ranges := ranges + [ChunkRange(startFrame, frameLen)];
      startFrame := startFrame + frameLen;
    }
    r := Ok(ranges);
  }

  lemma {:induction false} EndsWithin(ranges: seq<ChunkRange>, total: nat, limit: nat, i: nat)
    requires Tiles(ranges, total, limit) && i < |ranges|
    ensures ranges[i].End() <= total
    decreases |ranges| - i
  {
    if i + 1 < |ranges| {
      EndsWithin(ranges, total, limit, i + 1);
    }
  }

  // ---- Cutting the samples ----

  function Flatten<T>(chunks: seq<seq<T>>): seq<T> {
    if chunks == [] then [] else Flatten(chunks[..|chunks| - 1]) + chunks[|chunks| - 1]
  }

  lemma FlattenAppend<T>(chunks: seq<seq<T>>, chunk: seq<T>)
    ensures Flatten(chunks + [chunk]) == Flatten(chunks) + chunk
  {
    assert (chunks + [chunk])[..|chunks|] == chunks;
  }

  function SamplesOf(chunks: seq<PcmBuffer>): (s: seq<seq<i16>>)
    ensures |s| == |chunks|
  {
    seq(|chunks|, i requires 0 <= i < |chunks| => chunks[i].samples)
  }

  /** Chunks of a buffer: its layout, whole frames, none empty, none over the limit, only the last
      one shorter, and nothing lost or reordered. */
  predicate ChunksOf(pcm: PcmBuffer, maxFrames: nat, chunks: seq<PcmBuffer>) {
    && (forall i | 0 <= i < |chunks| ::
          chunks[i].Valid() && chunks[i].spec == pcm.spec && 0 < chunks[i].FrameLen() <= maxFrames)
    && (forall i | 0 <= i < |chunks| - 1 :: chunks[i].FrameLen() == maxFrames)
    && Flatten(SamplesOf(chunks)) == pcm.samples
  }

  /** The sample positions of a frame range that lies within a buffer. */
  lemma SampleRange(pcm: PcmBuffer, range: ChunkRange)
    requires pcm.Valid() && range.End() <= pcm.FrameLen()
    ensures
      var start := range.startFrame * pcm.spec.channels;
      var len := range.frameLen * pcm.spec.channels;
      && 0 <= len && start + len == range.End() * pcm.spec.channels <= |pcm.samples|
      && IsMultipleOf(len, pcm.spec.channels) && len / pcm.spec.channels == range.frameLen
  {
    hide PcmBuffer.FrameLen, IsMultipleOf;
    var channels: nat := pcm.spec.channels;
    Distributes(range.startFrame, range.frameLen, channels);
    MulMonotone(0, range.frameLen, channels);
    MulMonotone(range.End(), pcm.FrameLen(), channels);
    WholeBuffer(pcm);
    AllFrames(range.frameLen, channels);
  }

  lemma Distributes(a: nat, b: nat, c: nat)
    ensures (a + b) * c == a * c + b * c
  {
  }

  lemma AllFrames(n: nat, channels: nat)
    requires channels > 0
    ensures IsMultipleOf(n * channels, channels) && n * channels / channels == n
  {
    WholeFrames(n, channels);
  }

  lemma MulMonotone(a: nat, b: nat, c: nat)
    requires a <= b
    ensures a * c <= b * c
  {
  }

  lemma WholeFrames(n: nat, channels: nat)
    requires channels > 0
    ensures n * channels % channels == 0 && n * channels / channels == n
  {
    var m := n * channels;
    var q := m / channels;
    assert (n - q) * channels == m % channels;
    if n > q {
      MulMonotone(1, n - q, channels);
    } else if n < q {
      assert (q - n) * channels == -(m % channels);
      MulMonotone(1, q - n, channels);
    }
  }

  lemma WholeBuffer(pcm: PcmBuffer)
    requires pcm.Valid()
    ensures pcm.FrameLen() * pcm.spec.channels == |pcm.samples|
  {
  }

  /** The samples of a frame range. */
  function Piece(pcm: PcmBuffer, range: ChunkRange): seq<i16>
    requires pcm.Valid() && range.End() <= pcm.FrameLen()
  {
    SampleRange(pcm, range);
    var start := range.startFrame * pcm.spec.channels;
    pcm.samples[start..start + range.frameLen * pcm.spec.channels]
  }

  /** The first chunks of a buffer, one for each of the first ranges. */
  ghost predicate Covered(pcm: PcmBuffer, ranges: seq<ChunkRange>, chunks: seq<PcmBuffer>)
    requires pcm.Valid() && |chunks| <= |ranges|
  {
    var done := if |chunks| == 0 then 0 else ranges[|chunks| - 1].End();
    && 0 <= done * pcm.spec.channels <= |pcm.samples|
    && (forall i | 0 <= i < |chunks| ::
          chunks[i].Valid() && chunks[i].spec == pcm.spec && chunks[i].FrameLen() == ranges[i].frameLen)
    && Flatten(SamplesOf(chunks)) == pcm.samples[..done * pcm.spec.channels]
  }

  lemma CoverMore(pcm: PcmBuffer, ranges: seq<ChunkRange>, chunks: seq<PcmBuffer>)
    requires pcm.Valid() && |chunks| < |ranges| && Covered(pcm, ranges, chunks)
    requires ranges[|chunks|].startFrame == if |chunks| == 0 then 0 else ranges[|chunks| - 1].End()
    requires ranges[|chunks|].End() <= pcm.FrameLen()
    ensures WithSpec(pcm.spec, Piece(pcm, ranges[|chunks|])).Ok?
    ensures Covered(pcm, ranges, chunks + [WithSpec(pcm.spec, Piece(pcm, ranges[|chunks|])).value])
  {
    hide IsMultipleOf;
    var range := ranges[|chunks|];
    SampleRange(pcm, range);
    var piece := Piece(pcm, range);
    var more := chunks + [PcmBuffer(pcm.spec, piece)];
    FlattenAppend(SamplesOf(chunks), piece);
    assert SamplesOf(more) == SamplesOf(chunks) + [piece];
    var start := range.startFrame * pcm.spec.channels;
    assert pcm.samples[..start] + piece == pcm.samples[..start + range.frameLen * pcm.spec.channels];
  }

  lemma CoveredWhole(pcm: PcmBuffer, maxFrames: nat, ranges: seq<ChunkRange>, chunks: seq<PcmBuffer>)
    requires pcm.Valid() && Tiles(ranges, pcm.FrameLen(), maxFrames)
    requires |chunks| == |ranges| && Covered(pcm, ranges, chunks)
    ensures ChunksOf(pcm, maxFrames, chunks)
  {
    WholeBuffer(pcm);
    assert pcm.samples[..|pcm.samples|] == pcm.samples;
  }

  /** For every valid buffer and positive limit the chunks exist and partition its samples. */
  method ChunksByFrames(pcm: PcmBuffer, maxFrames: nat) returns (r: Result<seq<PcmBuffer>, AudioError>)
    requires pcm.Valid()
    ensures maxFrames == 0 ==> r == Err(InvalidChunkFrameCount)
    ensures maxFrames > 0 ==> r.Ok? && ChunksOf(pcm, maxFrames, r.value)
  {
    hide PcmBuffer.FrameLen, Piece, Covered, ChunksOf, Tiles;
    var ranges := ChunkRangesByFrames(pcm, maxFrames);
    if ranges.Err? {
      return Err(ranges.error);
    }
    var chunks: seq<PcmBuffer> := [];
    NothingCovered(pcm, ranges.value);
    for i := 0 to |ranges.value|
      invariant |chunks| == i && Covered(pcm, ranges.value, chunks)
    {
      var range := ranges.value[i];
      TilesAt(ranges.value, pcm.FrameLen(), maxFrames, i);
      EndsWithin(ranges.value, pcm.FrameLen(), maxFrames, i);
      CoverMore(pcm, ranges.value, chunks);
      var chunk := WithSpec(pcm.spec, Piece(pcm, range));
      chunks := chunks + [chunk.value];
    }
    CoveredWhole(pcm, maxFrames, ranges.value, chunks);
    r := Ok(chunks);
  }

  lemma NothingCovered(pcm: PcmBuffer, ranges: seq<ChunkRange>)
    requires pcm.Valid()
    ensures Covered(pcm, ranges, [])
  {
  }

  lemma TilesAt(ranges: seq<ChunkRange>, total: nat, limit: nat, i: nat)
    requires Tiles(ranges, total, limit) && i < |ranges|
    ensures ranges[i].startFrame == if i == 0 then 0 else ranges[i - 1].End()
  {
  }
}
