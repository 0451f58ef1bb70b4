/** RIFF/WAVE: the chunk-walking decoder of the audio crate and the encoder of the ASR crate. */
module Wave {
  import opened Results
  import opened Pcm

  const RIFF: seq<byte> := [0x52, 0x49, 0x46, 0x46]
  const WAVE: seq<byte> := [0x57, 0x41, 0x56, 0x45]
  const FMT: seq<byte> := [0x66, 0x6D, 0x74, 0x20]
  const DATA: seq<byte> := [0x64, 0x61, 0x74, 0x61]

  // ---- The RIFF chunk grammar ----

  /** One chunk; `pad` is the filler byte after an odd body and 0 after an even one. */
  datatype RiffChunk = RiffChunk(id: seq<byte>, body: seq<byte>, pad: byte) {
    predicate WellFormed() {
      |id| == 4 && |body| < U32_LIMIT && (PadOf(|body|) == 0 ==> pad == 0)
    }

    function Bytes(): seq<byte>
      requires WellFormed()
    {
      id + Le32(|body|) + body + if PadOf(|body|) == 1 then [pad] else []
    }
  }

  predicate AllWellFormed(chunks: seq<RiffChunk>) {
    forall c | c in chunks :: c.WellFormed()
  }

  predicate IsFmt(id: seq<byte>) {
    id == FMT
  }

  predicate IsData(id: seq<byte>) {
    id == DATA
  }

  function Serialize(chunks: seq<RiffChunk>): seq<byte>
    requires AllWellFormed(chunks)
  {
    if chunks == [] then [] else chunks[0].Bytes() + Serialize(chunks[1..])
  }

  predicate HasHeader(bytes: seq<byte>) {
    |bytes| >= 12 && bytes[..4] == RIFF && bytes[8..12] == WAVE
  }

  /** The chunks of a byte string in file order, and whether none of them runs past the end.
      Fewer than eight bytes at the end are not a chunk. */
  function SplitChunks(bytes: seq<byte>): (seq<RiffChunk>, bool)
    decreases |bytes|
  {
    if |bytes| < 8 then ([], true)
    else
      var len := ReadLe32(Slice(bytes, 4, 8));
      if 8 + len > |bytes| then ([], false)
      else
        var (rest, whole) := SplitChunks(From(bytes, 8 + len + PadOf(len)));
        ([RiffChunk(Slice(bytes, 0, 4), Slice(bytes, 8, 8 + len), PadByte(bytes, len))] + rest, whole)
  }

  function PadByte(bytes: seq<byte>, len: nat): byte {
    if PadOf(len) == 1 && 8 + len < |bytes| then bytes[8 + len] else 0
  }

  /** Chunks start at even distances: an odd body is followed by one filler byte. */
  function PadOf(len: nat): (n: nat)
    ensures n <= 1
  {
    len % 2
  }

  // ---- Decoding ----

  function WavErr<T>(reason: WavReason): Result<T, AudioError> {
    Err(InvalidWav(reason))
  }

  function ParseWavFmt(chunk: seq<byte>): Result<PcmSpec, AudioError> {
    if |chunk| < 16 then WavErr(FmtTooShort)
    else
      var formatTag := ReadLe16(chunk[0..2]);
      var channels := ReadLe16(chunk[2..4]);
      var sampleRateHz := ReadLe32(chunk[4..8]);
      var byteRate := ReadLe32(chunk[8..12]);
      var blockAlign := ReadLe16(chunk[12..14]);
      var bitsPerSample := ReadLe16(chunk[14..16]);
      if formatTag != 1 then WavErr(NotPcmTag)
      else if bitsPerSample != 16 then WavErr(Not16Bit)
      else match ValidateSpec(PcmSpec(sampleRateHz, channels))
        case Err(e) => Err(e)
        case Ok(spec) =>
          match CheckedMul(channels, bitsPerSample / 8, U16_LIMIT)
          case None => WavErr(BlockAlignOverflow)
          case Some(expectedAlign) =>
            if blockAlign != expectedAlign then WavErr(BlockAlignMismatch)
            else match CheckedMul(sampleRateHz, expectedAlign, U32_LIMIT)
              case None => WavErr(ByteRateOverflow)
              case Some(expectedRate) =>
                if byteRate != expectedRate then WavErr(ByteRateMismatch)
                else Ok(spec)
  }

  /** What the decoder has kept from the chunks seen so far. */
  datatype Scan = Scan(format: Option<PcmSpec>, data: Option<seq<byte>>)

  function ScanChunk(scan: Scan, chunk: RiffChunk): Result<Scan, AudioError> {
    if IsFmt(chunk.id) then
      match ParseWavFmt(chunk.body)
      case Err(e) => Err(e)
      case Ok(spec) => Ok(scan.(format := Some(spec)))
    else if IsData(chunk.id) then Ok(scan.(data := Some(chunk.body)))
    else Ok(scan)
  }

  function ScanChunks(scan: Scan, chunks: seq<RiffChunk>): Result<Scan, AudioError>
    decreases |chunks|
  {
    if chunks == [] then Ok(scan)
    else match ScanChunk(scan, chunks[0])
      case Err(e) => Err(e)
      case Ok(next) => ScanChunks(next, chunks[1..])
  }

  function Finish(scan: Scan): Result<PcmBuffer, AudioError> {
    if scan.format.None? then WavErr(MissingFmt)
    else if scan.data.None? then WavErr(MissingData)
    else if |scan.data.value| % 2 != 0 then WavErr(OddData)
    else WithSpec(scan.format.value, DecodeSamples(scan.data.value))
  }

  function Conclude(scan: Scan, split: (seq<RiffChunk>, bool)): Result<PcmBuffer, AudioError> {
    match ScanChunks(scan, split.0)
    case Err(e) => Err(e)
    case Ok(last) => if split.1 then Finish(last) else WavErr(ChunkPastEnd)
  }

  /** Decoding is a fold over the chunk list of everything after the twelve header bytes. */
  function DecodeWav(bytes: seq<byte>): Result<PcmBuffer, AudioError> {
    if HasHeader(bytes) then Conclude(Scan(None, None), SplitChunks(bytes[12..]))
    else WavErr(MissingHeader)
  }

  method DecodeWavPcm16Le(bytes: seq<byte>) returns (r: Result<PcmBuffer, AudioError>)
    ensures r == DecodeWav(bytes)
  {
    hide HasHeader, DecodeWav, SplitChunks, Conclude, From, Slice, ParseWavFmt, WithSpec, DecodeSamples;
    hide ReadLe32, PadOf, IsFmt, IsData, ScanChunks;
    DecodeIsWalk(bytes);
    if !HasHeader(bytes) {
      return WavErr(MissingHeader);
    }
    ghost var expected := Walk(bytes, 12, Scan(None, None));
    assert expected == DecodeWav(bytes);
    var format: Option<PcmSpec> := None;
    var data: Option<seq<byte>> := None;
    var offset := 12;
    while offset + 8 <= |bytes|
      invariant 12 <= offset <= |bytes| + 1
      invariant expected == Walk(bytes, offset, Scan(format, data))
      decreases |bytes| + 1 - offset
    {
      var chunkId := Slice(bytes, offset, offset + 4);
      var chunkLen := ReadLe32(Slice(bytes, offset + 4, offset + 8));
      var chunkStart := offset + 8;
      var chunkEnd := chunkStart + chunkLen;
      WalkStep(bytes, offset, Scan(format, data), chunkLen);
      if chunkEnd > |bytes| {
        return WavErr(ChunkPastEnd);
      }
      var chunk := Slice(bytes, chunkStart, chunkEnd);
      if IsFmt(chunkId) {
        var parsed := ParseWavFmt(chunk);
        if parsed.Err? {
          return Err(parsed.error);
        }
        format := Some(parsed.value);
      } else if IsData(chunkId) {
        data := Some(chunk);
      }
      offset := chunkEnd + PadOf(chunkLen);
    }
    WalkEnd(bytes, offset, Scan(format, data));
    if format.None? {
      return WavErr(MissingFmt);
    }
    if data.None? {
      return WavErr(MissingData);
    }
    if |data.value| % 2 != 0 {
      return WavErr(OddData);
    }
    r := WithSpec(format.value, DecodeSamples(data.value));
  }

  lemma DecodeIsWalk(bytes: seq<byte>)
    ensures HasHeader(bytes) ==> |bytes| >= 12
    ensures DecodeWav(bytes) == if HasHeader(bytes) then Walk(bytes, 12, Scan(None, None)) else WavErr(MissingHeader)
  {
    hide SplitChunks, ScanChunks, Conclude, Walk;
    WalkIsFold(bytes, 12, Scan(None, None));
  }

  lemma WalkStep(bytes: seq<byte>, offset: nat, scan: Scan, len: nat)
    requires offset + 8 <= |bytes| && len == ReadLe32(Slice(bytes, offset + 4, offset + 8))
    ensures
      var end := offset + 8 + len;
      if end > |bytes| then Walk(bytes, offset, scan) == WavErr(ChunkPastEnd)
      else
        var step := ScanChunk(scan, RiffChunk(Slice(bytes, offset, offset + 4), Slice(bytes, offset + 8, end), 0));
        Walk(bytes, offset, scan) == if step.Err? then Err(step.error) else Walk(bytes, end + PadOf(len), step.value)
  {
    hide ScanChunk;
  }

  lemma WalkEnd(bytes: seq<byte>, offset: nat, scan: Scan)
    requires offset + 8 > |bytes|
    ensures Walk(bytes, offset, scan) == Finish(scan)
  {
  }

  /** The decoder's walk from an offset, with what it has kept so far. */
  ghost function Walk(bytes: seq<byte>, offset: nat, scan: Scan): Result<PcmBuffer, AudioError>
    decreases |bytes| + 1 - offset
  {
    if offset + 8 > |bytes| then Finish(scan)
    else
      var len: int := ReadLe32(Slice(bytes, offset + 4, offset + 8));
      var end := offset + 8 + len;
      if end > |bytes| then WavErr(ChunkPastEnd)
      else match ScanChunk(scan, RiffChunk(Slice(bytes, offset, offset + 4), Slice(bytes, offset + 8, end), 0))
        case Err(e) => Err(e)
        case Ok(next) => Walk(bytes, end + PadOf(len), next)
  }

  /** The chunk list seen from an offset where a whole chunk stands. */
  lemma SplitAt(bytes: seq<byte>, offset: nat, len: nat)
    requires offset + 8 + len <= |bytes| && len == ReadLe32(Slice(bytes, offset + 4, offset + 8))
    ensures
      var (chunks, whole) := SplitChunks(From(bytes, offset));
      var (rest, restWhole) := SplitChunks(From(bytes, offset + 8 + len + PadOf(len)));
      whole == restWhole && chunks != [] && chunks[1..] == rest
      && chunks[0].id == Slice(bytes, offset, offset + 4)
      && chunks[0].body == Slice(bytes, offset + 8, offset + 8 + len)
  {
    hide Slice, From, PadOf, ReadLe32;
    SliceOfFrom(bytes, offset, 0, 4);
    SliceOfFrom(bytes, offset, 4, 8);
    SliceOfFrom(bytes, offset, 8, 8 + len);
    FromOfFrom(bytes, offset, 8 + len + PadOf(len));
  }

  /** Walking by offsets is the same as splitting into chunks and folding over them. */
  lemma {:induction false} WalkIsFold(bytes: seq<byte>, offset: nat, scan: Scan)
    ensures Walk(bytes, offset, scan) == Conclude(scan, SplitChunks(From(bytes, offset)))
    decreases |bytes| + 1 - offset
  {
    hide ParseWavFmt, Finish, Slice, From, ReadLe32, PadOf, Conclude, ScanChunk;
    if offset + 8 > |bytes| {
      FoldEnd(scan, SplitChunks(From(bytes, offset)));
    } else {
      SliceOfFrom(bytes, offset, 4, 8);
      var len: int := ReadLe32(Slice(bytes, offset + 4, offset + 8));
      if offset + 8 + len > |bytes| {
        FoldEnd(scan, SplitChunks(From(bytes, offset)));
      } else {
        var chunk := RiffChunk(Slice(bytes, offset, offset + 4), Slice(bytes, offset + 8, offset + 8 + len), 0);
        var step := ScanChunk(scan, chunk);
        SplitAt(bytes, offset, len);
        FoldStep(scan, SplitChunks(From(bytes, offset)), chunk);
        if step.Ok? {
          WalkIsFold(bytes, offset + 8 + len + PadOf(len), step.value);
        }
      }
    }
  }

  lemma FoldEnd(scan: Scan, split: (seq<RiffChunk>, bool))
    requires split.0 == []
    ensures Conclude(scan, split) == if split.1 then Finish(scan) else WavErr(ChunkPastEnd)
  {
  }

  lemma FoldStep(scan: Scan, split: (seq<RiffChunk>, bool), chunk: RiffChunk)
    requires split.0 != [] && split.0[0].id == chunk.id && split.0[0].body == chunk.body
    ensures
      var step := ScanChunk(scan, chunk);
      Conclude(scan, split) == if step.Err? then Err(step.error) else Conclude(step.value, (split.0[1..], split.1))
  {
    hide ParseWavFmt, Finish;
  }

  // ---- Decoding a well-formed file ----

  lemma SplitChunkThen(c: RiffChunk, rest: seq<byte>)
    requires c.WellFormed()
    ensures
      var (tail, whole) := SplitChunks(rest);
      SplitChunks(c.Bytes() + rest) == ([c] + tail, whole)
  {
    hide ReadLe32, Slice, From, Le32;
    ChunkFields(c, rest);
  }

  lemma ChunkFields(c: RiffChunk, rest: seq<byte>)
    requires c.WellFormed()
    ensures
      var bytes := c.Bytes() + rest;
      var len := |c.body|;
      && ReadLe32(Slice(bytes, 4, 8)) == len
      && Slice(bytes, 0, 4) == c.id && Slice(bytes, 8, 8 + len) == c.body
      && PadByte(bytes, len) == c.pad && From(bytes, 8 + len + PadOf(len)) == rest
  {
    hide ReadLe32, Le32;
    ReadLe32Inverts(|c.body|);
    assert Slice(c.Bytes() + rest, 4, 8) == Le32(|c.body|);
  }

  /** Walking the serialization of a chunk list gives back that list. */
  lemma {:induction false} SplitInvertsSerialize(chunks: seq<RiffChunk>, tail: seq<byte>)
    requires AllWellFormed(chunks) && |tail| < 8
    ensures SplitChunks(Serialize(chunks) + tail) == (chunks, true)
  {
    if chunks == [] {
      assert Serialize(chunks) + tail == tail;
    } else {
      var rest := Serialize(chunks[1..]) + tail;
      assert Serialize(chunks) + tail == chunks[0].Bytes() + rest;
      SplitInvertsSerialize(chunks[1..], tail);
      SplitChunkThen(chunks[0], rest);
      assert [chunks[0]] + chunks[1..] == chunks;
    }
  }

  /** The last chunk with the given id, if any. */
  function LastBody(chunks: seq<RiffChunk>, id: seq<byte>): Option<seq<byte>> {
    if chunks == [] then None
    else if chunks[|chunks| - 1].id == id then Some(chunks[|chunks| - 1].body)
    else LastBody(chunks[..|chunks| - 1], id)
  }

  /** The error of the first `fmt ` chunk that does not parse, if any. */
  function FirstBadFmt(chunks: seq<RiffChunk>): Option<AudioError> {
    if chunks == [] then None
    else if chunks[0].id == FMT && ParseWavFmt(chunks[0].body).Err? then
      Some(ParseWavFmt(chunks[0].body).error)
    else FirstBadFmt(chunks[1..])
  }

  /** What the last `fmt ` and the last `data` chunk alone determine. */
  function FromLastChunks(chunks: seq<RiffChunk>): Result<PcmBuffer, AudioError> {
    var fmt := LastBody(chunks, FMT);
    var data := LastBody(chunks, DATA);
    if fmt.None? then WavErr(MissingFmt)
    else match ParseWavFmt(fmt.value)
      case Err(e) => Err(e)
      case Ok(spec) =>
        if data.None? then WavErr(MissingData)
        else if |data.value| % 2 != 0 then WavErr(OddData)
        else WithSpec(spec, DecodeSamples(data.value))
  }

  lemma {:induction false} LastBodySplit(a: seq<RiffChunk>, b: seq<RiffChunk>, id: seq<byte>)
    ensures LastBody(a + b, id) == if LastBody(b, id).Some? then LastBody(b, id) else LastBody(a, id)
  {
    if b == [] {
      assert a + b == a;
    } else {
      assert (a + b)[..|a + b| - 1] == a + b[..|b| - 1];
      LastBodySplit(a, b[..|b| - 1], id);
    }
  }

  lemma {:induction false} ScanKeepsLast(scan: Scan, chunks: seq<RiffChunk>)
    ensures
      match FirstBadFmt(chunks)
      case Some(e) => ScanChunks(scan, chunks) == Err(e)
      case None =>
        var fmt := LastBody(chunks, FMT);
        var data := LastBody(chunks, DATA);
        && (fmt.Some? ==> ParseWavFmt(fmt.value).Ok?)
        && ScanChunks(scan, chunks) == Ok(Scan(
             if fmt.Some? then Some(ParseWavFmt(fmt.value).value) else scan.format,
             if data.Some? then data else scan.data))
    decreases |chunks|
  {
    if chunks != [] {
      assert chunks == chunks[..1] + chunks[1..];
      LastBodySplit(chunks[..1], chunks[1..], FMT);
      LastBodySplit(chunks[..1], chunks[1..], DATA);
      if ScanChunk(scan, chunks[0]).Ok? {
        ScanKeepsLast(ScanChunk(scan, chunks[0]).value, chunks[1..]);
      }
    }
  }

  function FileOf(sizeField: seq<byte>, chunks: seq<RiffChunk>, tail: seq<byte>): seq<byte>
    requires |sizeField| == 4 && AllWellFormed(chunks)
  {
    RIFF + sizeField + WAVE + (Serialize(chunks) + tail)
  }

  lemma FileParts(sizeField: seq<byte>, chunks: seq<RiffChunk>, tail: seq<byte>)
    requires |sizeField| == 4 && AllWellFormed(chunks)
    ensures
      var file := FileOf(sizeField, chunks, tail);
      |file| >= 12 && file[..4] == RIFF && file[4..8] == sizeField && file[8..12] == WAVE
      && file[12..] == Serialize(chunks) + tail
  {
  }

  /** Every file made of padded chunks decodes to what its last `fmt ` and last `data` chunk say,
      unless a `fmt ` chunk does not parse; then the first such chunk decides. */
  lemma {:induction false} DecodeWellFormed(sizeField: seq<byte>, chunks: seq<RiffChunk>, tail: seq<byte>)
    requires |sizeField| == 4 && AllWellFormed(chunks) && |tail| < 8
    ensures DecodeWav(FileOf(sizeField, chunks, tail)) ==
            match FirstBadFmt(chunks)
            case Some(e) => Err(e)
            case None => FromLastChunks(chunks)
  {
    hide FileOf, Serialize, ParseWavFmt;
    FileParts(sizeField, chunks, tail);
    SplitInvertsSerialize(chunks, tail);
    ScanKeepsLast(Scan(None, None), chunks);
  }

  /** What is left behind the last chunk: too few bytes for another one, or one that runs past the
      end. */
  predicate Leftover(tail: seq<byte>, whole: bool) {
    if whole then |tail| < 8 else |tail| >= 8 && 8 + ReadLe32(Slice(tail, 4, 8)) > |tail|
  }

  /** Every byte string is a chunk list and a rest; the filler byte of the last chunk may be missing. */
  lemma {:induction false} BytesAreChunks(bytes: seq<byte>) returns (tail: seq<byte>)
    ensures
      var (chunks, whole) := SplitChunks(bytes);
      && AllWellFormed(chunks) && Leftover(tail, whole)
      && (Serialize(chunks) + tail == bytes || (tail == [] && Serialize(chunks) == bytes + [0]))
    decreases |bytes|
  {
    hide ReadLe32, RiffChunk.Bytes, RiffChunk.WellFormed, PadByte, From, Slice;
    var len: nat := if |bytes| < 8 then 0 else ReadLe32(Slice(bytes, 4, 8));
    if |bytes| < 8 || 8 + len > |bytes| {
      tail := bytes;
    } else {
      var rest := From(bytes, 8 + len + PadOf(len));
      tail := BytesAreChunks(rest);
      var chunk := RiffChunk(Slice(bytes, 0, 4), Slice(bytes, 8, 8 + len), PadByte(bytes, len));
      FirstChunk(bytes, chunk);
      var after := SplitChunks(rest).0;
      var chunks := [chunk] + after;
      assert SplitChunks(bytes) == (chunks, SplitChunks(rest).1);
      assert chunks[1..] == after;
      assert Serialize(chunks) == chunk.Bytes() + Serialize(after);
      Regrouped(chunk.Bytes(), Serialize(after), tail, rest);
    }
  }

  lemma Regrouped(first: seq<byte>, after: seq<byte>, tail: seq<byte>, rest: seq<byte>)
    ensures after + tail == rest ==> first + after + tail == first + rest
    ensures after == rest + [0] ==> first + after == first + rest + [0]
    ensures rest == [] ==> first + rest == first
  {
  }

  /** The first chunk with its filler byte, or with one that is missing at the end. */
  lemma FirstChunk(bytes: seq<byte>, chunk: RiffChunk)
    requires |bytes| >= 8 && 8 + ReadLe32(Slice(bytes, 4, 8)) <= |bytes|
    requires
      var len: nat := ReadLe32(Slice(bytes, 4, 8));
      chunk == RiffChunk(Slice(bytes, 0, 4), Slice(bytes, 8, 8 + len), PadByte(bytes, len))
    ensures
      var len: nat := ReadLe32(Slice(bytes, 4, 8));
      var rest := From(bytes, 8 + len + PadOf(len));
      && chunk.WellFormed()
      && chunk.Bytes() + rest == (if 8 + len + PadOf(len) <= |bytes| then bytes else bytes + [0])
      && (8 + len + PadOf(len) > |bytes| ==> rest == [])
  {
    hide ReadLe32, Le32;
    Le32OfRead(Slice(bytes, 4, 8));
  }

  /** The decoder's answer to any bytes at all: without the two tags there is no header; else the bytes
      are a chunk list and a rest, the first bad `fmt ` decides, then a chunk past the end, then the
      last `fmt ` and `data`. */
  lemma {:induction false} DecodeAnything(bytes: seq<byte>) returns (chunks: seq<RiffChunk>, tail: seq<byte>)
    ensures AllWellFormed(chunks)
    ensures |bytes| < 12 || bytes[..4] != RIFF || bytes[8..12] != WAVE ==>
              DecodeWav(bytes) == Err(InvalidWav(MissingHeader))
    ensures |bytes| >= 12 && bytes[..4] == RIFF && bytes[8..12] == WAVE ==>
              && (Serialize(chunks) + tail == bytes[12..] || (tail == [] && Serialize(chunks) == bytes[12..] + [0]))
              && (|tail| >= 8 ==> 8 + ReadLe32(tail[4..8]) > |tail|)
              && DecodeWav(bytes) ==
                 match FirstBadFmt(chunks)
                 case Some(e) => Err(e)
                 case None => if |tail| < 8 then FromLastChunks(chunks) else Err(InvalidWav(ChunkPastEnd))
  {
    hide SplitChunks, Serialize, ParseWavFmt, ReadLe32;
    chunks, tail := [], [];
    if HasHeader(bytes) {
      chunks := SplitChunks(bytes[12..]).0;
      tail := BytesAreChunks(bytes[12..]);
      ScanKeepsLast(Scan(None, None), chunks);
    }
  }

  lemma {:induction false} FirstBadFmtSplit(a: seq<RiffChunk>, b: seq<RiffChunk>)
    ensures FirstBadFmt(a + b) == if FirstBadFmt(a).Some? then FirstBadFmt(a) else FirstBadFmt(b)
  {
    if a == [] {
      assert a + b == b;
    } else {
      assert (a + b)[1..] == a[1..] + b;
      FirstBadFmtSplit(a[1..], b);
    }
  }

  /** An unknown chunk of any size, odd or even, may stand anywhere without changing the result. */
  lemma {:induction false} UnknownChunkIsIgnored(
      sizeField: seq<byte>, before: seq<RiffChunk>, unknown: RiffChunk, after: seq<RiffChunk>, tail: seq<byte>)
    requires |sizeField| == 4 && |tail| < 8
    requires AllWellFormed(before) && unknown.WellFormed() && AllWellFormed(after)
    requires unknown.id != FMT && unknown.id != DATA
    ensures DecodeWav(FileOf(sizeField, before + [unknown] + after, tail)) ==
            DecodeWav(FileOf(sizeField, before + after, tail))
  {
    hide DecodeWav, ParseWavFmt, FileOf;
    DecodeWellFormed(sizeField, before + [unknown] + after, tail);
    DecodeWellFormed(sizeField, before + after, tail);
    forall id | id == FMT || id == DATA
      ensures LastBody(before + [unknown] + after, id) == LastBody(before + after, id)
    {
      LastBodySplit(before + [unknown], after, id);
      LastBodySplit(before, [unknown], id);
      LastBodySplit(before, after, id);
    }
    FirstBadFmtSplit(before + [unknown], after);
    FirstBadFmtSplit(before, [unknown]);
    FirstBadFmtSplit(before, after);
  }

  // ---- The fmt chunk ----

  /** A layout whose block alignment and byte rate fit their fields. */
  predicate FieldsFit(spec: PcmSpec) {
    2 * spec.channels < U16_LIMIT && ByteRate(spec) < U32_LIMIT
  }

  function ByteRate(spec: PcmSpec): nat {
    spec.sampleRateHz as int * (2 * spec.channels)
  }

  function FmtBody(spec: PcmSpec): seq<byte>
    requires FieldsFit(spec)
  {
    Le16(1) + Le16(spec.channels) + Le32(spec.sampleRateHz)
    + Le32(ByteRate(spec)) + Le16(2 * spec.channels) + Le16(16)
  }

  lemma Le16OfRead(b: seq<byte>)
    requires |b| == 2
    ensures Le16(ReadLe16(b)) == b
  {
  }

  lemma Le32OfRead(b: seq<byte>)
    requires |b| == 4
    ensures Le32(ReadLe32(b)) == b
  {
    var x := ReadLe32(b);
    assert x / 0x100 == b[1] as int + 0x100 * b[2] as int + 0x1_0000 * b[3] as int;
    assert x / 0x1_0000 == b[2] as int + 0x100 * b[3] as int;
  }

  /** A `fmt ` body is accepted exactly when its first sixteen bytes are the image of the layout. */
  lemma {:induction false} FmtAcceptsExactly(chunk: seq<byte>, spec: PcmSpec)
    ensures ParseWavFmt(chunk) == Ok(spec) <==>
            spec.Valid() && FieldsFit(spec) && |chunk| >= 16 && chunk[..16] == FmtBody(spec)
  {
    if spec.Valid() && FieldsFit(spec) && |chunk| >= 16 && chunk[..16] == FmtBody(spec) {
      FmtFields(chunk, spec);
      ReadLe16Inverts(1);
      ReadLe16Inverts(16);
      ReadLe16Inverts(spec.channels);
      ReadLe16Inverts(2 * spec.channels);
      ReadLe32Inverts(spec.sampleRateHz);
      ReadLe32Inverts(ByteRate(spec));
    }
    if ParseWavFmt(chunk) == Ok(spec) {
      Le16OfRead(chunk[0..2]);
      Le16OfRead(chunk[2..4]);
      Le32OfRead(chunk[4..8]);
      Le32OfRead(chunk[8..12]);
      Le16OfRead(chunk[12..14]);
      Le16OfRead(chunk[14..16]);
      assert chunk[..16] == chunk[0..2] + chunk[2..4] + chunk[4..8] + chunk[8..12] + chunk[12..14] + chunk[14..16];
    }
  }

  lemma FmtFields(chunk: seq<byte>, spec: PcmSpec)
    requires FieldsFit(spec) && |chunk| >= 16 && chunk[..16] == FmtBody(spec)
    ensures chunk[0..2] == Le16(1) && chunk[2..4] == Le16(spec.channels)
    ensures chunk[4..8] == Le32(spec.sampleRateHz)
    ensures chunk[8..12] == Le32(ByteRate(spec))
    ensures chunk[12..14] == Le16(2 * spec.channels) && chunk[14..16] == Le16(16)
  {
    var b := FmtBody(spec);
    assert forall i | 0 <= i < 16 :: chunk[i] == chunk[..16][i];
    assert chunk[0..2] == b[0..2] && chunk[2..4] == b[2..4] && chunk[4..8] == b[4..8];
    assert chunk[8..12] == b[8..12] && chunk[12..14] == b[12..14] && chunk[14..16] == b[14..16];
  }

  // ---- Encoding ----

  datatype EncodeError = InvalidSpec | NotFrameAligned | PayloadTooLarge | ByteRateTooLarge | BlockAlignTooLarge

  predicate DataFits(samples: seq<i16>) {
    36 + 2 * |samples| < U32_LIMIT
  }

  function CanonicalChunks(spec: PcmSpec, samples: seq<i16>): (chunks: seq<RiffChunk>)
    requires FieldsFit(spec) && DataFits(samples)
    ensures AllWellFormed(chunks)
  {
    [RiffChunk(FMT, FmtBody(spec), 0), RiffChunk(DATA, EncodeSamples(samples), 0)]
  }

  function CanonicalFile(spec: PcmSpec, samples: seq<i16>): seq<byte>
    requires FieldsFit(spec) && DataFits(samples)
  {
    FileOf(Le32(36 + 2 * |samples|), CanonicalChunks(spec, samples), [])
  }

  /** The encoder succeeds exactly on buffers whose sizes fit the 16- and 32-bit fields. */
  method EncodePcm16LeWav(spec: PcmSpec, samples: seq<i16>) returns (r: Result<seq<byte>, EncodeError>)
    ensures r.Ok? <==> PcmBuffer(spec, samples).Valid() && FieldsFit(spec) && DataFits(samples)
    ensures r.Ok? ==> r.value == CanonicalFile(spec, samples) && |r.value| == 44 + 2 * |samples|
    ensures r == Err(InvalidSpec) <==> !spec.Valid()
    ensures r == Err(NotFrameAligned) <==> spec.Valid() && !IsMultipleOf(|samples|, spec.channels)
    ensures r == Err(PayloadTooLarge) <==> PcmBuffer(spec, samples).Valid() && !DataFits(samples)
  {
    hide CheckedMul, FieldsFit, ByteRate, IsMultipleOf, CanonicalFile, Le16, Le32, EncodeSamples, DecodeSamples;
    if ValidateSpec(spec).Err? {
      return Err(InvalidSpec);
    }
    if !IsMultipleOf(|samples|, spec.channels) {
      return Err(NotFrameAligned);
    }
    var data := I16SamplesToLeBytes(samples);
    if |data| >= U32_LIMIT {
      return Err(PayloadTooLarge);
    }
    var dataLen: u32 := |data|;
    if 36 + dataLen >= U32_LIMIT {
      return Err(PayloadTooLarge);
    }
    var riffSize: u32 := 36 + dataLen;
    FieldChecks(spec);
    var rate := CheckedMul(spec.sampleRateHz, spec.channels, U32_LIMIT);
    if rate.None? {
      return Err(ByteRateTooLarge);
    }
    var doubled := CheckedMul(rate.value, 2, U32_LIMIT);
    if doubled.None? {
      return Err(ByteRateTooLarge);
    }
    var align := CheckedMul(spec.channels, 2, U16_LIMIT);
    if align.None? {
      return Err(BlockAlignTooLarge);
    }
    var byteRate: u32 := doubled.value;
    var blockAlign: u16 := align.value;
    assert byteRate == ByteRate(spec) && blockAlign == 2 * spec.channels;
    CanonicalLayout(spec, samples);
    var wav := RIFF;
    wav := wav + Le32(riffSize);
    wav := wav + WAVE;
    wav := wav + FMT;
    wav := wav + Le32(16);
    wav := wav + Le16(1);
    wav := wav + Le16(spec.channels);
    wav := wav + Le32(spec.sampleRateHz);
    wav := wav + Le32(byteRate);
    wav := wav + Le16(blockAlign);
    wav := wav + Le16(16);
    wav := wav + DATA;
    wav := wav + Le32(dataLen);
    wav := wav + data;
    r := Ok(wav);
  }

  /** The encoder's three checked products together decide whether the fields fit. */
  lemma FieldChecks(spec: PcmSpec)
    ensures
      var rate := CheckedMul(spec.sampleRateHz, spec.channels, U32_LIMIT);
      var align := CheckedMul(spec.channels, 2, U16_LIMIT);
      && (rate.Some? && CheckedMul(rate.value, 2, U32_LIMIT).Some? && align.Some? <==> FieldsFit(spec))
      && (FieldsFit(spec) ==> CheckedMul(rate.value, 2, U32_LIMIT).value == ByteRate(spec)
                              && align.value == 2 * spec.channels)
  {
    var r, c := spec.sampleRateHz as int, spec.channels as int;
    assert r * c * 2 == r * (2 * c) && r * c >= 0;
  }

  /** The canonical file field by field. */
  lemma {:induction false} CanonicalLayout(spec: PcmSpec, samples: seq<i16>)
    requires FieldsFit(spec) && DataFits(samples)
    ensures CanonicalFile(spec, samples) ==
            RIFF + Le32(36 + 2 * |samples|) + WAVE + FMT + Le32(16) + Le16(1) + Le16(spec.channels)
            + Le32(spec.sampleRateHz) + Le32(ByteRate(spec))
            + Le16(2 * spec.channels) + Le16(16) + DATA + Le32(2 * |samples|) + EncodeSamples(samples)
    ensures |CanonicalFile(spec, samples)| == 44 + 2 * |samples|
  {
    var chunks := CanonicalChunks(spec, samples);
    var fmt, data := chunks[0], chunks[1];
    assert chunks[1..] == [data];
    assert Serialize([data]) == data.Bytes();
    assert Serialize(chunks) + [] == fmt.Bytes() + data.Bytes();
    assert fmt.Bytes() == FMT + Le32(16) + FmtBody(spec);
    assert data.Bytes() == DATA + Le32(2 * |samples|) + EncodeSamples(samples);
  }

  /** The RIFF size field counts every byte after itself. */
  lemma {:induction false} RiffSizeCountsTheRest(spec: PcmSpec, samples: seq<i16>)
    requires FieldsFit(spec) && DataFits(samples)
    ensures ReadLe32(CanonicalFile(spec, samples)[4..8]) == |CanonicalFile(spec, samples)| - 8
  {
    hide Serialize, CanonicalChunks, Le32, ReadLe32, FileOf;
    ReadLe32Inverts(36 + 2 * |samples|);
    CanonicalLayout(spec, samples);
    FileParts(Le32(36 + 2 * |samples|), CanonicalChunks(spec, samples), []);
  }

  /** Decoding what the encoder writes gives back the layout and the samples. */
  lemma {:induction false} DecodeInvertsEncode(spec: PcmSpec, samples: seq<i16>)
    requires PcmBuffer(spec, samples).Valid() && FieldsFit(spec) && DataFits(samples)
    ensures DecodeWav(CanonicalFile(spec, samples)) == Ok(PcmBuffer(spec, samples))
  {
    hide DecodeWav, ParseWavFmt, FmtBody, FileOf, EncodeSamples, DecodeSamples, Le32, FieldsFit, IsMultipleOf;
    DecodeWellFormed(Le32(36 + 2 * |samples|), CanonicalChunks(spec, samples), []);
    FmtBodyParses(spec);
    Pcm.DecodeInvertsEncode(samples);
    TwoChunks(CanonicalChunks(spec, samples));
  }

  lemma FmtBodyParses(spec: PcmSpec)
    requires spec.Valid() && FieldsFit(spec)
    ensures ParseWavFmt(FmtBody(spec)) == Ok(spec)
  {
    assert FmtBody(spec)[..16] == FmtBody(spec);
    FmtAcceptsExactly(FmtBody(spec), spec);
  }

  lemma TwoChunks(chunks: seq<RiffChunk>)
    requires |chunks| == 2 && chunks[0].id == FMT && chunks[1].id == DATA
    ensures LastBody(chunks, FMT) == Some(chunks[0].body) && LastBody(chunks, DATA) == Some(chunks[1].body)
    ensures ParseWavFmt(chunks[0].body).Ok? ==> FirstBadFmt(chunks) == None
  {
    hide ParseWavFmt;
    assert DATA[0] != FMT[0];
    assert chunks[..1][0] == chunks[0] && chunks[1..][0] == chunks[1];
    assert FirstBadFmt(chunks[1..]) == None;
  }

  /** A decoded file always has a layout the encoder accepts. */
  lemma {:induction false} DecodedSpecFits(bytes: seq<byte>)
    requires DecodeWav(bytes).Ok?
    ensures DecodeWav(bytes).value.Valid() && FieldsFit(DecodeWav(bytes).value.spec)
  {
    var chunks := SplitChunks(bytes[12..]).0;
    ScanKeepsLast(Scan(None, None), chunks);
    var fmt := LastBody(chunks, FMT).value;
    FmtAcceptsExactly(fmt, ParseWavFmt(fmt).value);
  }

  /** Re-encoding a decoded file can fail only because the payload leaves no room for the header
      in the 32-bit RIFF size; otherwise the new file decodes to the same buffer. */
  lemma {:induction false} ReencodedFileDecodesAlike(bytes: seq<byte>)
    requires DecodeWav(bytes).Ok?
    ensures
      var pcm := DecodeWav(bytes).value;
      && pcm.Valid() && FieldsFit(pcm.spec)
      && (DataFits(pcm.samples) ==> DecodeWav(CanonicalFile(pcm.spec, pcm.samples)) == Ok(pcm))
  {
    DecodedSpecFits(bytes);
    var pcm := DecodeWav(bytes).value;
    if DataFits(pcm.samples) {
      DecodeInvertsEncode(pcm.spec, pcm.samples);
    }
  }
}
