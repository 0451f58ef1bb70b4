/** PCM layout, little-endian integers and signed 16-bit samples as bytes. */
module Pcm {
  import opened Results

  type byte = x: int | 0 <= x < 0x100
  type u16 = x: int | 0 <= x < 0x1_0000
  type u32 = x: int | 0 <= x < 0x1_0000_0000
  type i16 = x: int | -0x8000 <= x < 0x8000

  const U32_LIMIT: nat := 0x1_0000_0000
  const U16_LIMIT: nat := 0x1_0000

  datatype PcmSpec = PcmSpec(sampleRateHz: u32, channels: u16) {
    predicate Valid() {
      sampleRateHz != 0 && channels != 0
    }
  }

  datatype PcmBuffer = PcmBuffer(spec: PcmSpec, samples: seq<i16>) {
    /** The invariant every constructor of a buffer establishes. */
    predicate Valid() {
      spec.Valid() && IsMultipleOf(|samples|, spec.channels)
    }

    function FrameLen(): nat
      requires Valid()
    {
      |samples| / spec.channels
    }
  }

  datatype AudioError =
    | InvalidSampleRate
    | InvalidChannelCount
    | UnalignedSamples(samples: nat, channels: u16)
    | OddPcmByteCount(count: nat)
    | InvalidWav(reason: WavReason)
    | InvalidChunkFrameCount
    | SourceExhausted
    | RecorderAlreadyRecording
    | RecorderNotRecording

  datatype WavReason =
    | MissingHeader | ChunkPastEnd | FmtTooShort | NotPcmTag | Not16Bit
    | BlockAlignOverflow | BlockAlignMismatch | ByteRateOverflow | ByteRateMismatch
    | MissingFmt | MissingData | OddData

  predicate IsMultipleOf(n: nat, divisor: nat)
    requires divisor > 0
  {
    n % divisor == 0
  }

  function CheckedMul(a: nat, b: nat, limit: nat): (r: Option<nat>)
    ensures r.Some? ==> r.value < limit
  {
    if a * b < limit then Some(a * b) else None
  }

  function ValidateSpec(spec: PcmSpec): Result<PcmSpec, AudioError> {
    if spec.sampleRateHz == 0 then Err(InvalidSampleRate)
    else if spec.channels == 0 then Err(InvalidChannelCount)
    else Ok(spec)
  }

  /** A buffer is built exactly when the layout is valid and the samples form whole frames. */
  function WithSpec(spec: PcmSpec, samples: seq<i16>): (r: Result<PcmBuffer, AudioError>)
    ensures r.Ok? <==> PcmBuffer(spec, samples).Valid()
    ensures r.Ok? ==> r.value == PcmBuffer(spec, samples)
  {
    match ValidateSpec(spec)
    case Err(e) => Err(e)
    case Ok(_) =>
      if !IsMultipleOf(|samples|, spec.channels) then Err(UnalignedSamples(|samples|, spec.channels))
      else Ok(PcmBuffer(spec, samples))
  }

  function FromPcm16Le(spec: PcmSpec, bytes: seq<byte>): Result<PcmBuffer, AudioError> {
    if |bytes| % 2 != 0 then Err(OddPcmByteCount(|bytes|))
    else WithSpec(spec, DecodeSamples(bytes))
  }

  // Little-endian integers.

  function Le16(x: u16): (b: seq<byte>)
    ensures |b| == 2
  {
    [x % 0x100, x / 0x100]
  }

  function Le32(x: u32): (b: seq<byte>)
    ensures |b| == 4
  {
    [x % 0x100, x / 0x100 % 0x100, x / 0x1_0000 % 0x100, x / 0x100_0000]
  }

  function ReadLe16(b: seq<byte>): u16
    requires |b| == 2
  {
    b[0] as int + 0x100 * b[1] as int
  }

  function ReadLe32(b: seq<byte>): u32
    requires |b| == 4
  {
    b[0] as int + 0x100 * b[1] as int + 0x1_0000 * b[2] as int + 0x100_0000 * b[3] as int
  }

  lemma ReadLe16Inverts(x: u16)
    ensures ReadLe16(Le16(x)) == x
  {
  }

  lemma ReadLe32Inverts(x: u32)
    ensures ReadLe32(Le32(x)) == x
  {
    var a, b := x / 0x100, x / 0x1_0000;
    assert b == a / 0x100 && x / 0x100_0000 == b / 0x100;
  }

  // Parts of a byte sequence.

  function Slice(bytes: seq<byte>, start: nat, end: nat): (s: seq<byte>)
    requires start <= end <= |bytes|
    ensures |s| == end - start
  {
    bytes[start..end]
  }

  function From(bytes: seq<byte>, offset: nat): (s: seq<byte>)
    ensures |s| == if offset <= |bytes| then |bytes| - offset else 0
  {
    if offset <= |bytes| then bytes[offset..] else []
  }

  lemma SliceOfFrom(bytes: seq<byte>, offset: nat, start: nat, end: nat)
    requires start <= end && offset + end <= |bytes|
    ensures Slice(From(bytes, offset), start, end) == Slice(bytes, offset + start, offset + end)
  {
  }

  lemma FromOfFrom(bytes: seq<byte>, offset: nat, next: nat)
    ensures From(From(bytes, offset), next) == From(bytes, offset + next)
  {
  }

  // Signed samples in two's complement.

  function SampleByte(s: i16, k: nat): byte
    requires k < 2
  {
    var u: u16 := if s < 0 then s + 0x1_0000 else s;
    if k == 0 then u % 0x100 else u / 0x100
  }

  function SampleOf(lo: byte, hi: byte): i16 {
    var u := lo as int + 0x100 * hi as int;
    if u < 0x8000 then u else u - 0x1_0000
  }

  /** The byte image of a sample sequence. */
  function EncodeSamples(samples: seq<i16>): (bytes: seq<byte>)
    ensures |bytes| == 2 * |samples|
  {
    seq(2 * |samples|, i requires 0 <= i < 2 * |samples| => SampleByte(samples[i / 2], i % 2))
  }

  /** Whole little-endian pairs; an odd trailing byte is dropped. */
  function DecodeSamples(bytes: seq<byte>): seq<i16> {
    seq(|bytes| / 2, i requires 0 <= i < |bytes| / 2 => SampleOf(bytes[2 * i], bytes[2 * i + 1]))
  }

  lemma {:induction false} DecodeInvertsEncode(samples: seq<i16>)
    ensures DecodeSamples(EncodeSamples(samples)) == samples
  {
  }

  /** An odd byte at the end is lost, and nothing else. */
  lemma {:induction false} EncodeInvertsDecode(bytes: seq<byte>)
    ensures EncodeSamples(DecodeSamples(bytes)) == bytes[..|bytes| - |bytes| % 2]
    ensures |bytes| % 2 == 0 ==> EncodeSamples(DecodeSamples(bytes)) == bytes
  {
    assert |bytes| - |bytes| % 2 == 2 * (|bytes| / 2);
  }

  /** The low byte comes first, and negative samples are in two's complement. */
  lemma LowByteFirst()
    ensures Le16(0x1234) == [0x34, 0x12] && Le32(0x1234_5678) == [0x78, 0x56, 0x34, 0x12]
    ensures EncodeSamples([0x1234, -2]) == [0x34, 0x12, 0xFE, 0xFF]
  {
  }

  /** Bytes make a buffer if and only if they are whole samples, the samples are whole frames and the
      layout is valid; nothing is lost then. */
  lemma {:induction false} BytesMakeABuffer(spec: PcmSpec, bytes: seq<byte>)
    ensures
      var r := FromPcm16Le(spec, bytes);
      && (r.Ok? <==> |bytes| % 2 == 0 && spec.Valid() && IsMultipleOf(|bytes| / 2, spec.channels))
      && (r.Ok? ==> r.value.Valid() && r.value.spec == spec && EncodeSamples(r.value.samples) == bytes)
  {
    hide EncodeSamples, SampleOf, IsMultipleOf;
    if |bytes| % 2 == 0 {
      EncodeInvertsDecode(bytes);
    }
  }

  lemma EncodeConcat(a: seq<i16>, b: seq<i16>)
    ensures EncodeSamples(a + b) == EncodeSamples(a) + EncodeSamples(b)
  {
  }

  method I16SamplesToLeBytes(samples: seq<i16>) returns (bytes: seq<byte>)
    ensures |bytes| == 2 * |samples|
    ensures DecodeSamples(bytes) == samples
    ensures bytes == EncodeSamples(samples)
  {
    bytes := [];
    for i := 0 to |samples|
      invariant bytes == EncodeSamples(samples[..i])
    {
      EncodeConcat(samples[..i], [samples[i]]);
      assert samples[..i + 1] == samples[..i] + [samples[i]];
      var pair := [SampleByte(samples[i], 0), SampleByte(samples[i], 1)];
      assert pair == EncodeSamples([samples[i]]);
      bytes := bytes + pair;
    }
    assert samples[..|samples|] == samples;
    DecodeInvertsEncode(samples);
  }
}
