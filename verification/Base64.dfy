/** The hand-written Base64 encoder of the command provider, against section 4 of RFC 4648. */
module Base64 {
  import opened Results
  import opened Pcm

  const TABLE: string := "ABCDEFGHIJKLMNOPQRSTUVWXYZ" + "abcdefghijklmnopqrstuvwxyz" + "0123456789+/"

  /** The character RFC 4648 gives a value. */
  function AlphabetAt(x: nat): char
    requires x < 64
  {
    if x < 26 then ('A' as nat + x) as char
    else if x < 52 then ('a' as nat + x - 26) as char
    else if x < 62 then ('0' as nat + x - 52) as char
    else if x == 62 then '+'
    else '/'
  }

  lemma TableIsTheAlphabet(x: nat)
    requires x < 64
    ensures TABLE[x] == AlphabetAt(x)
  {
  }

  // ---- The decoder section 4 of RFC 4648 describes ----

  /** The value of an alphabet character. */
  function Sextet(c: char): (r: Option<nat>)
    ensures r.Some? ==> r.value < 64
  {
    if 'A' <= c <= 'Z' then Some((c - 'A') as nat)
    else if 'a' <= c <= 'z' then Some((c - 'a') as nat + 26)
    else if '0' <= c <= '9' then Some((c - '0') as nat + 52)
    else if c == '+' then Some(62)
    else if c == '/' then Some(63)
    else None
  }

  // The bytes in a group of sextets, and the sextets of up to three bytes. Shifts and masks are written
  // as quotients and remainders.

  function Byte0(s0: nat, s1: nat): nat { s0 * 4 + s1 / 16 }
  function Byte1(s1: nat, s2: nat): nat { s1 % 16 * 16 + s2 / 4 }
  function Byte2(s2: nat, s3: nat): nat { s2 % 4 * 64 + s3 }

  function Sextet0(b0: nat): nat { b0 / 4 }
  function Sextet1(b0: nat, b1: nat): nat { b0 % 4 * 16 + b1 / 16 }
  function Sextet2(b1: nat, b2: nat): nat { b1 % 16 * 4 + b2 / 64 }
  function Sextet3(b2: nat): nat { b2 % 64 }

  lemma BytesAreSmall(s0: nat, s1: nat, s2: nat, s3: nat)
    requires s0 < 64 && s1 < 64 && s2 < 64 && s3 < 64
    ensures Byte0(s0, s1) < 256 && Byte1(s1, s2) < 256 && Byte2(s2, s3) < 256
  {
  }

  lemma SextetsAreSmall(b0: byte, b1: byte, b2: byte)
    ensures Sextet0(b0) < 64 && Sextet1(b0, b1) < 64 && Sextet2(b1, b2) < 64 && Sextet3(b2) < 64
  {
  }

  /** The sextets of three bytes give the bytes back; those of fewer bytes end in zero bits. */
  lemma BytesReassemble(b0: byte, b1: byte, b2: byte)
    ensures Byte0(Sextet0(b0), Sextet1(b0, b1)) == b0
    ensures Byte1(Sextet1(b0, b1), Sextet2(b1, b2)) == b1
    ensures Byte2(Sextet2(b1, b2), Sextet3(b2)) == b2
    ensures Sextet1(b0, 0) % 16 == 0 && Sextet2(b1, 0) % 4 == 0
  {
  }

  /** One group of four characters, the last group possibly padded; unused bits must be zero. */
  function DecodeGroup(c: seq<char>): Option<seq<byte>>
    requires |c| == 4
  {
    var s0, s1, s2, s3 := Sextet(c[0]), Sextet(c[1]), Sextet(c[2]), Sextet(c[3]);
    if s0.None? || s1.None? then None
    else if c[2] == '=' && c[3] == '=' then
      BytesAreSmall(s0.value, s1.value, 0, 0);
      if s1.value % 16 == 0 then Some([Byte0(s0.value, s1.value)]) else None
    else if s2.None? then None
    else if c[3] == '=' then
      BytesAreSmall(s0.value, s1.value, s2.value, 0);
      if s2.value % 4 == 0 then Some([Byte0(s0.value, s1.value), Byte1(s1.value, s2.value)]) else None
    else if s3.None? then None
    else
      BytesAreSmall(s0.value, s1.value, s2.value, s3.value);
      Some([Byte0(s0.value, s1.value), Byte1(s1.value, s2.value), Byte2(s2.value, s3.value)])
  }

  function Decode(text: string): Option<seq<byte>>
    decreases |text|
  {
    if text == "" then Some([])
    else if |text| < 4 then None
    else
      var group := DecodeGroup(text[..4]);
      if group.None? || (|group.value| < 3 && |text| > 4) then None
      else match Decode(text[4..])
        case None => None
        case Some(rest) => Some(group.value + rest)
  }

  // ---- The encoder ----

  function Letter(sextet: nat): char
    requires sextet < 64
  {
    TABLE[sextet]
  }

  /** The four characters of one chunk of one to three bytes. */
  function EncodeChunk(chunk: seq<byte>): (s: string)
    requires 1 <= |chunk| <= 3
    ensures |s| == 4
  {
    var b0 := chunk[0];
    var b1: byte := if |chunk| > 1 then chunk[1] else 0;
    var b2: byte := if |chunk| > 2 then chunk[2] else 0;
    SextetsAreSmall(b0, b1, b2);
    [Letter(Sextet0(b0)), Letter(Sextet1(b0, b1)),
     if |chunk| > 1 then Letter(Sextet2(b1, b2)) else '=',
     if |chunk| > 2 then Letter(Sextet3(b2)) else '=']
  }

  function ChunkLen(bytes: seq<byte>): (n: nat)
    ensures n <= 3 && n <= |bytes| && (bytes != [] ==> n > 0)
  {
    if |bytes| < 3 then |bytes| else 3
  }

  function Encode(bytes: seq<byte>): string
    decreases |bytes|
  {
    if bytes == [] then ""
    else EncodeChunk(Slice(bytes, 0, ChunkLen(bytes))) + Encode(From(bytes, ChunkLen(bytes)))
  }

  /** The body of the encoder's loop: one chunk's four characters. */
  method EncodeGroup(chunk: seq<byte>) returns (s: string)
    requires 1 <= |chunk| <= 3
    ensures s == EncodeChunk(chunk) && DecodeGroup(s) == Some(chunk)
  {
    hide Letter, Sextet0, Sextet1, Sextet2, Sextet3, DecodeGroup;
    GroupInvertsChunk(chunk);
    var b0 := chunk[0];
    var b1: byte := if |chunk| > 1 then chunk[1] else 0;
    var b2: byte := if |chunk| > 2 then chunk[2] else 0;
    SextetsAreSmall(b0, b1, b2);
    s := [Letter(Sextet0(b0))];
    s := s + [Letter(Sextet1(b0, b1))];
    if |chunk| > 1 {
      s := s + [Letter(Sextet2(b1, b2))];
    } else {
      s := s + ['='];
    }
    if |chunk| > 2 {
      s := s + [Letter(Sextet3(b2))];
    } else {
      s := s + ['='];
    }
  }

  lemma EncodeAt(bytes: seq<byte>, i: nat, end: nat)
    requires i < |bytes| && end == if |bytes| - i < 3 then |bytes| else i + 3
    ensures Encode(From(bytes, i)) == EncodeChunk(Slice(bytes, i, end)) + Encode(From(bytes, end))
  {
    hide Slice, From, EncodeChunk;
    SliceOfFrom(bytes, i, 0, end - i);
    FromOfFrom(bytes, i, end - i);
  }

  method EncodeBase64(bytes: seq<byte>) returns (output: string)
    ensures Decode(output) == Some(bytes)
    ensures output == Encode(bytes)
  {
    hide Slice, From, EncodeChunk, Decode, Encode;
    output := "";
    var i := 0;
    AllFrom(bytes);
    while i < |bytes|
      invariant i <= |bytes|
      invariant output + Encode(From(bytes, i)) == Encode(bytes)
    {
      var end := if |bytes| - i < 3 then |bytes| else i + 3;
      EncodeAt(bytes, i, end);
      var group := EncodeGroup(Slice(bytes, i, end));
      assert output + (group + Encode(From(bytes, end))) == output + group + Encode(From(bytes, end));
      output := output + group;
      i := end;
    }
    assert output + "" == output;
    DecodeInvertsEncode(bytes);
  }

  lemma AllFrom(bytes: seq<byte>)
    ensures From(bytes, 0) == bytes && Encode(From(bytes, |bytes|)) == ""
  {
    assert From(bytes, |bytes|) == [];
  }

  lemma SextetInvertsLetter(x: nat)
    requires x < 64
    ensures Sextet(Letter(x)) == Some(x) && Letter(x) != '='
  {
    TableIsTheAlphabet(x);
  }

  lemma {:induction false} GroupInvertsChunk(chunk: seq<byte>)
    requires 1 <= |chunk| <= 3
    ensures DecodeGroup(EncodeChunk(chunk)) == Some(chunk)
  {
    hide Sextet, Letter, Sextet0, Sextet1, Sextet2, Sextet3, Byte0, Byte1, Byte2;
    var b0 := chunk[0];
    var b1: byte := if |chunk| > 1 then chunk[1] else 0;
    var b2: byte := if |chunk| > 2 then chunk[2] else 0;
    SextetsAreSmall(b0, b1, b2);
    BytesReassemble(b0, b1, b2);
    SextetInvertsLetter(Sextet0(b0));
    SextetInvertsLetter(Sextet1(b0, b1));
    SextetInvertsLetter(Sextet2(b1, b2));
    SextetInvertsLetter(Sextet3(b2));
    assert DecodeGroup(EncodeChunk(chunk)).value == chunk;
  }

  lemma {:induction false} DecodeInvertsEncode(bytes: seq<byte>)
    ensures Decode(Encode(bytes)) == Some(bytes)
    decreases |bytes|
  {
    hide DecodeGroup, EncodeChunk, Slice, From, ChunkLen;
    if bytes != [] {
      var n := ChunkLen(bytes);
      GroupInvertsChunk(Slice(bytes, 0, n));
      DecodeInvertsEncode(From(bytes, n));
      HeadAndRest(EncodeChunk(Slice(bytes, 0, n)), Encode(From(bytes, n)));
      SplitOff(bytes, n);
      OnlyLastIsShort(bytes);
    }
  }

  lemma HeadAndRest(head: string, rest: string)
    requires |head| == 4
    ensures (head + rest)[..4] == head && (head + rest)[4..] == rest
  {
  }

  lemma SplitOff(bytes: seq<byte>, n: nat)
    requires n <= |bytes|
    ensures Slice(bytes, 0, n) + From(bytes, n) == bytes
  {
  }

  lemma OnlyLastIsShort(bytes: seq<byte>)
    ensures ChunkLen(bytes) < 3 ==> From(bytes, ChunkLen(bytes)) == []
  {
  }

  /** Four characters for every three bytes, rounded up. */
  function EncodedLen(n: nat): nat {
    (n + 2) / 3 * 4
  }

  /** How many characters of the last group are padding. */
  function Padding(n: nat): nat {
    if n % 3 == 0 then 0 else 3 - n % 3
  }

  lemma ThreeMore(n: nat)
    ensures EncodedLen(n + 3) == EncodedLen(n) + 4 && Padding(n + 3) == Padding(n)
  {
    ThirdsOf(n + 2);
    ThirdsOf(n);
  }

  lemma ThirdsOf(n: nat)
    ensures (n + 3) / 3 == n / 3 + 1 && (n + 3) % 3 == n % 3
  {
    assert n + 3 == 3 * (n / 3 + 1) + n % 3;
  }

  lemma AtMostThree(n: nat)
    requires n <= 3
    ensures EncodedLen(n) == (if n == 0 then 0 else 4) && (n > 0 ==> Padding(n) == 3 - n)
  {
  }

  /** The length of the text, and where padding stands, are decided by the number of bytes alone. */
  lemma {:induction false} EncodedShape(bytes: seq<byte>)
    ensures
      var text := Encode(bytes);
      && |text| == EncodedLen(|bytes|)
      && (|bytes| > 0 ==>
            |text| >= 4
            && (text[|text| - 1] == '=' <==> Padding(|bytes|) >= 1)
            && (text[|text| - 2] == '=' <==> Padding(|bytes|) == 2))
    decreases |bytes|
  {
    hide Slice, From, EncodeChunk, EncodedLen, Padding;
    AtMostThree(if |bytes| <= 3 then |bytes| else 0);
    if |bytes| > 3 {
      ThreeMore(|bytes| - 3);
      EncodedShape(From(bytes, 3));
      var chunk, text, rest := Slice(bytes, 0, 3), Encode(bytes), Encode(From(bytes, 3));
      assert text == EncodeChunk(chunk) + rest;
      assert text[|text| - 1] == rest[|rest| - 1] && text[|text| - 2] == rest[|rest| - 2];
    } else if bytes != [] {
      var chunk := Slice(bytes, 0, |bytes|);
      ChunkPadding(chunk);
      assert From(bytes, |bytes|) == [];
      assert Encode(bytes) == EncodeChunk(chunk) + [];
    }
  }

  lemma ChunkPadding(chunk: seq<byte>)
    requires 1 <= |chunk| <= 3
    ensures (EncodeChunk(chunk)[3] == '=' <==> |chunk| < 3) && (EncodeChunk(chunk)[2] == '=' <==> |chunk| == 1)
  {
    hide Letter, Sextet, Sextet0, Sextet1, Sextet2, Sextet3;
    var b1: byte := if |chunk| > 1 then chunk[1] else 0;
    var b2: byte := if |chunk| > 2 then chunk[2] else 0;
    SextetsAreSmall(chunk[0], b1, b2);
    SextetInvertsLetter(Sextet2(b1, b2));
    SextetInvertsLetter(Sextet3(b2));
  }

  /** A line's audio field decodes, byte by byte and sample by sample, to the samples it was made of. */
  lemma {:induction false} AudioFieldRoundTrip(samples: seq<i16>)
    ensures Decode(Encode(EncodeSamples(samples))).Some?
    ensures DecodeSamples(Decode(Encode(EncodeSamples(samples))).value) == samples
  {
    DecodeInvertsEncode(EncodeSamples(samples));
    Pcm.DecodeInvertsEncode(samples);
  }
}
