/** There are worlds of the kind the assembler relies on. */
module ReleaseWorld {
  import opened Results
  import opened Pcm
  import opened Checksums
  import opened ReleaseManifest
  import opened ReleaseAssembly

  // ---- Self-delimiting text ----

  /** A text from which the original and what follows it can be told apart. */
  function Mark(s: string): string {
    if s == "" then "0" else "1" + [s[0]] + Mark(s[1..])
  }

  lemma {:induction false} MarkInjective(a: string, x: string, b: string, y: string)
    requires Mark(a) + x == Mark(b) + y
    ensures a == b && x == y
    decreases |a|
  {
    var text := Mark(a) + x;
    if a == "" {
      assert text[0] == '0';
      assert b == "" && text[1..] == x && (Mark(b) + y)[1..] == y;
    } else {
      assert text[0] == '1' && b != "";
      assert text[2..] == Mark(a[1..]) + x && (Mark(b) + y)[2..] == Mark(b[1..]) + y;
      assert text[1] == a[0] && (Mark(b) + y)[1] == b[0];
      MarkInjective(a[1..], x, b[1..], y);
      assert a == [a[0]] + a[1..] && b == [b[0]] + b[1..];
    }
  }

  function Ones(n: nat): (s: string)
    ensures |s| == n && forall c | c in s :: c == '1'
  {
    if n == 0 then "" else "1" + Ones(n - 1)
  }

  function Tally(n: int): string {
    if n >= 0 then Ones(n) else "-" + Ones(-n)
  }

  lemma TallySign(n: int)
    ensures n < 0 <==> '-' in Tally(n)
  {
    if n < 0 {
      assert Tally(n)[0] == '-';
    }
  }

  lemma TallyInjective(a: int, b: int)
    requires Tally(a) == Tally(b)
    ensures a == b
  {
    TallySign(a);
    TallySign(b);
  }

  function RecordText(r: Record): string {
    Mark(r.name) + (Mark(r.role) + (Mark(Tally(r.size)) + Mark(r.digest)))
  }

  lemma RecordInjective(a: Record, x: string, b: Record, y: string)
    requires RecordText(a) + x == RecordText(b) + y
    ensures a == b && x == y
  {
    hide Mark, Tally;
    Regroup(Mark(a.name), Mark(a.role), Mark(Tally(a.size)), Mark(a.digest), x);
    Regroup(Mark(b.name), Mark(b.role), Mark(Tally(b.size)), Mark(b.digest), y);
    MarkInjective(a.name, Mark(a.role) + (Mark(Tally(a.size)) + (Mark(a.digest) + x)),
                  b.name, Mark(b.role) + (Mark(Tally(b.size)) + (Mark(b.digest) + y)));
    MarkInjective(a.role, Mark(Tally(a.size)) + (Mark(a.digest) + x), b.role,
        Mark(Tally(b.size)) + (Mark(b.digest) + y));
    MarkInjective(Tally(a.size), Mark(a.digest) + x, Tally(b.size), Mark(b.digest) + y);
    MarkInjective(a.digest, x, b.digest, y);
    TallyInjective(a.size, b.size);
  }

  lemma Regroup(p: string, q: string, r: string, s: string, x: string)
    ensures p + (q + (r + s)) + x == p + (q + (r + (s + x)))
  {
  }

  function RecordsText(records: seq<Record>): string {
    if records == [] then "0" else "1" + (RecordText(records[0]) + RecordsText(records[1..]))
  }

  lemma {:induction false} RecordsInjective(a: seq<Record>, b: seq<Record>)
    requires RecordsText(a) == RecordsText(b)
    ensures a == b
    decreases |a|
  {
    hide RecordText;
    if a == [] {
      assert RecordsText(a)[0] == '0';
    } else {
      assert RecordsText(a)[0] == '1';
      assert RecordsText(a)[1..] == RecordText(a[0]) + RecordsText(a[1..]);
      assert RecordsText(b)[1..] == RecordText(b[0]) + RecordsText(b[1..]);
      RecordInjective(a[0], RecordsText(a[1..]), b[0], RecordsText(b[1..]));
      RecordsInjective(a[1..], b[1..]);
      assert a == [a[0]] + a[1..] && b == [b[0]] + b[1..];
    }
  }

  datatype Contents = Contents(package: Package, size: int, digest: string, records: seq<Record>)

  /** The header is written like a record, the architecture in front. */
  function ContentsText(m: Contents): string {
    Mark(m.package.architecture)
    + (RecordText(Record(m.package.name, m.package.version, m.size, m.digest)) + RecordsText(m.records))
  }

  lemma ContentsInjective(a: Contents, b: Contents)
    requires ContentsText(a) == ContentsText(b)
    ensures a == b
  {
    hide Mark, RecordText, RecordsText;
    var ha := Record(a.package.name, a.package.version, a.size, a.digest);
    var hb := Record(b.package.name, b.package.version, b.size, b.digest);
    MarkInjective(a.package.architecture, RecordText(ha) + RecordsText(a.records),
                  b.package.architecture, RecordText(hb) + RecordsText(b.records));
    RecordInjective(ha, RecordsText(a.records), hb, RecordsText(b.records));
    RecordsInjective(a.records, b.records);
  }

  // ---- A world ----

  function JsonFor(m: Contents): Json {
    RecordsManifest(m.package, m.size, m.digest, m.records)
  }

  ghost predicate IsDumped(json: Json) {
    exists m :: JsonFor(m) == json
  }

  ghost function Dump(json: Json): string {
    if IsDumped(json) then
      var m :| JsonFor(m) == json;
      ContentsText(m)
    else ""
  }

  ghost predicate IsLoaded(text: string) {
    exists m :: ContentsText(m) == text
  }

  ghost function Load(text: string): Option<Json> {
    if IsLoaded(text) then
      var m :| ContentsText(m) == text;
      Some(JsonFor(m))
    else None
  }

  lemma LoadInvertsDump(m: Contents)
    ensures Load(Dump(JsonFor(m))) == Some(JsonFor(m))
  {
    hide ContentsText, JsonFor;
    assert IsDumped(JsonFor(m));
    var n :| JsonFor(n) == JsonFor(m) && Dump(JsonFor(m)) == ContentsText(n);
    assert IsLoaded(ContentsText(n));
    var o :| ContentsText(o) == ContentsText(n) && Load(ContentsText(n)) == Some(JsonFor(o));
    ContentsInjective(n, o);
  }

  function CharBytes(c: char): seq<byte> {
    [(c as int / 0x1_0000) % 0x100, c as int / 0x100 % 0x100, c as int % 0x100]
  }

  lemma CharInjective(c: char, d: char)
    requires CharBytes(c) == CharBytes(d)
    ensures c == d
  {
    assert CharBytes(c)[0] == CharBytes(d)[0] && CharBytes(c)[1] == CharBytes(d)[1]
           && CharBytes(c)[2] == CharBytes(d)[2];
    CharParts(c as int);
    CharParts(d as int);
  }

  lemma CharParts(n: nat)
    ensures n < 0x100_0000 ==> n == n / 0x1_0000 % 0x100 * 0x1_0000 + n / 0x100 % 0x100 * 0x100 + n % 0x100
  {
  }

  function Encode(text: string): (bytes: seq<byte>)
    ensures |bytes| == 3 * |text|
  {
    if text == "" then [] else CharBytes(text[0]) + Encode(text[1..])
  }

  lemma {:induction false} EncodeInjective(a: string, b: string)
    requires Encode(a) == Encode(b)
    ensures a == b
    decreases |a|
  {
    hide CharBytes;
    if a != "" {
      ThreeEach(a);
      ThreeEach(b);
      CharInjective(a[0], b[0]);
      EncodeInjective(a[1..], b[1..]);
      assert a == [a[0]] + a[1..] && b == [b[0]] + b[1..];
    }
  }

  lemma ThreeEach(text: string)
    ensures text != "" ==> Encode(text)[..3] == CharBytes(text[0]) && Encode(text)[3..] == Encode(text[1..])
  {
  }

  ghost predicate IsEncoded(bytes: seq<byte>) {
    exists text :: Encode(text) == bytes
  }

  ghost function Decode(bytes: seq<byte>): Option<string> {
    if IsEncoded(bytes) then
      var text :| Encode(text) == bytes;
      Some(text)
    else None
  }

  lemma DecodeInvertsEncode(text: string)
    ensures Decode(Encode(text)) == Some(text)
  {
    hide Encode;
    assert IsEncoded(Encode(text));
    EncodeInjective(Decode(Encode(text)).value, text);
  }

  function Sha256(bytes: seq<byte>): (digest: string)
    ensures IsDigest(digest)
  {
    seq(64, _ => '0')
  }

  /** The demands on a world can be met. */
  lemma SoundWorldExists() returns (world: World)
    ensures Sound(world)
  {
    hide Encode, Decode, Dump, Load, ManifestJson, Sha256;
    world := World(Sha256, Encode, Decode, Dump, Load);
    forall text: string
      ensures world.decode(world.encode(text)) == Some(text)
    {
      DecodeInvertsEncode(text);
    }
    forall package: Package, size: int, digest: string, records: seq<Record>
      ensures
        var json := RecordsManifest(package, size, digest, records);
        world.load(world.dump(json)) == Some(json)
    {
      LoadInvertsDump(Contents(package, size, digest, records));
    }
  }
}
