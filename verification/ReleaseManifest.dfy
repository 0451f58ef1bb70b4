/** Assembling a release bundle and verifying one. */
module ReleaseManifest {
  import opened Results
  import opened Pcm
  import opened Sorting
  import opened Checksums

  // ---- Files and JSON ----

  datatype Node = File(bytes: seq<byte>) | Link | Directory | Special

  /** A bundle directory, one level deep. */
  type Bundle = map<string, Node>

  /** The keys of the manifest's objects. */
  datatype Key =
    | SchemaVersion | Package | ChecksumFile | Artifacts
    | Name | Version | Architecture | Role | Size | Sha256
    | OtherKey(text: string)

  /** JSON values; a float is its 64-bit IEEE 754 pattern. */
  datatype Json =
    | Null
    | Bool(b: bool)
    | Int(n: int)
    | Float(bits: nat)
    | Str(s: string)
    | Arr(items: seq<Json>)
    | Obj(fields: map<Key, Json>)

  /** SHA-256 in hexadecimal, UTF-8, and JSON text. */
  datatype World = World(
    sha256: seq<byte> -> string,
    encode: string -> seq<byte>, decode: seq<byte> -> Option<string>,
    dump: Json -> string, load: string -> Option<Json>)

  const MANIFEST_NAME := "manifest.json"
  const CHECKSUMS_NAME := "SHA256SUMS"
  const MANIFEST_SIGNATURE_NAME := "manifest.json.sig"

  predicate Reserved(name: string) {
    name == MANIFEST_NAME || name == CHECKSUMS_NAME || name == MANIFEST_SIGNATURE_NAME
  }

  predicate Alphanumeric(c: char) {
    '0' <= c <= '9' || 'a' <= c <= 'z' || 'A' <= c <= 'Z'
  }

  predicate NameChar(c: char) {
    Alphanumeric(c) || c in {'.', '_', '+', '@', '-'}
  }

  predicate SafeName(name: string) {
    name != "" && (forall c | c in name :: NameChar(c)) && name != "." && name != ".." && !Reserved(name)
  }

  predicate RoleChar(c: char) {
    '0' <= c <= '9' || 'a' <= c <= 'z' || c in {'.', '_', '-'}
  }

  predicate SafeRole(role: string) {
    role != "" && (forall c | c in role :: RoleChar(c)) && role[0] !in {'.', '_', '-'}
  }

  // ---- The manifest ----

  datatype Record = Record(name: string, role: string, size: int, digest: string)

  datatype Manifest = Manifest(
    package: string, version: string, architecture: string, checksumSize: int, checksumDigest: string,
        artifacts: seq<Json>)

  predicate NonEmpty(json: Json) {
    json.Str? && json.s != ""
  }

  const FLOAT_ONE: nat := 0x3FF0_0000_0000_0000

  /** Python's `1`, `True` and `1.0` are equal. */
  predicate IsOne(json: Json) {
    json == Int(1) || json == Bool(true) || json == Float(FLOAT_ONE)
  }

  function ReadManifest(json: Json): Option<Manifest> {
    if !json.Obj? || json.fields.Keys != {SchemaVersion, Package, ChecksumFile, Artifacts} then None
    else
      var package, sums, artifacts := json.fields[Package], json.fields[ChecksumFile], json.fields[Artifacts];
      if !IsOne(json.fields[SchemaVersion]) then None
      else if !package.Obj? || package.fields.Keys != {Name, Version, Architecture} then None
      else if !NonEmpty(package.fields[Name]) || !NonEmpty(package.fields[Version])
              || !NonEmpty(package.fields[Architecture]) then None
      else if !sums.Obj? || sums.fields.Keys != {Name, Size, Sha256} then None
      else if sums.fields[Name] != Str(CHECKSUMS_NAME) then None
      else if !sums.fields[Size].Int? || sums.fields[Size].n < 0 then None
      else if !sums.fields[Sha256].Str? || !IsDigest(sums.fields[Sha256].s) then None
      else if !artifacts.Arr? || artifacts.items == [] then None
      else Some(Manifest(package.fields[Name].s, package.fields[Version].s, package.fields[Architecture].s,
                         sums.fields[Size].n, sums.fields[Sha256].s, artifacts.items))
  }

  /** The schema version may be anything Python takes for one, `true` and `1.0` included, and which of
      them it is makes no difference. */
  lemma AnyOneIsAVersion(json: Json, version: Json)
    requires ReadManifest(json).Some?
    ensures ReadManifest(Obj(json.fields[SchemaVersion := version])) ==
            if IsOne(version) then ReadManifest(json) else None
    ensures IsOne(Bool(true)) && IsOne(Float(FLOAT_ONE)) && !IsOne(Str("1"))
  {
    hide IsDigest;
    assert json.fields[SchemaVersion := version].Keys == json.fields.Keys;
  }

  /** One artifact record on its own. */
  function ReadRecord(json: Json): Option<Record> {
    if !json.Obj? || json.fields.Keys != {Name, Role, Size, Sha256} then None
    else
      var name, role, size, digest := json.fields[Name], json.fields[Role], json.fields[Size], json.fields[Sha256];
      if !name.Str? || !SafeName(name.s) || !role.Str? || !SafeRole(role.s) then None
      else if !size.Int? || size.n < 0 || !digest.Str? || !IsDigest(digest.s) then None
      else Some(Record(name.s, role.s, size.n, digest.s))
  }

  function RecordJson(record: Record): Json {
    Obj(map[Name := Str(record.name), Role := Str(record.role), Size := Int(record.size), Sha256 := Str(record.digest)])
  }

  function ManifestJson(manifest: Manifest): Json {
    Obj(map[
      SchemaVersion := Int(1),
      Package := Obj(map[Name := Str(manifest.package), Version := Str(manifest.version),
                         Architecture := Str(manifest.architecture)]),
      ChecksumFile := Obj(map[Name := Str(CHECKSUMS_NAME), Size := Int(manifest.checksumSize),
                              Sha256 := Str(manifest.checksumDigest)]),
      Artifacts := Arr(manifest.artifacts)])
  }

  function RecordName(record: Record): string {
    record.name
  }

  function RecordRole(record: Record): string {
    record.role
  }

  /** The checksum entries a manifest stands for. */
  function Entries(records: seq<Record>): seq<Entry> {
    if records == [] then []
    else Entries(records[..|records| - 1]) + [Entry(records[|records| - 1].digest, records[|records| - 1].name)]
  }

  function ReadRecords(items: seq<Json>): Option<seq<Record>>
    decreases |items|
  {
    if items == [] then Some([])
    else
      var before, last := ReadRecords(items[..|items| - 1]), ReadRecord(items[|items| - 1]);
      if before.None? || last.None? then None else Some(before.value + [last.value])
  }

  // ---- What makes a bundle acceptable ----

  predicate Holds(world: World, bundle: Bundle, record: Record) {
    && record.name in bundle
    && bundle[record.name].File?
    && |bundle[record.name].bytes| == record.size
    && world.sha256(bundle[record.name].bytes) == record.digest
  }

  /** The manifest, its records and its checksum list agree with each other... */
  predicate Consistent(world: World, manifest: Manifest, records: seq<Record>, sums: seq<byte>) {
    && DistinctBy(RecordName, records) && DistinctBy(RecordRole, records) && OrderedBy(RecordName, records)
    && |sums| == manifest.checksumSize && world.sha256(sums) == manifest.checksumDigest
    && var text := world.decode(sums);
    text.Some? && ParseText(text.value) == Ok(Entries(records))
  }

  /** ...and with the files: every recorded artifact is there unaltered, and nothing else is, except
      the manifest, the checksum list and perhaps a signature. */
  predicate Complete(world: World, bundle: Bundle, records: seq<Record>) {
    && (forall record | record in records :: Holds(world, bundle, record))
    && (forall name | name in bundle :: bundle[name].File?)
    && forall name | name in bundle :: Reserved(name) || exists record :: record in records && record.name == name
  }

  function ManifestOf(world: World, bundle: Bundle): Option<Manifest> {
    if MANIFEST_NAME !in bundle || !bundle[MANIFEST_NAME].File? then None
    else match world.decode(bundle[MANIFEST_NAME].bytes)
      case None => None
      case Some(text) => match world.load(text)
        case None => None
        case Some(json) => ReadManifest(json)
  }

  predicate Acceptable(world: World, bundle: Bundle) {
    && CHECKSUMS_NAME in bundle && bundle[CHECKSUMS_NAME].File?
    && var manifest := ManifestOf(world, bundle);
    && manifest.Some?
    && var records := ReadRecords(manifest.value.artifacts);
    && records.Some?
    && Consistent(world, manifest.value, records.value, bundle[CHECKSUMS_NAME].bytes)
    && Complete(world, bundle, records.value)
  }

  // ---- The verifier ----

  lemma {:induction false} ReadPrefix(items: seq<Json>, i: nat)
    requires i <= |items| && ReadRecords(items).Some?
    ensures ReadRecords(items[..i]).Some? && ReadRecords(items[..i]).value <= ReadRecords(items).value
    decreases |items|
  {
    hide ReadRecord;
    if i == |items| {
      assert items[..i] == items;
    } else {
      assert items[..|items| - 1][..i] == items[..i];
      ReadPrefix(items[..|items| - 1], i);
    }
  }

  lemma DistinctPrefix<T(!new)>(key: T -> string, prefix: seq<T>, xs: seq<T>)
    requires prefix <= xs && DistinctBy(key, xs)
    ensures DistinctBy(key, prefix)
  {
  }

  /** All records, if each is well formed and no name and no role occurs twice. */
  function DistinctRecords(items: seq<Json>): Option<seq<Record>> {
    var records := ReadRecords(items);
    if records.Some? && DistinctBy(RecordName, records.value) && DistinctBy(RecordRole, records.value) then records
        else None
  }

  method CheckRecords(items: seq<Json>) returns (r: Option<seq<Record>>)
    ensures r == DistinctRecords(items)
  {
    hide ReadRecord, DistinctBy, NamesIn, RolesIn;
    var records: seq<Record> := [];
    var names: set<string>, roles: set<string> := {}, {};
    NothingIsDistinct();
    assert items[..0] == [];
    for i := 0 to |items|
      invariant ReadRecords(items[..i]) == Some(records)
      invariant DistinctBy(RecordName, records) && DistinctBy(RecordRole, records)
      invariant names == NamesIn(records) && roles == RolesIn(records)
    {
      var read := ReadRecord(items[i]);
      assert items[..i + 1][..i] == items[..i];
      RejectedPrefix(items, i + 1);
      if read.None? {
        return None;
      }
      OneMoreRecord(records, read.value);
      if read.value.name in names || read.value.role in roles {
        return None;
      }
      names, roles := names + {read.value.name}, roles + {read.value.role};
      records := records + [read.value];
    }
    assert items[..|items|] == items;
    return Some(records);
  }

  function NamesIn(records: seq<Record>): set<string> {
    set record | record in records :: record.name
  }

  function RolesIn(records: seq<Record>): set<string> {
    set record | record in records :: record.role
  }

  lemma OneMoreRecord(before: seq<Record>, record: Record)
    requires DistinctBy(RecordName, before) && DistinctBy(RecordRole, before)
    ensures DistinctBy(RecordName, before + [record]) <==> record.name !in NamesIn(before)
    ensures DistinctBy(RecordRole, before + [record]) <==> record.role !in RolesIn(before)
    ensures NamesIn(before + [record]) == NamesIn(before) + {record.name}
    ensures RolesIn(before + [record]) == RolesIn(before) + {record.role}
  {
    hide DistinctBy;
    DistinctAppend(RecordName, before, record);
    DistinctAppend(RecordRole, before, record);
    assert record.name in NamesIn(before) <==> exists r :: r in before && RecordName(r) == record.name;
    assert record.role in RolesIn(before) <==> exists r :: r in before && RecordRole(r) == record.role;
  }

  lemma NothingIsDistinct()
    ensures DistinctBy(RecordName, []) && DistinctBy(RecordRole, []) && NamesIn([]) == {} && RolesIn([]) == {}
  {
  }

  /** Records that cannot be read or repeat something spoil every longer list. */
  lemma RejectedPrefix(items: seq<Json>, i: nat)
    requires i <= |items|
    ensures DistinctRecords(items[..i]).None? ==> DistinctRecords(items).None?
  {
    hide DistinctBy, ReadRecords;
    if DistinctRecords(items).Some? {
      ReadPrefix(items, i);
      DistinctPrefix(RecordName, ReadRecords(items[..i]).value, ReadRecords(items).value);
      DistinctPrefix(RecordRole, ReadRecords(items[..i]).value, ReadRecords(items).value);
    }
  }

  method CheckFiles(world: World, bundle: Bundle, records: seq<Record>) returns (ok: bool)
    ensures ok <==> forall record | record in records :: Holds(world, bundle, record)
  {
    hide Holds;
    for i := 0 to |records|
      invariant forall k | 0 <= k < i :: Holds(world, bundle, records[k])
    {
      if !Holds(world, bundle, records[i]) {
        return false;
      }
    }
    return true;
  }

  /** The inventory: nothing but plain files, and exactly the expected names. */
  predicate Inventory(bundle: Bundle, names: set<string>) {
    && (forall name | name in bundle :: bundle[name].File?)
    && bundle.Keys == names + {MANIFEST_NAME, CHECKSUMS_NAME} + bundle.Keys * {MANIFEST_SIGNATURE_NAME}
  }

  lemma InventoryIff(world: World, bundle: Bundle, records: seq<Record>, names: set<string>)
    requires names == NamesIn(records)
    requires forall record | record in records :: Holds(world, bundle, record)
    requires MANIFEST_NAME in bundle && CHECKSUMS_NAME in bundle
    ensures Inventory(bundle, names) <==> Complete(world, bundle, records)
  {
    hide Holds;
    forall record | record in records
      ensures record.name in bundle
    {
      HeldIsThere(world, bundle, record);
    }
    if Complete(world, bundle, records) {
      forall name | name in bundle
        ensures name in names || Reserved(name)
      {
      }
    }
  }

  lemma HeldIsThere(world: World, bundle: Bundle, record: Record)
    requires Holds(world, bundle, record)
    ensures record.name in bundle
  {
  }

  /** Accepts exactly the acceptable bundles. */
  method VerifyBundle(world: World, bundle: Bundle) returns (accepted: bool)
    ensures accepted <==> Acceptable(world, bundle)
  {
    hide ReadManifest, DistinctBy, OrderedBy, SortBy, ReadRecords, ParseText, Entries, Complete, Inventory, Holds;
    var manifest := ManifestOf(world, bundle);
    if manifest.None? || CHECKSUMS_NAME !in bundle || !bundle[CHECKSUMS_NAME].File? {
      return false;
    }
    var sums := bundle[CHECKSUMS_NAME].bytes;
    if |sums| != manifest.value.checksumSize || world.sha256(sums) != manifest.value.checksumDigest {
      return false;
    }
    var records := CheckRecords(manifest.value.artifacts);
    if records.None? {
      return false;
    }
    SortFacts(RecordName, records.value);
    if records.value != SortBy(RecordName, records.value) {
      return false;
    }
    var text := world.decode(sums);
    if text.None? {
      return false;
    }
    var parsed := ParseChecksumFile(text.value);
    if parsed != Ok(Entries(records.value)) {
      return false;
    }
    var held := CheckFiles(world, bundle, records.value);
    if !held {
      MissingIsIncomplete(world, bundle, records.value);
      return false;
    }
    var names := NamesIn(records.value);
    InventoryIff(world, bundle, records.value, names);
    return Inventory(bundle, names);
  }

  lemma MissingIsIncomplete(world: World, bundle: Bundle, records: seq<Record>)
    requires exists record :: record in records && !Holds(world, bundle, record)
    ensures !Complete(world, bundle, records)
  {
    hide Holds;
  }
}
