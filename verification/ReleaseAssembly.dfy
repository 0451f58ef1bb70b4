/** Assembling a release bundle; whatever is assembled passes verification. */
module ReleaseAssembly {
  import opened Results
  import opened Pcm
  import opened Sorting
  import opened Checksums
  import opened ReleaseManifest

  /** An artifact argument: its role, and the file its path resolves to. */
  datatype Source = Source(role: string, inside: bool, regular: bool, name: string, bytes: seq<byte>)

  datatype Package = Package(name: string, version: string, architecture: string)

  /** What is at the output path. */
  datatype Output = Absent | NotADirectory | Existing(bundle: Bundle)

  datatype AssembleError =
    | RootOutput
    | InvalidRole
    | InsideOutput
    | NotRegular
    | UnsafeName
    | DuplicateArtifact
    | DuplicateRole
    | OutputExists
    | InvalidOutput
    | RejectedBundle

  function SourceName(source: Source): string {
    source.name
  }

  function SourceRole(source: Source): string {
    source.role
  }

  predicate Usable(source: Source) {
    SafeRole(source.role) && !source.inside && source.regular && SafeName(source.name)
  }

  predicate SourcesOk(sources: seq<Source>) {
    && (forall source | source in sources :: Usable(source))
    && DistinctBy(SourceName, sources) && DistinctBy(SourceRole, sources)
  }

  predicate OutputOk(world: World, output: Output, force: bool) {
    output.Absent? || (output.Existing? && force && Acceptable(world, output.bundle))
  }

  predicate Named(package: Package) {
    package.name != "" && package.version != "" && package.architecture != ""
  }

  // ---- What is built ----

  function RecordOf(world: World, source: Source): Record {
    Record(source.name, source.role, |source.bytes|, world.sha256(source.bytes))
  }

  function RecordsOf(world: World, sources: seq<Source>): seq<Record> {
    if sources == [] then [] else RecordsOf(world, sources[..|sources| - 1]) + [RecordOf(world, sources[|sources| - 1])]
  }

  function JsonOf(records: seq<Record>): seq<Json> {
    if records == [] then [] else JsonOf(records[..|records| - 1]) + [RecordJson(records[|records| - 1])]
  }

  /** A manifest as the assembler writes it. */
  function RecordsManifest(package: Package, size: int, digest: string, records: seq<Record>): Json {
    ManifestJson(Manifest(package.name, package.version, package.architecture, size, digest, JsonOf(records)))
  }

  /** Digests are digests, text without carriage returns reads back as UTF-8, and the assembler's manifests
      read back both as text and as JSON. */
  ghost predicate Sound(world: World) {
    && (forall bytes :: IsDigest(world.sha256(bytes)))
    && (forall text | '\r' !in text :: world.decode(world.encode(text)) == Some(text))
    && (forall package, size, digest, records ::
          var json := RecordsManifest(package, size, digest, records);
          && world.decode(world.encode(world.dump(json))) == Some(world.dump(json))
          && world.load(world.dump(json)) == Some(json))
  }

  function Copied(sources: seq<Source>): Bundle {
    if sources == [] then map[]
    else Copied(sources[..|sources| - 1])[sources[|sources| - 1].name := File(sources[|sources| - 1].bytes)]
  }

  function SumsOf(world: World, records: seq<Record>): seq<byte> {
    world.encode(ChecksumText(Entries(records)))
  }

  function ManifestFor(world: World, package: Package, records: seq<Record>): Manifest {
    var sums := SumsOf(world, records);
    Manifest(package.name, package.version, package.architecture, |sums|, world.sha256(sums), JsonOf(records))
  }

  function Built(world: World, package: Package, sources: seq<Source>): Bundle {
    var records := SortBy(RecordName, RecordsOf(world, sources));
    Copied(sources)[CHECKSUMS_NAME := File(SumsOf(world, records))]
    [MANIFEST_NAME := File(world.encode(world.dump(ManifestJson(ManifestFor(world, package, records)))))]
  }

  // ---- Why it is acceptable ----

  lemma {:induction false} RecordsFacts(world: World, sources: seq<Source>)
    requires SourcesOk(sources)
    ensures
      var records := RecordsOf(world, sources);
      && |records| == |sources|
      && DistinctBy(RecordName, records) && DistinctBy(RecordRole, records)
      && forall i | 0 <= i < |sources| :: records[i] == RecordOf(world, sources[i])
    decreases |sources|
  {
    hide Usable, RecordOf;
    RecordsAt(world, sources);
    var records := RecordsOf(world, sources);
    forall i, j | 0 <= i < j < |records|
      ensures RecordName(records[i]) != RecordName(records[j]) && RecordRole(records[i]) != RecordRole(records[j])
    {
      assert SourceName(sources[i]) != SourceName(sources[j]) && SourceRole(sources[i]) != SourceRole(sources[j]);
      RecordKeeps(world, sources[i]);
      RecordKeeps(world, sources[j]);
    }
  }

  lemma RecordKeeps(world: World, source: Source)
    ensures RecordOf(world, source).name == source.name && RecordOf(world, source).role == source.role
  {
  }

  lemma {:induction false} RecordsAt(world: World, sources: seq<Source>)
    ensures |RecordsOf(world, sources)| == |sources|
    ensures forall i | 0 <= i < |sources| :: RecordsOf(world, sources)[i] == RecordOf(world, sources[i])
    decreases |sources|
  {
    hide RecordOf;
    if sources != [] {
      RecordsAt(world, sources[..|sources| - 1]);
    }
  }

  lemma {:induction false} EntriesAt(records: seq<Record>)
    ensures |Entries(records)| == |records|
    ensures forall i | 0 <= i < |records| :: Entries(records)[i] == Entry(records[i].digest, records[i].name)
    decreases |records|
  {
    if records != [] {
      EntriesAt(records[..|records| - 1]);
    }
  }

  lemma {:induction false} CopiedFacts(sources: seq<Source>)
    requires DistinctBy(SourceName, sources)
    ensures forall i | 0 <= i < |sources| ::
              sources[i].name in Copied(sources) && Copied(sources)[sources[i].name] == File(sources[i].bytes)
    ensures forall name | name in Copied(sources) :: exists i :: 0 <= i < |sources| && sources[i].name == name
    decreases |sources|
  {
    if sources != [] {
      var init, last := sources[..|sources| - 1], sources[|sources| - 1];
      DistinctPrefix(SourceName, init, sources);
      CopiedFacts(init);
      forall i | 0 <= i < |init|
        ensures sources[i].name != last.name
      {
        assert SourceName(sources[i]) != SourceName(sources[|init|]);
      }
    }
  }

  lemma {:induction false} RecordsReadBack(records: seq<Record>)
    requires forall record | record in records :: WellFormed(record)
    ensures ReadRecords(JsonOf(records)) == Some(records)
    decreases |records|
  {
    hide WellFormed, RecordJson, ReadRecord;
    if records != [] {
      var init, last := records[..|records| - 1], records[|records| - 1];
      RecordsReadBack(init);
      RecordReadsBack(RecordJson(last), last);
      assert JsonOf(records)[..|JsonOf(records)| - 1] == JsonOf(init);
      assert records == init + [last];
    }
  }

  predicate WellFormed(record: Record) {
    SafeName(record.name) && SafeRole(record.role) && record.size >= 0 && IsDigest(record.digest)
  }

  /** A record is read from its own image and from nothing else, and only if it is well formed. */
  lemma RecordReadsBack(json: Json, record: Record)
    ensures ReadRecord(json) == Some(record) <==> WellFormed(record) && json == RecordJson(record)
  {
    hide SafeName, SafeRole, IsDigest;
    if ReadRecord(json) == Some(record) {
      assert json.fields == RecordJson(record).fields;
    }
  }

  lemma {:induction false} ManifestReadsBack(manifest: Manifest)
    requires manifest.checksumSize >= 0 && IsDigest(manifest.checksumDigest) && manifest.artifacts != []
    ensures
      var named := manifest.package != "" && manifest.version != "" && manifest.architecture != "";
      ReadManifest(ManifestJson(manifest)) == if named then Some(manifest) else None
  {
    hide IsDigest;
  }

  /** A manifest is read from its own image, and from what differs from it in the schema version by
      something that equals one. */
  lemma {:induction false} ManifestReadIff(json: Json, manifest: Manifest)
    ensures ReadManifest(json) == Some(manifest) <==>
            && manifest.package != "" && manifest.version != "" && manifest.architecture != ""
            && manifest.checksumSize >= 0 && IsDigest(manifest.checksumDigest) && manifest.artifacts != []
            && json.Obj? && SchemaVersion in json.fields && IsOne(json.fields[SchemaVersion])
            && Obj(json.fields[SchemaVersion := Int(1)]) == ManifestJson(manifest)
  {
    hide IsDigest, IsOne;
    if ReadManifest(json) == Some(manifest) {
      var image := ManifestJson(manifest).fields;
      assert json.fields[Key.Package].fields == image[Key.Package].fields;
      assert json.fields[ChecksumFile].fields == image[ChecksumFile].fields;
      assert json.fields[SchemaVersion := Int(1)] == image;
    } else if json.Obj? && SchemaVersion in json.fields
              && Obj(json.fields[SchemaVersion := Int(1)]) == ManifestJson(manifest) {
      var image := ManifestJson(manifest).fields;
      assert json.fields.Keys == image.Keys;
      assert forall key | key in image && key != SchemaVersion :: json.fields[key] == image[key];
    }
  }

  lemma WellFormedPrints(record: Record)
    requires WellFormed(record)
    ensures Printable(Entry(record.digest, record.name))
  {
    hide IsDigest, SafeRole;
  }

  lemma ChecksumsReadBack(records: seq<Record>)
    requires forall record | record in records :: WellFormed(record)
    requires OrderedBy(RecordName, records) && DistinctBy(RecordName, records)
    ensures ParseText(ChecksumText(Entries(records))) == Ok(Entries(records))
    ensures '\r' !in ChecksumText(Entries(records))
  {
    hide WellFormed, Printable, ParseText, ChecksumText, Entries;
    EntriesAt(records);
    var entries := Entries(records);
    forall entry | entry in entries
      ensures Printable(entry)
    {
      var i :| 0 <= i < |entries| && entries[i] == entry;
      assert records[i] in records;
      WellFormedPrints(records[i]);
    }
    forall i | 0 <= i < |entries| - 1
      ensures Leq(NameOf(entries[i]), NameOf(entries[i + 1]))
    {
      assert Leq(RecordName(records[i]), RecordName(records[i + 1]));
    }
    forall i, j | 0 <= i < j < |entries|
      ensures NameOf(entries[i]) != NameOf(entries[j])
    {
      assert RecordName(records[i]) != RecordName(records[j]);
    }
    ParseInvertsChecksums(entries);
    PrintedHasNoReturn(entries);
  }

  /** The records of usable sources, sorted, are what the verifier asks for. */
  lemma {:induction false} SortedRecords(world: World, sources: seq<Source>)
    requires Sound(world) && SourcesOk(sources)
    ensures
      var records := SortBy(RecordName, RecordsOf(world, sources));
      && |records| == |sources|
      && (forall record | record in records :: WellFormed(record))
      && OrderedBy(RecordName, records) && DistinctBy(RecordName, records) && DistinctBy(RecordRole, records)
      && (forall record | record in records :: exists i :: 0 <= i < |sources| && record == RecordOf(world, sources[i]))
      && (forall i | 0 <= i < |sources| :: RecordOf(world, sources[i]) in records)
  {
    hide SafeName, SafeRole, IsDigest, OrderedBy, DistinctBy, SortBy;
    var made := RecordsOf(world, sources);
    RecordsFacts(world, sources);
    SortFacts(RecordName, made);
    SortKeepsDistinct(RecordName, RecordName, made);
    SortKeepsDistinct(RecordName, RecordRole, made);
    var records := SortBy(RecordName, made);
    forall record | record in records
      ensures WellFormed(record) && exists i :: 0 <= i < |sources| && record == RecordOf(world, sources[i])
    {
      var i :| 0 <= i < |made| && made[i] == record;
      assert Usable(sources[i]);
      assert IsDigest(world.sha256(sources[i].bytes));
    }
    forall i | 0 <= i < |sources|
      ensures RecordOf(world, sources[i]) in records
    {
      assert made[i] in made;
    }
  }

  lemma ReservedNames()
    ensures MANIFEST_NAME != CHECKSUMS_NAME
    ensures Reserved(MANIFEST_NAME) && Reserved(CHECKSUMS_NAME)
  {
  }

  lemma UsableIsUnreserved(source: Source)
    requires Usable(source)
    ensures source.name != MANIFEST_NAME && source.name != CHECKSUMS_NAME
  {
  }

  lemma {:induction false} BuiltIsComplete(world: World, package: Package, sources: seq<Source>)
    requires Sound(world) && SourcesOk(sources)
    ensures Complete(world, Built(world, package, sources), SortBy(RecordName, RecordsOf(world, sources)))
  {
    hide Usable, SortBy, OrderedBy, DistinctBy, WellFormed, Sound, SumsOf, ManifestFor, ManifestJson, Reserved;
    SortedRecords(world, sources);
    CopiedFacts(sources);
    ReservedNames();
    var bundle, records := Built(world, package, sources), SortBy(RecordName, RecordsOf(world, sources));
    forall record | record in records
      ensures Holds(world, bundle, record)
    {
      var i :| 0 <= i < |sources| && record == RecordOf(world, sources[i]);
      UsableIsUnreserved(sources[i]);
    }
    forall name | name in bundle
      ensures bundle[name].File? && (Reserved(name) || exists record :: record in records && record.name == name)
    {
      if name != MANIFEST_NAME && name != CHECKSUMS_NAME {
        var i :| 0 <= i < |sources| && sources[i].name == name;
        assert RecordOf(world, sources[i]) in records && RecordOf(world, sources[i]).name == name;
      }
    }
  }

  lemma {:induction false} BuiltIsConsistent(world: World, package: Package, sources: seq<Source>)
    requires Sound(world) && SourcesOk(sources)
    ensures
      var records := SortBy(RecordName, RecordsOf(world, sources));
      var manifest := ManifestFor(world, package, records);
      && ReadRecords(manifest.artifacts) == Some(records)
      && Consistent(world, manifest, records, SumsOf(world, records))
  {
    hide WellFormed, SortBy, OrderedBy, DistinctBy, ReadRecords, ParseText, ChecksumText, Entries;
    SortedRecords(world, sources);
    var records := SortBy(RecordName, RecordsOf(world, sources));
    RecordsReadBack(records);
    ChecksumsReadBack(records);
    assert world.decode(SumsOf(world, records)) == Some(ChecksumText(Entries(records)));
  }

  /** What is built from usable sources passes verification exactly when the package has a name, a
      version and an architecture and there is at least one source. */
  lemma {:induction false} BuiltIsAcceptable(world: World, package: Package, sources: seq<Source>)
    requires Sound(world) && SourcesOk(sources)
    ensures Acceptable(world, Built(world, package, sources)) <==> Named(package) && sources != []
  {
    hide SourcesOk, SortBy, ReadManifest, ReadRecords, Consistent, Complete, IsDigest, SumsOf, JsonOf, ManifestJson,
         RecordsOf;
    var bundle, records := Built(world, package, sources), SortBy(RecordName, RecordsOf(world, sources));
    var manifest := ManifestFor(world, package, records);
    ReservedNames();
    SortedLength(world, sources);
    BuiltIsConsistent(world, package, sources);
    BuiltIsComplete(world, package, sources);
    var text := world.dump(ManifestJson(manifest));
    assert ManifestJson(manifest) == RecordsManifest(package, manifest.checksumSize, manifest.checksumDigest, records);
    assert world.decode(world.encode(text)) == Some(text) && world.load(text) == Some(ManifestJson(manifest));
    assert ManifestOf(world, bundle) == ReadManifest(ManifestJson(manifest));
    assert IsDigest(world.sha256(SumsOf(world, records)));
    if sources != [] {
      ManifestReadsBack(manifest);
    } else {
      NothingToRelease(manifest);
    }
  }

  lemma SortedLength(world: World, sources: seq<Source>)
    requires Sound(world) && SourcesOk(sources)
    ensures JsonOf(SortBy(RecordName, RecordsOf(world, sources))) == [] <==> sources == []
  {
    hide SortBy, SourcesOk, Sound;
    SortedRecords(world, sources);
  }

  lemma NothingToRelease(manifest: Manifest)
    requires manifest.artifacts == []
    ensures ReadManifest(ManifestJson(manifest)) == None
  {
  }

  // ---- The assembler ----

  method CheckSources(sources: seq<Source>) returns (r: Option<AssembleError>)
    ensures r.None? <==> SourcesOk(sources)
    ensures r != Some(RejectedBundle)
  {
    hide SourcesOk, Usable, SafeRole, NamesOf, RolesOf;
    var names: set<string>, roles: set<string> := {}, {};
    assert sources[..0] == [];
    NoSources();
    for i := 0 to |sources|
      invariant SourcesOk(sources[..i]) && names == NamesOf(sources[..i]) && roles == RolesOf(sources[..i])
    {
      var source := sources[i];
      assert sources[..i + 1] == sources[..i] + [source];
      SourcesPrefix(sources, i + 1);
      OneMoreSource(sources[..i], source);
      if !Usable(source) {
        return Some(if !SafeRole(source.role) then InvalidRole else if source.inside then InsideOutput
                    else if !source.regular then NotRegular else UnsafeName);
      }
      if source.name in names {
        return Some(DuplicateArtifact);
      }
      if source.role in roles {
        return Some(DuplicateRole);
      }
      names, roles := names + {source.name}, roles + {source.role};
    }
    assert sources[..|sources|] == sources;
    return None;
  }

  function NamesOf(sources: seq<Source>): set<string> {
    set source | source in sources :: source.name
  }

  function RolesOf(sources: seq<Source>): set<string> {
    set source | source in sources :: source.role
  }

  lemma OneMoreSource(before: seq<Source>, source: Source)
    ensures SourcesOk(before + [source]) <==>
            SourcesOk(before) && Usable(source) && source.name !in NamesOf(before) && source.role !in RolesOf(before)
    ensures NamesOf(before + [source]) == NamesOf(before) + {source.name}
    ensures RolesOf(before + [source]) == RolesOf(before) + {source.role}
  {
    hide Usable, DistinctBy;
    DistinctAppend(SourceName, before, source);
    DistinctAppend(SourceRole, before, source);
    var more := before + [source];
    assert source in more && forall s | s in before :: s in more;
    assert source.name in NamesOf(before) <==> exists s :: s in before && SourceName(s) == source.name;
    assert source.role in RolesOf(before) <==> exists s :: s in before && SourceRole(s) == source.role;
  }

  lemma NoSources()
    ensures SourcesOk([]) && NamesOf([]) == {} && RolesOf([]) == {}
  {
  }

  lemma SourcesPrefix(sources: seq<Source>, i: nat)
    requires i <= |sources|
    ensures SourcesOk(sources) ==> SourcesOk(sources[..i])
  {
    hide Usable, DistinctBy;
    if SourcesOk(sources) {
      DistinctPrefix(SourceName, sources[..i], sources);
      DistinctPrefix(SourceRole, sources[..i], sources);
    }
  }

  /** Builds the bundle in a staging directory and verifies it before it replaces the output. The
      verification fails only for an unnamed package or for lack of artifacts. */
  method Assemble(
      world: World, package: Package, sources: seq<Source>, root: bool, output: Output, force: bool)
    returns (r: Result<Bundle, AssembleError>)
    requires Sound(world)
    ensures r.Ok? <==> !root && SourcesOk(sources) && OutputOk(world, output, force) && Named(package) && sources != []
    ensures r.Ok? ==> Acceptable(world, r.value) && r.value == Built(world, package, sources)
    ensures r == Err(RejectedBundle) ==> !Named(package) || sources == []
  {
    hide Acceptable, SourcesOk, SortBy, ChecksumText, Entries, ManifestJson, Sound;
    if root {
      return Err(RootOutput);
    }
    var unusable := CheckSources(sources);
    if unusable.Some? {
      return Err(unusable.value);
    }
    if !output.Absent? {
      if !force {
        return Err(OutputExists);
      }
      if output.NotADirectory? {
        return Err(InvalidOutput);
      }
      var valid := VerifyBundle(world, output.bundle);
      if !valid {
        return Err(InvalidOutput);
      }
    }
    var staging: Bundle := map[];
    var records: seq<Record> := [];
    assert sources[..0] == [];
    for i := 0 to |sources|
      invariant staging == Copied(sources[..i]) && records == RecordsOf(world, sources[..i])
    {
      assert sources[..i + 1][..i] == sources[..i];
      staging := staging[sources[i].name := File(sources[i].bytes)];
      records := records + [RecordOf(world, sources[i])];
    }
    assert sources[..|sources|] == sources;
    var sorted := SortBy(RecordName, records);
    var sums := world.encode(ChecksumText(Entries(sorted)));
    staging := staging[CHECKSUMS_NAME := File(sums)];
    var manifest := Manifest(package.name, package.version, package.architecture, |sums|, world.sha256(sums),
        JsonOf(sorted));
    staging := staging[MANIFEST_NAME := File(world.encode(world.dump(ManifestJson(manifest))))];
    BuiltIsAcceptable(world, package, sources);
    var accepted := VerifyBundle(world, staging);
    return if accepted then Ok(staging) else Err(RejectedBundle);
  }

  /** In an accepted bundle every file but the metadata is listed in the checksum list with its
      digest, and everything listed is there. */
  lemma AcceptedIsListed(world: World, bundle: Bundle, name: string)
    requires Acceptable(world, bundle) && !Reserved(name)
    ensures
      var entries := ParseText(world.decode(bundle[CHECKSUMS_NAME].bytes).value).value;
      if name in bundle then bundle[name].File? && Entry(world.sha256(bundle[name].bytes), name) in entries
      else forall entry | entry in entries :: entry.name != name
  {
    hide ReadManifest, ReadRecords, ParseText, Entries, OrderedBy, DistinctBy, Reserved;
    var records := ReadRecords(ManifestOf(world, bundle).value.artifacts).value;
    EntriesAt(records);
    var entries := Entries(records);
    if name in bundle {
      var record :| record in records && record.name == name;
      assert Holds(world, bundle, record);
      var i :| 0 <= i < |records| && records[i] == record;
      assert entries[i] == Entry(record.digest, name);
    } else {
      forall entry | entry in entries
        ensures entry.name != name
      {
        var i :| 0 <= i < |entries| && entries[i] == entry;
        assert Holds(world, bundle, records[i]);
      }
    }
  }

  /** Every record that is read stands in the manifest as its own image. */
  lemma {:induction false} RecordsAreImages(items: seq<Json>)
    requires ReadRecords(items).Some?
    ensures
      var records := ReadRecords(items).value;
      && |records| == |items|
      && forall i | 0 <= i < |items| :: WellFormed(records[i]) && items[i] == RecordJson(records[i])
    decreases |items|
  {
    hide WellFormed, RecordJson, ReadRecord;
    if items != [] {
      var before, last := items[..|items| - 1], items[|items| - 1];
      RecordsAreImages(before);
      RecordReadsBack(last, ReadRecord(last).value);
      assert forall i | 0 <= i < |before| :: items[i] == before[i];
    }
  }

  /** The manifest's image of a file: its name, some role, its size and its digest. */
  predicate Recorded(world: World, artifacts: seq<Json>, name: string, bytes: seq<byte>, role: string) {
    RecordJson(Record(name, role, |bytes|, world.sha256(bytes))) in artifacts
  }

  /** The manifest of an accepted bundle tells size and digest of the checksum list and of every file that
      is no metadata. */
  lemma {:induction false} AcceptedIsRecorded(world: World, bundle: Bundle, name: string)
    requires Acceptable(world, bundle)
    ensures
      var manifest, sums := ManifestOf(world, bundle).value, bundle[CHECKSUMS_NAME].bytes;
      && manifest.checksumSize == |sums| && manifest.checksumDigest == world.sha256(sums)
      && (name in bundle && !Reserved(name) ==>
            bundle[name].File? && exists role :: Recorded(world, manifest.artifacts, name, bundle[name].bytes, role))
  {
    hide ReadManifest, ReadRecords, ParseText, Entries, OrderedBy, DistinctBy, Reserved, RecordJson;
    var manifest := ManifestOf(world, bundle).value;
    var records := ReadRecords(manifest.artifacts).value;
    RecordsAreImages(manifest.artifacts);
    if name in bundle && !Reserved(name) {
      var record :| record in records && record.name == name;
      assert Holds(world, bundle, record);
      var i :| 0 <= i < |records| && records[i] == record;
      assert manifest.artifacts[i] == RecordJson(record);
      assert record == Record(name, record.role, |bundle[name].bytes|, world.sha256(bundle[name].bytes));
      assert Recorded(world, manifest.artifacts, name, bundle[name].bytes, record.role);
    }
  }
}
