/** The staged replacement of a config file: temporary, backup, rename. */
module ConfigWrite {
  import opened Results
  import opened Pcm

  type Name = string

  /** The contents of all files. Every atomic step of the file system leads to a new disk. */
  type Disk = map<Name, seq<byte>>

  function Get(disk: Disk, name: Name): Option<seq<byte>> {
    if name in disk then Some(disk[name]) else None
  }

  datatype WriteError = Preflight | CreateTemporary | WriteTemporary | Backup | Rename

  /** What the environment does to the steps that can fail. */
  datatype Create = Create(suffix: nat -> string, refused: nat -> bool)
  datatype Transfer = Transfer(opens: bool, pieces: seq<nat>, completes: bool)
  datatype Environment = Environment(
    preflight: bool, create: Create, write: Transfer, copy: Transfer, permissions: bool, rename: bool, removes: bool)

  const ATTEMPTS: nat := 32

  function TemporaryName(output: Name, create: Create, sequence: nat): Name {
    output + ".tmp-" + create.suffix(sequence)
  }

  /** One of the 32 names from `sequence` on is unused, and no try up to it is refused. */
  predicate Creates(files: Disk, output: Name, create: Create, sequence: nat) {
    exists k :: 0 <= k < ATTEMPTS && FirstUnused(files, output, create, sequence, k)
  }

  /** What the attempt with number `k` meets. */
  predicate Free(files: Disk, output: Name, create: Create, sequence: nat, k: nat) {
    TemporaryName(output, create, sequence + k) !in files
  }

  predicate Refused(create: Create, sequence: nat, k: nat) {
    create.refused(sequence + k)
  }

  predicate FirstUnused(files: Disk, output: Name, create: Create, sequence: nat, k: nat) {
    && Free(files, output, create, sequence, k) && !Refused(create, sequence, k)
    && (forall j | 0 <= j < k :: !Free(files, output, create, sequence, j) && !Refused(create, sequence, j))
  }

  /** The name under which the new contents are staged. */
  predicate StagedAs(files: Disk, output: Name, create: Create, sequence: nat, name: Name) {
    exists k :: 0 <= k < ATTEMPTS && FirstUnused(files, output, create, sequence, k)
                && name == TemporaryName(output, create, sequence + k)
  }

  lemma StagedOnce(files: Disk, output: Name, create: Create, sequence: nat, name: Name)
    requires StagedAs(files, output, create, sequence, name)
    ensures forall other :: StagedAs(files, output, create, sequence, other) <==> other == name
  {
    var k: nat :| k < ATTEMPTS && FirstUnused(files, output, create, sequence, k)
             && name == TemporaryName(output, create, sequence + k);
    forall other | StagedAs(files, output, create, sequence, other)
      ensures other == name
    {
      var m: nat :| m < ATTEMPTS && FirstUnused(files, output, create, sequence, m)
               && other == TemporaryName(output, create, sequence + m);
      assert !(m < k) && !(k < m);
    }
  }

  /** The complete new contents get staged. */
  predicate Stages(files: Disk, output: Name, sequence: nat, env: Environment) {
    env.preflight && Creates(files, output, env.create, sequence) && env.write.completes
  }

  /** The old output gets copied to a backup. */
  predicate BacksUp(files: Disk, output: Name, env: Environment) {
    output in files && env.copy.opens && env.copy.completes && env.permissions
  }

  /** Every disk from position `from` on agrees with `disk` on all files but `name`. */
  ghost predicate OnlyTouches(history: seq<Disk>, from: nat, disk: Disk, name: Name) {
    forall k | from <= k < |history| :: history[k] - {name} == disk - {name}
  }

  ghost predicate OnlyIs(history: seq<Disk>, from: nat, disk: Disk) {
    forall k | from <= k < |history| :: history[k] == disk
  }

  /** The output is as it was before, or complete. */
  predicate Whole(disk: Disk, output: Name, before: Option<seq<byte>>, contents: seq<byte>) {
    Get(disk, output) == before || Get(disk, output) == Some(contents)
  }

  /** Whatever disk a reader or a crash finds from position `from` on, the output is whole. */
  ghost predicate NeverTorn(history: seq<Disk>, from: nat, output: Name, before: Option<seq<byte>>,
      contents: seq<byte>) {
    forall k | from <= k < |history| :: Whole(history[k], output, before, contents)
  }

  lemma OneStep(
      history: seq<Disk>, disk: Disk, from: nat, output: Name, before: Option<seq<byte>>, contents: seq<byte>)
    requires from <= |history|
    ensures NeverTorn(history + [disk], from, output, before, contents)
            <==> NeverTorn(history, from, output, before, contents) && Whole(disk, output, before, contents)
  {
    var longer := history + [disk];
    if NeverTorn(longer, from, output, before, contents) {
      assert longer[|history|] == disk;
      forall k | from <= k < |history|
        ensures Whole(history[k], output, before, contents)
      {
        assert longer[k] == history[k];
      }
    }
  }

  /** Steps that only touch another file leave the output whole. */
  lemma OtherFileTouched(
      history: seq<Disk>, from: nat, disk: Disk, name: Name, output: Name, before: Option<seq<byte>>,
          contents: seq<byte>)
    requires OnlyTouches(history, from, disk, name) && name != output && Whole(disk, output, before, contents)
    ensures NeverTorn(history, from, output, before, contents)
  {
    forall k | from <= k < |history|
      ensures Whole(history[k], output, before, contents)
    {
      assert history[k] - {name} == disk - {name};
      SameOutside(history[k], disk, name, output);
    }
  }

  lemma SameOutside(a: Disk, b: Disk, name: Name, other: Name)
    requires a - {name} == b - {name} && name != other
    ensures Get(a, other) == Get(b, other)
  {
    assert Get(a, other) == Get(a - {name}, other);
    assert Get(b, other) == Get(b - {name}, other);
  }

  lemma SelfCopyTears(prev: nat, history: seq<Disk>, disk: Disk, output: Name, contents: seq<byte>, opens: bool)
    requires contents != [] && prev <= |history|
    requires OnlyIs(history, prev, disk[output := []])
    requires if opens && output in disk then |history| > prev else |history| == prev
    ensures NeverTorn(history, prev, output, Get(disk, output), contents) <==>
            !(opens && output in disk && disk[output] != [])
  {
    if opens && output in disk {
      assert history[prev] == disk[output := []];
      assert Whole(history[prev], output, Get(disk, output), contents) <==> disk[output] == [];
    }
  }

  function Upto(position: nat, n: nat, size: nat): (end: nat)
    requires position <= size
    ensures position <= end <= size
  {
    if position + n < size then position + n else size
  }

  class FileSystem {
    var files: Disk
    var sequence: nat

    /** Every disk there has been, in order. */
    ghost var history: seq<Disk>

    constructor (files: Disk)
      ensures this.files == files && sequence == 0 && history == [files]
    {
      this.files, sequence, history := files, 0, [files];
    }

    method Step(disk: Disk)
      modifies `files, `history
      ensures files == disk && history == old(history) + [disk]
    {
      files, history := disk, history + [disk];
    }

    /** Creates an empty file under the first unused name, trying at most 32. */
    method CreateTemporaryFile(output: Name, create: Create) returns (r: Result<Name, WriteError>)
      modifies this
      ensures r.Ok? <==> Creates(old(files), output, create, old(sequence))
      ensures r.Ok? ==>
                && old(sequence) < sequence <= old(sequence) + ATTEMPTS
                && FirstUnused(old(files), output, create, old(sequence), sequence - 1 - old(sequence))
                && r.value == TemporaryName(output, create, sequence - 1) && r.value != output
                && files == old(files)[r.value := []] && history == old(history) + [files]
      ensures r.Err? ==> r.error == CreateTemporary && files == old(files) && history == old(history)
    {
      var attempt := 0;
      while attempt < ATTEMPTS
        invariant attempt <= ATTEMPTS && sequence == old(sequence) + attempt
        invariant files == old(files) && history == old(history)
        invariant forall j | 0 <= j < attempt ::
                    !Free(old(files), output, create, old(sequence), j) && !Refused(create, old(sequence), j)
      {
        var temporary := TemporaryName(output, create, sequence);
        assert Free(old(files), output, create, old(sequence), attempt) <==> temporary !in files;
        assert Refused(create, old(sequence), attempt) <==> create.refused(sequence);
        sequence := sequence + 1;
        if create.refused(sequence - 1) {
          return Err(CreateTemporary);
        }
        if temporary !in files {
          assert |temporary| > |output|;
          assert FirstUnused(old(files), output, create, old(sequence), attempt);
          Step(files[temporary := []]);
          return Ok(temporary);
        }
        attempt := attempt + 1;
      }
      return Err(CreateTemporary);
    }

    /** Appends bytes piece by piece to a file that is empty; `completes` covers the final sync. */
    method WriteAll(name: Name, bytes: seq<byte>, transfer: Transfer) returns (ok: bool)
      requires name in files && files[name] == []
      modifies `files, `history
      ensures old(history) <= history && OnlyTouches(history, |old(history)|, old(files), name)
      ensures files - {name} == old(files) - {name}
      ensures ok == transfer.completes
      ensures ok ==> files == old(files)[name := bytes]
    {
      var position, i := 0, 0;
      while i < |transfer.pieces|
        invariant i <= |transfer.pieces| && position <= |bytes|
        invariant files == old(files)[name := bytes[..position]]
        invariant old(history) <= history && OnlyTouches(history, |old(history)|, old(files), name)
      {
        var end := Upto(position, transfer.pieces[i], |bytes|);
        assert bytes[..position] + bytes[position..end] == bytes[..end];
        Step(files[name := files[name] + bytes[position..end]]);
        position, i := end, i + 1;
      }
      if !transfer.completes {
        return false;
      }
      assert bytes[..position] + bytes[position..] == bytes;
      Step(files[name := files[name] + bytes[position..]]);
      return true;
    }

    /** Copies a file over another one, which is emptied first; a file copied onto itself is lost. */
    method Copy(source: Name, target: Name, transfer: Transfer) returns (ok: bool)
      modifies `files, `history
      ensures old(history) <= history && OnlyTouches(history, |old(history)|, old(files), target)
      ensures files - {target} == old(files) - {target}
      ensures ok <==> source in old(files) && transfer.opens && transfer.completes
      ensures ok ==> files == old(files)[target := if source == target then [] else old(files)[source]]
      ensures source !in old(files) || !transfer.opens ==> files == old(files) && history == old(history)
      ensures source in old(files) && transfer.opens ==>
                |history| > |old(history)| && history[|old(history)|] == old(files)[target := []]
      ensures source == target ==> OnlyIs(history, |old(history)|, old(files)[target := []])
      ensures source == target && source in old(files) && transfer.opens ==> files == old(files)[target := []]
    {
      if source !in files || !transfer.opens {
        return false;
      }
      Step(files[target := []]);
      ghost var bytes := if source == target then [] else old(files)[source];
      var position, i := 0, 0;
      while i < |transfer.pieces|
        invariant i <= |transfer.pieces| && position <= |bytes|
        invariant files == old(files)[target := bytes[..position]]
        invariant |history| > |old(history)| && history[|old(history)|] == old(files)[target := []]
        invariant old(history) <= history && OnlyTouches(history, |old(history)|, old(files), target)
        invariant source == target ==> OnlyIs(history, |old(history)|, old(files)[target := []])
      {
        var end := Upto(position, transfer.pieces[i], |files[source]|);
        assert bytes[..position] + bytes[position..end] == bytes[..end];
        Step(files[target := files[target] + files[source][position..end]]);
        position, i := end, i + 1;
      }
      if !transfer.completes {
        return false;
      }
      assert bytes[..position] + bytes[position..] == bytes;
      Step(files[target := files[target] + files[source][position..]]);
      return true;
    }

    method RemoveFile(name: Name, removes: bool)
      modifies `files, `history
      ensures old(history) <= history && OnlyTouches(history, |old(history)|, old(files), name)
      ensures files == if removes then old(files) - {name} else old(files)
      ensures history == if removes then old(history) + [files] else old(history)
    {
      if removes {
        Step(files - {name});
      }
    }

    /** Stages the complete contents in a new file beside the output; `name` is that file. */
    method Stage(output: Name, contents: seq<byte>, env: Environment)
      returns (r: Result<Name, WriteError>, ghost name: Name)
      modifies this
      ensures old(history) <= history && name != output
      ensures r == Err(CreateTemporary) ==> files == old(files) && history == old(history)
      ensures r != Err(CreateTemporary) ==>
              && name !in old(files) && OnlyTouches(history, |old(history)|, old(files), name)
              && StagedAs(old(files), output, env.create, old(sequence), name)
      ensures r.Ok? ==> r.value == name && files == old(files)[name := contents]
      ensures r.Ok? <==> Creates(old(files), output, env.create, old(sequence)) && env.write.completes
      ensures r == Err(CreateTemporary) <==> !Creates(old(files), output, env.create, old(sequence))
      ensures r.Err? ==> r == Err(CreateTemporary) || r == Err(WriteTemporary)
      ensures r == Err(WriteTemporary) ==>
              files - {name} == old(files) - {name} && (env.removes ==> files == old(files))
    {
      name := output + "?";
      var created := CreateTemporaryFile(output, env.create);
      if created.Err? {
        return Err(CreateTemporary), name;
      }
      var temporary := created.value;
      name := temporary;
      var written := WriteAll(temporary, contents, env.write);
      if !written {
        RemoveFile(temporary, env.removes);
        return Err(WriteTemporary), name;
      }
      return Ok(temporary), name;
    }

    /** Copies the output to the backup. A reader of the output sees anything but its old content
        exactly when the backup is the output itself and there was something to lose. */
    method BackUp(output: Name, backup: Name, env: Environment, ghost contents: seq<byte>) returns (ok: bool)
      requires contents != []
      modifies `files, `history
      ensures old(history) <= history
      ensures NeverTorn(history, |old(history)|, output, Get(old(files), output), contents)
              <==> !Tears(old(files), output, backup, env)
      ensures !Tears(old(files), output, backup, env) ==> Get(files, output) == Get(old(files), output)
      ensures ok <==> BacksUp(old(files), output, env)
      ensures ok ==> files == old(files)[backup := if output == backup then [] else old(files)[output]]
      ensures files - {backup} == old(files) - {backup}
    {
      hide OnlyTouches, OnlyIs, NeverTorn;
      ghost var before := Get(files, output);
      var copied := Copy(output, backup, env.copy);
      if output == backup {
        SelfCopyTears(|old(history)|, history, old(files), output, contents, env.copy.opens);
      } else {
        OtherFileTouched(history, |old(history)|, old(files), backup, output, before, contents);
        SameOutside(files, old(files), backup, output);
      }
      return copied && env.permissions;
    }

    /** Backs the old output up, if asked to, and moves the staged file over it. */
    method Commit(output: Name, temporary: Name, backup: Option<Name>, env: Environment)
      returns (r: Result<(), WriteError>)
      requires temporary in files && temporary != output && files[temporary] != []
      modifies `files, `history
      ensures old(history) <= history
      ensures NeverTorn(history, |old(history)|, output, Get(old(files), output), old(files)[temporary])
              <==> !(backup.Some? && Tears(old(files), output, backup.value, env))
      ensures r.Ok? <==> (backup.Some? ==> BacksUp(old(files), output, env)) && env.rename
      ensures r == Err(Backup) <==> backup.Some? && !BacksUp(old(files), output, env)
      ensures r.Err? ==> r == Err(Backup) || r == Err(Rename)
      ensures r.Ok? ==> files == Committed(old(files), output, temporary, backup)
      ensures r.Err? && env.removes ==> files - Spared(backup) == old(files) - {temporary} - Spared(backup)
      ensures r.Err? && backup != Some(output) ==> Get(files, output) == Get(old(files), output)
      ensures r == Err(Rename) && backup.Some? && backup != Some(temporary) && backup != Some(output) ==>
                Get(files, backup.value) == Get(old(files), output)
    {
      hide NeverTorn;
      ghost var n, before, contents := |history|, Get(files, output), files[temporary];
      NothingYet(history, output, before, contents);
      if backup.Some? {
        var copied := BackUp(output, backup.value, env, contents);
        RemovedAlike(files, old(files), temporary, backup.value);
        if !copied {
          OneStep(history, files - {temporary}, n, output, before, contents);
          RemoveFile(temporary, env.removes);
          return Err(Backup);
        }
      }
      if !env.rename {
        OneStep(history, files - {temporary}, n, output, before, contents);
        RemoveFile(temporary, env.removes);
        return Err(Rename);
      }
      OneStep(history, files[output := files[temporary]] - {temporary}, n, output, before, contents);
      Step(files[output := files[temporary]] - {temporary});
      return Ok(());
    }

    /** Replaces a config file. `name` is the file the new contents are staged in. */
    method WriteConfigFile(output: Name, json: seq<byte>, backup: Option<Name>, env: Environment)
      returns (r: Result<(), WriteError>, ghost name: Name)
      modifies this
      ensures old(history) <= history
      ensures NeverTorn(history, |old(history)|, output, Get(old(files), output), json + [NEWLINE])
              <==> !(&& backup.Some?
                     && Stages(old(files), output, old(sequence), env)
                     && Tears(old(files), output, backup.value, env))
      ensures r.Ok? <==>
                && Stages(old(files), output, old(sequence), env)
                && (backup.Some? ==> BacksUp(old(files), output, env))
                && env.rename
      ensures r == Err(Preflight) <==> !env.preflight
      ensures r == Err(Backup) <==>
                Stages(old(files), output, old(sequence), env) && backup.Some? && !BacksUp(old(files), output, env)
      ensures Stages(old(files), output, old(sequence), env) ==>
                name !in old(files) && StagedAs(old(files), output, env.create, old(sequence), name)
      ensures r.Ok? ==> files == Replaced(old(files), output, name, backup, json + [NEWLINE])
      ensures r.Ok? ==>
                (Get(files, output) == Some(json + [NEWLINE])
                 <==> || Get(old(files), output) == Some(json + [NEWLINE])
                      || backup.None?
                      || !StagedAs(old(files), output, env.create, old(sequence), backup.value))
      ensures !Stages(old(files), output, old(sequence), env) ==>
                && (forall other | other in old(files) :: other in files && files[other] == old(files)[other])
                && OnlyTouches(history, |old(history)|, old(files), name)
      ensures r.Err? && backup != Some(output) ==> Get(files, output) == Get(old(files), output)
      ensures r.Err? && env.removes ==> files - Spared(backup) == old(files) - Spared(backup)
      ensures r == Err(Preflight) || r == Err(CreateTemporary) ==> files == old(files) && history == old(history)
      ensures r == Err(Rename) && backup.Some? && backup != Some(name) && backup != Some(output) ==>
                Get(files, backup.value) == Get(old(files), output)
    {
      hide NeverTorn, Tears, OnlyTouches, Creates, StagedAs;
      name := output + "?";
      ghost var n, before := |history|, Get(files, output);
      NothingYet(history, output, before, json + [NEWLINE]);
      NothingTouched(history, files, name);
      if !env.preflight {
        return Err(Preflight), name;
      }
      var contents := json + [NEWLINE];
      var staged;
      staged, name := Stage(output, contents, env);
      NothingTouched(old(history), old(files), name);
      StageIsHarmless(old(files), files, history, n, name, output, contents);
      if staged.Err? {
        return Err(staged.error), name;
      }
      StagedOnce(old(files), output, env.create, old(sequence), name);
      ghost var middle := history;
      TearsAlike(old(files), files, name, output, env);
      CommittedIsReplaced(old(files), files, output, name, backup, contents);
      r := Commit(output, staged.value, backup, env);
      TwoPhases(n, middle, history, output, before, contents);
    }
  }

  /** The file that a failed write may have changed. */
  function Spared(backup: Option<Name>): set<Name> {
    if backup.Some? then {backup.value} else {}
  }

  const NEWLINE: byte := 10

  /** What a successful write leaves: the new output and the old one in the backup. Without a backup,
      or with the output as backup, the old output is gone; if the staged file itself was the backup,
      the old output is still in place. */
  function Replaced(disk: Disk, output: Name, temporary: Name, backup: Option<Name>, contents: seq<byte>): Disk {
    if backup.None? || backup == Some(output) then disk[output := contents]
    else if output !in disk || backup == Some(temporary) then disk
    else disk[backup.value := disk[output]][output := contents]
  }

  lemma RemovedAlike(a: Disk, b: Disk, temporary: Name, backup: Name)
    requires a - {backup} == b - {backup}
    ensures a - {temporary} - {backup} == b - {temporary} - {backup}
  {
    assert a - {temporary} - {backup} == a - {backup} - {temporary};
    assert b - {temporary} - {backup} == b - {backup} - {temporary};
  }

  lemma CommittedIsReplaced(
      disk: Disk, staged: Disk, output: Name, temporary: Name, backup: Option<Name>, contents: seq<byte>)
    requires temporary !in disk && temporary != output
    ensures staged == disk[temporary := contents] ==>
              Committed(staged, output, temporary, backup) == Replaced(disk, output, temporary, backup, contents)
  {
  }

  lemma TearsAlike(disk: Disk, staged: Disk, temporary: Name, output: Name, env: Environment)
    requires staged - {temporary} == disk - {temporary} && temporary != output
    ensures forall backup: Name :: Tears(staged, output, backup, env) <==> Tears(disk, output, backup, env)
    ensures Get(staged, output) == Get(disk, output)
  {
    SameOutside(staged, disk, temporary, output);
  }

  lemma StageIsHarmless(
      disk: Disk, staged: Disk, history: seq<Disk>, n: nat, temporary: Name, output: Name, contents: seq<byte>)
    requires temporary != output && OnlyTouches(history, n, disk, temporary)
    requires staged - {temporary} == disk - {temporary}
    ensures NeverTorn(history, n, output, Get(disk, output), contents) && Get(staged, output) == Get(disk, output)
    ensures temporary !in disk ==> forall other | other in disk :: other in staged && staged[other] == disk[other]
  {
    OtherFileTouched(history, n, disk, temporary, output, Get(disk, output), contents);
    SameOutside(staged, disk, temporary, output);
    forall other | other in disk && other != temporary
      ensures other in staged && staged[other] == disk[other]
    {
      SameOutside(staged, disk, temporary, other);
    }
  }

  lemma TwoPhases(
      n: nat, middle: seq<Disk>, history: seq<Disk>, output: Name, before: Option<seq<byte>>, contents: seq<byte>)
    requires n <= |middle| && middle <= history && NeverTorn(middle, n, output, before, contents)
    ensures NeverTorn(history, n, output, before, contents) <==> NeverTorn(history, |middle|, output, before, contents)
  {
    if NeverTorn(history, |middle|, output, before, contents) {
      forall k | n <= k < |history|
        ensures Whole(history[k], output, before, contents)
      {
        if k < |middle| {
          assert history[k] == middle[k];
        }
      }
    }
  }

  lemma NothingTouched(history: seq<Disk>, disk: Disk, name: Name)
    ensures OnlyTouches(history, |history|, disk, name)
  {
  }

  lemma NothingYet(history: seq<Disk>, output: Name, before: Option<seq<byte>>, contents: seq<byte>)
    ensures NeverTorn(history, |history|, output, before, contents)
  {
  }

  /** Backing up onto the output itself empties it. */
  predicate Tears(disk: Disk, output: Name, backup: Name, env: Environment) {
    backup == output && env.copy.opens && output in disk && disk[output] != []
  }

  /** The disk after a commit, from the staged disk. A backup that happens to be the staged file
      itself puts the old content back. */
  function Committed(disk: Disk, output: Name, temporary: Name, backup: Option<Name>): Disk
    requires temporary in disk
  {
    var contents := disk[temporary];
    if backup.None? || backup == Some(output) then disk[output := contents] - {temporary}
    else if output !in disk || backup == Some(temporary) then disk - {temporary}
    else disk[backup.value := disk[output]][output := contents] - {temporary}
  }

  // ---- The promise of atomicity fails exactly there ----

  /** Everything goes well, and the temporary gets the given suffix. */
  function Smooth(suffix: string): Environment {
    Environment(true, Create(_ => suffix, _ => false), Transfer(true, [], true), Transfer(true, [], true), true, true,
        true)
  }

  /** Whenever a non-empty config is backed up onto itself and nothing else goes wrong, the write
      succeeds, and at some moment a reader or a crash finds the config neither old nor new. */
  method BackUpOntoItself(files: Disk, output: Name, json: seq<byte>, suffix: string)
    returns (r: Result<(), WriteError>, ghost history: seq<Disk>)
    requires output in files && files[output] != [] && output + ".tmp-" + suffix !in files
    ensures r.Ok? && !NeverTorn(history, 0, output, Some(files[output]), json + [NEWLINE])
  {
    hide NeverTorn;
    var system := new FileSystem(files);
    assert FirstUnused(files, output, Smooth(suffix).create, 0, 0);
    ghost var name;
    r, name := system.WriteConfigFile(output, json, Some(output), Smooth(suffix));
    history := system.history;
    LaterTears(history, output, Some(files[output]), json + [NEWLINE]);
  }

  /** Whenever the backup path is that of the staging file and nothing goes wrong, the write succeeds
      and leaves the old content in place, without a backup of it. */
  method BackUpOntoStaged(files: Disk, output: Name, json: seq<byte>, suffix: string)
    returns (r: Result<(), WriteError>, after: Disk)
    requires output in files && output + ".tmp-" + suffix !in files
    ensures r.Ok? && after == files
  {
    var system := new FileSystem(files);
    assert FirstUnused(files, output, Smooth(suffix).create, 0, 0);
    var staged := TemporaryName(output, Smooth(suffix).create, 0);
    assert StagedAs(files, output, Smooth(suffix).create, 0, staged);
    StagedOnce(files, output, Smooth(suffix).create, 0, staged);
    ghost var name;
    r, name := system.WriteConfigFile(output, json, Some(staged), Smooth(suffix));
    after := system.files;
  }

  lemma LaterTears(history: seq<Disk>, output: Name, before: Option<seq<byte>>, contents: seq<byte>)
    requires !NeverTorn(history, 1, output, before, contents)
    ensures !NeverTorn(history, 0, output, before, contents)
  {
  }
}
