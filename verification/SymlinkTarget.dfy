/** The path a config write goes to: final symlinks are followed, a missing leaf is allowed. */
module SymlinkTarget {
  import opened Results

  datatype Part = Name(name: string) | Up

  datatype Path = Path(absolute: bool, parts: seq<Part>)

  datatype IoError = TooManyLinks | OtherError(code: int)

  /** What a look at a path itself, not at what it links to, finds. */
  datatype Entry = Symlink(target: Result<Path, IoError>) | Present | NotFound | Unreadable(error: IoError)

  type Lookup = Path -> Entry

  const MAX_DEPTH: nat := 32

  function Parent(path: Path): Option<Path> {
    if path.parts == [] then None else Some(path.(parts := path.parts[..|path.parts| - 1]))
  }

  predicate IsEmpty(path: Path) {
    !path.absolute && path.parts == []
  }

  /** There is a directory above the path that the path itself names. */
  predicate HasParent(path: Path) {
    Parent(path).Some? && !IsEmpty(Parent(path).value)
  }

  function Child(path: Path, part: Part): Path {
    path.(parts := path.parts + [part])
  }

  /** Where a link leads: relative targets start at the link's own directory. */
  function Target(path: Path, target: Path): Path {
    if target.absolute || Parent(path).None? then target
    else Path(path.absolute, Parent(path).value.parts + target.parts)
  }

  /** A resolved parent with the last part of the path; a `..` has no file name to put back. */
  function Rejoin(parent: Path, path: Path): Path
    requires HasParent(path)
  {
    var last := path.parts[|path.parts| - 1];
    if last.Name? then Child(parent, last) else parent
  }

  function ResolveInner(lookup: Lookup, path: Path, depth: nat): Result<Path, IoError>
    decreases MAX_DEPTH - depth, |path.parts|
  {
    if depth >= MAX_DEPTH then Err(TooManyLinks)
    else match lookup(path)
      case Symlink(Err(error)) => Err(error)
      case Symlink(Ok(target)) => ResolveInner(lookup, Target(path, target), depth + 1)
      case Present => Ok(path)
      case NotFound =>
        if !HasParent(path) then Ok(path)
        else (match ResolveInner(lookup, Parent(path).value, depth)
          case Err(error) => Err(error)
          case Ok(parent) => Ok(Rejoin(parent, path)))
      case Unreadable(error) => Err(error)
  }

  function Resolve(lookup: Lookup, path: Path): Result<Path, IoError> {
    ResolveInner(lookup, path, 0)
  }

  // ---- Where a link leads ----

  /** A relative link leads to a path in the directory that holds the link, not below the link. */
  lemma RelativeLinkLeads(lookup: Lookup, directory: Path, last: Part, target: Path, depth: nat)
    requires lookup(Child(directory, last)) == Symlink(Ok(target)) && !target.absolute && depth < MAX_DEPTH
    ensures
      var beside := Path(directory.absolute, directory.parts + target.parts);
      && ResolveInner(lookup, Child(directory, last), depth) == ResolveInner(lookup, beside, depth + 1)
      && (lookup(beside).Present? && depth + 1 < MAX_DEPTH ==>
            ResolveInner(lookup, Child(directory, last), depth) == Ok(beside))
  {
    assert Child(directory, last).parts[..|directory.parts|] == directory.parts;
  }

  /** An absolute link leads to its target from wherever it is. */
  lemma AbsoluteLinkLeads(lookup: Lookup, path: Path, target: Path, depth: nat)
    requires lookup(path) == Symlink(Ok(target)) && target.absolute && depth < MAX_DEPTH
    ensures ResolveInner(lookup, path, depth) == ResolveInner(lookup, target, depth + 1)
    ensures lookup(target).Present? && depth + 1 < MAX_DEPTH ==> ResolveInner(lookup, path, depth) == Ok(target)
  {
  }

  // ---- What the result means ----

  /** A file system: a link to a directory stands for that directory when something below it is
      looked up, and nothing can be found below, or by leaving, what does not exist. */
  ghost predicate FollowsDirectoryLinks(lookup: Lookup) {
    && (forall path: Path, part: Part {:trigger lookup(Child(path, part))} :: LooksThrough(lookup, path, part))
    && (forall directory: Path, last: Part, part: Part :: LinkStandsFor(lookup, directory, last, part))
    && (forall absolute :: !lookup(Path(absolute, [])).Symlink?)
  }

  ghost predicate LooksThrough(lookup: Lookup, path: Path, part: Part) {
    && (lookup(path) == NotFound && !IsEmpty(path) ==> lookup(Child(path, part)) == NotFound)
    && (lookup(Child(path, Up)) == NotFound ==> lookup(Child(path, part)) == NotFound)
  }

  /** Below a link is what is below the directory it names, seen from the directory that holds it. */
  ghost predicate LinkStandsFor(lookup: Lookup, directory: Path, last: Part, part: Part) {
    var link := Child(directory, last);
    lookup(link).Symlink? && lookup(link).target.Ok? ==>
      var target := lookup(link).target.value;
      var named := if target.absolute then target else Path(directory.absolute, directory.parts + target.parts);
      lookup(Child(link, part)) == lookup(Child(named, part))
  }

  lemma LinkedBelow(lookup: Lookup, path: Path)
    requires FollowsDirectoryLinks(lookup) && lookup(path).Symlink? && lookup(path).target.Ok?
    ensures SameBelow(lookup, Target(path, lookup(path).target.value), path)
  {
    assert path.parts != [] by {
      assert path == Path(path.absolute, path.parts);
    }
    var directory, last := Parent(path).value, path.parts[|path.parts| - 1];
    assert Child(directory, last) == path;
    forall part: Part
      ensures lookup(Child(Target(path, lookup(path).target.value), part)) == lookup(Child(path, part))
    {
      assert LinkStandsFor(lookup, directory, last, part);
    }
  }

  /** Nothing below two directories can tell them apart. */
  ghost predicate SameBelow(lookup: Lookup, a: Path, b: Path) {
    forall part: Part :: lookup(Child(a, part)) == lookup(Child(b, part))
  }

  /** A successful resolution ends at something that is no symlink, and everything below the result
      is what is below the path. */
  lemma {:induction false} ResultIsNoLink(lookup: Lookup, path: Path, depth: nat)
    requires FollowsDirectoryLinks(lookup) && ResolveInner(lookup, path, depth).Ok?
    ensures
      var result := ResolveInner(lookup, path, depth).value;
      !lookup(result).Symlink? && SameBelow(lookup, result, path)
    decreases MAX_DEPTH - depth, |path.parts|
  {
    match lookup(path)
    case Symlink(Ok(target)) =>
      ResultIsNoLink(lookup, Target(path, target), depth + 1);
      LinkedBelow(lookup, path);
    case NotFound =>
      if HasParent(path) {
        var parent := Parent(path).value;
        var last := path.parts[|path.parts| - 1];
        assert Child(parent, last) == path;
        ResultIsNoLink(lookup, parent, depth);
        var resolved := ResolveInner(lookup, parent, depth).value;
        assert lookup(Child(resolved, last)) == NotFound;
        if last.Up? {
          assert forall part: Part :: lookup(Child(parent, part)) == NotFound;
        }
      }
    case _ =>
  }

  // ---- How many links ----

  /** Following exactly `links` links from a path ends at `result`. There is no bound on `links`. */
  ghost predicate Leads(lookup: Lookup, path: Path, links: nat, result: Path)
    decreases links, |path.parts|
  {
    match lookup(path)
    case Symlink(target) => target.Ok? && links > 0 && Leads(lookup, Target(path, target.value), links - 1, result)
    case Present => links == 0 && result == path
    case NotFound =>
      if !HasParent(path) then links == 0 && result == path
      else exists parent: Path :: Leads(lookup, Parent(path).value, links, parent) && result == Rejoin(parent, path)
    case Unreadable(_) => false
  }

  /** Resolution succeeds only by following its links, fewer than 32 of them... */
  lemma {:induction false} ResolvedLeads(lookup: Lookup, path: Path, depth: nat) returns (links: nat)
    requires ResolveInner(lookup, path, depth).Ok?
    ensures depth + links < MAX_DEPTH && Leads(lookup, path, links, ResolveInner(lookup, path, depth).value)
    decreases MAX_DEPTH - depth, |path.parts|
  {
    links := 0;
    match lookup(path)
    case Symlink(Ok(target)) =>
      var rest := ResolvedLeads(lookup, Target(path, target), depth + 1);
      links := rest + 1;
    case NotFound =>
      if HasParent(path) {
        links := ResolvedLeads(lookup, Parent(path).value, depth);
      }
    case _ =>
  }

  /** ...and whenever there are fewer; with 32 or more it reports too many links. */
  lemma {:induction false} LeadsResolves(lookup: Lookup, path: Path, depth: nat, links: nat, result: Path)
    requires depth <= MAX_DEPTH && Leads(lookup, path, links, result)
    ensures ResolveInner(lookup, path, depth) == if depth + links < MAX_DEPTH then Ok(result) else Err(TooManyLinks)
    decreases MAX_DEPTH - depth, |path.parts|
  {
    if depth < MAX_DEPTH {
      match lookup(path)
      case Symlink(Ok(target)) =>
        LeadsResolves(lookup, Target(path, target), depth + 1, links - 1, result);
      case NotFound =>
        if HasParent(path) {
          var parent: Path :| Leads(lookup, Parent(path).value, links, parent) && result == Rejoin(parent, path);
          LeadsResolves(lookup, Parent(path).value, depth, links, parent);
        }
      case _ =>
    }
  }

  /** Resolution succeeds with a path exactly when following some number of links below 32 ends there. */
  lemma ResolveIff(lookup: Lookup, path: Path, result: Path)
    ensures Resolve(lookup, path) == Ok(result) <==>
            exists links: nat :: links < MAX_DEPTH && Leads(lookup, path, links, result)
  {
    if Resolve(lookup, path) == Ok(result) {
      var links := ResolvedLeads(lookup, path, 0);
      assert links < MAX_DEPTH && Leads(lookup, path, links, result);
    }
    if links: nat :| links < MAX_DEPTH && Leads(lookup, path, links, result) {
      LeadsResolves(lookup, path, 0, links, result);
    }
  }

  /** At least so many links can be followed from a path. */
  predicate CanFollow(lookup: Lookup, path: Path, links: nat)
    decreases links, |path.parts|
  {
    links == 0 || match lookup(path)
      case Symlink(Ok(target)) => CanFollow(lookup, Target(path, target), links - 1)
      case NotFound => HasParent(path) && CanFollow(lookup, Parent(path).value, links)
      case _ => false
  }

  /** Too many links are reported if and only if there are as many as the limit allows levels; a cycle,
      however long, is a case of it. */
  lemma {:induction false} TooManyIff(lookup: Lookup, path: Path, depth: nat)
    requires depth <= MAX_DEPTH && NeverReportsTooMany(lookup)
    ensures ResolveInner(lookup, path, depth) == Err(TooManyLinks) <==> CanFollow(lookup, path, MAX_DEPTH - depth)
    decreases MAX_DEPTH - depth, |path.parts|
  {
    if depth < MAX_DEPTH {
      match lookup(path)
      case Symlink(Ok(target)) =>
        TooManyIff(lookup, Target(path, target), depth + 1);
      case NotFound =>
        if HasParent(path) {
          TooManyIff(lookup, Parent(path).value, depth);
        }
      case _ =>
    }
  }

  /** The error belongs to the resolution; looking at a path has its own. */
  ghost predicate NeverReportsTooMany(lookup: Lookup) {
    forall path: Path ::
      && lookup(path) != Unreadable(TooManyLinks)
      && lookup(path) != Symlink(Err(TooManyLinks))
  }

  /** The next path on the way of the resolution that involves following a link. */
  ghost predicate Reaches(lookup: Lookup, path: Path, links: nat, end: Path)
    decreases links, |path.parts|
  {
    if links == 0 then path == end
    else match lookup(path)
      case Symlink(Ok(target)) => Reaches(lookup, Target(path, target), links - 1, end)
      case NotFound => HasParent(path) && Reaches(lookup, Parent(path).value, links, end)
      case _ => false
  }

  lemma {:induction false} ReachedCanFollow(lookup: Lookup, path: Path, links: nat, end: Path, more: nat)
    requires Reaches(lookup, path, links, end) && CanFollow(lookup, end, more)
    ensures CanFollow(lookup, path, links + more)
    decreases links, |path.parts|
  {
    if links > 0 {
      match lookup(path)
      case Symlink(Ok(target)) =>
        ReachedCanFollow(lookup, Target(path, target), links - 1, end, more);
      case NotFound =>
        ReachedCanFollow(lookup, Parent(path).value, links, end, more);
    }
  }

  lemma {:induction false} FewerCanBeFollowed(lookup: Lookup, path: Path, links: nat, fewer: nat)
    requires CanFollow(lookup, path, links) && fewer <= links
    ensures CanFollow(lookup, path, fewer)
    decreases links, |path.parts|
  {
    if fewer > 0 {
      match lookup(path)
      case Symlink(Ok(target)) =>
        FewerCanBeFollowed(lookup, Target(path, target), links - 1, fewer - 1);
      case NotFound =>
        FewerCanBeFollowed(lookup, Parent(path).value, links, fewer);
    }
  }

  lemma {:induction false} CyclesGoOn(lookup: Lookup, path: Path, length: nat, links: nat)
    requires length > 0 && Reaches(lookup, path, length, path)
    ensures CanFollow(lookup, path, links)
    decreases links
  {
    if links > 0 {
      var rest := if links <= length then 0 else links - length;
      CyclesGoOn(lookup, path, length, rest);
      ReachedCanFollow(lookup, path, length, path, rest);
      FewerCanBeFollowed(lookup, path, length + rest, links);
    }
  }

  /** A path that leads back to itself after any number of links is reported, not followed forever. */
  lemma CycleIsReported(lookup: Lookup, path: Path, length: nat)
    requires length > 0 && Reaches(lookup, path, length, path) && NeverReportsTooMany(lookup)
    ensures Resolve(lookup, path) == Err(TooManyLinks)
  {
    CyclesGoOn(lookup, path, length, MAX_DEPTH);
    TooManyIff(lookup, path, 0);
  }

  // ---- The `..` that gets lost ----

  /** Resolution with every last part put back, a `..` as well. */
  function ResolveKeeping(lookup: Lookup, path: Path, depth: nat): Result<Path, IoError>
    decreases MAX_DEPTH - depth, |path.parts|
  {
    if depth >= MAX_DEPTH then Err(TooManyLinks)
    else match lookup(path)
      case Symlink(Err(error)) => Err(error)
      case Symlink(Ok(target)) => ResolveKeeping(lookup, Target(path, target), depth + 1)
      case Present => Ok(path)
      case NotFound =>
        if !HasParent(path) then Ok(path)
        else (match ResolveKeeping(lookup, Parent(path).value, depth)
          case Err(error) => Err(error)
          case Ok(parent) => Ok(Child(parent, Last(path))))
      case Unreadable(error) => Err(error)
  }

  function Last(path: Path): Part
    requires path.parts != []
  {
    path.parts[|path.parts| - 1]
  }

  /** Some missing directory met on the way, links followed, is left again by `..`. */
  predicate LeavesMissing(lookup: Lookup, path: Path, depth: nat)
    decreases MAX_DEPTH - depth, |path.parts|
  {
    depth < MAX_DEPTH && match lookup(path)
      case Symlink(Ok(target)) => LeavesMissing(lookup, Target(path, target), depth + 1)
      case NotFound => HasParent(path) && (Last(path).Up? || LeavesMissing(lookup, Parent(path).value, depth))
      case _ => false
  }

  /** A `..` gets lost exactly when it leaves a missing directory, at the end of the path, within it or
      behind links; the result is then a shorter path. */
  lemma {:induction false} UpIsDroppedIff(lookup: Lookup, path: Path, depth: nat)
    ensures
      var r, kept := ResolveInner(lookup, path, depth), ResolveKeeping(lookup, path, depth);
      if r.Err? || kept.Err? then r == kept
      else
        && (r == kept <==> !LeavesMissing(lookup, path, depth))
        && (r != kept ==> |r.value.parts| < |kept.value.parts|)
    decreases MAX_DEPTH - depth, |path.parts|
  {
    if depth < MAX_DEPTH {
      match lookup(path)
      case Symlink(Ok(target)) =>
        UpIsDroppedIff(lookup, Target(path, target), depth + 1);
      case NotFound =>
        if HasParent(path) {
          UpIsDroppedIff(lookup, Parent(path).value, depth);
        }
      case _ =>
    }
  }

  /** No link and no error as far up as the path is missing. */
  predicate Plain(lookup: Lookup, path: Path)
    decreases |path.parts|
  {
    match lookup(path)
    case Present => true
    case NotFound => HasParent(path) ==> Plain(lookup, Parent(path).value)
    case _ => false
  }

  /** Without links it is the path itself that is kept, so that it stays as it is exactly when it does
      not leave a missing directory. */
  lemma {:induction false} PlainPathsStay(lookup: Lookup, path: Path, depth: nat)
    requires Plain(lookup, path) && depth < MAX_DEPTH
    ensures ResolveKeeping(lookup, path, depth) == Ok(path)
    ensures ResolveInner(lookup, path, depth).Ok?
    ensures ResolveInner(lookup, path, depth) == Ok(path) <==> !LeavesMissing(lookup, path, depth)
    decreases |path.parts|
  {
    hide ResolveInner, LeavesMissing;
    if lookup(path) == NotFound && HasParent(path) {
      PlainPathsStay(lookup, Parent(path).value, depth);
      assert Child(Parent(path).value, Last(path)) == path;
    }
    UpIsDroppedIff(lookup, path, depth);
  }

  /** What is there, or would be there in a directory that is kept. */
  predicate Stays(lookup: Lookup, path: Path)
    decreases |path.parts|
  {
    match lookup(path)
    case Present => true
    case NotFound => HasParent(path) ==> Last(path).Name? && Stays(lookup, Parent(path).value)
    case _ => false
  }

  /** A path is its own target if and only if it exists and is no link, or is missing with a name in a
      directory of which the same is true. */
  lemma {:induction false} StaysIff(lookup: Lookup, path: Path, depth: nat)
    requires FollowsDirectoryLinks(lookup) && depth < MAX_DEPTH
    ensures ResolveInner(lookup, path, depth) == Ok(path) <==> Stays(lookup, path)
    decreases |path.parts|
  {
    hide FollowsDirectoryLinks;
    if ResolveInner(lookup, path, depth).Ok? {
      ResultIsNoLink(lookup, path, depth);
      NoUpAtTheEnd(lookup, path, depth);
    }
    if lookup(path) == NotFound && HasParent(path) {
      var parent := Parent(path).value;
      StaysIff(lookup, parent, depth);
      assert Child(parent, Last(path)) == path;
      if ResolveInner(lookup, path, depth) == Ok(path) && Last(path).Name? {
        var resolved := ResolveInner(lookup, parent, depth).value;
        assert Child(resolved, Last(path)) == path && Parent(Child(resolved, Last(path))).value == resolved;
      }
    }
  }

  /** A result that is missing ends in a name, unless it is too short to have a directory. */
  lemma {:induction false} NoUpAtTheEnd(lookup: Lookup, path: Path, depth: nat)
    requires ResolveInner(lookup, path, depth).Ok?
    ensures
      var result := ResolveInner(lookup, path, depth).value;
      lookup(result) == Present || !HasParent(result) || Last(result).Name?
    decreases MAX_DEPTH - depth, |path.parts|
  {
    match lookup(path)
    case Symlink(Ok(target)) =>
      NoUpAtTheEnd(lookup, Target(path, target), depth + 1);
    case NotFound =>
      if HasParent(path) {
        NoUpAtTheEnd(lookup, Parent(path).value, depth);
      }
    case _ =>
  }

  function EmptyDisk(path: Path): Entry {
    NotFound
  }

  /** Writing to `new/../config.json` before `new` exists goes to `new/config.json`. */
  lemma MissingUpIsDropped()
    ensures FollowsDirectoryLinks(EmptyDisk)
    ensures Resolve(EmptyDisk, Path(false, [Name("new"), Up, Name("config.json")]))
            == Ok(Path(false, [Name("new"), Name("config.json")]))
  {
    var directory := Path(false, [Name("new")]);
    var up := Path(false, [Name("new"), Up]);
    var path := Path(false, [Name("new"), Up, Name("config.json")]);
    assert path.parts[..2] == up.parts && up.parts[..1] == directory.parts && directory.parts[..0] == [];
    assert ResolveInner(EmptyDisk, directory, 0) == Ok(directory);
    assert ResolveInner(EmptyDisk, up, 0) == Ok(directory);
    assert Parent(path) == Some(up);
    assert ResolveInner(EmptyDisk, path, 0) == Ok(Rejoin(directory, path));
    assert Rejoin(directory, path).parts == [Name("new"), Name("config.json")];
    forall any: Path, part: Part
      ensures LooksThrough(EmptyDisk, any, part)
    {
      assert EmptyDisk(Child(any, part)) == NotFound && EmptyDisk(any) == NotFound;
    }
  }

  /** A working directory with one file in it; the empty path does not exist, as on a real disk. */
  function OneFile(path: Path): Entry {
    if path == Path(false, [Name("config.json")]) || path == Path(false, [Up]) then Present else NotFound
  }

  lemma OneFileDisk()
    ensures FollowsDirectoryLinks(OneFile) && OneFile(Path(false, [])) == NotFound
    ensures Resolve(OneFile, Path(false, [Name("config.json")])) == Ok(Path(false, [Name("config.json")]))
  {
    forall path: Path, part: Part
      ensures LooksThrough(OneFile, path, part)
    {
      var child, up := Child(path, part), Child(path, Up);
      assert child.parts[|path.parts|] == part && child.parts[..|path.parts|] == path.parts;
      if OneFile(child) == Present {
        assert |child.parts| == 1 && path.parts == [];
        assert up == Path(false, [Up]);
      }
    }
  }
}
