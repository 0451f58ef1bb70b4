/** The checksum list of a release bundle: printing and strict parsing. */
module Checksums {
  import opened Results
  import opened Sorting

  datatype Entry = Entry(digest: string, name: string)

  datatype ParseError = InvalidLine(number: nat) | InvalidDigest(number: nat) | Unsorted | DuplicateName

  // ---- Lines ----

  /** The characters at which Python's `splitlines` ends a line. */
  predicate Boundary(c: char) {
    c as nat in {0x0A, 0x0B, 0x0C, 0x0D, 0x1C, 0x1D, 0x1E, 0x85, 0x2028, 0x2029}
  }

  predicate OneLine(text: string) {
    forall c | c in text :: !Boundary(c)
  }

  function LineLength(text: string): (n: nat)
    ensures n <= |text|
  {
    if text == "" || Boundary(text[0]) then 0 else 1 + LineLength(text[1..])
  }

  /** How many characters end a line of length `n`: a CR with its LF counts as one end. */
  function EndLength(text: string, n: nat): (m: nat)
    requires n < |text|
    ensures 1 <= m <= |text| - n
  {
    if text[n] == '\r' && n + 1 < |text| && text[n + 1] == '\n' then 2 else 1
  }

  function SplitLines(text: string): seq<string>
    decreases |text|
  {
    if text == "" then []
    else
      var n := LineLength(text);
      [text[..n]] + if n == |text| then [] else SplitLines(text[n + EndLength(text, n)..])
  }

  lemma {:induction false} LineLengthOf(line: string, rest: string)
    requires OneLine(line)
    ensures LineLength(line + "\n" + rest) == |line|
    decreases |line|
  {
    var text := line + "\n" + rest;
    if line == "" {
      assert text[0] == '\n';
    } else {
      assert text[0] == line[0] && line[0] in line;
      assert text[1..] == line[1..] + "\n" + rest;
      LineLengthOf(line[1..], rest);
    }
  }

  lemma SplitFirst(line: string, rest: string)
    requires OneLine(line)
    ensures SplitLines(line + "\n" + rest) == [line] + SplitLines(rest)
  {
    hide OneLine, Boundary;
    LineLengthOf(line, rest);
    var text := line + "\n" + rest;
    assert text[..|line|] == line;
    assert text[|line|] == '\n';
    assert text[|line| + 1..] == rest;
  }

  // ---- One line ----

  predicate HexDigit(c: char) {
    '0' <= c <= '9' || 'a' <= c <= 'f'
  }

  predicate IsDigest(text: string) {
    |text| == 64 && forall c | c in text :: HexDigit(c)
  }

  /** The position of the first two adjacent spaces, or the length of the text. */
  function SeparatorAt(text: string): (n: nat)
    ensures n <= |text|
    ensures n < |text| ==> n + 2 <= |text|
  {
    if |text| < 2 then |text|
    else if text[0] == ' ' && text[1] == ' ' then 0
    else
      var n := SeparatorAt(text[1..]);
      n + 1
  }

  /** A digest, two spaces, and a name without slashes or backslashes. */
  function ParseLine(number: nat, line: string): Result<Entry, ParseError> {
    var n := SeparatorAt(line);
    if n == |line| then Err(InvalidLine(number))
    else
      var name := line[n + 2..];
      if name == "" || '/' in name || '\\' in name then Err(InvalidLine(number))
      else if !IsDigest(line[..n]) then Err(InvalidDigest(number))
      else Ok(Entry(line[..n], name))
  }

  function EntryLine(entry: Entry): string {
    entry.digest + "  " + entry.name
  }

  lemma {:induction false} SeparatorOf(digest: string, name: string)
    requires forall c | c in digest :: HexDigit(c)
    ensures SeparatorAt(digest + "  " + name) == |digest|
    decreases |digest|
  {
    var text := digest + "  " + name;
    if digest == "" {
      assert text[0] == ' ' && text[1] == ' ';
    } else {
      assert text[0] == digest[0] && digest[0] in digest;
      assert text[1..] == digest[1..] + "  " + name;
      SeparatorOf(digest[1..], name);
    }
  }

  /** What the parser can read back. */
  predicate Printable(entry: Entry) {
    && IsDigest(entry.digest)
    && entry.name != "" && '/' !in entry.name && '\\' !in entry.name && OneLine(entry.name)
  }

  lemma ParseInvertsPrint(number: nat, entry: Entry)
    requires Printable(entry)
    ensures ParseLine(number, EntryLine(entry)) == Ok(entry) && OneLine(EntryLine(entry))
  {
    hide SeparatorAt;
    SeparatorOf(entry.digest, entry.name);
    var line := EntryLine(entry);
    assert line[..|entry.digest|] == entry.digest;
    assert line[|entry.digest| + 2..] == entry.name;
    forall c | c in line
      ensures !Boundary(c)
    {
      assert c in entry.digest || c == ' ' || c in entry.name;
    }
  }

  /** A line parses exactly to what it prints. */
  lemma PrintInvertsParse(number: nat, line: string)
    requires ParseLine(number, line).Ok?
    ensures EntryLine(ParseLine(number, line).value) == line
  {
    SeparatorIsSpaces(line);
  }

  /** A line is an entry if and only if it is the print of that entry, a digest with a name. */
  lemma LineIsEntryIff(number: nat, line: string, entry: Entry)
    requires OneLine(line)
    ensures ParseLine(number, line) == Ok(entry) <==> Printable(entry) && line == EntryLine(entry)
  {
    if ParseLine(number, line) == Ok(entry) {
      PrintInvertsParse(number, line);
      assert forall c | c in entry.name :: c in line;
    }
    if Printable(entry) {
      ParseInvertsPrint(number, entry);
    }
  }

  lemma {:induction false} SeparatorIsSpaces(text: string)
    requires SeparatorAt(text) < |text|
    ensures text[SeparatorAt(text)] == ' ' && text[SeparatorAt(text) + 1] == ' '
    decreases |text|
  {
    if !(text[0] == ' ' && text[1] == ' ') {
      SeparatorIsSpaces(text[1..]);
    }
  }

  // ---- The whole file ----

  function NameOf(entry: Entry): string {
    entry.name
  }

  function ParseFrom(done: seq<Entry>, lines: seq<string>): Result<seq<Entry>, ParseError>
    decreases |lines|
  {
    if lines == [] then Ok(done)
    else match ParseLine(|done| + 1, lines[0])
      case Err(error) => Err(error)
      case Ok(entry) => ParseFrom(done + [entry], lines[1..])
  }

  function ParseText(text: string): Result<seq<Entry>, ParseError> {
    match ParseFrom([], SplitLines(text))
    case Err(error) => Err(error)
    case Ok(entries) =>
      if entries != SortBy(NameOf, entries) then Err(Unsorted)
      else if !DistinctBy(NameOf, entries) then Err(DuplicateName)
      else Ok(entries)
  }

  method ParseChecksumFile(text: string) returns (r: Result<seq<Entry>, ParseError>)
    ensures r == ParseText(text)
    ensures r.Ok? ==> OrderedBy(NameOf, r.value) && DistinctBy(NameOf, r.value)
  {
    hide ParseLine, SplitLines, SortBy, OrderedBy, DistinctBy;
    var entries: seq<Entry> := [];
    var lines := SplitLines(text);
    while lines != []
      invariant ParseFrom(entries, lines) == ParseFrom([], SplitLines(text))
      decreases |lines|
    {
      var parsed := ParseLine(|entries| + 1, lines[0]);
      if parsed.Err? {
        return Err(parsed.error);
      }
      entries, lines := entries + [parsed.value], lines[1..];
    }
    SortFacts(NameOf, entries);
    if entries != SortBy(NameOf, entries) {
      return Err(Unsorted);
    }
    var distinct := AllDistinct(entries);
    if !distinct {
      return Err(DuplicateName);
    }
    return Ok(entries);
  }

  /** As many different names as entries. */
  method AllDistinct(entries: seq<Entry>) returns (distinct: bool)
    ensures distinct <==> DistinctBy(NameOf, entries)
  {
    hide DistinctBy;
    var names: set<string> := {};
    assert entries[..0] == [];
    DistinctNothing();
    for i := 0 to |entries|
      invariant DistinctBy(NameOf, entries[..i])
      invariant forall name: string :: name in names <==> exists k :: 0 <= k < i && entries[k].name == name
    {
      DistinctAppend(NameOf, entries[..i], entries[i]);
      assert entries[..i] + [entries[i]] == entries[..i + 1];
      if entries[i].name in names {
        var k :| 0 <= k < i && entries[k].name == entries[i].name;
        DistinctSpoiled(entries, k, i);
        return false;
      }
      forall y | y in entries[..i]
        ensures NameOf(y) != NameOf(entries[i])
      {
        var k :| 0 <= k < i && entries[k] == y;
      }
      names := names + {entries[i].name};
    }
    assert entries[..|entries|] == entries;
    return true;
  }

  lemma DistinctNothing()
    ensures DistinctBy(NameOf, [])
  {
  }

  lemma DistinctSpoiled(entries: seq<Entry>, i: nat, j: nat)
    requires i < j < |entries| && entries[i].name == entries[j].name
    ensures !DistinctBy(NameOf, entries)
  {
    assert NameOf(entries[i]) == NameOf(entries[j]);
  }

  function ChecksumText(entries: seq<Entry>): string {
    if entries == [] then "" else EntryLine(entries[0]) + "\n" + ChecksumText(entries[1..])
  }

  lemma {:induction false} ParseAllPrinted(done: seq<Entry>, entries: seq<Entry>)
    requires forall entry | entry in entries :: Printable(entry)
    ensures ParseFrom(done, SplitLines(ChecksumText(entries))) == Ok(done + entries)
    decreases |entries|
  {
    hide ParseLine, SplitLines, Printable, OneLine, EntryLine;
    if entries == [] {
      NoLines();
      assert done + entries == done;
    } else {
      var entry, rest := entries[0], entries[1..];
      assert entry in entries;
      ParseInvertsPrint(|done| + 1, entry);
      SplitFirst(EntryLine(entry), ChecksumText(rest));
      var lines := SplitLines(ChecksumText(entries));
      assert lines[0] == EntryLine(entry) && lines[1..] == SplitLines(ChecksumText(rest));
      ParseAllPrinted(done + [entry], rest);
      assert done + [entry] + rest == done + entries;
    }
  }

  /** Reading a text may turn a carriage return into a line feed. A printed list holds none. */
  lemma {:induction false} PrintedHasNoReturn(entries: seq<Entry>)
    requires forall entry | entry in entries :: Printable(entry)
    ensures '\r' !in ChecksumText(entries)
    decreases |entries|
  {
    hide ParseLine, Printable, EntryLine;
    if entries != [] {
      assert entries[0] in entries;
      ParseInvertsPrint(0, entries[0]);
      PrintedHasNoReturn(entries[1..]);
      assert '\r' !in EntryLine(entries[0]) by {
        assert Boundary('\r');
      }
    }
  }

  lemma NoLines()
    ensures SplitLines("") == []
  {
  }

  /** Parsing a printed list gives the list back exactly when it is sorted by name without a name
      occurring twice. */
  lemma ParseInvertsChecksums(entries: seq<Entry>)
    requires forall entry | entry in entries :: Printable(entry)
    ensures ParseText(ChecksumText(entries)) == Ok(entries) <==>
            OrderedBy(NameOf, entries) && DistinctBy(NameOf, entries)
  {
    hide OrderedBy, DistinctBy, SplitLines, ChecksumText;
    ParseAllPrinted([], entries);
    assert [] + entries == entries;
    SortFacts(NameOf, entries);
  }
}
