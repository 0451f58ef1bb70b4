/** The helper's output protocol: newline-framed JSON lines, read incrementally or in one shot. */
module StreamingLines {
  import opened Results
  import opened Pcm

  datatype RecognitionEvent =
    | PartialText(text: string)
    | FinalText(text: string)
    | ErrorEvent(message: string)
    | Completed

  // ---- Trimming ----

  /** The characters with the White_Space property. */
  predicate White(c: char) {
    || 0x09 <= c as nat <= 0x0D || c == ' ' || c as nat in {0x85, 0xA0, 0x1680, 0x2028, 0x2029, 0x202F, 0x205F, 0x3000}
    || 0x2000 <= c as nat <= 0x200A
  }

  function TrimStart(s: string): string {
    if s != "" && White(s[0]) then TrimStart(s[1..]) else s
  }

  function TrimEnd(s: string): string {
    if s != "" && White(s[|s| - 1]) then TrimEnd(s[..|s| - 1]) else s
  }

  function Trim(s: string): string {
    TrimEnd(TrimStart(s))
  }

  /** No white space at either end. */
  predicate Tight(s: string) {
    s != "" ==> !White(s[0]) && !White(s[|s| - 1])
  }

  lemma {:induction false} TrimStartFacts(s: string)
    ensures TrimStart(s) != "" ==> !White(TrimStart(s)[0])
    ensures TrimStart(s) == "" <==> forall c | c in s :: White(c)
    decreases |s|
  {
    if s != "" && White(s[0]) {
      TrimStartFacts(s[1..]);
      assert s == [s[0]] + s[1..];
    } else if s != "" {
      assert s[0] in s;
    }
  }

  lemma {:induction false} TrimEndFacts(s: string)
    requires s != "" ==> !White(s[0])
    ensures Tight(TrimEnd(s))
    decreases |s|
  {
    if s != "" && White(s[|s| - 1]) {
      TrimEndFacts(s[..|s| - 1]);
    }
  }

  lemma TrimIsTight(s: string)
    ensures Tight(Trim(s)) && Trim(Trim(s)) == Trim(s)
  {
    TrimStartFacts(s);
    TrimEndFacts(TrimStart(s));
  }

  predicate AllWhite(s: string) {
    forall c | c in s :: White(c)
  }

  /** Trimming takes away white space at the two ends and nothing else; there is only one such text. */
  lemma {:induction false} TrimKeepsMiddle(s: string) returns (before: string, after: string)
    ensures s == before + Trim(s) + after && AllWhite(before) && AllWhite(after)
    decreases |s|
  {
    hide White, TrimEnd;
    if s != "" && White(s[0]) {
      var rest;
      rest, after := TrimKeepsMiddle(s[1..]);
      before := [s[0]] + rest;
      assert s == [s[0]] + s[1..];
    } else {
      before := "";
      after := TrimEndKeeps(s);
    }
  }

  lemma {:induction false} TrimEndKeeps(s: string) returns (after: string)
    ensures s == TrimEnd(s) + after && AllWhite(after)
    decreases |s|
  {
    hide White;
    if s != "" && White(s[|s| - 1]) {
      var rest := TrimEndKeeps(s[..|s| - 1]);
      after := rest + [s[|s| - 1]];
      assert s == s[..|s| - 1] + [s[|s| - 1]];
    } else {
      after := "";
      assert TrimEnd(s) == s;
    }
  }

  lemma TightStays(s: string)
    requires Tight(s)
    ensures Trim(s) == s
  {
    hide White;
  }

  /** White space at the end of a line, such as the CR of a CRLF, does not matter. */
  lemma TrimIgnoresEnd(s: string, c: char)
    requires White(c)
    ensures Trim(s + [c]) == Trim(s)
  {
    TrimStartThenEnd(s, c);
    var t := TrimStart(s);
    if t != "" {
      assert (t + [c])[..|t|] == t;
    }
  }

  lemma {:induction false} TrimStartThenEnd(s: string, c: char)
    requires White(c)
    ensures TrimStart(s + [c]) == if TrimStart(s) == "" then "" else TrimStart(s) + [c]
    decreases |s|
  {
    if s == "" {
      assert (s + [c])[1..] == "";
    } else if White(s[0]) {
      assert (s + [c])[1..] == s[1..] + [c];
      TrimStartThenEnd(s[1..], c);
    }
  }

  // ---- One line ----

  /** The fields of a JSON object the parser looks at; absent or non-string fields are `None`. */
  datatype Payload = Payload(kind: Option<string>, text: Option<string>, message: Option<string>)

  /** JSON decoding of a trimmed line; `None` for text that is not JSON. */
  type Decoder = string -> Option<Payload>

  function NonBlank(field: Option<string>): Option<string> {
    if field.Some? && Trim(field.value) != "" then Some(Trim(field.value)) else None
  }

  function PayloadEvents(payload: Payload): seq<RecognitionEvent> {
    var kind := if payload.kind.Some? then payload.kind.value else "";
    var text := NonBlank(payload.text);
    if kind == "partial" then (if text.Some? then [PartialText(text.value)] else [])
    else if kind == "final" || kind == "final_timestamps" then (if text.Some? then [FinalText(text.value)] else [])
    else if kind == "error" then
      [ErrorEvent(if NonBlank(payload.message).Some? then NonBlank(payload.message).value else "failed.")]
    else if kind == "closed" then [Completed]
    else []
  }

  /** The events of one line; `None` when the line is not JSON. */
  function ParseLine(decode: Decoder, line: string): Option<seq<RecognitionEvent>> {
    var trimmed := Trim(line);
    if trimmed == "" then Some([])
    else match decode(trimmed)
      case None => None
      case Some(payload) => Some(PayloadEvents(payload))
  }

  // ---- Splitting into lines ----

  /** The position of the first newline, or the length of the text. */
  function LineEnd(text: string): (n: nat)
    ensures n <= |text|
    ensures n < |text| ==> text[n] == '\n'
    ensures forall i | 0 <= i < n :: text[i] != '\n'
  {
    if text == "" || text[0] == '\n' then 0 else 1 + LineEnd(text[1..])
  }

  predicate HasLine(text: string) {
    LineEnd(text) < |text|
  }

  /** The first line without its newline, and what follows the newline. */
  function FirstLine(text: string): (line: string)
    requires HasLine(text)
  {
    text[..LineEnd(text)]
  }

  function AfterLine(text: string): (rest: string)
    requires HasLine(text)
    ensures |rest| < |text|
  {
    text[LineEnd(text) + 1..]
  }

  /** The newline-terminated lines of a text. */
  function CompleteLines(text: string): seq<string>
    decreases |text|
  {
    if HasLine(text) then [FirstLine(text)] + CompleteLines(AfterLine(text)) else []
  }

  /** What follows the last newline. */
  function Remainder(text: string): string
    decreases |text|
  {
    if HasLine(text) then Remainder(AfterLine(text)) else text
  }

  /** The lines as `str::lines` yields them: a CR before the newline is dropped, and a last line
      without newline counts unless it is empty. */
  function Lines(text: string): seq<string>
    decreases |text|
  {
    if HasLine(text) then [DropCr(FirstLine(text))] + Lines(AfterLine(text))
    else if text == "" then []
    else [text]
  }

  function DropCr(line: string): string {
    if line != "" && line[|line| - 1] == '\r' then line[..|line| - 1] else line
  }

  lemma LineEndOfConcat(a: string, b: string)
    requires HasLine(a)
    ensures LineEnd(a + b) == LineEnd(a)
  {
    var n, m := LineEnd(a), LineEnd(a + b);
    assert (a + b)[n] == '\n';
    if m < n {
      assert (a + b)[m] == a[m];
    }
  }

  lemma FirstLineOfConcat(a: string, b: string)
    requires HasLine(a)
    ensures HasLine(a + b) && FirstLine(a + b) == FirstLine(a) && AfterLine(a + b) == AfterLine(a) + b
  {
    LineEndOfConcat(a, b);
  }

  // ---- The effect of a line on a session's event queue ----

  /** The queue, the last partial text and the three event flags. */
  datatype Output = Output(events: seq<RecognitionEvent>, lastPartial: string, sawFinal: bool, sawError: bool,
      completed: bool)

  function PushError(o: Output, message: string): Output {
    o.(events := o.events + [ErrorEvent(if Trim(message) == "" then "failed." else Trim(message))], sawError := true)
  }

  function Handle(o: Output, e: RecognitionEvent): Output {
    match e
    case PartialText(text) =>
      if text == o.lastPartial then o else o.(events := o.events + [e], lastPartial := text)
    case FinalText(_) => o.(events := o.events + [e], lastPartial := "", sawFinal := true)
    case ErrorEvent(message) => PushError(o, message)
    case Completed => o.(completed := true)
  }

  function HandleAll(o: Output, events: seq<RecognitionEvent>): Output
    decreases |events|
  {
    if events == [] then o else HandleAll(Handle(o, events[0]), events[1..])
  }

  /** The effect of a text on a buffered reader: its queue, its buffer, and whether every line was
      JSON. A line that is not stops the reader right after that line. */
  datatype Reader = Reader(out: Output, buffer: string, good: bool)

  function Drain(decode: Decoder, o: Output, buffer: string): Reader
    decreases |buffer|
  {
    if !HasLine(buffer) then Reader(o, buffer, true)
    else match ParseLine(decode, FirstLine(buffer))
      case None => Reader(o, AfterLine(buffer), false)
      case Some(events) => Drain(decode, HandleAll(o, events), AfterLine(buffer))
  }

  /** Where the text was cut makes no difference: reading two pieces one after the other is reading
      their concatenation. */
  lemma {:induction false} DrainOfConcat(decode: Decoder, o: Output, a: string, b: string)
    requires Drain(decode, o, a).good
    ensures
      var first := Drain(decode, o, a);
      Drain(decode, o, a + b) == Drain(decode, first.out, first.buffer + b)
    decreases |a|
  {
    hide ParseLine, HandleAll;
    if HasLine(a) {
      FirstLineOfConcat(a, b);
      DrainOfConcat(decode, HandleAll(o, ParseLine(decode, FirstLine(a)).value), AfterLine(a), b);
    }
  }

  lemma {:induction false} BadStaysBad(decode: Decoder, o: Output, a: string, b: string)
    requires !Drain(decode, o, a).good
    ensures !Drain(decode, o, a + b).good
    decreases |a|
  {
    hide ParseLine, HandleAll;
    FirstLineOfConcat(a, b);
    var events := ParseLine(decode, FirstLine(a));
    if events.Some? {
      BadStaysBad(decode, HandleAll(o, events.value), AfterLine(a), b);
    }
  }

  lemma {:induction false} DrainLeavesNoLine(decode: Decoder, o: Output, buffer: string)
    requires Drain(decode, o, buffer).good
    ensures !HasLine(Drain(decode, o, buffer).buffer)
    decreases |buffer|
  {
    hide ParseLine, HandleAll;
    if HasLine(buffer) {
      DrainLeavesNoLine(decode, HandleAll(o, ParseLine(decode, FirstLine(buffer)).value), AfterLine(buffer));
    }
  }

  function Concat(pieces: seq<string>): string {
    if pieces == [] then "" else pieces[0] + Concat(pieces[1..])
  }

  /** Reading pieces one after the other, up to the first line that is not JSON. */
  function FeedAll(decode: Decoder, r: Reader, pieces: seq<string>): Reader
    decreases |pieces|
  {
    if pieces == [] || !r.good then r
    else FeedAll(decode, Drain(decode, r.out, r.buffer + pieces[0]), pieces[1..])
  }

  /** Any cut of a text into pieces is read like the text as a whole. */
  lemma {:induction false} PiecesDoNotMatter(decode: Decoder, r: Reader, pieces: seq<string>)
    requires r.good && !HasLine(r.buffer)
    ensures
      var fed := FeedAll(decode, r, pieces);
      var whole := Drain(decode, r.out, r.buffer + Concat(pieces));
      fed.good == whole.good && (fed.good ==> fed == whole)
    decreases |pieces|
  {
    hide HasLine, ParseLine;
    if pieces == [] {
      assert r.buffer + "" == r.buffer;
    } else {
      var head, tail := r.buffer + pieces[0], Concat(pieces[1..]);
      assert r.buffer + Concat(pieces) == head + tail;
      var next := Drain(decode, r.out, head);
      if next.good {
        DrainLeavesNoLine(decode, r.out, head);
        DrainOfConcat(decode, r.out, head, tail);
        PiecesDoNotMatter(decode, next, pieces[1..]);
      } else {
        BadStaysBad(decode, r.out, head, tail);
        assert FeedAll(decode, next, pieces[1..]) == next;
      }
    }
  }

  lemma {:induction false} FeedInTwoParts(decode: Decoder, r: Reader, a: seq<string>, b: seq<string>)
    ensures FeedAll(decode, r, a + b) == FeedAll(decode, FeedAll(decode, r, a), b)
    decreases |a|
  {
    hide Drain;
    if a == [] {
      assert a + b == b;
    } else if r.good {
      assert (a + b)[1..] == a[1..] + b;
      FeedInTwoParts(decode, Drain(decode, r.out, r.buffer + a[0]), a[1..], b);
    }
  }

  // ---- What is already queued does not matter ----

  function Behind(before: seq<RecognitionEvent>, o: Output): Output {
    o.(events := before + o.events)
  }

  lemma {:induction false} HandleAllBehind(before: seq<RecognitionEvent>, o: Output, events: seq<RecognitionEvent>)
    ensures HandleAll(Behind(before, o), events) == Behind(before, HandleAll(o, events))
    decreases |events|
  {
    hide Trim;
    if events != [] {
      var e := events[0];
      assert before + (o.events + [e]) == before + o.events + [e];
      if e.ErrorEvent? {
        var queued := PushError(o, e.message).events;
        assert before + queued == before + o.events + [queued[|queued| - 1]];
      }
      HandleAllBehind(before, Handle(o, e), events[1..]);
    }
  }

  lemma {:induction false} DrainBehind(decode: Decoder, before: seq<RecognitionEvent>, o: Output, buffer: string)
    ensures
      var r := Drain(decode, o, buffer);
      Drain(decode, Behind(before, o), buffer) == r.(out := Behind(before, r.out))
    decreases |buffer|
  {
    hide ParseLine, HandleAll, Behind;
    if HasLine(buffer) {
      var events := ParseLine(decode, FirstLine(buffer));
      if events.Some? {
        HandleAllBehind(before, o, events.value);
        DrainBehind(decode, before, HandleAll(o, events.value), AfterLine(buffer));
      }
    }
  }

  /** Reading appends to whatever the queue holds, so emptying the queue in between loses nothing. */
  lemma {:induction false} FeedBehind(decode: Decoder, before: seq<RecognitionEvent>, r: Reader, pieces: seq<string>)
    ensures
      var fed := FeedAll(decode, r, pieces);
      FeedAll(decode, r.(out := Behind(before, r.out)), pieces) == fed.(out := Behind(before, fed.out))
    decreases |pieces|
  {
    hide Drain, Behind;
    if pieces != [] && r.good {
      DrainBehind(decode, before, r.out, r.buffer + pieces[0]);
      FeedBehind(decode, before, Drain(decode, r.out, r.buffer + pieces[0]), pieces[1..]);
    }
  }

  // ---- The one-shot parser ----

  datatype Parsed = Parsed(events: seq<RecognitionEvent>, lastPartial: string)

  function Collect(p: Parsed, e: RecognitionEvent): Parsed {
    match e
    case PartialText(text) => if text == p.lastPartial then p else Parsed(p.events + [e], text)
    case FinalText(_) => Parsed(p.events + [e], "")
    case _ => Parsed(p.events + [e], p.lastPartial)
  }

  function CollectAll(p: Parsed, events: seq<RecognitionEvent>): Parsed
    decreases |events|
  {
    if events == [] then p else CollectAll(Collect(p, events[0]), events[1..])
  }

  function CollectLines(decode: Decoder, p: Parsed, lines: seq<string>): Option<Parsed>
    decreases |lines|
  {
    if lines == [] then Some(p)
    else match ParseLine(decode, lines[0])
      case None => None
      case Some(events) => CollectLines(decode, CollectAll(p, events), lines[1..])
  }

  datatype ParseError = NotJson | NoEvents

  /** The events of a whole standard output, closed by `Completed`. */
  function OneShot(decode: Decoder, stdout: string): Result<seq<RecognitionEvent>, ParseError> {
    match CollectLines(decode, Parsed([], ""), Lines(stdout))
    case None => Err(NotJson)
    case Some(p) =>
      if p.events == [] then Err(NoEvents)
      else if p.events[|p.events| - 1] == Completed then Ok(p.events)
      else Ok(p.events + [Completed])
  }

  method ParseStdout(decode: Decoder, stdout: string) returns (r: Result<seq<RecognitionEvent>, ParseError>)
    ensures r == OneShot(decode, stdout)
    ensures r.Ok? ==> r.value != [] && r.value[|r.value| - 1] == Completed
  {
    hide ParseLine, Lines;
    var events: seq<RecognitionEvent> := [];
    var lastPartial := "";
    var lines := Lines(stdout);
    ghost var whole := CollectLines(decode, Parsed([], ""), lines);
    while lines != []
      invariant whole == CollectLines(decode, Parsed(events, lastPartial), lines)
      decreases |lines|
    {
      var parsed := ParseLine(decode, lines[0]);
      if parsed.None? {
        return Err(NotJson);
      }
      var todo := parsed.value;
      ghost var after := CollectAll(Parsed(events, lastPartial), todo);
      while todo != []
        invariant after == CollectAll(Parsed(events, lastPartial), todo)
        decreases |todo|
      {
        match todo[0] {
          case PartialText(text) =>
            if text != lastPartial {
              lastPartial := text;
              events := events + [todo[0]];
            }
          case FinalText(_) =>
            lastPartial := "";
            events := events + [todo[0]];
          case _ =>
            events := events + [todo[0]];
        }
        todo := todo[1..];
      }
      lines := lines[1..];
    }
    if events == [] {
      return Err(NoEvents);
    }
    if events[|events| - 1] != Completed {
      events := events + [Completed];
    }
    return Ok(events);
  }

  // ---- Both readers agree ----

  /** The events other than `Completed`. */
  function WithoutCompleted(events: seq<RecognitionEvent>): seq<RecognitionEvent> {
    if events == [] then []
    else
      WithoutCompleted(events[..|events| - 1])
      + if events[|events| - 1] == Completed then [] else [events[|events| - 1]]
  }

  lemma WithoutCompletedAppend(events: seq<RecognitionEvent>, e: RecognitionEvent)
    ensures WithoutCompleted(events + [e]) == WithoutCompleted(events) + if e == Completed then [] else [e]
  {
    assert (events + [e])[..|events|] == events;
  }

  /** The session's queue is the parser's list without `Completed`, behind what it held before. */
  predicate Agree(o: Output, p: Parsed, before: seq<RecognitionEvent>) {
    o.lastPartial == p.lastPartial && o.events == before + WithoutCompleted(p.events)
  }

  /** The parser only ever yields error messages that are trimmed and not blank. */
  predicate CleanErrors(events: seq<RecognitionEvent>) {
    forall e | e in events && e.ErrorEvent? :: Trim(e.message) == e.message != ""
  }

  lemma ParsedErrorsAreClean(decode: Decoder, line: string)
    requires ParseLine(decode, line).Some?
    ensures CleanErrors(ParseLine(decode, line).value)
  {
    hide White;
    if Trim(line) != "" {
      var payload := decode(Trim(line)).value;
      if payload.message.Some? {
        TrimIsTight(payload.message.value);
      }
      FailedIsClean();
    }
  }

  lemma FailedIsClean()
    ensures Trim("failed.") == "failed."
  {
  }

  lemma {:induction false} HandleAgrees(
      o: Output, p: Parsed, before: seq<RecognitionEvent>, events: seq<RecognitionEvent>)
    requires Agree(o, p, before) && CleanErrors(events)
    ensures Agree(HandleAll(o, events), CollectAll(p, events), before)
    decreases |events|
  {
    hide Trim, Handle, Collect, Agree;
    if events != [] {
      assert events[0] in events;
      OneAgrees(o, p, before, events[0]);
      HandleAgrees(Handle(o, events[0]), Collect(p, events[0]), before, events[1..]);
    }
  }

  lemma OneAgrees(o: Output, p: Parsed, before: seq<RecognitionEvent>, e: RecognitionEvent)
    requires Agree(o, p, before) && CleanErrors([e])
    ensures Agree(Handle(o, e), Collect(p, e), before)
  {
    hide Trim, WithoutCompleted;
    assert e in [e];
    WithoutCompletedAppend(p.events, e);
    assert WithoutCompleted(p.events) + [] == WithoutCompleted(p.events);
    assert before + (WithoutCompleted(p.events) + [e]) == before + WithoutCompleted(p.events) + [e];
  }

  lemma ParseIgnoresCr(decode: Decoder, line: string)
    ensures ParseLine(decode, DropCr(line)) == ParseLine(decode, line)
  {
    hide Trim;
    if DropCr(line) != line {
      TrimIgnoresEnd(DropCr(line), '\r');
      assert DropCr(line) + ['\r'] == line;
    }
  }

  /** Draining a buffer and collecting its complete lines stop at the same place with the same
      result; only what follows the last newline stays behind in the buffer. */
  lemma {:induction false} DrainCollects(
      decode: Decoder, o: Output, p: Parsed, before: seq<RecognitionEvent>, buffer: string)
    requires Agree(o, p, before)
    ensures
      var reader := Drain(decode, o, buffer);
      var parsed := CollectLines(decode, p, CompleteLines(buffer));
      && (reader.good <==> parsed.Some?)
      && (reader.good ==> reader.buffer == Remainder(buffer) && Agree(reader.out, parsed.value, before))
    decreases |buffer|
  {
    hide ParseLine, HandleAll, CollectAll, Agree;
    if HasLine(buffer) {
      var line := FirstLine(buffer);
      var lines := CompleteLines(buffer);
      assert lines[0] == line && lines[1..] == CompleteLines(AfterLine(buffer));
      if ParseLine(decode, line).Some? {
        var events := ParseLine(decode, line).value;
        ParsedErrorsAreClean(decode, line);
        HandleAgrees(o, p, before, events);
        DrainCollects(decode, HandleAll(o, events), CollectAll(p, events), before, AfterLine(buffer));
      }
    }
  }

  /** For a text that ends in a newline the complete lines are all lines. */
  lemma {:induction false} TerminatedLines(decode: Decoder, p: Parsed, text: string)
    requires Remainder(text) == ""
    ensures CollectLines(decode, p, Lines(text)) == CollectLines(decode, p, CompleteLines(text))
    decreases |text|
  {
    hide ParseLine, CollectAll, DropCr;
    if HasLine(text) {
      var a, b := Lines(text), CompleteLines(text);
      assert a[0] == DropCr(b[0]) && a[1..] == Lines(AfterLine(text)) && b[1..] == CompleteLines(AfterLine(text));
      ParseIgnoresCr(decode, b[0]);
      if ParseLine(decode, b[0]).Some? {
        TerminatedLines(decode, CollectAll(p, ParseLine(decode, b[0]).value), AfterLine(text));
      }
    }
  }

  /** Reading newline-terminated output in whatever pieces gives the events of the one-shot parser
      without `Completed`; the two reject the same texts, except that the one-shot parser also
      rejects a text without any event. */
  lemma IncrementalIsOneShot(decode: Decoder, o: Output, pieces: seq<string>)
    requires o.lastPartial == "" && Remainder(Concat(pieces)) == ""
    ensures
      var reader := FeedAll(decode, Reader(o, "", true), pieces);
      var parsed := OneShot(decode, Concat(pieces));
      && (parsed == Err(NotJson) <==> !reader.good)
      && (parsed.Ok? ==>
            && reader.good && reader.buffer == ""
            && reader.out.events == o.events + WithoutCompleted(parsed.value))
      && (parsed == Err(NoEvents) ==> reader.good && reader.out.events == o.events)
  {
    hide Drain, CollectLines, Lines, FeedAll, Concat;
    var p := Parsed([], "");
    var text := Concat(pieces);
    assert "" + text == text && o.events + WithoutCompleted([]) == o.events;
    PiecesDoNotMatter(decode, Reader(o, "", true), pieces);
    TerminatedLines(decode, p, text);
    DrainCollects(decode, o, p, o.events, text);
    var parsed := CollectLines(decode, p, Lines(text));
    if parsed.Some? {
      WithoutCompletedAppend(parsed.value.events, Completed);
    }
  }
}
