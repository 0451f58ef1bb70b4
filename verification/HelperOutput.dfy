/** What a helper's lines say: events printed as lines are the events that are read. */
module HelperOutput {
  import opened Results
  import opened Pcm
  import opened StreamingLines

  // ---- One payload ----

  /** The payload that stands for an event. */
  function PayloadOf(e: RecognitionEvent): Payload {
    match e
    case PartialText(text) => Payload(Some("partial"), Some(text), None)
    case FinalText(text) => Payload(Some("final"), Some(text), None)
    case ErrorEvent(message) => Payload(Some("error"), None, Some(message))
    case Completed => Payload(Some("closed"), None, None)
  }

  /** `part` is `field` without the white space around it, and there is something left. */
  predicate Tells(field: Option<string>, part: string) {
    field.Some? && part == Trim(field.value) && part != ""
  }

  /** When a payload stands for an event, event by event. */
  predicate Says(payload: Payload, e: RecognitionEvent) {
    match e
    case PartialText(text) => payload.kind == Some("partial") && Tells(payload.text, text)
    case FinalText(text) =>
      (payload.kind == Some("final") || payload.kind == Some("final_timestamps")) && Tells(payload.text, text)
    case ErrorEvent(message) =>
      payload.kind == Some("error")
      && (Tells(payload.message, message)
          || ((payload.message.None? || Trim(payload.message.value) == "") && message == "failed."))
    case Completed => payload.kind == Some("closed")
  }

  /** A payload yields the one event it stands for, and none if it stands for none. */
  lemma PayloadYields(payload: Payload, e: RecognitionEvent)
    ensures PayloadEvents(payload) == [e] <==> Says(payload, e)
    ensures |PayloadEvents(payload)| <= 1
  {
    hide Trim;
    var kind := if payload.kind.Some? then payload.kind.value else "";
    assert payload.kind.None? ==> kind != "partial" && kind != "final" && kind != "final_timestamps" && kind != "error"
                                  && kind != "closed";
    if |PayloadEvents(payload)| > 0 {
      assert PayloadEvents(payload) == [PayloadEvents(payload)[0]];
      assert PayloadEvents(payload) == [e] <==> PayloadEvents(payload)[0] == e;
    }
  }

  predicate Clean(e: RecognitionEvent) {
    match e
    case PartialText(text) => Tight(text) && text != ""
    case FinalText(text) => Tight(text) && text != ""
    case ErrorEvent(message) => Tight(message) && message != ""
    case Completed => true
  }

  lemma PrintedIsSaid(e: RecognitionEvent)
    requires Clean(e)
    ensures Says(PayloadOf(e), e)
  {
    hide Trim, Tight;
    match e
    case PartialText(text) => TightStays(text);
    case FinalText(text) => TightStays(text);
    case ErrorEvent(message) => TightStays(message);
    case Completed =>
  }

  // ---- One line ----

  /** A way to write payloads as JSON lines. */
  type Encoder = Payload -> string

  predicate Writes(decode: Decoder, encode: Encoder, payload: Payload) {
    var line := encode(payload);
    Tight(line) && line != "" && '\n' !in line && decode(line) == Some(payload)
  }

  /** An event that is printed as a line is the event that is read. */
  lemma ReadInvertsPrint(decode: Decoder, encode: Encoder, e: RecognitionEvent)
    requires Clean(e) && Writes(decode, encode, PayloadOf(e))
    ensures ParseLine(decode, encode(PayloadOf(e))) == Some([e])
  {
    hide Trim, Tight, PayloadEvents, Says;
    TightStays(encode(PayloadOf(e)));
    PrintedIsSaid(e);
    PayloadYields(PayloadOf(e), e);
  }

  // ---- A whole output ----

  function LinesOf(encode: Encoder, events: seq<RecognitionEvent>): seq<string> {
    if events == [] then [] else [encode(PayloadOf(events[0]))] + LinesOf(encode, events[1..])
  }

  function Printed(encode: Encoder, events: seq<RecognitionEvent>): string {
    if events == [] then "" else encode(PayloadOf(events[0])) + "\n" + Printed(encode, events[1..])
  }

  predicate Writable(decode: Decoder, encode: Encoder, events: seq<RecognitionEvent>) {
    forall e | e in events :: Clean(e) && Writes(decode, encode, PayloadOf(e))
  }

  lemma {:induction false} PrintedLines(decode: Decoder, encode: Encoder, events: seq<RecognitionEvent>)
    requires Writable(decode, encode, events)
    ensures Lines(Printed(encode, events)) == LinesOf(encode, events)
    decreases |events|
  {
    hide Clean, White, DropCr;
    if events != [] {
      var line, rest := encode(PayloadOf(events[0])), Printed(encode, events[1..]);
      assert events[0] in events;
      FirstOfPrinted(line, rest);
      NoCr(line);
      PrintedLines(decode, encode, events[1..]);
    }
  }

  lemma NoCr(line: string)
    requires Tight(line)
    ensures DropCr(line) == line
  {
  }

  lemma FirstOfPrinted(line: string, rest: string)
    requires '\n' !in line
    ensures
      var text := line + "\n" + rest;
      HasLine(text) && FirstLine(text) == line && AfterLine(text) == rest
  {
    var text := line + "\n" + rest;
    var n := LineEnd(text);
    assert text[|line|] == '\n';
    assert n >= |line| by {
      assert forall i | 0 <= i < |line| :: text[i] == line[i] && line[i] in line;
    }
    assert text[..|line|] == line && text[|line| + 1..] == rest;
  }

  /** The interim text that stands when some events have been read: the last one, unless a final text
      came behind it. */
  predicate Stands(events: seq<RecognitionEvent>, text: string) {
    exists j :: 0 <= j < |events| && events[j] == PartialText(text)
      && forall k | j < k < |events| :: !events[k].PartialText? && !events[k].FinalText?
  }

  /** Interim texts that repeat the standing one are dropped. */
  function Kept(events: seq<RecognitionEvent>): (kept: seq<RecognitionEvent>)
    ensures kept == [] <==> events == []
  {
    if events == [] then []
    else
      var before, last := events[..|events| - 1], events[|events| - 1];
      Kept(before) + if last.PartialText? && Stands(before, last.text) then [] else [last]
  }

  /** What the reader remembers of the events. */
  function LastPartial(events: seq<RecognitionEvent>): string {
    if events == [] then ""
    else match events[|events| - 1]
      case PartialText(text) => text
      case FinalText(_) => ""
      case _ => LastPartial(events[..|events| - 1])
  }

  lemma StandsNext(before: seq<RecognitionEvent>, e: RecognitionEvent, text: string)
    ensures Stands(before + [e], text) <==>
            if e.PartialText? then e.text == text else !e.FinalText? && Stands(before, text)
  {
    var more := before + [e];
    assert more[|before|] == e && forall k | 0 <= k < |before| :: more[k] == before[k];
    if e == PartialText(text) {
      assert more[|before|] == PartialText(text);
    } else if Stands(more, text) {
      var j :| 0 <= j < |more| && more[j] == PartialText(text)
          && forall k | j < k < |more| :: !more[k].PartialText? && !more[k].FinalText?;
      assert before[j] == PartialText(text);
    }
  }

  lemma {:induction false} LastPartialStands(events: seq<RecognitionEvent>, text: string)
    requires text != ""
    ensures LastPartial(events) == text <==> Stands(events, text)
    decreases |events|
  {
    if events != [] {
      var before, e := events[..|events| - 1], events[|events| - 1];
      LastPartialStands(before, text);
      StandsNext(before, e, text);
      assert events == before + [e];
    }
  }

  lemma OneMoreKept(events: seq<RecognitionEvent>, e: RecognitionEvent)
    requires Clean(e)
    ensures Collect(Parsed(Kept(events), LastPartial(events)), e)
            == Parsed(Kept(events + [e]), LastPartial(events + [e]))
  {
    hide Tight, Stands;
    var more := events + [e];
    assert more[..|events|] == events;
    if e.PartialText? {
      LastPartialStands(events, e.text);
    }
  }

  lemma {:induction false} CollectPrinted(decode: Decoder, encode: Encoder, events: seq<RecognitionEvent>, i: nat)
    requires i <= |events| && Writable(decode, encode, events)
    ensures CollectLines(decode, Parsed(Kept(events[..i]), LastPartial(events[..i])), LinesOf(encode, events[i..]))
            == Some(Parsed(Kept(events), LastPartial(events)))
    decreases |events| - i
  {
    hide ParseLine, Clean, Writes, Collect, Kept, LastPartial;
    if i == |events| {
      assert events[..i] == events && events[i..] == [];
    } else {
      var e, before := events[i], events[..i];
      assert e in events;
      ReadInvertsPrint(decode, encode, e);
      OneMoreKept(before, e);
      assert events[..i + 1] == before + [e];
      assert events[i..][1..] == events[i + 1..] && events[i..][0] == e;
      var p := Parsed(Kept(before), LastPartial(before));
      assert CollectAll(Collect(p, e), []) == Collect(p, e) && [e][1..] == [];
      assert CollectAll(p, [e]) == Collect(p, e);
      CollectPrinted(decode, encode, events, i + 1);
    }
  }

  /** The one-shot parser reads a printed output as its events: interim texts that repeat the standing
      one are dropped, and the list is closed by `Completed`. */
  lemma OutputIsEvents(decode: Decoder, encode: Encoder, events: seq<RecognitionEvent>)
    requires Writable(decode, encode, events)
    ensures
      OneShot(decode, Printed(encode, events)) ==
      if events == [] then Err(NoEvents)
      else if Kept(events)[|Kept(events)| - 1] == Completed then Ok(Kept(events))
      else Ok(Kept(events) + [Completed])
  {
    hide CollectLines, Lines, Stands, Writable, LinesOf;
    PrintedLines(decode, encode, events);
    CollectPrinted(decode, encode, events, 0);
    assert events[..0] == [] && events[0..] == events;
  }
}
