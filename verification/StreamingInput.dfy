/** The helper's input protocol: one JSON line per chunk, the last chunk committed. */
module StreamingInput {
  import opened Pcm

  datatype Line = Audio(samples: seq<i16>, commit: bool) | FinishLine | CancelLine

  /** The JSON text of a line; it never contains a newline. */
  type Renderer = Line -> seq<byte>

  const NEWLINE: byte := 10

  ghost predicate OneLineEach(render: Renderer) {
    forall line: Line :: NEWLINE !in render(line)
  }

  function Wire(render: Renderer, lines: seq<Line>): seq<byte> {
    if lines == [] then []
    else Wire(render, lines[..|lines| - 1]) + (render(lines[|lines| - 1]) + [NEWLINE])
  }

  lemma WireAppend(render: Renderer, lines: seq<Line>, line: Line)
    ensures Wire(render, lines + [line]) == Wire(render, lines) + (render(line) + [NEWLINE])
  {
    assert (lines + [line])[..|lines|] == lines;
  }

  // ---- What a run of pushes puts on the wire ----

  /** Every non-empty push as an uncommitted chunk. */
  function Flushed(pushes: seq<seq<i16>>): seq<Line> {
    if pushes == [] then []
    else
      Flushed(pushes[..|pushes| - 1])
      + if pushes[|pushes| - 1] == [] then [] else [Audio(pushes[|pushes| - 1], false)]
  }

  /** The samples held back until it is known whether they are the last. */
  function HeldBack(pushes: seq<seq<i16>>): seq<i16> {
    if pushes == [] then [] else pushes[|pushes| - 1]
  }

  /** The lines written while the last push is held back. */
  function LinesSoFar(pushes: seq<seq<i16>>): seq<Line> {
    if pushes == [] then [] else Flushed(pushes[..|pushes| - 1])
  }

  /** All lines of a finished session. */
  function AllLines(pushes: seq<seq<i16>>): seq<Line> {
    LinesSoFar(pushes) + (if HeldBack(pushes) == [] then [] else [Audio(HeldBack(pushes), true)]) + [FinishLine]
  }

  function Joined(pushes: seq<seq<i16>>): seq<i16> {
    if pushes == [] then [] else Joined(pushes[..|pushes| - 1]) + pushes[|pushes| - 1]
  }

  function AudioOf(lines: seq<Line>): seq<i16> {
    if lines == [] then []
    else
      AudioOf(lines[..|lines| - 1]) + if lines[|lines| - 1].Audio? then lines[|lines| - 1].samples else []
  }

  lemma AudioAppend(lines: seq<Line>, line: Line)
    ensures AudioOf(lines + [line]) == AudioOf(lines) + if line.Audio? then line.samples else []
  {
    assert (lines + [line])[..|lines|] == lines;
  }

  /** A push writes the chunk held back before it, uncommitted, and is held back itself. */
  lemma PushMoves(pushes: seq<seq<i16>>, samples: seq<i16>)
    ensures LinesSoFar(pushes + [samples]) ==
            LinesSoFar(pushes) + if HeldBack(pushes) == [] then [] else [Audio(HeldBack(pushes), false)]
    ensures HeldBack(pushes + [samples]) == samples
  {
    assert (pushes + [samples])[..|pushes|] == pushes;
  }

  lemma {:induction false} FlushedFacts(pushes: seq<seq<i16>>)
    ensures AudioOf(Flushed(pushes)) == Joined(pushes)
    ensures Uncommitted(Flushed(pushes))
    decreases |pushes|
  {
    hide AudioOf, Uncommitted;
    if pushes == [] {
      NothingIsUncommitted();
    } else {
      var before, last := pushes[..|pushes| - 1], pushes[|pushes| - 1];
      FlushedFacts(before);
      OneMore(Flushed(before), last);
      assert Flushed(before) + [] == Flushed(before);
      assert Joined(before) + [] == Joined(before);
    }
  }

  lemma OneMore(lines: seq<Line>, samples: seq<i16>)
    requires Uncommitted(lines)
    ensures AudioOf(lines + [Audio(samples, false)]) == AudioOf(lines) + samples
    ensures samples != [] ==> Uncommitted(lines + [Audio(samples, false)])
  {
    AudioAppend(lines, Audio(samples, false));
  }

  /** Non-empty audio lines without a commit mark. */
  predicate Uncommitted(lines: seq<Line>) {
    forall line | line in lines :: line.Audio? && !line.commit && line.samples != []
  }

  /** A finished session has sent every pushed sample once and in order, in non-empty audio lines.
      At most one of them is committed, the last one before `finish`, and one is exactly when the
      last push was not empty. */
  lemma AllLinesFacts(pushes: seq<seq<i16>>)
    ensures
      var lines := AllLines(pushes);
      var audio := if HeldBack(pushes) == [] then [] else [Audio(HeldBack(pushes), true)];
      && AudioOf(lines) == Joined(pushes)
      && Uncommitted(LinesSoFar(pushes))
      && lines == LinesSoFar(pushes) + audio + [FinishLine]
  {
    hide Uncommitted;
    var before := if pushes == [] then [] else pushes[..|pushes| - 1];
    FlushedFacts(before);
    var sent := LinesSoFar(pushes);
    var held := HeldBack(pushes);
    var lines := sent + if held == [] then [] else [Audio(held, true)];
    AudioAppend(sent, Audio(held, true));
    AudioAppend(lines, FinishLine);
    assert sent + [] == sent;
    assert AudioOf(lines + [FinishLine]) == AudioOf(lines) + [] == AudioOf(lines);
    assert Joined(before) + [] == Joined(before);
    if pushes == [] {
      NothingIsUncommitted();
    }
  }

  lemma NothingIsUncommitted()
    ensures Uncommitted([]) && AudioOf([]) == []
  {
  }

  // ---- What the helper reads ----

  /** The pieces of a byte stream that end in a newline. */
  function SplitLines(bytes: seq<byte>): seq<seq<byte>> {
    if bytes == [] then []
    else if bytes[|bytes| - 1] == NEWLINE then SplitLines(bytes[..|bytes| - 1]) + [LastPiece(bytes[..|bytes| - 1])]
    else SplitLines(bytes[..|bytes| - 1])
  }

  /** What follows the last newline. */
  function LastPiece(bytes: seq<byte>): seq<byte> {
    if bytes == [] || bytes[|bytes| - 1] == NEWLINE then []
    else LastPiece(bytes[..|bytes| - 1]) + [bytes[|bytes| - 1]]
  }

  function Rendered(render: Renderer, lines: seq<Line>): seq<seq<byte>> {
    if lines == [] then [] else Rendered(render, lines[..|lines| - 1]) + [render(lines[|lines| - 1])]
  }

  lemma {:induction false} PieceWithoutNewline(bytes: seq<byte>, piece: seq<byte>)
    requires NEWLINE !in piece
    ensures SplitLines(bytes + piece) == SplitLines(bytes) && LastPiece(bytes + piece) == LastPiece(bytes) + piece
    decreases |piece|
  {
    if piece == [] {
      assert bytes + piece == bytes;
    } else {
      var n := |piece| - 1;
      assert (bytes + piece)[..|bytes + piece| - 1] == bytes + piece[..n];
      assert piece[n] in piece;
      PieceWithoutNewline(bytes, piece[..n]);
    }
  }

  /** Splitting the wire at newlines gives the helper exactly the rendered lines, once each and in
      order, with nothing left over. */
  lemma {:induction false} HelperReadsLines(render: Renderer, lines: seq<Line>)
    requires OneLineEach(render)
    ensures SplitLines(Wire(render, lines)) == Rendered(render, lines) && LastPiece(Wire(render, lines)) == []
    decreases |lines|
  {
    hide SplitLines, LastPiece;
    if lines == [] {
      EmptySplit();
    } else {
      var n := |lines| - 1;
      HelperReadsLines(render, lines[..n]);
      var before := Wire(render, lines[..n]);
      PieceWithoutNewline(before, render(lines[n]));
      EndOfLine(before + render(lines[n]));
      assert before + render(lines[n]) + [NEWLINE] == before + (render(lines[n]) + [NEWLINE]);
      assert [] + render(lines[n]) == render(lines[n]);
    }
  }

  lemma EmptySplit()
    ensures SplitLines([]) == [] && LastPiece([]) == []
  {
  }

  lemma EndOfLine(bytes: seq<byte>)
    ensures SplitLines(bytes + [NEWLINE]) == SplitLines(bytes) + [LastPiece(bytes)]
    ensures LastPiece(bytes + [NEWLINE]) == []
  {
    assert (bytes + [NEWLINE])[..|bytes|] == bytes;
  }
}
