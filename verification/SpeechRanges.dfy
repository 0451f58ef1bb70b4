/** Padding detected speech segments and collecting the audio under them. */
module SpeechRanges {
  const USIZE_MAX: nat := 0xFFFF_FFFF_FFFF_FFFF

  type usize = n: nat | n <= USIZE_MAX

  datatype Segment = Segment(start: usize, length: usize)

  datatype Range = Range(start: nat, end: nat)

  function SaturatingAdd(a: usize, b: usize): usize {
    if a + b > USIZE_MAX then USIZE_MAX else a + b
  }

  function SaturatingSub(a: usize, b: usize): usize {
    if a < b then 0 else a - b
  }

  function PaddedStart(index: nat, segment: Segment, padding: usize, guard: usize): usize {
    var start := SaturatingSub(segment.start, padding);
    if index == 0 && start <= guard then 0 else start
  }

  function PaddedEnd(count: usize, segment: Segment, padding: usize): usize {
    var end := SaturatingAdd(SaturatingAdd(segment.start, segment.length), padding);
    if end < count then end else count
  }

  function PaddedRange(count: usize, index: nat, segment: Segment, padding: usize, guard: usize): seq<Range> {
    var start, end := PaddedStart(index, segment, padding, guard), PaddedEnd(count, segment, padding);
    if start < end then [Range(start, end)] else []
  }

  function PaddedSegmentRanges(count: usize, segments: seq<Segment>, padding: usize, guard: usize): seq<Range> {
    if segments == [] then []
    else
      var n := |segments| - 1;
      PaddedSegmentRanges(count, segments[..n], padding, guard) + PaddedRange(count, n, segments[n], padding, guard)
  }

  // ---- Which samples are kept ----

  /** Without any saturation: a sample is kept for a segment if it lies within the padding around it,
      or before the first segment when that one starts within the guard. */
  predicate Keeps(count: nat, index: nat, segment: Segment, padding: nat, guard: nat, position: nat) {
    && position < count
    && position < segment.start + segment.length + padding
    && (segment.start <= position + padding || (index == 0 && segment.start <= padding + guard))
  }

  predicate Covers(range: Range, position: nat) {
    range.start <= position < range.end
  }

  lemma SaturationIsInvisible(count: usize, index: nat, segment: Segment, padding: usize, guard: usize, position: nat)
    ensures
      Keeps(count, index, segment, padding, guard, position) <==>
      exists range :: range in PaddedRange(count, index, segment, padding, guard) && Covers(range, position)
  {
    var start, end := PaddedStart(index, segment, padding, guard), PaddedEnd(count, segment, padding);
    assert Keeps(count, index, segment, padding, guard, position) <==> start <= position < end;
    if start <= position < end {
      assert PaddedRange(count, index, segment, padding, guard)[0] == Range(start, end);
      assert Covers(Range(start, end), position);
    }
  }

  /** Every range is non-empty and in bounds, and the ranges cover exactly the samples kept for some
      segment. */
  lemma {:induction false} RangesCoverWhatIsKept(
      count: usize, segments: seq<Segment>, padding: usize, guard: usize, position: nat)
    ensures
      var ranges := PaddedSegmentRanges(count, segments, padding, guard);
      && (forall range | range in ranges :: range.start < range.end <= count)
      && ((exists range :: range in ranges && Covers(range, position)) <==>
          (exists i :: 0 <= i < |segments| && Keeps(count, i, segments[i], padding, guard, position)))
    decreases |segments|
  {
    hide Keeps, Covers, PaddedStart, PaddedEnd;
    if segments != [] {
      var n := |segments| - 1;
      var before := PaddedSegmentRanges(count, segments[..n], padding, guard);
      var last := PaddedRange(count, n, segments[n], padding, guard);
      RangesCoverWhatIsKept(count, segments[..n], padding, guard, position);
      SaturationIsInvisible(count, n, segments[n], padding, guard, position);
      LastRange(count, n, segments[n], padding, guard);
      if range :| range in before + last && Covers(range, position) {
        if range in before {
          var i :| 0 <= i < n && Keeps(count, i, segments[..n][i], padding, guard, position);
          assert Keeps(count, i, segments[i], padding, guard, position);
        } else {
          assert Keeps(count, n, segments[n], padding, guard, position);
        }
      }
      if i :| 0 <= i < |segments| && Keeps(count, i, segments[i], padding, guard, position) {
        if i < n {
          assert Keeps(count, i, segments[..n][i], padding, guard, position);
          var range :| range in before && Covers(range, position);
          assert range in before + last;
        } else {
          var range :| range in last && Covers(range, position);
          assert range in before + last;
        }
      }
    }
  }

  lemma LastRange(count: usize, index: nat, segment: Segment, padding: usize, guard: usize)
    ensures forall range | range in PaddedRange(count, index, segment, padding, guard) ::
            range.start < range.end <= count
  {
  }

  /** All in-bounds speech is kept. */
  lemma SpeechIsCovered(count: usize, segments: seq<Segment>, padding: usize, guard: usize, i: nat, position: nat)
    requires i < |segments|
    requires segments[i].start <= position < segments[i].start + segments[i].length && position < count
    ensures exists range :: range in PaddedSegmentRanges(count, segments, padding, guard) && Covers(range, position)
  {
    RangesCoverWhatIsKept(count, segments, padding, guard, position);
    assert Keeps(count, i, segments[i], padding, guard, position);
  }

  // ---- Order ----

  /** Each range starts no earlier than the one before it ends. */
  predicate Ordered(ranges: seq<Range>) {
    forall i, j | 0 <= i < j < |ranges| :: ranges[i].end <= ranges[j].start
  }

  /** A segment that leaves something to keep. */
  predicate Audible(count: usize, index: nat, segment: Segment, padding: usize, guard: usize) {
    PaddedStart(index, segment, padding, guard) < PaddedEnd(count, segment, padding)
  }

  /** Some sample is kept for an audible segment, and none for any other. */
  lemma AudibleIff(count: usize, index: nat, segment: Segment, padding: usize, guard: usize)
    ensures Audible(count, index, segment, padding, guard) <==>
            exists position: nat :: Keeps(count, index, segment, padding, guard, position)
  {
    if Audible(count, index, segment, padding, guard) {
      var start := PaddedStart(index, segment, padding, guard);
      SaturationIsInvisible(count, index, segment, padding, guard, start);
      assert Covers(PaddedRange(count, index, segment, padding, guard)[0], start);
    }
    if position: nat :| Keeps(count, index, segment, padding, guard, position) {
      SaturationIsInvisible(count, index, segment, padding, guard, position);
    }
  }

  /** Room for the padding of both. */
  predicate Apart(a: Segment, b: Segment, padding: nat) {
    a.start + a.length + 2 * padding <= b.start
  }

  /** Audible segments are in order and apart from each other. */
  predicate Spaced(count: usize, segments: seq<Segment>, padding: usize, guard: usize) {
    forall i, j | 0 <= i < j < |segments| ::
      Audible(count, i, segments[i], padding, guard) && Audible(count, j, segments[j], padding, guard) ==>
        Apart(segments[i], segments[j], padding)
  }

  /** The ranges are those of the audible segments. */
  lemma {:induction false} RangesOfAudible(count: usize, segments: seq<Segment>, padding: usize, guard: usize)
    ensures
      var ranges := PaddedSegmentRanges(count, segments, padding, guard);
      && (forall i | 0 <= i < |segments| && Audible(count, i, segments[i], padding, guard) ::
            Range(PaddedStart(i, segments[i], padding, guard), PaddedEnd(count, segments[i], padding)) in ranges)
      && (forall range | range in ranges ::
            exists i :: 0 <= i < |segments| && Audible(count, i, segments[i], padding, guard) && range ==
              Range(PaddedStart(i, segments[i], padding, guard), PaddedEnd(count, segments[i], padding)))
    decreases |segments|
  {
    hide PaddedStart, PaddedEnd, PaddedRange, Audible;
    if segments != [] {
      var n := |segments| - 1;
      var before := PaddedSegmentRanges(count, segments[..n], padding, guard);
      RangesOfAudible(count, segments[..n], padding, guard);
      RangeOfAudible(count, n, segments[n], padding, guard);
      forall i | 0 <= i < n && Audible(count, i, segments[i], padding, guard)
        ensures Range(PaddedStart(i, segments[i], padding, guard), PaddedEnd(count, segments[i], padding)) in before
      {
        assert segments[..n][i] == segments[i];
      }
    }
  }

  /** Two audible segments are kept apart exactly if there is room for both paddings between them. */
  lemma ApartIff(count: usize, i: nat, a: Segment, j: nat, b: Segment, padding: usize, guard: usize)
    requires i < j && Audible(count, i, a, padding, guard) && Audible(count, j, b, padding, guard)
    ensures PaddedEnd(count, a, padding) <= PaddedStart(j, b, padding, guard) <==> Apart(a, b, padding)
  {
  }

  /** The segments that a caller passes decide it: the ranges are disjoint and increasing if and only if
      the audible segments are spaced. */
  lemma {:induction false} OrderedIffSpaced(count: usize, segments: seq<Segment>, padding: usize, guard: usize)
    ensures
      Ordered(PaddedSegmentRanges(count, segments, padding, guard)) <==> Spaced(count, segments, padding, guard)
    decreases |segments|
  {
    hide PaddedStart, PaddedEnd, Ordered, Audible, Spaced, Apart;
    if segments == [] {
      NothingIsOrdered(count, padding, guard);
    } else {
      var n := |segments| - 1;
      var before := PaddedSegmentRanges(count, segments[..n], padding, guard);
      OrderedIffSpaced(count, segments[..n], padding, guard);
      AppendSpaced(count, segments[..n], segments[n], padding, guard);
      assert segments == segments[..n] + [segments[n]];
      RangeOfAudible(count, n, segments[n], padding, guard);
      if Audible(count, n, segments[n], padding, guard) {
        AppendOrdered(before, PaddedRange(count, n, segments[n], padding, guard)[0]);
        BehindAll(count, segments[..n], segments[n], padding, guard);
      } else {
        assert before + [] == before;
      }
    }
  }

  lemma RangeOfAudible(count: usize, index: nat, segment: Segment, padding: usize, guard: usize)
    ensures PaddedRange(count, index, segment, padding, guard) ==
            if Audible(count, index, segment, padding, guard)
            then [Range(PaddedStart(index, segment, padding, guard), PaddedEnd(count, segment, padding))]
            else []
  {
  }

  /** A range starts behind all earlier ones exactly if its segment is apart from all audible ones. */
  lemma BehindAll(count: usize, segments: seq<Segment>, segment: Segment, padding: usize, guard: usize)
    requires Audible(count, |segments|, segment, padding, guard)
    ensures
      (forall range | range in PaddedSegmentRanges(count, segments, padding, guard) ::
         range.end <= PaddedStart(|segments|, segment, padding, guard))
      <==> (forall i | 0 <= i < |segments| && Audible(count, i, segments[i], padding, guard) ::
              Apart(segments[i], segment, padding))
  {
    hide PaddedStart, PaddedEnd, Audible, Apart;
    RangesOfAudible(count, segments, padding, guard);
    forall i | 0 <= i < |segments| && Audible(count, i, segments[i], padding, guard)
      ensures PaddedEnd(count, segments[i], padding) <= PaddedStart(|segments|, segment, padding, guard)
              <==> Apart(segments[i], segment, padding)
    {
      ApartIff(count, i, segments[i], |segments|, segment, padding, guard);
    }
  }

  lemma AppendSpaced(count: usize, segments: seq<Segment>, last: Segment, padding: usize, guard: usize)
    ensures Spaced(count, segments + [last], padding, guard) <==>
            && Spaced(count, segments, padding, guard)
            && (Audible(count, |segments|, last, padding, guard) ==>
                  forall i | 0 <= i < |segments| && Audible(count, i, segments[i], padding, guard) ::
                    Apart(segments[i], last, padding))
  {
    hide Audible, Apart;
    var all := segments + [last];
    assert all[|segments|] == last && forall i | 0 <= i < |segments| :: all[i] == segments[i];
    if Spaced(count, all, padding, guard) {
      forall i, j | 0 <= i < j < |segments| && Audible(count, i, segments[i], padding, guard)
                    && Audible(count, j, segments[j], padding, guard)
        ensures Apart(segments[i], segments[j], padding)
      {
        assert Apart(all[i], all[j], padding);
      }
    }
  }

  // ---- Collecting ----

  /** The positions a range stands for, in order. */
  function PositionsOf(range: Range): (positions: seq<nat>)
    requires range.start <= range.end
    ensures |positions| == range.end - range.start
    ensures forall k | 0 <= k < |positions| :: positions[k] == range.start + k
    decreases range.end - range.start
  {
    if range.start == range.end then [] else PositionsOf(Range(range.start, range.end - 1)) + [range.end - 1]
  }

  predicate InBounds(ranges: seq<Range>, count: nat) {
    forall range | range in ranges :: range.start < range.end <= count
  }

  predicate Within(positions: seq<nat>, count: nat) {
    forall k | 0 <= k < |positions| :: positions[k] < count
  }

  function Positions(ranges: seq<Range>, count: nat): (positions: seq<nat>)
    requires InBounds(ranges, count)
    ensures Within(positions, count)
  {
    if ranges == [] then []
    else Positions(ranges[..|ranges| - 1], count) + PositionsOf(ranges[|ranges| - 1])
  }

  function SamplesAt<T>(samples: seq<T>, positions: seq<nat>): (r: seq<T>)
    requires Within(positions, |samples|)
    ensures |r| == |positions|
    ensures forall k | 0 <= k < |positions| :: r[k] == samples[positions[k]]
  {
    seq(|positions|, k requires 0 <= k < |positions| => samples[positions[k]])
  }

  method CollectRanges<T>(samples: seq<T>, ranges: seq<Range>) returns (result: seq<T>)
    requires InBounds(ranges, |samples|)
    ensures result == SamplesAt(samples, Positions(ranges, |samples|))
  {
    result := [];
    assert ranges[..0] == [];
    for i := 0 to |ranges|
      invariant result == SamplesAt(samples, Positions(ranges[..i], |samples|))
    {
      assert ranges[i] in ranges;
      assert ranges[..i + 1][..i] == ranges[..i];
      result := result + samples[ranges[i].start..ranges[i].end];
    }
    assert ranges[..|ranges|] == ranges;
  }

  predicate Increasing(positions: seq<nat>) {
    forall i, j | 0 <= i < j < |positions| :: positions[i] < positions[j]
  }

  lemma {:induction false} PositionsAreCovered(ranges: seq<Range>, count: nat, position: nat)
    requires InBounds(ranges, count)
    ensures position in Positions(ranges, count) <==> exists range :: range in ranges && Covers(range, position)
    decreases |ranges|
  {
    hide Covers;
    if ranges != [] {
      var init, last := ranges[..|ranges| - 1], ranges[|ranges| - 1];
      assert ranges == init + [last];
      PositionsAreCovered(init, count, position);
      PositionsOfRange(last, position);
      assert forall range :: range in ranges <==> range in init || range == last;
    }
  }

  lemma PositionsOfRange(range: Range, position: nat)
    requires range.start <= range.end
    ensures position in PositionsOf(range) <==> Covers(range, position)
  {
    if Covers(range, position) {
      assert PositionsOf(range)[position - range.start] == position;
    }
  }

  /** The collected audio takes its samples in their order and each at most once exactly when the
      ranges are ordered. */
  lemma {:induction false} IncreasingIff(ranges: seq<Range>, count: nat)
    requires InBounds(ranges, count)
    ensures Increasing(Positions(ranges, count)) <==> Ordered(ranges)
    decreases |ranges|
  {
    hide Ordered, Increasing, Covers;
    if ranges == [] {
      NothingIsOrdered(0, 0, 0);
    } else {
      var init, last := ranges[..|ranges| - 1], ranges[|ranges| - 1];
      assert ranges == init + [last];
      assert last in ranges;
      IncreasingIff(init, count);
      var before, added := Positions(init, count), PositionsOf(last);
      AppendIncreasing(before, last);
      AppendOrdered(init, last);
      if forall range | range in init :: range.end <= last.start {
        forall position | position in before
          ensures position < last.start
        {
          PositionsAreCovered(init, count, position);
          var range :| range in init && Covers(range, position);
          CoveredBelow(range, position);
        }
      }
      if forall position | position in before :: position < last.start {
        forall range | range in init
          ensures range.end <= last.start
        {
          assert range in ranges;
          LastCovered(range);
          PositionsAreCovered(init, count, range.end - 1);
        }
      }
    }
  }

  lemma NothingIsOrdered(count: usize, padding: usize, guard: usize)
    ensures Ordered([]) && Increasing([]) && Spaced(count, [], padding, guard)
  {
  }

  lemma CoveredBelow(range: Range, position: nat)
    requires Covers(range, position)
    ensures position < range.end
  {
  }

  lemma LastCovered(range: Range)
    requires range.start < range.end
    ensures Covers(range, range.end - 1)
  {
  }

  lemma AppendIncreasing(before: seq<nat>, last: Range)
    requires last.start < last.end
    ensures
      Increasing(before + PositionsOf(last)) <==>
      Increasing(before) && forall position | position in before :: position < last.start
  {
    var added := PositionsOf(last);
    var all := before + added;
    if Increasing(all) {
      forall i, j | 0 <= i < j < |before|
        ensures before[i] < before[j]
      {
        assert all[i] < all[j];
      }
      forall position | position in before
        ensures position < last.start
      {
        var i :| 0 <= i < |before| && before[i] == position;
        assert all[i] < all[|before|] == added[0];
      }
    }
    if Increasing(before) && forall position | position in before :: position < last.start {
      forall i, j | 0 <= i < j < |all|
        ensures all[i] < all[j]
      {
        if i < |before| {
          assert all[i] == before[i] && before[i] in before;
        }
      }
    }
  }

  lemma AppendOrdered(ranges: seq<Range>, last: Range)
    ensures Ordered(ranges + [last]) <==> Ordered(ranges) && forall range | range in ranges :: range.end <= last.start
  {
    var all := ranges + [last];
    if Ordered(all) {
      forall i, j | 0 <= i < j < |ranges|
        ensures ranges[i].end <= ranges[j].start
      {
        assert all[i].end <= all[j].start;
      }
      forall range | range in ranges
        ensures range.end <= last.start
      {
        var i :| 0 <= i < |ranges| && ranges[i] == range;
        assert all[i].end <= all[|ranges|].start;
      }
    }
  }

  /** The positions of the samples to keep. */
  function Kept(count: usize, segments: seq<Segment>, padding: usize, guard: usize): (positions: seq<nat>)
    ensures Within(positions, count)
  {
    RangesCoverWhatIsKept(count, segments, padding, guard, 0);
    Positions(PaddedSegmentRanges(count, segments, padding, guard), count)
  }

  /** A position is kept if and only if it lies near speech, and each position is kept once and in order
      if and only if the audible segments are spaced. */
  lemma KeptIsNearSpeech(count: usize, segments: seq<Segment>, padding: usize, guard: usize, position: nat)
    ensures
      position in Kept(count, segments, padding, guard) <==>
      exists i :: 0 <= i < |segments| && Keeps(count, i, segments[i], padding, guard, position)
    ensures Increasing(Kept(count, segments, padding, guard)) <==> Spaced(count, segments, padding, guard)
  {
    hide Keeps, Covers, Ordered, Increasing, PaddedRange, Spaced;
    var ranges := PaddedSegmentRanges(count, segments, padding, guard);
    RangesCoverWhatIsKept(count, segments, padding, guard, position);
    PositionsAreCovered(ranges, count, position);
    IncreasingIff(ranges, count);
    OrderedIffSpaced(count, segments, padding, guard);
  }

  /** The trimmed audio, or all of it when nothing is kept. */
  method Trim<T>(samples: seq<T>, segments: seq<Segment>, padding: usize, guard: usize) returns (trimmed: seq<T>)
    requires |samples| <= USIZE_MAX
    ensures
      var kept := Kept(|samples|, segments, padding, guard);
      trimmed == if kept == [] then samples else SamplesAt(samples, kept)
  {
    hide Keeps, Covers, PaddedRange, SamplesAt;
    var ranges := PaddedSegmentRanges(|samples|, segments, padding, guard);
    RangesCoverWhatIsKept(|samples|, segments, padding, guard, 0);
    trimmed := CollectRanges(samples, ranges);
    if trimmed == [] {
      trimmed := samples;
    }
  }

  /** Segments closer than twice the padding put the samples between them in twice. */
  lemma CloseSegmentsRepeat()
    ensures
      var ranges := PaddedSegmentRanges(100, [Segment(20, 10), Segment(34, 10)], 5, 0);
      ranges == [Range(15, 35), Range(29, 49)] && !Ordered(ranges)
  {
    var first, second := Segment(20, 10), Segment(34, 10);
    assert [first, second][..1] == [first] && [first][..0] == [];
    assert PaddedSegmentRanges(100, [first], 5, 0) == [Range(15, 35)];
    var ranges := PaddedSegmentRanges(100, [first, second], 5, 0);
    assert ranges[0].end == 35 && ranges[1].start == 29;
  }
}
