/** Mapping 32-bit millisecond event stamps onto the steady clock. */
module EventTime {
  import opened Results
  import opened Pcm

  /** Points of the steady clock in nanoseconds. */
  type TimePoint = int

  const MILLISECOND: int := 1_000_000
  const SECOND: int := 1_000_000_000
  const MAX_LAG: int := 60 * SECOND

  /** The mapper's two fields: the last raw stamp, if any, and where it was mapped to. */
  datatype Mapper = Mapper(lastEvent: Option<u32>, lastMapped: TimePoint)

  /** A signed stamp as the 32-bit word it is cast to. */
  function Raw(eventTimeMs: int): u32 {
    eventTimeMs % 0x1_0000_0000
  }

  /** The forward distance between two words of the wrapping clock. */
  function Elapsed(raw: u32, last: u32): u32 {
    (raw - last as int) % 0x1_0000_0000
  }

  /** What `Resolve` does to the fields; the last component says whether the stamp was taken as an
      anchor (no earlier stamp, a zero stamp, or a mapping outside the tolerated window). */
  function Step(m: Mapper, eventTimeMs: int, observed: TimePoint): (Mapper, TimePoint, bool) {
    if eventTimeMs == 0 then (m.(lastEvent := None), observed, true)
    else
      var raw := Raw(eventTimeMs);
      if m.lastEvent.None? then (Mapper(Some(raw), observed), observed, true)
      else
        var mapped := m.lastMapped + Elapsed(raw, m.lastEvent.value) * MILLISECOND;
        if mapped > observed + SECOND || mapped + MAX_LAG < observed then (Mapper(Some(raw), observed), observed, true)
        else (Mapper(Some(raw), mapped), mapped, false)
  }

  class TriggerEventTimeMapper {
    var lastEventTimeMs: Option<u32>
    var lastMappedAt: TimePoint

    ghost function State(): Mapper
      reads this
    {
      Mapper(lastEventTimeMs, lastMappedAt)
    }

    constructor ()
      ensures lastEventTimeMs.None?
    {
      lastEventTimeMs := None;
    }

    method Resolve(eventTimeMs: int, observedAt: TimePoint) returns (mappedAt: TimePoint)
      modifies this
      ensures
        var step := Step(old(State()), eventTimeMs, observedAt);
        State() == step.0 && mappedAt == step.1
      ensures observedAt - MAX_LAG <= mappedAt <= observedAt + SECOND
    {
      if eventTimeMs == 0 {
        lastEventTimeMs := None;
        return observedAt;
      }
      var rawTime := Raw(eventTimeMs);
      if lastEventTimeMs.None? {
        lastEventTimeMs := Some(rawTime);
        lastMappedAt := observedAt;
        return observedAt;
      }
      var elapsedMs := Elapsed(rawTime, lastEventTimeMs.value);
      mappedAt := lastMappedAt + elapsedMs * MILLISECOND;
      if mappedAt > observedAt + SECOND || mappedAt + MAX_LAG < observedAt {
        mappedAt := observedAt;
      }
      lastEventTimeMs := Some(rawTime);
      lastMappedAt := mappedAt;
    }
  }

  // ---- Whole runs ----

  datatype Call = Call(eventTimeMs: int, observed: TimePoint)

  datatype Output = Output(mapped: TimePoint, anchored: bool)

  function Run(m: Mapper, calls: seq<Call>): (out: seq<Output>)
    ensures |out| == |calls|
    decreases |calls|
  {
    if calls == [] then []
    else
      var (next, mapped, anchored) := Step(m, calls[0].eventTimeMs, calls[0].observed);
      [Output(mapped, anchored)] + Run(next, calls[1..])
  }

  predicate ObservedInOrder(calls: seq<Call>) {
    forall i, j | 0 <= i < j < |calls| :: calls[i].observed <= calls[j].observed
  }

  lemma {:induction false} RunAt(m: Mapper, calls: seq<Call>, i: nat) returns (before: Mapper)
    requires i < |calls|
    ensures
      var step := Step(before, calls[i].eventTimeMs, calls[i].observed);
      Run(m, calls)[i] == Output(step.1, step.2)
          && (i + 1 < |calls| ==> Run(step.0, calls[i + 1..]) == Run(m, calls)[i + 1..])
    decreases i
  {
    if i == 0 {
      before := m;
    } else {
      var next := Step(m, calls[0].eventTimeMs, calls[0].observed).0;
      before := RunAt(next, calls[1..], i - 1);
      assert Run(m, calls) == Run(m, calls)[..1] + Run(next, calls[1..]);
      assert calls[1..][i..] == calls[i + 1..];
    }
  }

  /** Whatever came before, every output lies within a minute behind and a second ahead of its
      observation. */
  lemma OutputsStayNearObservation(m: Mapper, calls: seq<Call>, i: nat)
    requires i < |calls|
    ensures calls[i].observed - MAX_LAG <= Run(m, calls)[i].mapped <= calls[i].observed + SECOND
  {
    var before := RunAt(m, calls, i);
  }

  /** The mapper's own lower bound for what it can output next. */
  ghost predicate Above(m: Mapper, bound: TimePoint) {
    m.lastEvent.Some? ==> m.lastMapped >= bound
  }

  lemma {:induction false} OutputsStayAbove(m: Mapper, calls: seq<Call>, bound: TimePoint, i: nat)
    requires Above(m, bound) && i < |calls|
    requires forall c | c in calls :: c.observed >= bound
    ensures Run(m, calls)[i].mapped >= bound
    decreases i
  {
    var (next, mapped, anchored) := Step(m, calls[0].eventTimeMs, calls[0].observed);
    assert calls[0] in calls;
    if i > 0 {
      OutputsStayAbove(next, calls[1..], bound, i - 1);
    }
  }

  /** When observations do not go back, no output is more than a second before any earlier one. */
  lemma OutputsNeverFallBackASecond(m: Mapper, calls: seq<Call>, i: nat, j: nat)
    requires ObservedInOrder(calls) && i < j < |calls|
    ensures Run(m, calls)[j].mapped >= Run(m, calls)[i].mapped - SECOND
  {
    var before := RunAt(m, calls, i);
    var step := Step(before, calls[i].eventTimeMs, calls[i].observed);
    var bound := step.1 - SECOND;
    var rest := calls[i + 1..];
    forall c | c in rest
      ensures c.observed >= bound
    {
      var k :| 0 <= k < |rest| && rest[k] == c;
      assert c == calls[i + 1 + k];
    }
    OutputsStayAbove(step.0, rest, bound, j - i - 1);
    assert Run(step.0, rest)[j - i - 1] == Run(m, calls)[j];
  }

  /** Stamps cut from a true clock that never goes back and never stands still for 2^32 ms. */
  predicate StampsOf(calls: seq<Call>, trueMs: seq<nat>) {
    && |calls| == |trueMs|
    && (forall i | 0 <= i < |calls| :: Raw(calls[i].eventTimeMs) == trueMs[i] % 0x1_0000_0000)
    && (forall i | 0 <= i < |calls| - 1 :: trueMs[i] <= trueMs[i + 1] < trueMs[i] + 0x1_0000_0000)
  }

  lemma ElapsedIsTrueDifference(a: nat, b: nat)
    requires a <= b < a + 0x1_0000_0000
    ensures Elapsed(b % 0x1_0000_0000, a % 0x1_0000_0000) == b - a
  {
    var w := 0x1_0000_0000;
    assert b % w - a % w == (b - a) + w * (a / w - b / w);
    WrapOnce(b - a, a / w - b / w);
  }

  lemma WrapOnce(d: nat, k: int)
    requires d < 0x1_0000_0000
    ensures (d + 0x1_0000_0000 * k) % 0x1_0000_0000 == d
  {
  }

  /** As long as no stamp after the first is taken as an anchor, output differences are the true
      differences of the source clock, through every wrap of its 32 bits. */
  lemma {:induction false} DifferencesAreTrue(m: Mapper, calls: seq<Call>, trueMs: seq<nat>, j: nat)
    requires StampsOf(calls, trueMs) && j < |calls|
    requires calls[0].eventTimeMs != 0
    requires forall k | 1 <= k <= j :: !Run(m, calls)[k].anchored
    ensures Run(m, calls)[j].mapped - Run(m, calls)[0].mapped == (trueMs[j] - trueMs[0]) * MILLISECOND
    ensures j > 0 ==> trueMs[0] <= trueMs[j]
    decreases j
  {
    if j > 0 {
      var next := Step(m, calls[0].eventTimeMs, calls[0].observed).0;
      var rest, restMs := calls[1..], trueMs[1..];
      var out, tail := Run(m, calls), Run(next, rest);
      assert out == [out[0]] + tail;
      assert forall k | 0 <= k < |tail| :: tail[k] == out[k + 1];
      assert StampsOf(rest, restMs) by {
        forall i | 0 <= i < |rest| - 1
          ensures restMs[i] <= restMs[i + 1] < restMs[i] + 0x1_0000_0000
        {
          assert restMs[i] == trueMs[i + 1] && restMs[i + 1] == trueMs[i + 2];
        }
        assert forall i | 0 <= i < |rest| :: rest[i] == calls[i + 1] && restMs[i] == trueMs[i + 1];
      }
      assert rest[0] == calls[1] && restMs[0] == trueMs[1];
      FirstDifference(m, calls, trueMs);
      DifferencesAreTrue(next, rest, restMs, j - 1);
    }
  }

  lemma FirstDifference(m: Mapper, calls: seq<Call>, trueMs: seq<nat>)
    requires StampsOf(calls, trueMs) && |calls| > 1
    requires calls[0].eventTimeMs != 0 && !Run(m, calls)[1].anchored
    ensures calls[1].eventTimeMs != 0
    ensures Run(m, calls)[1].mapped - Run(m, calls)[0].mapped == (trueMs[1] - trueMs[0]) * MILLISECOND
  {
    ElapsedIsTrueDifference(trueMs[0], trueMs[1]);
    var next := Step(m, calls[0].eventTimeMs, calls[0].observed).0;
    assert Run(m, calls)[1] == Run(next, calls[1..])[0];
  }

  // ---- When a stamp is taken as an anchor ----

  /** The queue of events may hold one back for a minute, and a stamp may be a second ahead. */
  predicate Near(position: TimePoint, observed: TimePoint) {
    observed - 60 * SECOND <= position <= observed + SECOND
  }

  /** A stamp becomes an anchor, and is mapped to its observation, if and only if it or the one before
      it is zero, or the output before it moved on by the true difference is not near the observation. */
  lemma AnchoredIff(m: Mapper, calls: seq<Call>, trueMs: seq<nat>, j: nat)
    requires StampsOf(calls, trueMs) && 1 <= j < |calls|
    ensures
      var out, call := Run(m, calls), calls[j];
      var moved := out[j - 1].mapped + (trueMs[j] - trueMs[j - 1]) * MILLISECOND;
      && (out[j].anchored <==>
            calls[j - 1].eventTimeMs == 0 || call.eventTimeMs == 0 || !Near(moved, call.observed))
      && out[j].mapped == if out[j].anchored then call.observed else moved
  {
    hide Raw, Elapsed;
    var i := j - 1;
    var before := RunAt(m, calls, i);
    var step := Step(before, calls[i].eventTimeMs, calls[i].observed);
    assert trueMs[i] <= trueMs[i + 1] < trueMs[i] + 0x1_0000_0000;
    ElapsedIsTrueDifference(trueMs[i], trueMs[j]);
    assert Run(m, calls)[j] == Run(step.0, calls[j..])[0];
    assert calls[j..][0] == calls[j];
  }

  /** Where a stamp lies if the first output is right. */
  function TruePosition(m: Mapper, calls: seq<Call>, trueMs: seq<nat>, j: nat): TimePoint
    requires 0 < |calls| && |trueMs| == |calls| && j < |calls|
  {
    Run(m, calls)[0].mapped + (trueMs[j] - trueMs[0]) * MILLISECOND
  }

  lemma {:induction false} NearPositionsAreMapped(m: Mapper, calls: seq<Call>, trueMs: seq<nat>, j: nat)
    requires StampsOf(calls, trueMs) && j < |calls|
    requires forall k | 0 <= k <= j :: calls[k].eventTimeMs != 0
    requires forall k | 1 <= k <= j :: Near(TruePosition(m, calls, trueMs, k), calls[k].observed)
    ensures Run(m, calls)[j].mapped == TruePosition(m, calls, trueMs, j)
    ensures j > 0 ==> !Run(m, calls)[j].anchored
    decreases j
  {
    hide Run, StampsOf, Near;
    if j > 0 {
      NearPositionsAreMapped(m, calls, trueMs, j - 1);
      AnchoredIff(m, calls, trueMs, j);
    }
  }

  predicate NoAnchors(out: seq<Output>) {
    forall k | 1 <= k < |out| :: !out[k].anchored
  }

  predicate AllNear(m: Mapper, calls: seq<Call>, trueMs: seq<nat>)
    requires |trueMs| == |calls|
  {
    forall k | 1 <= k < |calls| :: Near(TruePosition(m, calls, trueMs, k), calls[k].observed)
  }

  /** No stamp after the first is taken as an anchor if and only if all true positions are near their
      observations, and all outputs are the true positions then. */
  lemma {:induction false} TrueIffNear(m: Mapper, calls: seq<Call>, trueMs: seq<nat>)
    requires StampsOf(calls, trueMs) && calls != [] && forall k | 0 <= k < |calls| :: calls[k].eventTimeMs != 0
    ensures NoAnchors(Run(m, calls)) <==> AllNear(m, calls, trueMs)
    ensures AllNear(m, calls, trueMs) ==>
            forall k | 0 <= k < |calls| :: Run(m, calls)[k].mapped == TruePosition(m, calls, trueMs, k)
  {
    hide Run;
    if NoAnchors(Run(m, calls)) {
      forall k | 1 <= k < |calls|
        ensures Near(TruePosition(m, calls, trueMs, k), calls[k].observed)
      {
        DifferencesAreTrue(m, calls, trueMs, k);
        OutputsStayNearObservation(m, calls, k);
      }
    }
    if AllNear(m, calls, trueMs) {
      forall k | 0 <= k < |calls|
        ensures Run(m, calls)[k].mapped == TruePosition(m, calls, trueMs, k)
        ensures k > 0 ==> !Run(m, calls)[k].anchored
      {
        NearPositionsAreMapped(m, calls, trueMs, k);
      }
    }
  }

  /** A mapper without an anchor takes the first stamp as one. */
  lemma FirstIsAnchored(m: Mapper, calls: seq<Call>)
    requires calls != [] && (m.lastEvent.None? || calls[0].eventTimeMs == 0)
    ensures Run(m, calls)[0] == Output(calls[0].observed, true)
  {
  }
}
