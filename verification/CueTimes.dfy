/** Sharing the audio interval of a caption among its cues, in proportion to their reading units. */
module CueTimes {
  import opened Outcome
  import opened CaptionCues
  import opened ReadingUnits

  datatype Interval = Interval(start: Option<int>, end: Option<int>)

  /** `Math.round` on exact values. */
  function Round(x: real): int { (x + 0.5).Floor }

  function Share(duration: int, consumed: int, total: int): real
    requires total != 0
  {
    duration as real * (consumed as real / total as real)
  }

  /** The rounded moment at which `consumed` of the `total` weight has been read. */
  function Mark(start: int, duration: int, consumed: int, total: int): int
    requires total != 0
  {
    Round(start as real + Share(duration, consumed, total))
  }

  function Sum(weights: seq<nat>): nat {
    if weights == [] then 0 else Sum(weights[..|weights| - 1]) + weights[|weights| - 1]
  }

  function Weights(cues: seq<RawCue>): (w: seq<nat>)
    ensures |w| == |cues| && forall i | 0 <= i < |w| :: w[i] == Units(cues[i].text) >= 1
  {
    seq(|cues|, i requires 0 <= i < |cues| => Units(cues[i].text))
  }

  lemma {:induction false} SumPrefix(weights: seq<nat>, i: nat)
    requires i < |weights|
    ensures Sum(weights[..i + 1]) == Sum(weights[..i]) + weights[i]
  {
    assert weights[..i + 1][..i] == weights[..i];
  }

  /** Edge `i` of the tiling: where cue `i` starts and cue `i - 1` ends. */
  function Edge(weights: seq<nat>, start: int, end: int, i: nat): int
    requires i <= |weights| && Sum(weights) > 0
  {
    Mark(start, end - start, Sum(weights[..i]), Sum(weights))
  }

  predicate NoInterval(cues: seq<RawCue>, start: Option<int>, end: Option<int>) {
    start.None? || end.None? || end.value < start.value || cues == []
  }

  ghost predicate Tiles(times: seq<Interval>, weights: seq<nat>, start: int, end: int) {
    && |times| == |weights| && Sum(weights) > 0
    && forall i | 0 <= i < |times| ::
         times[i] == Interval(Some(Edge(weights, start, end, i)), Some(Edge(weights, start, end, i + 1)))
  }

  /**
    * With a usable interval the cue times are the edges of one tiling in proportion to the
    * reading units; otherwise every cue keeps the input times.
    */
  ghost predicate Allocated(times: seq<Interval>, cues: seq<RawCue>, start: Option<int>, end: Option<int>) {
    if NoInterval(cues, start, end)
    then |times| == |cues| && forall i | 0 <= i < |times| :: times[i] == Interval(start, end)
    else Tiles(times, Weights(cues), start.value, end.value)
  }

  method AllocateCueTimes(cues: seq<RawCue>, start: Option<int>, end: Option<int>) returns (times: seq<Interval>)
    ensures Allocated(times, cues, start, end)
  {
    if start.None? || end.None? || end.value < start.value || |cues| == 0 {
      times := seq(|cues|, i => Interval(start, end));
      return;
    }
    var weights := Weights(cues);
    SumPositive(weights);
    var totalWeight := Sum(weights);
    var duration := end.value - start.value;
    times := RunMarks(weights, start.value, end.value, Marker(start.value, duration, totalWeight));
    MarksTile(times, weights, start.value, end.value, Marker(start.value, duration, totalWeight));
  }

  function Marker(start: int, duration: int, total: nat): nat -> int
    requires total > 0
  {
    consumed => Mark(start, duration, consumed, total)
  }

  /** Every cue lies between two successive marks of the running weight, with exact outer ends. */
  ghost predicate Marked(times: seq<Interval>, weights: seq<nat>, start: int, end: int, mark: nat -> int) {
    && |times| == |weights|
    && forall i | 0 <= i < |times| ::
         && times[i].start == Some(if i == 0 then start else mark(Sum(weights[..i])))
         && times[i].end == Some(if i == |weights| - 1 then end else mark(Sum(weights[..i + 1])))
  }

  lemma {:induction false} MarksTile(times: seq<Interval>, weights: seq<nat>, start: int, end: int, mark: nat -> int)
    requires weights != [] && Sum(weights) > 0 && Marked(times, weights, start, end, mark)
    requires Agree(mark, Marker(start, end - start, Sum(weights)))
    ensures Tiles(times, weights, start, end)
  {
    EdgeEnds(weights, start, end);
    forall i | 0 <= i <= |weights|
      ensures mark(Sum(weights[..i])) == Edge(weights, start, end, i)
    {
      assert At(Sum(weights[..i]));
    }
  }

  /** The mapping loop of `allocateCueTimes`, with its running weight. */
  method RunMarks(weights: seq<nat>, start: int, end: int, mark: nat -> int) returns (times: seq<Interval>)
    ensures Marked(times, weights, start, end, mark)
  {
    var consumedWeight: nat := 0;
    times := [];
    for index := 0 to |weights|
      invariant |times| == index && consumedWeight == Sum(weights[..index])
      invariant forall i | 0 <= i < index ::
          && times[i].start == Some(if i == 0 then start else mark(Sum(weights[..i])))
          && times[i].end == Some(if i == |weights| - 1 then end else mark(Sum(weights[..i + 1])))
    {
      var cueStart := if index == 0 then start else mark(consumedWeight);
      SumPrefix(weights, index);
      consumedWeight := consumedWeight + weights[index];
      var cueEnd := if index == |weights| - 1 then end else mark(consumedWeight);
      times := times + [Interval(Some(cueStart), Some(cueEnd))];
    }
  }

  lemma {:induction false} SumPositive(weights: seq<nat>)
    requires weights != [] && forall i | 0 <= i < |weights| :: weights[i] >= 1
    ensures Sum(weights) > 0
  {
    assert weights[|weights| - 1] >= 1;
  }

  lemma {:induction false} RoundNear(x: real)
    ensures x - 0.5 < Round(x) as real <= x + 0.5
  {
  }

  lemma {:induction false} ShareWhole(duration: int, total: nat)
    requires total > 0
    ensures Share(duration, total, total) == duration as real && Share(duration, 0, total) == 0.0
  {
    assert total as real / total as real == 1.0;
  }

  lemma {:induction false} EdgeEnds(weights: seq<nat>, start: int, end: int)
    requires Sum(weights) > 0
    ensures Edge(weights, start, end, 0) == start
    ensures Edge(weights, start, end, |weights|) == end
  {
    assert weights[..0] == [] && weights[..|weights|] == weights;
    ShareWhole(end - start, Sum(weights));
  }

  lemma {:induction false} ShareAdds(duration: int, a: nat, b: nat, total: nat)
    requires total > 0
    ensures Share(duration, a + b, total) == Share(duration, a, total) + Share(duration, b, total)
    ensures duration >= 0 ==> Share(duration, b, total) >= 0.0
  {
    var d, t := duration as real, total as real;
    var x, y := a as real / t, b as real / t;
    assert (a + b) as real / t == x + y;
    assert d * (x + y) == d * x + d * y;
    assert y >= 0.0;
  }

  /** Edges never run backwards, and each length is within one millisecond of the exact share. */
  lemma {:induction false} EdgeSteps(weights: seq<nat>, start: int, end: int, i: nat)
    requires i < |weights| && Sum(weights) > 0 && start <= end
    ensures Edge(weights, start, end, i) <= Edge(weights, start, end, i + 1)
    ensures var length := (Edge(weights, start, end, i + 1) - Edge(weights, start, end, i)) as real;
            var share := Share(end - start, weights[i], Sum(weights));
            share - 1.0 < length < share + 1.0
  {
    var before, total := Sum(weights[..i]), Sum(weights);
    SumPrefix(weights, i);
    ShareAdds(end - start, before, weights[i], total);
    RoundNear(start as real + Share(end - start, before, total));
    RoundNear(start as real + Share(end - start, before + weights[i], total));
  }

  function Lengths(weights: seq<nat>, start: int, end: int, n: nat): int
    requires n <= |weights| && Sum(weights) > 0
  {
    if n == 0 then 0
    else Lengths(weights, start, end, n - 1) + Edge(weights, start, end, n) - Edge(weights, start, end, n - 1)
  }

  lemma {:induction false} LengthsTelescope(weights: seq<nat>, start: int, end: int, n: nat)
    requires n <= |weights| && Sum(weights) > 0
    ensures Lengths(weights, start, end, n) == Edge(weights, start, end, n) - Edge(weights, start, end, 0)
  {
    if n > 0 {
      LengthsTelescope(weights, start, end, n - 1);
    }
  }

  /** The cue lengths add up to the length of the audio interval. */
  lemma {:induction false} LengthsAddUp(weights: seq<nat>, start: int, end: int)
    requires Sum(weights) > 0
    ensures Lengths(weights, start, end, |weights|) == end - start
  {
    LengthsTelescope(weights, start, end, |weights|);
    EdgeEnds(weights, start, end);
  }

  /** First start and last end are exact, neighbours share endpoints, no cue runs backwards. */
  lemma {:induction false} TilesTile(times: seq<Interval>, weights: seq<nat>, start: int, end: int)
    requires |times| > 0 && Tiles(times, weights, start, end) && start <= end
    ensures times[0].start == Some(start) && times[|times| - 1].end == Some(end)
    ensures forall i | 0 <= i < |times| - 1 :: times[i].end == times[i + 1].start
    ensures forall i | 0 <= i < |times| :: times[i].start.Some? && times[i].end.Some? && times[i].start.value <= times[i].end.value
  {
    EdgeEnds(weights, start, end);
    var last := |times| - 1;
    assert times[0] == Interval(Some(Edge(weights, start, end, 0)), Some(Edge(weights, start, end, 1)));
    assert times[last].end == Some(Edge(weights, start, end, last + 1));
    forall i | 0 <= i < |times| - 1
      ensures times[i].end == times[i + 1].start
    {
      assert times[i].end == Some(Edge(weights, start, end, i + 1));
      assert times[i + 1].end == Some(Edge(weights, start, end, i + 2));
    }
    forall i | 0 <= i < |times|
      ensures times[i].start.Some? && times[i].end.Some? && times[i].start.value <= times[i].end.value
    {
      EdgeSteps(weights, start, end, i);
    }
  }
}
