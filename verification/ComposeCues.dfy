/** `composeCaptionCues`: the layout pipeline as a whole. */
module ComposeCues {
  import opened Outcome
  import opened CaptionText
  import opened CaptionCues
  import opened CaptionPressure
  import opened CueTimes

  datatype Caption = Caption(segmentId: string, text: Text, spaced: bool, start: Option<int>, end: Option<int>)

  /** `${segmentId}:display:${captionIndex + 1}:${cueIndex + 1}` */
  datatype DisplayId = DisplayId(segmentId: string, captionNumber: nat, cueNumber: nat)

  datatype DisplayCue = DisplayCue(displayId: DisplayId, text: Text, lines: seq<Text>, start: Option<int>, end: Option<int>)

  predicate ValidProfile(p: Profile) {
    && p.maxLineWidth > 0.0
    && (p.maxLines == 1 || p.maxLines == 2)
    && 0.0 <= p.minFill <= 1.0
    && p.maxUnitsPerSecond > 0.0
  }

  function SpanCues(spans: seq<Text>, p: Profile, spaced: bool): seq<RawCue>
    requires p.maxLines > 0
  {
    Relay(spans, Layout(p, spaced))
  }

  function Merged(caption: Caption, p: Profile): seq<RawCue>
    requires p.maxLines > 0
  {
    Merge(SpanCues(SentenceSpans(Normalize(caption.text)), p, caption.spaced), p, caption.spaced)
  }

  /** The cues of one caption before times are allocated. */
  function Laid(caption: Caption, p: Profile): seq<RawCue>
    requires p.maxLines > 0
  {
    PressureSplit(Merged(caption, p), caption.start, caption.end, p, caption.spaced)
  }

  function TimesOf(cues: seq<DisplayCue>): seq<Interval> {
    seq(|cues|, i requires 0 <= i < |cues| => Interval(cues[i].start, cues[i].end))
  }

  /** `cues` shows the laid-out cues in order, numbered from 1, with times that tile the caption's interval. */
  ghost predicate Displays(cues: seq<DisplayCue>, caption: Caption, captionIndex: nat, laid: seq<RawCue>) {
    && |cues| == |laid|
    && (forall i | 0 <= i < |cues| ::
          && cues[i].displayId == DisplayId(caption.segmentId, captionIndex + 1, i + 1)
          && cues[i].text == laid[i].text && cues[i].lines == laid[i].lines)
    && Allocated(TimesOf(cues), laid, caption.start, caption.end)
  }

  /** The cues of caption number `i`; none if its text is blank. */
  ghost predicate Composed(cues: seq<DisplayCue>, caption: Caption, i: nat, p: Profile)
    requires p.maxLines > 0
  {
    if Normalize(caption.text) == [] then cues == [] else Displays(cues, caption, i, Laid(caption, p))
  }

  method ComposeOne(caption: Caption, captionIndex: nat, p: Profile) returns (cues: seq<DisplayCue>)
    requires p.maxLines > 0
    ensures Composed(cues, caption, captionIndex, p)
  {
    var normalized := Normalize(caption.text);
    if normalized == [] {
      return [];
    }
    var rawCues := LayOut(SentenceSpans(normalized), p, caption.spaced, Layout(p, caption.spaced));
    var mergedCues := MergeShortCues(rawCues, p, caption.spaced);
    var laid := SplitForReadingPressure(mergedCues, caption.start, caption.end, p, caption.spaced);
    cues := Show(laid, caption, captionIndex);
  }

  method Show(laid: seq<RawCue>, caption: Caption, captionIndex: nat) returns (cues: seq<DisplayCue>)
    ensures Displays(cues, caption, captionIndex, laid)
  {
    var times := AllocateCueTimes(laid, caption.start, caption.end);
    assert |times| == |laid|;
    cues := seq(|laid|, i requires 0 <= i < |laid| =>
      DisplayCue(DisplayId(caption.segmentId, captionIndex + 1, i + 1), laid[i].text, laid[i].lines, times[i].start, times[i].end));
    assert TimesOf(cues) == times;
  }

  function Concat(parts: seq<seq<DisplayCue>>): seq<DisplayCue> {
    if parts == [] then [] else parts[0] + Concat(parts[1..])
  }

  /** `parts[i]` shows caption number `offset + i`. */
  ghost predicate ComposedFrom(parts: seq<seq<DisplayCue>>, captions: seq<Caption>, offset: nat, p: Profile)
    requires p.maxLines > 0
  {
    |parts| == |captions| && forall i | 0 <= i < |parts| :: Composed(parts[i], captions[i], offset + i, p)
  }

  /** A caption, its number and the cues shown for it. */
  datatype Showing = Showing(cues: seq<DisplayCue>, caption: Caption, number: nat)

  ghost function Shower(p: Profile): Showing -> bool
    requires p.maxLines > 0
  {
    (s: Showing) => Composed(s.cues, s.caption, s.number, p)
  }

  ghost predicate AllShown(parts: seq<seq<DisplayCue>>, captions: seq<Caption>, shows: Showing -> bool) {
    |parts| == |captions| && forall i | 0 <= i < |parts| :: shows(Showing(parts[i], captions[i], i))
  }

  method ComposeAll(captions: seq<Caption>, p: Profile) returns (parts: seq<seq<DisplayCue>>)
    requires p.maxLines > 0
    ensures ComposedFrom(parts, captions, 0, p)
  {
    parts := ComposeEach(captions, p, Shower(p));
    assert forall i | 0 <= i < |parts| :: Shower(p)(Showing(parts[i], captions[i], i)) ==> Composed(parts[i], captions[i], 0 + i, p);
  }

  /** The captions one by one; `shows` is what `ComposeOne` promises. */
  method ComposeEach(captions: seq<Caption>, p: Profile, ghost shows: Showing -> bool) returns (parts: seq<seq<DisplayCue>>)
    requires p.maxLines > 0 && Agree(shows, Shower(p))
    ensures AllShown(parts, captions, shows)
  {
    parts := [];
    for i := 0 to |captions|
      invariant AllShown(parts, captions[..i], shows)
    {
      var cues := ComposeNext(captions[i], i, p, shows);
      parts := parts + [cues];
    }
    assert captions[..|captions|] == captions;
  }

  method ComposeNext(caption: Caption, i: nat, p: Profile, ghost shows: Showing -> bool) returns (cues: seq<DisplayCue>)
    requires p.maxLines > 0 && Agree(shows, Shower(p))
    ensures shows(Showing(cues, caption, i))
  {
    cues := ComposeOne(caption, i, p);
    assert At(Showing(cues, caption, i));
  }

  method ComposeCaptionCues(captions: seq<Caption>, p: Profile) returns (r: Result<seq<DisplayCue>, string>)
    ensures r.Failure? <==> !ValidProfile(p)
    ensures r.Success? ==> exists parts :: ComposedFrom(parts, captions, 0, p) && r.value == Concat(parts)
    ensures r.Success? ==> Core(ShownText(r.value)) == Core(CaptionTexts(captions)) && DistinctIds(r.value)
    ensures r.Success? && TrimNeverWidens(p) ==> Displayable(r.value, p)
  {
    if !ValidProfile(p) {
      return Failure("invalid layout profile");
    }
    var parts := ComposeAll(captions, p);
    ShownKeeps(parts, captions, 0, p);
    ShownApart(parts, captions, 0, p);
    r := Success(Concat(parts));
  }

  // ----- what the shown list promises over all captions

  function ShownText(cues: seq<DisplayCue>): Text {
    if cues == [] then [] else cues[0].text + ShownText(cues[1..])
  }

  function CaptionTexts(captions: seq<Caption>): Text {
    if captions == [] then [] else captions[0].text + CaptionTexts(captions[1..])
  }

  predicate Displayable(cues: seq<DisplayCue>, p: Profile) {
    forall i | 0 <= i < |cues| :: CueOk(RawCue(cues[i].text, cues[i].lines), p)
  }

  ghost predicate DistinctIds(cues: seq<DisplayCue>) {
    forall i, j | 0 <= i < j < |cues| :: cues[i].displayId != cues[j].displayId
  }

  lemma {:induction false} ShownConcat(a: seq<DisplayCue>, b: seq<DisplayCue>)
    ensures Core(ShownText(a + b)) == Core(ShownText(a)) + Core(ShownText(b))
  {
    if a == [] {
      assert a + b == b;
    } else {
      assert (a + b)[0] == a[0] && (a + b)[1..] == a[1..] + b;
      ShownConcat(a[1..], b);
      KeepConcat(a[0].text, ShownText(a[1..]), IsCore);
      KeepConcat(a[0].text, ShownText(a[1..] + b), IsCore);
      Reassociate(Core(a[0].text), Core(ShownText(a[1..])), Core(ShownText(b)));
    }
  }

  lemma {:induction false} ShownIsLaid(cues: seq<DisplayCue>, laid: seq<RawCue>)
    requires |cues| == |laid| && forall i | 0 <= i < |cues| :: cues[i].text == laid[i].text
    ensures ShownText(cues) == TextOf(laid)
  {
    if cues != [] {
      assert forall i | 0 <= i < |cues[1..]| :: cues[1..][i] == cues[i + 1] && laid[1..][i] == laid[i + 1];
      ShownIsLaid(cues[1..], laid[1..]);
    }
  }

  /** One caption: its cues carry its core graphemes and are displayable. */
  lemma {:induction false} OneKeeps(cues: seq<DisplayCue>, caption: Caption, i: nat, p: Profile)
    requires p.maxLines > 0 && Composed(cues, caption, i, p)
    ensures Core(ShownText(cues)) == Core(caption.text)
    ensures TrimNeverWidens(p) ==> Displayable(cues, p)
  {
    if Normalize(caption.text) == [] {
      BlankCaption(caption);
      KeepKeep(caption.text);
    } else {
      var laid := Laid(caption, p);
      LaidKeeps(caption, p);
      ShownIsLaid(cues, laid);
      assert forall k | 0 <= k < |cues| :: RawCue(cues[k].text, cues[k].lines) == laid[k] && laid[k] in laid;
    }
  }

  lemma {:induction false} ShownKeeps(parts: seq<seq<DisplayCue>>, captions: seq<Caption>, offset: nat, p: Profile)
    requires p.maxLines > 0 && ComposedFrom(parts, captions, offset, p)
    ensures Core(ShownText(Concat(parts))) == Core(CaptionTexts(captions))
    ensures TrimNeverWidens(p) ==> Displayable(Concat(parts), p)
    decreases |parts|
  {
    if parts != [] {
      var head, rest := parts[0], Concat(parts[1..]);
      TailComposed(parts, captions, offset, p);
      ShownKeeps(parts[1..], captions[1..], offset + 1, p);
      OneKeeps(head, captions[0], offset, p);
      ShownConcat(head, rest);
      KeepConcat(captions[0].text, CaptionTexts(captions[1..]), IsCore);
    }
  }

  lemma {:induction false} TailComposed(parts: seq<seq<DisplayCue>>, captions: seq<Caption>, offset: nat, p: Profile)
    requires p.maxLines > 0 && ComposedFrom(parts, captions, offset, p) && parts != []
    ensures ComposedFrom(parts[1..], captions[1..], offset + 1, p) && Composed(parts[0], captions[0], offset, p)
  {
    forall i | 0 <= i < |parts[1..]|
      ensures Composed(parts[1..][i], captions[1..][i], offset + 1 + i, p)
    {
      assert Composed(parts[i + 1], captions[i + 1], offset + (i + 1), p);
    }
  }

  /** Every cue is numbered after caption `n`. */
  ghost predicate NumberedAfter(cues: seq<DisplayCue>, n: nat) {
    forall i | 0 <= i < |cues| :: cues[i].displayId.captionNumber > n
  }

  lemma {:induction false} ShownApart(parts: seq<seq<DisplayCue>>, captions: seq<Caption>, offset: nat, p: Profile)
    requires p.maxLines > 0 && ComposedFrom(parts, captions, offset, p)
    ensures DistinctIds(Concat(parts)) && NumberedAfter(Concat(parts), offset)
    decreases |parts|
  {
    if parts != [] {
      TailComposed(parts, captions, offset, p);
      ShownApart(parts[1..], captions[1..], offset + 1, p);
      Apart(parts[0], Concat(parts[1..]), captions[0].segmentId, offset);
    }
  }

  lemma {:induction false} Apart(head: seq<DisplayCue>, rest: seq<DisplayCue>, segmentId: string, offset: nat)
    requires forall i | 0 <= i < |head| :: head[i].displayId == DisplayId(segmentId, offset + 1, i + 1)
    requires DistinctIds(rest) && NumberedAfter(rest, offset + 1)
    ensures DistinctIds(head + rest) && NumberedAfter(head + rest, offset)
  {
    var all := head + rest;
    forall i, j | 0 <= i < j < |all|
      ensures all[i].displayId != all[j].displayId
    {
      if i >= |head| {
        assert all[i] == rest[i - |head|] && all[j] == rest[j - |head|];
      }
    }
  }

  // ----- what the pipeline promises about one caption

  lemma {:induction false} SpanCuesOk(spans: seq<Text>, p: Profile, spaced: bool)
    requires p.maxLines > 0
    ensures Ink(TextOf(SpanCues(spans, p, spaced))) == Ink(Flatten(spans))
    ensures TrimNeverWidens(p) ==> CuesOk(SpanCues(spans, p, spaced), p)
  {
    var layout := Layout(p, spaced);
    if spans != [] {
      SpanCuesOk(spans[1..], p, spaced);
      RawCuesOk(spans[0], p, spaced);
      TextOfConcat(layout(spans[0]), Relay(spans[1..], layout), Inked);
      KeepConcat(spans[0], Flatten(spans[1..]), Inked);
    }
  }

  /**
    * Before pressure splitting, the cue texts carry exactly the inked graphemes of the caption,
    * in order and once each, except the sentence marks that directly follow another mark.
    */
  lemma {:induction false} MergedKeeps(caption: Caption, p: Profile)
    requires p.maxLines > 0
    ensures Ink(TextOf(Merged(caption, p))) == SentenceInk(Normalize(caption.text))
    ensures Core(TextOf(Merged(caption, p))) == Core(caption.text)
    ensures TrimNeverWidens(p) ==> CuesOk(Merged(caption, p), p)
  {
    var normalized := Normalize(caption.text);
    var spans := SentenceSpans(normalized);
    var raw := SpanCues(spans, p, caption.spaced);
    SentenceSpansKeep(normalized);
    SpanCuesOk(spans, p, caption.spaced);
    MergeOk(raw, p, caption.spaced);
    KeepKeep(TextOf(Merged(caption, p)));
    KeepKeep(Flatten(spans));
    NormalizeKeeps(caption.text, IsCore);
  }

  /**
    * The whole pipeline keeps, in order and once each, every grapheme that is neither
    * whitespace nor a boundary mark, and every cue it shows is displayable.
    */
  lemma {:induction false} LaidKeeps(caption: Caption, p: Profile)
    requires p.maxLines > 0
    ensures Core(TextOf(Laid(caption, p))) == Core(caption.text)
    ensures TrimNeverWidens(p) ==> CuesOk(Laid(caption, p), p)
  {
    MergedKeeps(caption, p);
    PressureSplitOk(Merged(caption, p), caption.start, caption.end, p, caption.spaced);
  }

  /** A caption disappears exactly when its text is all whitespace. */
  lemma {:induction false} BlankCaption(caption: Caption)
    ensures Normalize(caption.text) == [] <==> Ink(caption.text) == []
  {
    NormalizeKeeps(caption.text, Inked);
    TrimTrims(CollapseNewlines(CollapseBlanks(caption.text)));
    CollapseBlanksKeeps(caption.text, Inked);
    CollapseNewlinesKeeps(CollapseBlanks(caption.text), Inked);
  }

  /** The cue that is shown as `cue`. */
  function RawOf(cue: DisplayCue): RawCue { RawCue(cue.text, cue.lines) }

  /**
    * Of a caption without an interval, and so without pressure, no cue that is shown is below the fill
    * threshold while it fits together with its neighbours as they were at its last visit.
    */
  lemma {:induction false} ShownCuesAreMerged(cues: seq<DisplayCue>, caption: Caption, number: nat, p: Profile, i: nat)
    requires p.maxLines > 0 && Composed(cues, caption, number, p)
    requires caption.start.None? || caption.end.None? || caption.end.value <= caption.start.value
    requires i < |cues| && BelowFill(RawOf(cues[i]), p)
    ensures i > 0 ==> TooLong(RawOf(cues[i - 1]), RawOf(cues[i]), p, caption.spaced)
    ensures i + 1 < |cues| ==> TurnedAway(RawOf(cues[i]), RawOf(cues[i + 1]), p, caption.spaced)
  {
    var merged := Merged(caption, p);
    PressureLeaves(merged, caption.start, caption.end, p, caption.spaced);
    assert forall k | 0 <= k < |cues| :: RawOf(cues[k]) == merged[k];
    var raw := SpanCues(SentenceSpans(Normalize(caption.text)), p, caption.spaced);
    MergeIsComplete(raw, p, caption.spaced, i);
  }

  lemma {:induction false} ShownIsSplit(cues: seq<DisplayCue>, caption: Caption, number: nat, p: Profile)
    requires p.maxLines > 0 && Composed(cues, caption, number, p) && Ink(caption.text) != []
    ensures var laid := PressureSplit(Merged(caption, p), caption.start, caption.end, p, caption.spaced);
            |cues| == |laid| && forall i | 0 <= i < |cues| :: RawOf(cues[i]) == laid[i]
  {
    BlankCaption(caption);
  }

  /** Of a caption that is too fast, every merged cue is shown as it is or cut on its own. */
  lemma {:induction false} ShownUnderPressure(cues: seq<DisplayCue>, caption: Caption, number: nat, p: Profile)
    returns (parts: seq<seq<RawCue>>, budget: nat)
    requires p.maxLines > 0 && Composed(cues, caption, number, p) && Ink(caption.text) != []
    requires caption.start.Some? && caption.end.Some? && TooFast(Merged(caption, p), caption.start.value, caption.end.value, p)
    ensures Budget(budget, caption.start.value, caption.end.value, p)
    ensures AllBecome(Merged(caption, p), parts, Becoming(budget, p, caption.spaced))
    ensures |cues| == |Together(parts)| && forall i | 0 <= i < |cues| :: RawOf(cues[i]) == Together(parts)[i]
  {
    ShownIsSplit(cues, caption, number, p);
    parts, budget := PressureCueByCue(Merged(caption, p), caption.start.value, caption.end.value, p, caption.spaced);
  }

  /** Shown times: exact at both ends, shared between neighbours, never backwards. */
  lemma {:induction false} DisplayedTimesTile(cues: seq<DisplayCue>, caption: Caption, captionIndex: nat, laid: seq<RawCue>)
    requires Displays(cues, caption, captionIndex, laid) && !NoInterval(laid, caption.start, caption.end)
    ensures cues[0].start == caption.start && cues[|cues| - 1].end == caption.end
    ensures forall i | 0 <= i < |cues| - 1 :: cues[i].end == cues[i + 1].start
    ensures forall i | 0 <= i < |cues| :: cues[i].start.Some? && cues[i].end.Some? && cues[i].start.value <= cues[i].end.value
  {
    var times := TimesOf(cues);
    TilesTile(times, Weights(laid), caption.start.value, caption.end.value);
    forall i | 0 <= i < |cues|
      ensures times[i] == Interval(cues[i].start, cues[i].end)
    {
    }
    assert times[0] == Interval(cues[0].start, cues[0].end);
  }
}
