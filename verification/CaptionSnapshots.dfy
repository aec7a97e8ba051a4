/**
  * A snapshot is worth the same finals delivered live, the session fields hold what the
  * last event about them said, and the selectors list the right entries in the right order.
  */
module CaptionSnapshots {
  import opened Outcome
  import opened CaptionReplica
  import opened CaptionStore
  import opened Sorting
  import opened Whitespace

  // ----- rows as live finals

  /** A row that is shown: final, with at least one character that trimming leaves. */
  predicate Shown(row: SegmentRow) { row.final && exists c :: c in row.shown.text && !Trims(c) }

  predicate TranslationIsShown(row: TranslationRow) { exists c :: c in row.shown.text && !Trims(c) }

  /** Where a copy of a row is said to come from. */
  datatype Origin = Origin(provider: string, receivedAt: int)

  /** The live final that carries what `row` shows. */
  function LiveFinal(row: SegmentRow, origin: Origin): Event {
    CaptionUpsert(Revision(row.segment, row.revision, Final, Caption(row.shown, origin.provider, origin.receivedAt)))
  }

  function LiveTranslation(row: TranslationRow, origin: Origin): Event {
    TranslationUpsert(Revision(row.segment, row.revision, Final, Caption(row.shown, origin.provider, origin.receivedAt)))
  }

  function LiveFinals(rows: seq<SegmentRow>, origin: SegmentRow -> Origin): seq<Input> {
    if rows == [] then []
    else if Shown(rows[0]) then [Live(LiveFinal(rows[0], origin(rows[0])))] + LiveFinals(rows[1..], origin)
    else LiveFinals(rows[1..], origin)
  }

  function LiveTranslations(rows: seq<TranslationRow>, origin: TranslationRow -> Origin): seq<Input> {
    if rows == [] then []
    else if TranslationIsShown(rows[0]) then [Live(LiveTranslation(rows[0], origin(rows[0])))] + LiveTranslations(rows[1..], origin)
    else LiveTranslations(rows[1..], origin)
  }

  function SnapshotOrigin(row: SegmentRow): Origin {
    Origin("snapshot:" + row.id, if row.finalizedAt.Some? then row.finalizedAt.value else 0)
  }

  function TranslationOrigin(row: TranslationRow): Origin {
    Origin("snapshot:" + row.id, if row.finalizedAt.Some? then row.finalizedAt.value else 0)
  }

  lemma {:induction false} ApplyOne(s: State, input: Input, inputs: seq<Input>)
    ensures ApplyAll(s, [input] + inputs) == ApplyAll(Apply(s, input), inputs)
  {
    assert ([input] + inputs)[1..] == inputs;
  }

  /** Hydration is the live delivery, in row order, of one final for every row that is shown; all fields included. */
  lemma {:induction false} HydrateIsLive(s: State, rows: seq<SegmentRow>)
    ensures Hydrate(s, rows) == ApplyAll(s, LiveFinals(rows, SnapshotOrigin))
    decreases |rows|
  {
    if rows != [] {
      if Shown(rows[0]) {
        var event := LiveFinal(rows[0], SnapshotOrigin(rows[0]));
        HydrateIsLive(Reduce(s, event), rows[1..]);
        ApplyOne(s, Live(event), LiveFinals(rows[1..], SnapshotOrigin));
      } else {
        HydrateIsLive(s, rows[1..]);
      }
    }
  }

  lemma {:induction false} HydrateTranslationsIsLive(s: State, rows: seq<TranslationRow>)
    ensures HydrateTranslations(s, rows) == ApplyAll(s, LiveTranslations(rows, TranslationOrigin))
    decreases |rows|
  {
    if rows != [] {
      if TranslationIsShown(rows[0]) {
        var event := LiveTranslation(rows[0], TranslationOrigin(rows[0]));
        HydrateTranslationsIsLive(Reduce(s, event), rows[1..]);
        ApplyOne(s, Live(event), LiveTranslations(rows[1..], TranslationOrigin));
      } else {
        HydrateTranslationsIsLive(s, rows[1..]);
      }
    }
  }

  lemma {:induction false} OriginIsUnseen(rows: seq<SegmentRow>, a: SegmentRow -> Origin, b: SegmentRow -> Origin)
    ensures VisibleRun(Feed(LiveFinals(rows, a))) == VisibleRun(Feed(LiveFinals(rows, b)))
  {
    if rows != [] {
      OriginIsUnseen(rows[1..], a, b);
      if Shown(rows[0]) {
        FeedCons(rows[0], a(rows[0]), LiveFinals(rows[1..], a));
        FeedCons(rows[0], b(rows[0]), LiveFinals(rows[1..], b));
      }
    }
  }

  lemma {:induction false} FeedCons(row: SegmentRow, origin: Origin, inputs: seq<Input>)
    ensures VisibleRun(Feed([Live(LiveFinal(row, origin))] + inputs)) ==
            [Revision(row.segment, row.revision, Final, row.shown)] + VisibleRun(Feed(inputs))
  {
    assert ([Live(LiveFinal(row, origin))] + inputs)[1..] == inputs;
    VisibleConcat([LiveFinal(row, origin).caption], Feed(inputs));
  }

  lemma {:induction false} TranslationOriginIsUnseen(rows: seq<TranslationRow>, a: TranslationRow -> Origin, b: TranslationRow -> Origin)
    ensures VisibleRun(TranslationFeed(LiveTranslations(rows, a))) == VisibleRun(TranslationFeed(LiveTranslations(rows, b)))
  {
    if rows != [] {
      TranslationOriginIsUnseen(rows[1..], a, b);
      if TranslationIsShown(rows[0]) {
        TranslationFeedCons(rows[0], a(rows[0]), LiveTranslations(rows[1..], a));
        TranslationFeedCons(rows[0], b(rows[0]), LiveTranslations(rows[1..], b));
      }
    }
  }

  lemma {:induction false} TranslationFeedCons(row: TranslationRow, origin: Origin, inputs: seq<Input>)
    ensures VisibleRun(TranslationFeed([Live(LiveTranslation(row, origin))] + inputs)) ==
            [Revision(row.segment, row.revision, Final, row.shown)] + VisibleRun(TranslationFeed(inputs))
  {
    assert ([Live(LiveTranslation(row, origin))] + inputs)[1..] == inputs;
    VisibleConcat([LiveTranslation(row, origin).translation], TranslationFeed(inputs));
  }

  /** Runs over revisions that look the same end in tracks that look the same. */
  lemma {:induction false} VisibleRunsSame<S>(t: Track<Caption<S>>, a: seq<Revision<Caption<S>>>, b: seq<Revision<Caption<S>>>)
    requires VisibleRun(a) == VisibleRun(b)
    ensures Visible(Run(t, a)) == Visible(Run(t, b))
  {
    RunCommutes(t, a, (c: Caption<S>) => c.shown);
    RunCommutes(t, b, (c: Caption<S>) => c.shown);
  }

  lemma {:induction false} AppliedSame(s: State, a: seq<Input>, b: seq<Input>)
    ensures VisibleRun(Feed(a)) == VisibleRun(Feed(b)) ==> Visible(ApplyAll(s, a).captions) == Visible(ApplyAll(s, b).captions)
    ensures VisibleRun(TranslationFeed(a)) == VisibleRun(TranslationFeed(b)) ==>
              Visible(ApplyAll(s, a).translations) == Visible(ApplyAll(s, b).translations)
  {
    TracksFollowFeeds(s, a);
    TracksFollowFeeds(s, b);
    if VisibleRun(Feed(a)) == VisibleRun(Feed(b)) {
      VisibleRunsSame(s.captions, Feed(a), Feed(b));
    }
    if VisibleRun(TranslationFeed(a)) == VisibleRun(TranslationFeed(b)) {
      VisibleRunsSame(s.translations, TranslationFeed(a), TranslationFeed(b));
    }
  }

  /** What a snapshot shows is what its rows show when they come live as finals, from anywhere and at any time. */
  lemma {:induction false} SnapshotShowsLive(s: State, rows: seq<SegmentRow>, origin: SegmentRow -> Origin)
    ensures Visible(Hydrate(s, rows).captions) == Visible(ApplyAll(s, LiveFinals(rows, origin)).captions)
  {
    HydrateIsLive(s, rows);
    OriginIsUnseen(rows, SnapshotOrigin, origin);
    AppliedSame(s, LiveFinals(rows, SnapshotOrigin), LiveFinals(rows, origin));
  }

  lemma {:induction false} TranslationSnapshotShowsLive(s: State, rows: seq<TranslationRow>, origin: TranslationRow -> Origin)
    ensures Visible(HydrateTranslations(s, rows).translations) == Visible(ApplyAll(s, LiveTranslations(rows, origin)).translations)
  {
    HydrateTranslationsIsLive(s, rows);
    TranslationOriginIsUnseen(rows, TranslationOrigin, origin);
    AppliedSame(s, LiveTranslations(rows, TranslationOrigin), LiveTranslations(rows, origin));
  }

  /** One row: shown as the live final it stands for, or, if it is blank or not final, without any effect. */
  lemma {:induction false} RowShowsLive(s: State, row: SegmentRow, p: string, t: int)
    ensures Shown(row) ==>
              Visible(Hydrate(s, [row]).captions) ==
              Visible(Reduce(s, CaptionUpsert(Revision(row.segment, row.revision, Final, Caption(row.shown, p, t)))).captions)
    ensures !row.final || Blank(row.shown.text, Trims) ==> Hydrate(s, [row]) == s
  {
    if Shown(row) {
      var origin := (_: SegmentRow) => Origin(p, t);
      SnapshotShowsLive(s, [row], origin);
      assert [row][1..] == [];
      assert LiveFinals([row], origin) == [Live(LiveFinal(row, Origin(p, t)))] + [];
      ApplyOne(s, Live(LiveFinal(row, Origin(p, t))), []);
    }
  }

  lemma {:induction false} TranslationRowShowsLive(s: State, row: TranslationRow, p: string, t: int)
    ensures TranslationIsShown(row) ==>
              Visible(HydrateTranslations(s, [row]).translations) ==
              Visible(Reduce(s, TranslationUpsert(Revision(row.segment, row.revision, Final, Caption(row.shown, p, t)))).translations)
    ensures Blank(row.shown.text, Trims) ==> HydrateTranslations(s, [row]) == s
  {
    if TranslationIsShown(row) {
      var origin := (_: TranslationRow) => Origin(p, t);
      TranslationSnapshotShowsLive(s, [row], origin);
      assert [row][1..] == [];
      assert LiveTranslations([row], origin) == [Live(LiveTranslation(row, Origin(p, t)))] + [];
      ApplyOne(s, Live(LiveTranslation(row, Origin(p, t))), []);
    }
  }

  // ----- the plain session fields

  /** What the last input with something to say said, or `init`. */
  function Latest<T>(inputs: seq<Input>, says: Input -> Option<T>, init: T): T {
    if inputs == [] then init
    else
      var last := |inputs| - 1;
      if says(inputs[last]).Some? then says(inputs[last]).value else Latest(inputs[..last], says, init)
  }

  function SaysSession(i: Input): Option<string> { if i.Live? && i.event.SessionStatus? then Some(i.event.status) else None }
  function SaysTime(i: Input): Option<nat> { if i.Live? && i.event.SessionProgress? then Some(i.event.audioTimeMs) else None }
  function SaysMetrics(i: Input): Option<Option<string>> { if i.Live? && i.event.SessionMetrics? then Some(Some(i.event.metrics)) else None }
  function SaysError(i: Input): Option<Option<string>> { if i.Live? && i.event.SessionError? then Some(Some(i.event.message)) else None }
  function SaysTranslation(i: Input): Option<string> { if i.Live? && i.event.TranslationStatus? then Some(i.event.state) else None }

  /** Only a failure leaves a note; any other status clears it. */
  function SaysTranslationError(i: Input): Option<Option<string>> {
    if !i.Live? || !i.event.TranslationStatus? then None
    else if i.event.state == "failed" then Some(i.event.note) else Some(None)
  }

  lemma {:induction false} HydrateLeavesFields(s: State, rows: seq<SegmentRow>, translationRows: seq<TranslationRow>)
    ensures Hydrate(s, rows) == s.(captions := Hydrate(s, rows).captions)
    ensures HydrateTranslations(s, translationRows) == s.(translations := HydrateTranslations(s, translationRows).translations)
  {
    HydrateIsRun(s, rows);
    HydrateTranslationsIsRun(s, translationRows);
  }

  lemma {:induction false} ApplyAllLast(s: State, inputs: seq<Input>)
    requires inputs != []
    ensures ApplyAll(s, inputs) == Apply(ApplyAll(s, inputs[..|inputs| - 1]), inputs[|inputs| - 1])
    decreases |inputs|
  {
    if |inputs| > 1 {
      ApplyAllLast(Apply(s, inputs[0]), inputs[1..]);
      assert inputs[1..][..|inputs| - 2] == inputs[..|inputs| - 1][1..];
    }
  }

  function Told<T>(says: Option<T>, otherwise: T): T { if says.Some? then says.value else otherwise }

  lemma {:induction false} FieldsStep(s: State, input: Input)
    ensures var u := Apply(s, input);
            && u.sessionStatus == Told(SaysSession(input), s.sessionStatus)
            && u.audioTimeMs == Told(SaysTime(input), s.audioTimeMs)
            && u.metrics == Told(SaysMetrics(input), s.metrics)
            && u.error == Told(SaysError(input), s.error)
            && u.translationStatus == Told(SaysTranslation(input), s.translationStatus)
            && u.translationError == Told(SaysTranslationError(input), s.translationError)
  {
    match input
    case Snapshot(rows) => HydrateLeavesFields(s, rows, []);
    case TranslationSnapshot(rows) => HydrateLeavesFields(s, [], rows);
    case Live(_) =>
  }

  /** On every run each plain field holds what the last event about it said. */
  lemma {:induction false} FieldsAreLatest(s: State, inputs: seq<Input>)
    ensures var u := ApplyAll(s, inputs);
            && u.sessionStatus == Latest(inputs, SaysSession, s.sessionStatus)
            && u.audioTimeMs == Latest(inputs, SaysTime, s.audioTimeMs)
            && u.metrics == Latest(inputs, SaysMetrics, s.metrics)
            && u.error == Latest(inputs, SaysError, s.error)
            && u.translationStatus == Latest(inputs, SaysTranslation, s.translationStatus)
            && u.translationError == Latest(inputs, SaysTranslationError, s.translationError)
    decreases |inputs|
  {
    if inputs != [] {
      var last := |inputs| - 1;
      FieldsAreLatest(s, inputs[..last]);
      ApplyAllLast(s, inputs);
      FieldsStep(ApplyAll(s, inputs[..last]), inputs[last]);
    }
  }

  // ----- the selectors

  /** `x` may stand before `y`: an earlier time first, no time last. */
  ghost predicate NotLater(x: Option<nat>, y: Option<nat>) {
    match (x, y)
    case (Some(a), Some(b)) => a <= b
    case (None, Some(_)) => false
    case (_, None) => true
  }

  ghost predicate Precedes<S>(x: Revision<S>, y: Revision<S>, span: S -> Span, before: Less<string>) {
    var a, b := span(x.content), span(y.content);
    && NotLater(a.start, b.start)
    && (a.start == b.start ==> NotLater(a.end, b.end))
    && (a.start == b.start && a.end == b.end ==> before(x.segment, y.segment))
  }

  lemma {:induction false} NonBlankKeepsOrder<S>(xs: seq<Revision<S>>, text: S -> string, less: Less<Revision<S>>)
    requires Sorted(xs, less)
    ensures Sorted(NonBlank(xs, text), less)
    ensures forall x :: x in NonBlank(xs, text) <==> x in xs && exists c :: c in text(x.content) && !Trims(c)
  {
    if xs != [] {
      var rest := NonBlank(xs[1..], text);
      NonBlankKeepsOrder(xs[1..], text, less);
      assert ([xs[0]] + rest)[1..] == rest;
      forall x
        ensures x in NonBlank(xs, text) <==> x in xs && exists c :: c in text(x.content) && !Trims(c)
      {
        assert x in xs <==> x == xs[0] || x in xs[1..];
      }
      assert Below(xs[0], rest, less);
    }
  }

  /**
    * What a selector lists: of the drafts every entry, of the finals every entry with
    * visible text, and nothing else; by start, then end, then segment id, without repeats.
    */
  lemma {:induction false} SelectedExactly<S(!new)>(m: map<string, Revision<S>>, values: seq<Revision<S>>, final: bool,
                                                    span: S -> Span, text: S -> string, before: Less<string>)
    requires StrictTotal(before) && Lists(values, m)
    ensures var out := Selected(values, final, span, text, before);
            && (forall x :: x in out <==>
                            && x.segment in m && m[x.segment] == x
                            && (final ==> exists c :: c in text(x.content) && !Trims(c)))
            && (forall i, j | 0 <= i < j < |out| :: out[i] != out[j] && Precedes(out[i], out[j], span, before))
  {
    var less := (x: Revision<S>, y: Revision<S>) => ViewLess(x, y, span, before);
    var all := Ordered(values, span, before);
    var out := Selected(values, final, span, text, before);
    OrderedViewUnique(m, values, values, span, before);
    NonBlankKeepsOrder(all, text, less);
    forall i, j | 0 <= i < j < |out|
      ensures out[i] != out[j] && Precedes(out[i], out[j], span, before)
    {
      SortedAt(out, less, i, j);
    }
  }
}
