/** The browser's caption state: two replicated tracks, plain session fields, and ordered views. */
module CaptionStore {
  import opened Outcome
  import opened CaptionReplica
  import opened Sorting
  import opened Whitespace

  /** What a viewer sees of a segment, and where this copy of it came from. */
  datatype Caption<+S> = Caption(shown: S, provider: string, receivedAt: int)

  datatype CaptionShown = CaptionShown(text: string, start: Option<nat>, end: Option<nat>, confidence: Option<real>)

  datatype TranslationShown = TranslationShown(
    text: string, start: Option<nat>, end: Option<nat>,
    sourceLanguage: string, targetLanguage: string, sourceSegments: seq<string>)

  datatype State = State(
    sessionStatus: string,
    captions: Track<Caption<CaptionShown>>,
    translations: Track<Caption<TranslationShown>>,
    translationStatus: string,
    translationError: Option<string>,
    error: Option<string>,
    metrics: Option<string>,
    audioTimeMs: nat
  )

  datatype Event =
    | CaptionUpsert(caption: Revision<Caption<CaptionShown>>)
    | SessionStatus(status: string)
    | SessionProgress(audioTimeMs: nat)
    | SessionMetrics(metrics: string)
    | SessionError(message: string)
    | TranslationUpsert(translation: Revision<Caption<TranslationShown>>)
    | TranslationStatus(state: string, note: Option<string>)

  function CreateState(sessionStatus: string, translationStatus: string): State {
    State(sessionStatus, CaptionReplica.Empty(), CaptionReplica.Empty(), translationStatus, None, None, None, 0)
  }

  /** `reduceCaptionEvent` */
  function Reduce(s: State, e: Event): State {
    match e
    case CaptionUpsert(caption) => s.(captions := Merge(s.captions, caption))
    case SessionStatus(status) => s.(sessionStatus := status)
    case SessionProgress(time) => s.(audioTimeMs := time)
    case SessionMetrics(metrics) => s.(metrics := Some(metrics))
    case SessionError(message) => s.(error := Some(message))
    case TranslationUpsert(translation) => s.(translations := Merge(s.translations, translation))
    case TranslationStatus(state, note) =>
      s.(translationStatus := state, translationError := if state == "failed" then note else None)
  }

  // ----- snapshots

  datatype SegmentRow = SegmentRow(id: string, segment: string, revision: nat, final: bool, shown: CaptionShown, finalizedAt: Option<int>)
  datatype TranslationRow = TranslationRow(id: string, segment: string, revision: nat, shown: TranslationShown, finalizedAt: Option<int>)

  function Stamp(time: Option<int>): int { if time.Some? then time.value else 0 }

  function RowRevision(row: SegmentRow): Revision<Caption<CaptionShown>> {
    Revision(row.segment, row.revision, Final, Caption(row.shown, "snapshot:" + row.id, Stamp(row.finalizedAt)))
  }

  function TranslationRowRevision(row: TranslationRow): Revision<Caption<TranslationShown>> {
    Revision(row.segment, row.revision, Final, Caption(row.shown, "snapshot:" + row.id, Stamp(row.finalizedAt)))
  }

  /** `hydrateFinalSnapshot` */
  function Hydrate(s: State, rows: seq<SegmentRow>): State
    decreases |rows|
  {
    if rows == [] then s
    else if !rows[0].final || Blank(rows[0].shown.text, Trims) then Hydrate(s, rows[1..])
    else Hydrate(s.(captions := Merge(s.captions, RowRevision(rows[0]))), rows[1..])
  }

  /** `hydrateTranslationSnapshot` */
  function HydrateTranslations(s: State, rows: seq<TranslationRow>): State
    decreases |rows|
  {
    if rows == [] then s
    else if Blank(rows[0].shown.text, Trims) then HydrateTranslations(s, rows[1..])
    else HydrateTranslations(s.(translations := Merge(s.translations, TranslationRowRevision(rows[0]))), rows[1..])
  }

  /** Whatever can happen to the state: a live event or a snapshot response. */
  datatype Input = Live(event: Event) | Snapshot(rows: seq<SegmentRow>) | TranslationSnapshot(translationRows: seq<TranslationRow>)

  function Apply(s: State, input: Input): State {
    match input
    case Live(event) => Reduce(s, event)
    case Snapshot(rows) => Hydrate(s, rows)
    case TranslationSnapshot(rows) => HydrateTranslations(s, rows)
  }

  function ApplyAll(s: State, inputs: seq<Input>): State
    decreases |inputs|
  {
    if inputs == [] then s else ApplyAll(Apply(s, inputs[0]), inputs[1..])
  }

  // ----- the stream of revisions that each track sees

  function RowsFeed(rows: seq<SegmentRow>): seq<Revision<Caption<CaptionShown>>> {
    if rows == [] then []
    else if !rows[0].final || Blank(rows[0].shown.text, Trims) then RowsFeed(rows[1..])
    else [RowRevision(rows[0])] + RowsFeed(rows[1..])
  }

  function TranslationRowsFeed(rows: seq<TranslationRow>): seq<Revision<Caption<TranslationShown>>> {
    if rows == [] then []
    else if Blank(rows[0].shown.text, Trims) then TranslationRowsFeed(rows[1..])
    else [TranslationRowRevision(rows[0])] + TranslationRowsFeed(rows[1..])
  }

  function InputFeed(input: Input): seq<Revision<Caption<CaptionShown>>> {
    match input
    case Live(CaptionUpsert(caption)) => [caption]
    case Snapshot(rows) => RowsFeed(rows)
    case _ => []
  }

  function InputTranslationFeed(input: Input): seq<Revision<Caption<TranslationShown>>> {
    match input
    case Live(TranslationUpsert(translation)) => [translation]
    case TranslationSnapshot(rows) => TranslationRowsFeed(rows)
    case _ => []
  }

  function Feed(inputs: seq<Input>): seq<Revision<Caption<CaptionShown>>> {
    if inputs == [] then [] else InputFeed(inputs[0]) + Feed(inputs[1..])
  }

  function TranslationFeed(inputs: seq<Input>): seq<Revision<Caption<TranslationShown>>> {
    if inputs == [] then [] else InputTranslationFeed(inputs[0]) + TranslationFeed(inputs[1..])
  }

  lemma {:induction false} RunOne<C>(t: Track<C>, r: Revision<C>, rs: seq<Revision<C>>)
    ensures Run(t, [r] + rs) == Run(Merge(t, r), rs)
    ensures Run(t, [r]) == Merge(t, r)
  {
    assert ([r] + rs)[1..] == rs;
    assert Run(t, [r]) == Run(Merge(t, r), [r][1..]);
  }

  lemma {:induction false} HydrateIsRun(s: State, rows: seq<SegmentRow>)
    ensures Hydrate(s, rows) == s.(captions := Run(s.captions, RowsFeed(rows)))
    decreases |rows|
  {
    if rows == [] {
    } else if !rows[0].final || Blank(rows[0].shown.text, Trims) {
      HydrateIsRun(s, rows[1..]);
    } else {
      RunOne(s.captions, RowRevision(rows[0]), RowsFeed(rows[1..]));
      HydrateIsRun(s.(captions := Merge(s.captions, RowRevision(rows[0]))), rows[1..]);
    }
  }

  lemma {:induction false} HydrateTranslationsIsRun(s: State, rows: seq<TranslationRow>)
    ensures HydrateTranslations(s, rows) == s.(translations := Run(s.translations, TranslationRowsFeed(rows)))
    decreases |rows|
  {
    if rows == [] {
    } else if Blank(rows[0].shown.text, Trims) {
      HydrateTranslationsIsRun(s, rows[1..]);
    } else {
      RunOne(s.translations, TranslationRowRevision(rows[0]), TranslationRowsFeed(rows[1..]));
      HydrateTranslationsIsRun(s.(translations := Merge(s.translations, TranslationRowRevision(rows[0]))), rows[1..]);
    }
  }

  lemma {:induction false} ApplyIsRun(s: State, input: Input)
    ensures Apply(s, input).captions == Run(s.captions, InputFeed(input))
    ensures Apply(s, input).translations == Run(s.translations, InputTranslationFeed(input))
  {
    match input
    case Snapshot(rows) => HydrateIsRun(s, rows);
    case TranslationSnapshot(rows) => HydrateTranslationsIsRun(s, rows);
    case Live(event) =>
      if event.CaptionUpsert? {
        RunOne(s.captions, event.caption, []);
      } else if event.TranslationUpsert? {
        RunOne(s.translations, event.translation, []);
      }
  }

  /** Live events and snapshots interleaved in any way leave each track as a run over its own revisions. */
  lemma {:induction false} TracksFollowFeeds(s: State, inputs: seq<Input>)
    ensures ApplyAll(s, inputs).captions == Run(s.captions, Feed(inputs))
    ensures ApplyAll(s, inputs).translations == Run(s.translations, TranslationFeed(inputs))
    decreases |inputs|
  {
    if inputs != [] {
      ApplyIsRun(s, inputs[0]);
      TracksFollowFeeds(Apply(s, inputs[0]), inputs[1..]);
      RunConcat(s.captions, InputFeed(inputs[0]), Feed(inputs[1..]));
      RunConcat(s.translations, InputTranslationFeed(inputs[0]), TranslationFeed(inputs[1..]));
    }
  }

  /** On every run, with no assumption on the stream: both tracks stay well formed and only grow. */
  lemma {:induction false} EveryRunSafe(s: State, inputs: seq<Input>)
    requires TrackOk(s.captions) && TrackOk(s.translations)
    ensures var u := ApplyAll(s, inputs);
            && TrackOk(u.captions) && Grows(s.captions, u.captions)
            && TrackOk(u.translations) && Grows(s.translations, u.translations)
  {
    TracksFollowFeeds(s, inputs);
    RunSafe(s.captions, Feed(inputs));
    RunSafe(s.translations, TranslationFeed(inputs));
  }

  // ----- hydration is as good as live delivery

  /** A track without provider event id and arrival time. */
  function Visible<S>(t: Track<Caption<S>>): Track<S> { MapTrack(t, (c: Caption<S>) => c.shown) }

  function VisibleRun<S>(rs: seq<Revision<Caption<S>>>): seq<Revision<S>> { MapRun(rs, (c: Caption<S>) => c.shown) }

  lemma {:induction false} VisibleConverges<S(!new)>(a: seq<Revision<Caption<S>>>, b: seq<Revision<Caption<S>>>, E: set<Revision<S>>)
    requires Settled(E) && forall r | r in E :: r.number > 0
    requires Delivers(VisibleRun(a), E) && Delivers(VisibleRun(b), E)
    ensures Visible(Run(CaptionReplica.Empty<Caption<S>>(), a)) == Visible(Run(CaptionReplica.Empty<Caption<S>>(), b))
  {
    var empty := CaptionReplica.Empty<Caption<S>>();
    RunCommutes(empty, a, (c: Caption<S>) => c.shown);
    RunCommutes(empty, b, (c: Caption<S>) => c.shown);
    assert Visible(empty) == CaptionReplica.Empty<S>();
    SettledConverges(E, VisibleRun(a), VisibleRun(b));
  }

  /**
    * Two runs that mix live events and snapshots in any way, and whose captions and translations
    * agree up to provider event id and arrival time, show the same captions and translations.
    */
  lemma {:induction false} HydrationConverges(sessionStatus: string, translationStatus: string, a: seq<Input>, b: seq<Input>,
                                              E: set<Revision<CaptionShown>>, T: set<Revision<TranslationShown>>)
    requires Settled(E) && Settled(T)
    requires (forall r | r in E :: r.number > 0) && (forall r | r in T :: r.number > 0)
    requires Delivers(VisibleRun(Feed(a)), E) && Delivers(VisibleRun(Feed(b)), E)
    requires Delivers(VisibleRun(TranslationFeed(a)), T) && Delivers(VisibleRun(TranslationFeed(b)), T)
    ensures var s := CreateState(sessionStatus, translationStatus);
            && Visible(ApplyAll(s, a).captions) == Visible(ApplyAll(s, b).captions)
            && Visible(ApplyAll(s, a).translations) == Visible(ApplyAll(s, b).translations)
  {
    var s := CreateState(sessionStatus, translationStatus);
    TracksFollowFeeds(s, a);
    TracksFollowFeeds(s, b);
    VisibleConverges(Feed(a), Feed(b), E);
    VisibleConverges(TranslationFeed(a), TranslationFeed(b), T);
  }

  lemma {:induction false} FeedConcat(a: seq<Input>, b: seq<Input>)
    ensures Feed(a + b) == Feed(a) + Feed(b)
  {
    if a == [] {
      assert a + b == b;
    } else {
      assert (a + b)[0] == a[0] && (a + b)[1..] == a[1..] + b;
      FeedConcat(a[1..], b);
    }
  }

  lemma {:induction false} ShowsFeeds(sessionStatus: string, translationStatus: string, inputs: seq<Input>)
    ensures var s := ApplyAll(CreateState(sessionStatus, translationStatus), inputs);
            s.captions == Run(Empty(), Feed(inputs)) && s.translations == Run(Empty(), TranslationFeed(inputs))
  {
    TracksFollowFeeds(CreateState(sessionStatus, translationStatus), inputs);
  }

  lemma {:induction false} FeedInserted(a: seq<Input>, x: Input, b: seq<Input>)
    ensures Feed(a + [x] + b) == Feed(a) + InputFeed(x) + Feed(b)
  {
    FeedConcat(a + [x], b);
    FeedConcat(a, [x]);
    assert [x][1..] == [];
    assert Feed([x]) == InputFeed(x) + [] == InputFeed(x);
  }

  lemma {:induction false} TranslationFeedInserted(a: seq<Input>, x: Input, b: seq<Input>)
    ensures TranslationFeed(a + [x] + b) == TranslationFeed(a) + InputTranslationFeed(x) + TranslationFeed(b)
  {
    TranslationFeedConcat(a + [x], b);
    TranslationFeedConcat(a, [x]);
    assert [x][1..] == [];
    assert TranslationFeed([x]) == InputTranslationFeed(x) + [] == InputTranslationFeed(x);
  }

  /** A snapshot of finals that are also delivered live may arrive at any point without changing what is shown. */
  lemma {:induction false} SnapshotAnywhere(sessionStatus: string, translationStatus: string, a: seq<Input>, b: seq<Input>, rows: seq<SegmentRow>,
                                            E: set<Revision<CaptionShown>>)
    requires Settled(E) && forall r | r in E :: r.number > 0
    requires Delivers(VisibleRun(Feed(a + b)), E)
    requires forall r | r in VisibleRun(RowsFeed(rows)) :: r in E
    ensures var s := CreateState(sessionStatus, translationStatus);
            Visible(ApplyAll(s, a + [Snapshot(rows)] + b).captions) == Visible(ApplyAll(s, a + b).captions)
  {
    ShowsFeeds(sessionStatus, translationStatus, a + [Snapshot(rows)] + b);
    ShowsFeeds(sessionStatus, translationStatus, a + b);
    FeedConcat(a, b);
    FeedInserted(a, Snapshot(rows), b);
    InsertedShowsSame(Feed(a), RowsFeed(rows), Feed(b), E);
  }

  lemma {:induction false} TranslationFeedConcat(a: seq<Input>, b: seq<Input>)
    ensures TranslationFeed(a + b) == TranslationFeed(a) + TranslationFeed(b)
  {
    if a == [] {
      assert a + b == b;
    } else {
      assert (a + b)[0] == a[0] && (a + b)[1..] == a[1..] + b;
      TranslationFeedConcat(a[1..], b);
    }
  }

  /** The same for a snapshot of translations. */
  lemma {:induction false} TranslationSnapshotAnywhere(sessionStatus: string, translationStatus: string, a: seq<Input>, b: seq<Input>,
                                                       rows: seq<TranslationRow>, T: set<Revision<TranslationShown>>)
    requires Settled(T) && forall r | r in T :: r.number > 0
    requires Delivers(VisibleRun(TranslationFeed(a + b)), T)
    requires forall r | r in VisibleRun(TranslationRowsFeed(rows)) :: r in T
    ensures var s := CreateState(sessionStatus, translationStatus);
            Visible(ApplyAll(s, a + [TranslationSnapshot(rows)] + b).translations) == Visible(ApplyAll(s, a + b).translations)
  {
    ShowsFeeds(sessionStatus, translationStatus, a + [TranslationSnapshot(rows)] + b);
    ShowsFeeds(sessionStatus, translationStatus, a + b);
    TranslationFeedConcat(a, b);
    TranslationFeedInserted(a, TranslationSnapshot(rows), b);
    InsertedShowsSame(TranslationFeed(a), TranslationRowsFeed(rows), TranslationFeed(b), T);
  }

  /** Revisions that are delivered anyway may be delivered once more in between. */
  lemma {:induction false} InsertedShowsSame<S(!new)>(a: seq<Revision<Caption<S>>>, extra: seq<Revision<Caption<S>>>, b: seq<Revision<Caption<S>>>,
                                                      E: set<Revision<S>>)
    requires Settled(E) && forall r | r in E :: r.number > 0
    requires Delivers(VisibleRun(a + b), E) && forall r | r in VisibleRun(extra) :: r in E
    ensures Visible(Run(Empty(), a + extra + b)) == Visible(Run(Empty(), a + b))
  {
    MixedDelivers(a, extra, b, E);
    VisibleConverges(a + extra + b, a + b, E);
  }

  lemma {:induction false} VisibleConcat<S>(a: seq<Revision<Caption<S>>>, b: seq<Revision<Caption<S>>>)
    ensures VisibleRun(a + b) == VisibleRun(a) + VisibleRun(b)
  {
  }

  lemma {:induction false} MixedDelivers<S(!new)>(a: seq<Revision<Caption<S>>>, extra: seq<Revision<Caption<S>>>, b: seq<Revision<Caption<S>>>, E: set<Revision<S>>)
    requires Delivers(VisibleRun(a + b), E) && forall r | r in VisibleRun(extra) :: r in E
    ensures Delivers(VisibleRun(a + extra + b), E)
  {
    var x, y, z := VisibleRun(a), VisibleRun(extra), VisibleRun(b);
    VisibleConcat(a, b);
    VisibleConcat(a + extra, b);
    VisibleConcat(a, extra);
    forall r
      ensures r in x + y + z <==> r in E
    {
      assert r in x + z <==> r in E;
    }
  }

  // ----- ordered views

  /** A missing time sorts after every time. */
  predicate TimeLess(x: Option<nat>, y: Option<nat>) { x.Some? && (y.None? || x.value < y.value) }

  datatype Span = Span(start: Option<nat>, end: Option<nat>)

  function CaptionSpan(shown: CaptionShown): Span { Span(shown.start, shown.end) }
  function TranslationSpan(shown: TranslationShown): Span { Span(shown.start, shown.end) }

  /** The comparator of the ordered views; `before` stands for locale comparison of segment ids. */
  predicate ViewLess<S>(x: Revision<S>, y: Revision<S>, span: S -> Span, before: Less<string>) {
    var a, b := span(x.content), span(y.content);
    || TimeLess(a.start, b.start)
    || (a.start == b.start && (TimeLess(a.end, b.end) || (a.end == b.end && before(x.segment, y.segment))))
  }

  /** `values` lists the entries of `m` once each, in the order the record happens to hold them. */
  ghost predicate Lists<C(!new)>(values: seq<Revision<C>>, m: map<string, Revision<C>>) {
    Distinct(values) && forall v :: v in values <==> v.segment in m && m[v.segment] == v
  }

  /** `ordered` and `orderedTranslations` */
  function Ordered<S(!new)>(values: seq<Revision<S>>, span: S -> Span, before: Less<string>): seq<Revision<S>> {
    Sort(values, (x, y) => ViewLess(x, y, span, before))
  }

  lemma {:induction false} ViewLessStrict<S(!new)>(span: S -> Span, before: Less<string>)
    requires StrictTotal(before)
    ensures Strict((x: Revision<S>, y: Revision<S>) => ViewLess(x, y, span, before))
  {
  }

  /** The displayed order depends on the map alone, not on the order in which segments arrived. */
  lemma {:induction false} OrderedViewUnique<S(!new)>(m: map<string, Revision<S>>, xs: seq<Revision<S>>, ys: seq<Revision<S>>, span: S -> Span, before: Less<string>)
    requires StrictTotal(before) && Lists(xs, m) && Lists(ys, m)
    ensures Ordered(xs, span, before) == Ordered(ys, span, before)
    ensures Sorted(Ordered(xs, span, before), (x, y) => ViewLess(x, y, span, before))
  {
    var less := (x: Revision<S>, y: Revision<S>) => ViewLess(x, y, span, before);
    ViewLessStrict(span, before);
    assert TotalOn(less, xs);
    SortUnique(xs, ys, less);
    SortSorted(xs, less);
  }

  /** Drops the entries whose text is blank. */
  function NonBlank<S>(xs: seq<Revision<S>>, text: S -> string): seq<Revision<S>> {
    if xs == [] then []
    else if Blank(text(xs[0].content), Trims) then NonBlank(xs[1..], text)
    else [xs[0]] + NonBlank(xs[1..], text)
  }

  /** The four selectors: in display order, and of the finals only those with text. */
  function Selected<S(!new)>(values: seq<Revision<S>>, final: bool, span: S -> Span, text: S -> string, before: Less<string>): seq<Revision<S>> {
    if final then NonBlank(Ordered(values, span, before), text) else Ordered(values, span, before)
  }

  function CaptionTextOf(shown: CaptionShown): string { shown.text }
  function TranslationTextOf(shown: TranslationShown): string { shown.text }

  /** The drafts or the finals of a track. */
  function Side<C>(t: Track<C>, final: bool): map<string, Revision<C>> { if final then t.finals else t.drafts }

  /**
    * The whole claim for captions: two deliveries of the same settled revisions, live or by
    * snapshot, in any order and with any repeats, display the same drafts and the same finals
    * in the same order.
    */
  lemma {:induction false} SameDisplay(sessionStatus: string, translationStatus: string, a: seq<Input>, b: seq<Input>, E: set<Revision<CaptionShown>>,
                                       final: bool, xs: seq<Revision<CaptionShown>>, ys: seq<Revision<CaptionShown>>, before: Less<string>)
    requires Settled(E) && forall r | r in E :: r.number > 0
    requires Delivers(VisibleRun(Feed(a)), E) && Delivers(VisibleRun(Feed(b)), E)
    requires StrictTotal(before)
    requires var s := CreateState(sessionStatus, translationStatus);
             && Lists(xs, Side(Visible(ApplyAll(s, a).captions), final))
             && Lists(ys, Side(Visible(ApplyAll(s, b).captions), final))
    ensures Selected(xs, final, CaptionSpan, CaptionTextOf, before) == Selected(ys, final, CaptionSpan, CaptionTextOf, before)
  {
    var s := CreateState(sessionStatus, translationStatus);
    TracksFollowFeeds(s, a);
    TracksFollowFeeds(s, b);
    VisibleConverges(Feed(a), Feed(b), E);
    OrderedViewUnique(Side(Visible(ApplyAll(s, a).captions), final), xs, ys, CaptionSpan, before);
  }

  /** The same claim for translations. */
  lemma {:induction false} SameTranslationDisplay(sessionStatus: string, translationStatus: string, a: seq<Input>, b: seq<Input>, T: set<Revision<TranslationShown>>,
                                                  final: bool, xs: seq<Revision<TranslationShown>>, ys: seq<Revision<TranslationShown>>, before: Less<string>)
    requires Settled(T) && forall r | r in T :: r.number > 0
    requires Delivers(VisibleRun(TranslationFeed(a)), T) && Delivers(VisibleRun(TranslationFeed(b)), T)
    requires StrictTotal(before)
    requires var s := CreateState(sessionStatus, translationStatus);
             && Lists(xs, Side(Visible(ApplyAll(s, a).translations), final))
             && Lists(ys, Side(Visible(ApplyAll(s, b).translations), final))
    ensures Selected(xs, final, TranslationSpan, TranslationTextOf, before) == Selected(ys, final, TranslationSpan, TranslationTextOf, before)
  {
    var s := CreateState(sessionStatus, translationStatus);
    TracksFollowFeeds(s, a);
    TracksFollowFeeds(s, b);
    VisibleConverges(TranslationFeed(a), TranslationFeed(b), T);
    OrderedViewUnique(Side(Visible(ApplyAll(s, a).translations), final), xs, ys, TranslationSpan, before);
  }
}
