/**
  * The caption replica: revisions of caption and translation segments arrive over an
  * unreliable channel, in any order and any number of times, and are merged with an
  * HTTP snapshot of the final ones.
  */
module CaptionReplica {

  datatype Status = Draft | Final

  /** One upsert: revision `number` of a segment. */
  datatype Revision<+C> = Revision(segment: string, number: nat, status: Status, content: C)

  /** Draft map, final map and last accepted revision of each segment. */
  datatype Track<+C> = Track(drafts: map<string, Revision<C>>, finals: map<string, Revision<C>>, last: map<string, nat>)

  function Empty<C>(): Track<C> { Track(map[], map[], map[]) }

  function LastOf<C>(t: Track<C>, segment: string): nat {
    if segment in t.last then t.last[segment] else 0
  }

  /** `mergeCaption` and `mergeTranslation`. */
  function Merge<C>(t: Track<C>, r: Revision<C>): Track<C> {
    if r.number <= LastOf(t, r.segment) then t
    else if r.status.Draft? && r.segment in t.finals then t
    else
      var last := t.last[r.segment := r.number];
      if r.status.Draft? then Track(t.drafts[r.segment := r], t.finals, last)
      else Track(t.drafts - {r.segment}, t.finals[r.segment := r], last)
  }

  function Run<C>(t: Track<C>, rs: seq<Revision<C>>): Track<C>
    decreases |rs|
  {
    if rs == [] then t else Run(Merge(t, rs[0]), rs[1..])
  }

  // ----- what holds on every run, with no assumption on the stream

  ghost predicate EntryOk<C>(t: Track<C>, segment: string, r: Revision<C>) {
    r.segment == segment && segment in t.last && t.last[segment] == r.number > 0
  }

  ghost predicate TrackOk<C>(t: Track<C>) {
    && t.drafts.Keys !! t.finals.Keys
    && t.last.Keys == t.drafts.Keys + t.finals.Keys
    && (forall s | s in t.drafts :: EntryOk(t, s, t.drafts[s]) && t.drafts[s].status.Draft?)
    && (forall s | s in t.finals :: EntryOk(t, s, t.finals[s]) && t.finals[s].status.Final?)
  }

  /** A segment once final stays final, and no revision number goes down. */
  ghost predicate Grows<C>(t: Track<C>, u: Track<C>) {
    && t.finals.Keys <= u.finals.Keys
    && forall s :: LastOf(t, s) <= LastOf(u, s)
  }

  lemma {:induction false} MergeSafe<C>(t: Track<C>, r: Revision<C>)
    requires TrackOk(t)
    ensures TrackOk(Merge(t, r)) && Grows(t, Merge(t, r))
  {
  }

  /** Safety of every run: drafts and finals stay disjoint, finals stay, revisions never decrease. */
  lemma {:induction false} RunSafe<C>(t: Track<C>, rs: seq<Revision<C>>)
    requires TrackOk(t)
    ensures TrackOk(Run(t, rs)) && Grows(t, Run(t, rs))
    decreases |rs|
  {
    if rs != [] {
      MergeSafe(t, rs[0]);
      RunSafe(Merge(t, rs[0]), rs[1..]);
    }
  }

  lemma {:induction false} RunConcat<C>(t: Track<C>, a: seq<Revision<C>>, b: seq<Revision<C>>)
    ensures Run(t, a + b) == Run(Run(t, a), b)
    decreases |a|
  {
    if a == [] {
      assert a + b == b;
    } else {
      assert (a + b)[0] == a[0] && (a + b)[1..] == a[1..] + b;
      RunConcat(Merge(t, a[0]), a[1..], b);
    }
  }

  // ----- convergence

  /** The replica holds exactly revision `e` of its segment. */
  ghost predicate Shows<C>(t: Track<C>, e: Revision<C>) {
    && e.segment in t.last && t.last[e.segment] == e.number
    && (if e.status.Draft?
        then e.segment in t.drafts && t.drafts[e.segment] == e && e.segment !in t.finals
        else e.segment in t.finals && t.finals[e.segment] == e && e.segment !in t.drafts)
  }

  /** `e` has a higher revision number than everything else about its segment. */
  ghost predicate Top<C(!new)>(E: set<Revision<C>>, e: Revision<C>) {
    e in E && forall f | f in E && f.segment == e.segment && f != e :: f.number < e.number
  }

  /** `e` is the top of its segment, and it is final if anything about the segment is. */
  ghost predicate Decides<C(!new)>(E: set<Revision<C>>, e: Revision<C>) {
    Top(E, e) && (e.status.Draft? ==> forall f | f in E && f.segment == e.segment :: f.status.Draft?)
  }

  ghost predicate HasDecider<C(!new)>(E: set<Revision<C>>, segment: string) {
    exists e :: e in E && e.segment == segment && Decides(E, e)
  }

  ghost predicate Settled<C(!new)>(E: set<Revision<C>>) {
    forall r | r in E :: HasDecider(E, r.segment)
  }

  /** `rs` consists of the revisions in `E`, in some order and with some repeats. */
  ghost predicate Delivers<C(!new)>(rs: seq<Revision<C>>, E: set<Revision<C>>) { forall r :: r in rs <==> r in E }

  /** Every delivery of exactly the revisions in `E`, in any order and with any repeats, ends in one state. */
  ghost predicate Converges<C(!new)>(E: set<Revision<C>>) {
    forall a: seq<Revision<C>>, b: seq<Revision<C>> |
      Delivers(a, E) && Delivers(b, E) ::
      Run(Empty(), a) == Run(Empty(), b)
  }

  /** Either `e` has been delivered and shows, or everything so far about its segment is below it. */
  ghost predicate OnTheWay<C>(t: Track<C>, e: Revision<C>) {
    Shows(t, e) || (LastOf(t, e.segment) < e.number && (e.status.Draft? ==> e.segment !in t.finals))
  }

  lemma {:induction false} StepOnTheWay<C(!new)>(t: Track<C>, E: set<Revision<C>>, e: Revision<C>, r: Revision<C>)
    requires TrackOk(t) && Decides(E, e) && r in E && OnTheWay(t, e)
    ensures OnTheWay(Merge(t, r), e)
    ensures Shows(t, e) || r == e ==> Shows(Merge(t, r), e)
  {
  }

  lemma {:induction false} DeliveredShows<C(!new)>(t: Track<C>, E: set<Revision<C>>, e: Revision<C>, rs: seq<Revision<C>>)
    requires TrackOk(t) && Decides(E, e) && OnTheWay(t, e)
    requires forall r | r in rs :: r in E
    ensures Shows(t, e) || e in rs ==> Shows(Run(t, rs), e)
    decreases |rs|
  {
    if rs != [] {
      StepOnTheWay(t, E, e, rs[0]);
      MergeSafe(t, rs[0]);
      DeliveredShows(Merge(t, rs[0]), E, e, rs[1..]);
    }
  }

  lemma {:induction false} Touched<C>(t: Track<C>, rs: seq<Revision<C>>, s: string)
    requires s in Run(t, rs).last
    ensures s in t.last || exists r :: r in rs && r.segment == s
    decreases |rs|
  {
    if rs != [] {
      Touched(Merge(t, rs[0]), rs[1..], s);
      assert rs[0] in rs && forall r | r in rs[1..] :: r in rs;
    }
  }

  /** Two replicas that show the same deciding revisions, and nothing else, are equal. */
  lemma {:induction false} SameShown<C(!new)>(t: Track<C>, u: Track<C>, E: set<Revision<C>>)
    requires TrackOk(t) && TrackOk(u)
    requires forall s | s in t.last || s in u.last :: exists e :: e in E && e.segment == s && Shows(t, e) && Shows(u, e)
    ensures t == u
  {
    assert t.last == u.last;
    assert t.finals == u.finals;
    assert t.drafts == u.drafts;
  }

  lemma {:induction false} DecidedShows<C(!new)>(rs: seq<Revision<C>>, E: set<Revision<C>>, e: Revision<C>)
    requires Decides(E, e) && e.number > 0 && Delivers(rs, E)
    ensures Shows(Run(Empty<C>(), rs), e)
  {
    DeliveredShows(Empty<C>(), E, e, rs);
  }

  lemma {:induction false} AnyShown<C(!new)>(rs: seq<Revision<C>>, E: set<Revision<C>>, s: string) returns (e: Revision<C>)
    requires Settled(E) && Delivers(rs, E)
    requires s in Run(Empty<C>(), rs).last
    ensures e in E && e.segment == s && Decides(E, e)
  {
    Touched(Empty<C>(), rs, s);
    var r :| r in rs && r.segment == s;
    assert HasDecider(E, r.segment);
    e :| e in E && e.segment == s && Decides(E, e);
  }

  lemma {:induction false} SettledConverges<C(!new)>(E: set<Revision<C>>, a: seq<Revision<C>>, b: seq<Revision<C>>)
    requires Settled(E) && forall r | r in E :: r.number > 0
    requires Delivers(a, E) && Delivers(b, E)
    ensures Run(Empty<C>(), a) == Run(Empty<C>(), b)
  {
    var t, u := Run(Empty<C>(), a), Run(Empty<C>(), b);
    RunSafe(Empty<C>(), a);
    RunSafe(Empty<C>(), b);
    forall s | s in t.last || s in u.last
      ensures exists e :: e in E && e.segment == s && Shows(t, e) && Shows(u, e)
    {
      var e := AnyShown(if s in t.last then a else b, E, s);
      DecidedShows(a, E, e);
      DecidedShows(b, E, e);
    }
    SameShown(t, u, E);
  }

  // ----- convergence fails for every set that is not settled

  lemma {:induction false} Highest<C(!new)>(E: set<Revision<C>>, r: Revision<C>) returns (m: Revision<C>)
    requires r in E
    ensures m in E && m.segment == r.segment && forall f | f in E && f.segment == r.segment :: f.number <= m.number
    decreases |E|
  {
    var rest := E - {r};
    if others :| others in rest && others.segment == r.segment {
      m := Highest(rest, others);
      if m.number < r.number {
        m := r;
      }
      forall f | f in E && f.segment == r.segment ensures f.number <= m.number {
        assert f == r || f in rest;
      }
    } else {
      m := r;
      forall f | f in E && f.segment == r.segment ensures f.number <= m.number {
        assert f == r || f in rest;
      }
    }
  }

  lemma {:induction false} Enumerate<C(!new)>(E: set<Revision<C>>) returns (rs: seq<Revision<C>>)
    ensures Delivers(rs, E)
  {
    if E == {} {
      rs := [];
    } else {
      var r :| r in E;
      var rest := Enumerate(E - {r});
      rs := [r] + rest;
    }
  }

  /** Once a highest revision shows, it keeps showing. */
  lemma {:induction false} Sticks<C(!new)>(t: Track<C>, e: Revision<C>, rs: seq<Revision<C>>)
    requires Shows(t, e)
    requires forall r | r in rs && r.segment == e.segment :: r.number <= e.number
    ensures Shows(Run(t, rs), e)
    decreases |rs|
  {
    if rs != [] {
      Sticks(Merge(t, rs[0]), e, rs[1..]);
    }
  }

  lemma {:induction false} FirstSticks<C(!new)>(E: set<Revision<C>>, e: Revision<C>, rs: seq<Revision<C>>)
    requires e in E && e.number > 0 && Delivers(rs, E)
    requires forall f | f in E && f.segment == e.segment :: f.number <= e.number
    ensures Shows(Run(Empty<C>(), [e] + rs), e)
  {
    assert ([e] + rs)[0] == e && ([e] + rs)[1..] == rs;
    Sticks(Merge(Empty<C>(), e), e, rs);
  }

  lemma {:induction false} FirstFinalStays<C(!new)>(f: Revision<C>, rs: seq<Revision<C>>)
    requires f.status.Final? && f.number > 0
    ensures f.segment in Run(Empty<C>(), [f] + rs).finals
  {
    assert ([f] + rs)[0] == f && ([f] + rs)[1..] == rs;
    MergeSafe(Empty<C>(), f);
    RunSafe(Merge(Empty<C>(), f), rs);
  }

  lemma {:induction false} Reordered<C(!new)>(E: set<Revision<C>>, a: seq<Revision<C>>, b: seq<Revision<C>>)
    requires Converges(E) && Delivers(a, E) && Delivers(b, E)
    ensures Run(Empty<C>(), a) == Run(Empty<C>(), b)
  {
  }

  lemma {:induction false} SameHeight<C(!new)>(E: set<Revision<C>>, m: Revision<C>, f: Revision<C>, rs: seq<Revision<C>>)
    requires Converges(E) && m in E && f in E && m.segment == f.segment && m.number == f.number > 0
    requires Delivers(rs, E)
    requires forall x | x in E && x.segment == m.segment :: x.number <= m.number
    ensures m == f
  {
    FirstSticks(E, m, rs);
    FirstSticks(E, f, rs);
    Reordered(E, [m] + rs, [f] + rs);
  }

  lemma {:induction false} FinalOnTop<C(!new)>(E: set<Revision<C>>, m: Revision<C>, f: Revision<C>, rs: seq<Revision<C>>)
    requires Converges(E) && m in E && f in E && m.segment == f.segment && f.status.Final? && m.number > 0 && f.number > 0
    requires Delivers(rs, E)
    requires forall x | x in E && x.segment == m.segment :: x.number <= m.number
    ensures m.status.Final?
  {
    FirstSticks(E, m, rs);
    FirstFinalStays(f, rs);
    Reordered(E, [m] + rs, [f] + rs);
  }

  lemma {:induction false} ConvergesSettled<C(!new)>(E: set<Revision<C>>, r: Revision<C>)
    requires Converges(E) && r in E && forall x | x in E :: x.number > 0
    ensures HasDecider(E, r.segment)
  {
    var m := Highest(E, r);
    var rs := Enumerate(E);
    forall f | f in E && f.segment == m.segment
      ensures f == m || f.number < m.number
      ensures f.status.Final? ==> m.status.Final?
    {
      if f.number == m.number {
        SameHeight(E, m, f, rs);
      }
      if f.status.Final? {
        FinalOnTop(E, m, f, rs);
      }
    }
    assert Decides(E, m);
  }

  /**
    * Exactly when the replica converges: each segment has one highest revision, and that
    * revision is final if any revision of the segment is.
    */
  lemma {:induction false} ConvergesIffSettled<C(!new)>(E: set<Revision<C>>)
    requires forall r | r in E :: r.number > 0
    ensures Converges(E) <==> Settled(E)
  {
    if Settled(E) {
      forall a: seq<Revision<C>>, b: seq<Revision<C>> |
        Delivers(a, E) && Delivers(b, E)
        ensures Run(Empty<C>(), a) == Run(Empty<C>(), b)
      {
        SettledConverges(E, a, b);
      }
    }
    if Converges(E) {
      forall r | r in E
        ensures HasDecider(E, r.segment)
      {
        ConvergesSettled(E, r);
      }
    }
  }

  /** What the publisher guarantees: drafts come before finals, and a revision number fixes the payload. */
  ghost predicate Disciplined<C(!new)>(E: set<Revision<C>>) {
    && (forall d, f | d in E && f in E && d.segment == f.segment && d.status.Draft? && f.status.Final? :: d.number < f.number)
    && (forall x, y | x in E && y in E && x.segment == y.segment && x.number == y.number :: x == y)
  }

  /** The publisher's discipline is enough. */
  lemma {:induction false} DisciplineSettles<C(!new)>(E: set<Revision<C>>)
    requires Disciplined(E)
    ensures Settled(E)
  {
    forall r | r in E
      ensures HasDecider(E, r.segment)
    {
      var m := Highest(E, r);
      assert Decides(E, m);
    }
  }

  /** Without the discipline the order of delivery shows: draft 5 and final 3 of one segment. */
  lemma {:induction false} OrderMatters()
    ensures var d, f := Revision("s", 5, Draft, 0), Revision("s", 3, Final, 0);
            Run(Empty<int>(), [d, f]) != Run(Empty<int>(), [f, d])
  {
    var d: Revision<int>, f: Revision<int> := Revision("s", 5, Draft, 0), Revision("s", 3, Final, 0);
    var t, u := Merge(Empty<int>(), d), Merge(Empty<int>(), f);
    assert [d, f][1..] == [f] && [f, d][1..] == [d];
    assert Run(t, [f]) == Run(Merge(t, f), []) == t;
    assert Run(u, [d]) == Run(Merge(u, d), []) == u;
    assert "s" in u.finals && "s" !in t.finals;
  }

  // ----- merging looks at nothing but segment, number and status

  function MapRevision<C, D>(r: Revision<C>, f: C -> D): Revision<D> {
    Revision(r.segment, r.number, r.status, f(r.content))
  }

  function MapAll<C, D>(m: map<string, Revision<C>>, f: C -> D): map<string, Revision<D>> {
    map s | s in m :: MapRevision(m[s], f)
  }

  function MapTrack<C, D>(t: Track<C>, f: C -> D): Track<D> {
    Track(MapAll(t.drafts, f), MapAll(t.finals, f), t.last)
  }

  function MapRun<C, D>(rs: seq<Revision<C>>, f: C -> D): (r: seq<Revision<D>>)
    ensures |r| == |rs|
    ensures forall i | 0 <= i < |rs| :: r[i] == MapRevision(rs[i], f)
  {
    if rs == [] then [] else [MapRevision(rs[0], f)] + MapRun(rs[1..], f)
  }

  lemma {:induction false} MapUpdate<C, D>(m: map<string, Revision<C>>, r: Revision<C>, f: C -> D)
    ensures MapAll(m[r.segment := r], f) == MapAll(m, f)[r.segment := MapRevision(r, f)]
    ensures MapAll(m - {r.segment}, f) == MapAll(m, f) - {r.segment}
  {
  }

  lemma {:induction false} MergeCommutes<C, D>(t: Track<C>, r: Revision<C>, f: C -> D)
    ensures MapTrack(Merge(t, r), f) == Merge(MapTrack(t, f), MapRevision(r, f))
  {
    MapUpdate(t.drafts, r, f);
    MapUpdate(t.finals, r, f);
  }

  lemma {:induction false} RunCommutes<C, D>(t: Track<C>, rs: seq<Revision<C>>, f: C -> D)
    ensures MapTrack(Run(t, rs), f) == Run(MapTrack(t, f), MapRun(rs, f))
    decreases |rs|
  {
    if rs != [] {
      MergeCommutes(t, rs[0], f);
      RunCommutes(Merge(t, rs[0]), rs[1..], f);
      assert MapRun(rs, f)[1..] == MapRun(rs[1..], f);
    }
  }
}
