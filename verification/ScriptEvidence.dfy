/** How the sections of a processed script cite the source items of a package. */
module ScriptEvidence {
  import opened Outcome

  datatype Segment = Segment(id: string, text: string, start: int, end: int)

  datatype Item = Item(id: string, segments: seq<string>, start: int, end: int, text: string)

  datatype Section = Section(title: string, segments: seq<string>)

  datatype Evidence = Evidence(items: seq<string>, segments: seq<string>, start: int, end: int)

  function Elements(xs: seq<string>): set<string> { set x | x in xs }

  function SnapshotIds(snapshot: seq<Segment>): seq<string> {
    if snapshot == [] then [] else SnapshotIds(snapshot[..|snapshot| - 1]) + [snapshot[|snapshot| - 1].id]
  }

  /** `_segment_ids`. */
  function SegmentIds(items: seq<Item>): set<string> {
    if items == [] then {} else SegmentIds(items[..|items| - 1]) + Elements(items[|items| - 1].segments)
  }

  /** All segments of the item are among the section's. */
  predicate Within(item: Item, section: Section) { Elements(item.segments) <= Elements(section.segments) }

  /** In how many sections the item lies. */
  function Homes(item: Item, sections: seq<Section>): nat {
    if sections == [] then 0
    else Homes(item, sections[..|sections| - 1]) + (if Within(item, sections[|sections| - 1]) then 1 else 0)
  }

  predicate AllHoused(items: seq<Item>, sections: seq<Section>) {
    forall i | 0 <= i < |items| :: Homes(items[i], sections) == 1
  }

  predicate NoneEmpty(sections: seq<Section>) {
    forall i | 0 <= i < |sections| :: sections[i].segments != []
  }

  predicate Compatible(items: seq<Item>, snapshot: seq<Segment>, sections: seq<Section>) {
    && snapshot != [] && SegmentIds(items) == Elements(SnapshotIds(snapshot))
    && sections != [] && NoneEmpty(sections) && AllHoused(items, sections)
  }

  /** `_compatible`. */
  method CheckCompatible(items: seq<Item>, snapshot: seq<Segment>, sections: seq<Section>) returns (ok: bool)
    ensures ok <==> Compatible(items, snapshot, sections)
  {
    if snapshot == [] || SegmentIds(items) != Elements(SnapshotIds(snapshot)) {
      return false;
    }
    if sections == [] || !NoneEmpty(sections) {
      return false;
    }
    var k := 0;
    while k < |items|
      invariant k <= |items| && forall i | 0 <= i < k :: Homes(items[i], sections) == 1
    {
      var n := CountHomes(items[k], sections);
      if n != 1 {
        return false;
      }
      k := k + 1;
    }
    return true;
  }

  method CountHomes(item: Item, sections: seq<Section>) returns (n: nat)
    ensures n == Homes(item, sections)
  {
    n := 0;
    var k := 0;
    while k < |sections|
      invariant k <= |sections| && n == Homes(item, sections[..k])
    {
      assert sections[..k + 1][..k] == sections[..k];
      if Within(item, sections[k]) {
        n := n + 1;
      }
      k := k + 1;
    }
    assert sections[..k] == sections;
  }

  // ----- match score

  /** The snapshot as a dictionary: the last segment with an identifier counts. */
  function SourceOf(snapshot: seq<Segment>, id: string): Option<Segment> {
    if snapshot == [] then None
    else if snapshot[|snapshot| - 1].id == id then Some(snapshot[|snapshot| - 1])
    else SourceOf(snapshot[..|snapshot| - 1], id)
  }

  /** Points for an item of a single segment: two for its text, one for its times. */
  function Points(item: Item, snapshot: seq<Segment>): nat {
    if |item.segments| != 1 then 0
    else
      match SourceOf(snapshot, item.segments[0])
      case None => 0
      case Some(s) => (if item.text == s.text then 2 else 0) + (if item.start == s.start && item.end == s.end then 1 else 0)
  }

  function Score(items: seq<Item>, snapshot: seq<Segment>): nat {
    if items == [] then 0 else Score(items[..|items| - 1], snapshot) + Points(items[|items| - 1], snapshot)
  }

  /** `_match_score`. */
  method MatchScore(items: seq<Item>, snapshot: seq<Segment>) returns (score: nat)
    ensures score == Score(items, snapshot)
  {
    score := 0;
    var k := 0;
    while k < |items|
      invariant k <= |items| && score == Score(items[..k], snapshot)
    {
      assert items[..k + 1][..k] == items[..k];
      var item := items[k];
      if |item.segments| == 1 {
        var source := SourceOf(snapshot, item.segments[0]);
        if source.Some? {
          if item.text == source.value.text {
            score := score + 2;
          }
          if item.start == source.value.start && item.end == source.value.end {
            score := score + 1;
          }
        }
      }
      k := k + 1;
    }
    assert items[..k] == items;
  }

  /** `s` is what the snapshot says of the item: the last segment with the identifier of the item's only segment. */
  ghost predicate Source(item: Item, snapshot: seq<Segment>, s: Segment) {
    |item.segments| == 1 && exists j ::
      && 0 <= j < |snapshot| && snapshot[j] == s && s.id == item.segments[0]
      && forall k | j < k < |snapshot| :: snapshot[k].id != s.id
  }

  ghost predicate SameText(item: Item, snapshot: seq<Segment>) { exists s :: Source(item, snapshot, s) && item.text == s.text }

  ghost predicate SameTimes(item: Item, snapshot: seq<Segment>) {
    exists s :: Source(item, snapshot, s) && item.start == s.start && item.end == s.end
  }

  /** The places of the items that are good. */
  ghost function Places(items: seq<Item>, good: Item -> bool): set<nat> { set i: nat | i < |items| && good(items[i]) }

  ghost function TextMatches(items: seq<Item>, snapshot: seq<Segment>): set<nat> {
    Places(items, (item: Item) => SameText(item, snapshot))
  }

  ghost function TimeMatches(items: seq<Item>, snapshot: seq<Segment>): set<nat> {
    Places(items, (item: Item) => SameTimes(item, snapshot))
  }

  lemma {:induction false} SourceOfIsLast(snapshot: seq<Segment>, id: string)
    ensures match SourceOf(snapshot, id)
            case None => forall k | 0 <= k < |snapshot| :: snapshot[k].id != id
            case Some(s) =>
              s.id == id && exists j :: 0 <= j < |snapshot| && snapshot[j] == s && forall k | j < k < |snapshot| :: snapshot[k].id != id
  {
    if snapshot != [] {
      var n := |snapshot| - 1;
      if snapshot[n].id != id {
        SourceOfIsLast(snapshot[..n], id);
        var front := SourceOf(snapshot[..n], id);
        if front.Some? {
          var j :| 0 <= j < n && snapshot[..n][j] == front.value && forall k | j < k < n :: snapshot[..n][k].id != id;
          assert forall k | j < k < |snapshot| :: snapshot[k].id != id;
        }
      }
    }
  }

  /** A segment's source is the only one. */
  lemma {:induction false} SourceIsOne(item: Item, snapshot: seq<Segment>, s: Segment)
    requires |item.segments| == 1
    ensures Source(item, snapshot, s) <==> SourceOf(snapshot, item.segments[0]) == Some(s)
  {
    SourceOfIsLast(snapshot, item.segments[0]);
  }

  lemma {:induction false} PointsExactly(item: Item, snapshot: seq<Segment>)
    ensures Points(item, snapshot) == (if SameText(item, snapshot) then 2 else 0) + (if SameTimes(item, snapshot) then 1 else 0)
  {
    if |item.segments| == 1 {
      forall s
        ensures Source(item, snapshot, s) <==> SourceOf(snapshot, item.segments[0]) == Some(s)
      {
        SourceIsOne(item, snapshot, s);
      }
    }
  }

  lemma {:induction false} PlacesLast(items: seq<Item>, good: Item -> bool)
    requires items != []
    ensures |Places(items, good)| == |Places(items[..|items| - 1], good)| + (if good(items[|items| - 1]) then 1 else 0)
  {
    var n := |items| - 1;
    assert Places(items, good) == Places(items[..n], good) + (if good(items[n]) then {n} else {});
  }

  /** The score counts every item with the text of its source twice and every item with its times once. */
  lemma {:induction false} ScoreExactly(items: seq<Item>, snapshot: seq<Segment>)
    ensures Score(items, snapshot) == 2 * |TextMatches(items, snapshot)| + |TimeMatches(items, snapshot)|
  {
    if items == [] {
      assert TextMatches(items, snapshot) == {} && TimeMatches(items, snapshot) == {};
    } else {
      ScoreExactly(items[..|items| - 1], snapshot);
      PointsExactly(items[|items| - 1], snapshot);
      PlacesLast(items, (item: Item) => SameText(item, snapshot));
      PlacesLast(items, (item: Item) => SameTimes(item, snapshot));
    }
  }

  /** One more item with the right text outranks one more with the right times. */
  lemma {:induction false} TextOutranksTimes(a: seq<Item>, b: seq<Item>, snapshot: seq<Segment>)
    requires |TextMatches(a, snapshot)| == |TextMatches(b, snapshot)| + 1
    requires |TimeMatches(b, snapshot)| == |TimeMatches(a, snapshot)| + 1
    ensures Score(a, snapshot) > Score(b, snapshot)
  {
    ScoreExactly(a, snapshot);
    ScoreExactly(b, snapshot);
  }

  // ----- evidence

  function Cited(items: seq<Item>, section: Section): seq<Item> {
    if items == [] then []
    else
      var front, last := Cited(items[..|items| - 1], section), items[|items| - 1];
      if Within(last, section) then front + [last] else front
  }

  function ItemIds(items: seq<Item>): seq<string> {
    if items == [] then [] else ItemIds(items[..|items| - 1]) + [items[|items| - 1].id]
  }

  /** Appends what is not there yet. */
  function Merged(done: seq<string>, more: seq<string>): seq<string>
    decreases |more|
  {
    if more == [] then done
    else Merged(if more[0] in done then done else done + [more[0]], more[1..])
  }

  /** The segments of the items in order of first occurrence. */
  function FirstOccurrences(items: seq<Item>): seq<string> {
    if items == [] then [] else Merged(FirstOccurrences(items[..|items| - 1]), items[|items| - 1].segments)
  }

  function EarliestStart(items: seq<Item>): int
    requires items != []
  {
    var last := items[|items| - 1].start;
    if |items| == 1 then last
    else
      var front := EarliestStart(items[..|items| - 1]);
      if last < front then last else front
  }

  function LatestEnd(items: seq<Item>): int
    requires items != []
  {
    var last := items[|items| - 1].end;
    if |items| == 1 then last
    else
      var front := LatestEnd(items[..|items| - 1]);
      if last > front then last else front
  }

  /** The evidence of one section; `None` stands for the error of a minimum over nothing. */
  function EvidenceOf(section: Section, items: seq<Item>): Option<Evidence> {
    var cited := Cited(items, section);
    if cited == [] then None
    else Some(Evidence(ItemIds(cited), FirstOccurrences(cited), EarliestStart(cited), LatestEnd(cited)))
  }

  function AllEvidence(sections: seq<Section>, items: seq<Item>): Option<seq<Evidence>> {
    if sections == [] then Some([])
    else
      var front, last := AllEvidence(sections[..|sections| - 1], items), EvidenceOf(sections[|sections| - 1], items);
      if front.Some? && last.Some? then Some(front.value + [last.value]) else None
  }

  /** The evidence loop of `upgrade`. */
  method CollectEvidence(sections: seq<Section>, items: seq<Item>) returns (r: Option<seq<Evidence>>)
    ensures r == AllEvidence(sections, items)
  {
    var evidence: seq<Evidence>, k := [], 0;
    while k < |sections|
      invariant k <= |sections| && AllEvidence(sections[..k], items) == Some(evidence)
    {
      assert sections[..k + 1][..k] == sections[..k];
      var e := EvidenceOf(sections[k], items);
      if e.None? {
        EvidencePrefix(sections, k + 1, items);
        return None;
      }
      evidence, k := evidence + [e.value], k + 1;
    }
    assert sections[..k] == sections;
    return Some(evidence);
  }

  lemma {:induction false} EvidencePrefix(sections: seq<Section>, k: nat, items: seq<Item>)
    requires k <= |sections| && AllEvidence(sections[..k], items).None?
    ensures AllEvidence(sections, items).None?
  {
    if k < |sections| {
      assert sections[..|sections| - 1][..k] == sections[..k];
      EvidencePrefix(sections[..|sections| - 1], k, items);
    } else {
      assert sections[..k] == sections;
    }
  }

  lemma {:induction false} EvidenceAt(sections: seq<Section>, items: seq<Item>)
    ensures AllEvidence(sections, items).Some? <==> forall i | 0 <= i < |sections| :: EvidenceOf(sections[i], items).Some?
    ensures AllEvidence(sections, items).Some? ==>
              && |AllEvidence(sections, items).value| == |sections|
              && forall i | 0 <= i < |sections| :: EvidenceOf(sections[i], items) == Some(AllEvidence(sections, items).value[i])
  {
    if sections != [] {
      EvidenceAt(sections[..|sections| - 1], items);
    }
  }

  // ----- sections that partition the snapshot

  /** Every segment lies in exactly one section, no section is empty, and sections hold nothing else. */
  ghost predicate Partition(sections: seq<Section>, ids: seq<string>) {
    && NoneEmpty(sections)
    && (forall x :: x in ids <==> exists i :: 0 <= i < |sections| && x in sections[i].segments)
    && (forall i, j, x | 0 <= i < j < |sections| && x in sections[i].segments :: x !in sections[j].segments)
  }

  function Flat(sections: seq<Section>): seq<string> {
    if sections == [] then [] else Flat(sections[..|sections| - 1]) + sections[|sections| - 1].segments
  }

  lemma {:induction false} FlatMembers(sections: seq<Section>, x: string)
    ensures x in Flat(sections) <==> exists i :: 0 <= i < |sections| && x in sections[i].segments
  {
    if sections != [] {
      var n := |sections| - 1;
      FlatMembers(sections[..n], x);
      if x in sections[n].segments {
        assert x in Flat(sections);
      } else if exists i :: 0 <= i < |sections| && x in sections[i].segments {
        var i :| 0 <= i < |sections| && x in sections[i].segments;
        assert sections[..n][i] == sections[i];
      }
    }
  }

  lemma {:induction false} FlatRepeats(sections: seq<Section>, i: nat, j: nat, x: string)
    requires i < j < |sections| && x in sections[i].segments && x in sections[j].segments
    ensures multiset(Flat(sections))[x] >= 2
  {
    var n := |sections| - 1;
    var front, last := Flat(sections[..n]), sections[n].segments;
    assert multiset(front + last) == multiset(front) + multiset(last);
    if j < n {
      FlatRepeats(sections[..n], i, j, x);
    } else {
      FlatMembers(sections[..n], x);
      assert sections[..n][i] == sections[i];
      assert x in multiset(front) && x in multiset(last);
    }
  }

  ghost predicate NoRepeats(xs: seq<string>) { forall i, j | 0 <= i < j < |xs| :: xs[i] != xs[j] }

  lemma {:induction false} OnceOnly(xs: seq<string>, x: string)
    requires NoRepeats(xs)
    ensures multiset(xs)[x] <= 1
  {
    if xs != [] {
      var n := |xs| - 1;
      assert xs == xs[..n] + [xs[n]];
      OnceOnly(xs[..n], x);
      if xs[n] == x {
        assert x !in xs[..n];
      }
    }
  }

  /** The check that scripts pass, sorted references equal to sorted segment ids, makes the sections a partition. */
  lemma {:induction false} SortedReferencesPartition(sections: seq<Section>, ids: seq<string>)
    requires multiset(Flat(sections)) == multiset(ids) && NoRepeats(ids) && NoneEmpty(sections)
    ensures Partition(sections, ids)
  {
    forall x
      ensures x in ids <==> exists i :: 0 <= i < |sections| && x in sections[i].segments
    {
      FlatMembers(sections, x);
      assert x in multiset(ids) <==> x in multiset(Flat(sections));
    }
    forall i, j, x | 0 <= i < j < |sections| && x in sections[i].segments
      ensures x !in sections[j].segments
    {
      if x in sections[j].segments {
        FlatRepeats(sections, i, j, x);
        OnceOnly(ids, x);
      }
    }
  }

  // ----- what the evidence says

  lemma {:induction false} CitedMembers(items: seq<Item>, section: Section, item: Item)
    ensures item in Cited(items, section) <==> item in items && Within(item, section)
  {
    if items != [] {
      var n := |items| - 1;
      CitedMembers(items[..n], section, item);
      assert items == items[..n] + [items[n]];
    }
  }

  lemma {:induction false} SegmentMembers(items: seq<Item>, x: string)
    ensures x in SegmentIds(items) <==> exists i :: 0 <= i < |items| && x in items[i].segments
  {
    if items != [] {
      var n := |items| - 1;
      SegmentMembers(items[..n], x);
      if x in items[n].segments {
        assert x in Elements(items[n].segments);
      } else if exists i :: 0 <= i < |items| && x in items[i].segments {
        var i :| 0 <= i < |items| && x in items[i].segments;
        assert items[..n][i] == items[i];
      }
    }
  }

  lemma {:induction false} MergedElements(done: seq<string>, more: seq<string>)
    requires NoRepeats(done)
    ensures NoRepeats(Merged(done, more)) && Elements(Merged(done, more)) == Elements(done) + Elements(more)
    decreases |more|
  {
    if more != [] {
      var next := if more[0] in done then done else done + [more[0]];
      MergedElements(next, more[1..]);
      assert Elements(next) == Elements(done) + {more[0]};
      assert Elements(more) == {more[0]} + Elements(more[1..]);
    }
  }

  lemma {:induction false} OccurrenceElements(items: seq<Item>)
    ensures NoRepeats(FirstOccurrences(items)) && Elements(FirstOccurrences(items)) == SegmentIds(items)
  {
    if items != [] {
      OccurrenceElements(items[..|items| - 1]);
      MergedElements(FirstOccurrences(items[..|items| - 1]), items[|items| - 1].segments);
    }
  }

  lemma {:induction false} SpanBounds(items: seq<Item>, i: nat)
    requires i < |items|
    ensures EarliestStart(items) <= items[i].start && items[i].end <= LatestEnd(items)
  {
    var n := |items| - 1;
    if i < n {
      SpanBounds(items[..n], i);
    }
  }

  lemma {:induction false} SpanAttained(items: seq<Item>)
    requires items != []
    ensures exists i :: 0 <= i < |items| && items[i].start == EarliestStart(items)
    ensures exists i :: 0 <= i < |items| && items[i].end == LatestEnd(items)
  {
    var n := |items| - 1;
    if n > 0 {
      SpanAttained(items[..n]);
      var i :| 0 <= i < n && items[..n][i].start == EarliestStart(items[..n]);
      var j :| 0 <= j < n && items[..n][j].end == LatestEnd(items[..n]);
      assert items[i].start == EarliestStart(items[..n]) && items[j].end == LatestEnd(items[..n]);
    }
    assert items[n].start == items[|items| - 1].start && items[n].end == items[|items| - 1].end;
  }

  /**
    * What one section's evidence must be: its own segments, each once, the identifiers of the items
    * that lie within it, and the span from the earliest start to the latest end of those items.
    */
  ghost predicate Faithful(e: Evidence, section: Section, items: seq<Item>) {
    && (forall x :: x in e.segments <==> x in section.segments) && NoRepeats(e.segments)
    && e.items == ItemIds(Cited(items, section))
    && (forall x :: x in e.items <==> exists item :: item in items && Inside(item, section) && item.id == x)
    && (forall item | item in items && Inside(item, section) :: e.start <= item.start && item.end <= e.end)
    && (exists item :: item in items && Inside(item, section) && item.start == e.start)
    && (exists item :: item in items && Inside(item, section) && item.end == e.end)
  }

  /** Every segment of the item is a segment of the section. */
  ghost predicate Inside(item: Item, section: Section) { forall x | x in item.segments :: x in section.segments }

  lemma {:induction false} InsideIsWithin(item: Item, section: Section)
    ensures Inside(item, section) <==> Within(item, section)
  {
    if Within(item, section) {
      forall x | x in item.segments
        ensures x in section.segments
      {
        assert x in Elements(item.segments);
      }
    }
  }

  lemma {:induction false} IdsOf(items: seq<Item>, x: string)
    ensures x in ItemIds(items) <==> exists item :: item in items && item.id == x
  {
    if items != [] {
      var n := |items| - 1;
      IdsOf(items[..n], x);
      assert items == items[..n] + [items[n]];
      if items[n].id == x {
        assert items[n] in items;
      }
    }
  }

  /** The items that a section cites, said without the two functions that compute them. */
  lemma {:induction false} CitedExactly(items: seq<Item>, section: Section)
    ensures forall item :: item in Cited(items, section) <==> item in items && Inside(item, section)
    ensures forall x :: x in ItemIds(Cited(items, section)) <==> exists item :: item in items && Inside(item, section) && item.id == x
  {
    forall item
      ensures item in Cited(items, section) <==> item in items && Inside(item, section)
    {
      CitedMembers(items, section, item);
      InsideIsWithin(item, section);
    }
    forall x
      ensures x in ItemIds(Cited(items, section)) <==> exists item :: item in items && Inside(item, section) && item.id == x
    {
      IdsOf(Cited(items, section), x);
    }
  }

  lemma {:induction false} CitedSpan(items: seq<Item>, section: Section)
    requires Cited(items, section) != []
    ensures var cited := Cited(items, section);
            && (forall item | item in items && Inside(item, section) :: EarliestStart(cited) <= item.start && item.end <= LatestEnd(cited))
            && (exists item :: item in items && Inside(item, section) && item.start == EarliestStart(cited))
            && (exists item :: item in items && Inside(item, section) && item.end == LatestEnd(cited))
  {
    var cited := Cited(items, section);
    CitedExactly(items, section);
    SpanAttained(cited);
    forall item | item in items && Inside(item, section)
      ensures EarliestStart(cited) <= item.start && item.end <= LatestEnd(cited)
    {
      var j :| 0 <= j < |cited| && cited[j] == item;
      SpanBounds(cited, j);
    }
    var i :| 0 <= i < |cited| && cited[i].start == EarliestStart(cited);
    var j :| 0 <= j < |cited| && cited[j].end == LatestEnd(cited);
    assert cited[i] in cited && cited[j] in cited;
  }

  lemma {:induction false} HomeExists(item: Item, sections: seq<Section>) returns (k: nat)
    requires Homes(item, sections) >= 1
    ensures k < |sections| && Within(item, sections[k])
  {
    var n := |sections| - 1;
    if Within(item, sections[n]) {
      k := n;
    } else {
      k := HomeExists(item, sections[..n]);
    }
  }

  lemma {:induction false} NoHome(item: Item, sections: seq<Section>, k: nat)
    requires k < |sections| && Within(item, sections[k])
    ensures Homes(item, sections) >= 1
  {
    if k < |sections| - 1 {
      NoHome(item, sections[..|sections| - 1], k);
    }
  }

  lemma {:induction false} OneHome(item: Item, sections: seq<Section>, i: nat, j: nat)
    requires Homes(item, sections) == 1 && i < |sections| && j < |sections| && Within(item, sections[i]) && Within(item, sections[j])
    ensures i == j
  {
    var n := |sections| - 1;
    var front := sections[..n];
    if i < n {
      NoHome(item, front, i);
    }
    if j < n {
      NoHome(item, front, j);
    }
    if i < n && j < n {
      OneHome(item, front, i, j);
    }
  }

  /** Every source item is cited by exactly one section. */
  lemma {:induction false} CitedByExactlyOne(items: seq<Item>, snapshot: seq<Segment>, sections: seq<Section>, item: Item) returns (k: nat)
    requires Compatible(items, snapshot, sections) && item in items
    ensures k < |sections|
    ensures forall j | 0 <= j < |sections| :: item in Cited(items, sections[j]) <==> j == k
  {
    k := HomeExists(item, sections);
    forall j | 0 <= j < |sections|
      ensures item in Cited(items, sections[j]) <==> j == k
    {
      CitedMembers(items, sections[j], item);
      if Within(item, sections[j]) {
        OneHome(item, sections, j, k);
      }
    }
  }

  lemma {:induction false} SameSection(sections: seq<Section>, ids: seq<string>, i: nat, j: nat, x: string)
    requires Partition(sections, ids) && i < |sections| && j < |sections| && x in sections[i].segments && x in sections[j].segments
    ensures i == j
  {
  }

  /** Each segment of a section is covered by an item that lies within the section. */
  lemma {:induction false} SegmentCovered(items: seq<Item>, snapshot: seq<Segment>, sections: seq<Section>, k: nat, x: string)
    requires Compatible(items, snapshot, sections) && Partition(sections, SnapshotIds(snapshot))
    requires k < |sections| && x in sections[k].segments
    ensures x in SegmentIds(Cited(items, sections[k]))
  {
    assert x in SnapshotIds(snapshot);
    assert x in Elements(SnapshotIds(snapshot));
    SegmentMembers(items, x);
    var i :| 0 <= i < |items| && x in items[i].segments;
    var item := items[i];
    var home := HomeExists(item, sections);
    assert x in Elements(item.segments);
    assert x in Elements(sections[home].segments);
    SameSection(sections, SnapshotIds(snapshot), home, k, x);
    CitedMembers(items, sections[k], item);
    var cited := Cited(items, sections[k]);
    var j :| 0 <= j < |cited| && cited[j] == item;
    SegmentMembers(cited, x);
  }

  lemma {:induction false} CitedWithin(items: seq<Item>, section: Section)
    ensures SegmentIds(Cited(items, section)) <= Elements(section.segments)
  {
    if items != [] {
      CitedWithin(items[..|items| - 1], section);
      var front, last := Cited(items[..|items| - 1], section), items[|items| - 1];
      if Within(last, section) {
        assert (front + [last])[..|front|] == front;
      }
    }
  }

  /**
    * When the sections partition the snapshot and the items are compatible with it, no minimum
    * is taken over nothing and the evidence of every section is about exactly its own segments.
    */
  lemma {:induction false} EvidenceIsFaithful(items: seq<Item>, snapshot: seq<Segment>, sections: seq<Section>)
    requires Compatible(items, snapshot, sections) && Partition(sections, SnapshotIds(snapshot))
    ensures AllEvidence(sections, items).Some? && |AllEvidence(sections, items).value| == |sections|
    ensures forall k | 0 <= k < |sections| :: Faithful(AllEvidence(sections, items).value[k], sections[k], items)
  {
    forall k | 0 <= k < |sections|
      ensures EvidenceOf(sections[k], items).Some? && Faithful(EvidenceOf(sections[k], items).value, sections[k], items)
    {
      SectionFaithful(items, snapshot, sections, k);
    }
    EvidenceAt(sections, items);
  }

  lemma {:induction false} SectionFaithful(items: seq<Item>, snapshot: seq<Segment>, sections: seq<Section>, k: nat)
    requires Compatible(items, snapshot, sections) && Partition(sections, SnapshotIds(snapshot)) && k < |sections|
    ensures EvidenceOf(sections[k], items).Some? && Faithful(EvidenceOf(sections[k], items).value, sections[k], items)
  {
    var section := sections[k];
    var cited := Cited(items, section);
    SegmentCovered(items, snapshot, sections, k, section.segments[0]);
    CitedWithin(items, section);
    OccurrenceElements(cited);
    CitedExactly(items, section);
    forall x
      ensures x in FirstOccurrences(cited) <==> x in section.segments
    {
      assert x in FirstOccurrences(cited) <==> x in Elements(FirstOccurrences(cited));
      if x in section.segments {
        SegmentCovered(items, snapshot, sections, k, x);
      } else {
        assert x !in Elements(section.segments);
      }
    }
    CitedSpan(items, section);
  }

  // ----- compatibility, from its parts

  /** The item lies inside the `k`-th section and no other. */
  ghost predicate OnlyInside(item: Item, sections: seq<Section>, k: nat) {
    k < |sections| && Inside(item, sections[k]) && forall j | 0 <= j < |sections| && Inside(item, sections[j]) :: j == k
  }

  ghost predicate Housed(item: Item, sections: seq<Section>) { exists k: nat :: OnlyInside(item, sections, k) }

  ghost function HomesOf(item: Item, sections: seq<Section>): set<nat> {
    set k: nat | k < |sections| && Inside(item, sections[k])
  }

  lemma {:induction false} HomesOfLast(item: Item, sections: seq<Section>)
    requires sections != []
    ensures var n := |sections| - 1;
            HomesOf(item, sections) == HomesOf(item, sections[..n]) + (if Inside(item, sections[n]) then {n} else {})
  {
  }

  lemma {:induction false} HomesExactly(item: Item, sections: seq<Section>)
    ensures Homes(item, sections) == |HomesOf(item, sections)|
  {
    if sections == [] {
      assert HomesOf(item, sections) == {};
    } else {
      var n := |sections| - 1;
      HomesExactly(item, sections[..n]);
      InsideIsWithin(item, sections[n]);
      HomesOfLast(item, sections);
    }
  }

  lemma {:induction false} OneHomeExactly(item: Item, sections: seq<Section>)
    ensures Homes(item, sections) == 1 <==> Housed(item, sections)
  {
    var all := HomesOf(item, sections);
    HomesExactly(item, sections);
    if |all| == 1 {
      var k :| k in all;
      assert |all - {k}| == 0;
      forall j | 0 <= j < |sections| && Inside(item, sections[j])
        ensures j == k
      {
        assert j !in all - {k};
      }
      assert OnlyInside(item, sections, k);
    }
    if Housed(item, sections) {
      var k: nat :| OnlyInside(item, sections, k);
      assert all == {k};
    }
  }

  ghost predicate Mentioned(items: seq<Item>, x: string) { exists i :: 0 <= i < |items| && x in items[i].segments }

  ghost predicate Recorded(snapshot: seq<Segment>, x: string) { exists i :: 0 <= i < |snapshot| && snapshot[i].id == x }

  lemma {:induction false} SnapshotMembers(snapshot: seq<Segment>, x: string)
    ensures x in SnapshotIds(snapshot) <==> Recorded(snapshot, x)
  {
    if snapshot != [] {
      var n := |snapshot| - 1;
      SnapshotMembers(snapshot[..n], x);
      if snapshot[n].id != x && Recorded(snapshot, x) {
        var i :| 0 <= i < |snapshot| && snapshot[i].id == x;
        assert snapshot[..n][i].id == x;
      }
    }
  }

  lemma {:induction false} SameSegmentsExactly(items: seq<Item>, snapshot: seq<Segment>)
    ensures SegmentIds(items) == Elements(SnapshotIds(snapshot)) <==> forall x :: Mentioned(items, x) <==> Recorded(snapshot, x)
  {
    var a, b := SegmentIds(items), Elements(SnapshotIds(snapshot));
    forall x
      ensures x in a <==> Mentioned(items, x)
      ensures x in b <==> Recorded(snapshot, x)
    {
      SegmentMembers(items, x);
      SnapshotMembers(snapshot, x);
    }
    if a != b {
      assert exists x :: x in a <==> x !in b;
    }
  }

  lemma {:induction false} HousedExactly(items: seq<Item>, sections: seq<Section>)
    ensures AllHoused(items, sections) <==> forall i | 0 <= i < |items| :: Housed(items[i], sections)
  {
    forall i | 0 <= i < |items|
      ensures Homes(items[i], sections) == 1 <==> Housed(items[i], sections)
    {
      OneHomeExactly(items[i], sections);
    }
  }

  /** A package fits a script when both are about the same segments and every item lies inside exactly one section. */
  lemma {:induction false} CompatibleExactly(items: seq<Item>, snapshot: seq<Segment>, sections: seq<Section>)
    ensures Compatible(items, snapshot, sections) <==>
            && snapshot != [] && (forall x :: Mentioned(items, x) <==> Recorded(snapshot, x))
            && sections != [] && (forall i | 0 <= i < |sections| :: sections[i].segments != [])
            && forall i | 0 <= i < |items| :: Housed(items[i], sections)
  {
    SameSegmentsExactly(items, snapshot);
    HousedExactly(items, sections);
  }

  // ----- items built from the snapshot itself

  function BuiltItem(session: string, s: Segment): Item {
    Item(session + ":source:" + s.id, [s.id], s.start, s.end, s.text)
  }

  /** The source items of a package built for a script. */
  function Built(session: string, snapshot: seq<Segment>): seq<Item> {
    if snapshot == [] then [] else Built(session, snapshot[..|snapshot| - 1]) + [BuiltItem(session, snapshot[|snapshot| - 1])]
  }

  lemma {:induction false} BuiltIds(session: string, snapshot: seq<Segment>)
    ensures SegmentIds(Built(session, snapshot)) == Elements(SnapshotIds(snapshot))
    ensures |Built(session, snapshot)| == |snapshot| == |SnapshotIds(snapshot)|
    ensures forall i | 0 <= i < |snapshot| ::
              Built(session, snapshot)[i] == BuiltItem(session, snapshot[i]) && SnapshotIds(snapshot)[i] == snapshot[i].id
  {
    if snapshot != [] {
      var n := |snapshot| - 1;
      BuiltIds(session, snapshot[..n]);
      var front, last := Built(session, snapshot[..n]), BuiltItem(session, snapshot[n]);
      assert (front + [last])[..|front|] == front;
      assert Elements([snapshot[n].id]) == {snapshot[n].id};
      assert Elements(SnapshotIds(snapshot)) == Elements(SnapshotIds(snapshot[..n])) + {snapshot[n].id};
    }
  }

  /** A single segment lies in as many sections as contain it. */
  lemma {:induction false} SingleHome(session: string, s: Segment, sections: seq<Section>, k: nat)
    requires k < |sections| && s.id in sections[k].segments
    requires forall j | 0 <= j < |sections| && j != k :: s.id !in sections[j].segments
    ensures Homes(BuiltItem(session, s), sections) == 1
  {
    var n := |sections| - 1;
    var item := BuiltItem(session, s);
    assert s.id in Elements(item.segments);
    if k < n {
      assert forall j | 0 <= j < n :: sections[..n][j] == sections[j];
      SingleHome(session, s, sections[..n], k);
    } else {
      Homeless(session, s, sections[..n]);
    }
  }

  lemma {:induction false} Homeless(session: string, s: Segment, sections: seq<Section>)
    requires forall j | 0 <= j < |sections| :: s.id !in sections[j].segments
    ensures Homes(BuiltItem(session, s), sections) == 0
  {
    if sections != [] {
      assert s.id in Elements(BuiltItem(session, s).segments);
      Homeless(session, s, sections[..|sections| - 1]);
    }
  }

  /** A package built for a script is compatible with it, so everything above holds of it too. */
  lemma {:induction false} BuiltIsCompatible(session: string, snapshot: seq<Segment>, sections: seq<Section>)
    requires snapshot != [] && Partition(sections, SnapshotIds(snapshot))
    ensures Compatible(Built(session, snapshot), snapshot, sections)
  {
    BuiltIds(session, snapshot);
    forall i | 0 <= i < |snapshot|
      ensures sections != [] && Homes(Built(session, snapshot)[i], sections) == 1
    {
      var x := SnapshotIds(snapshot)[i];
      assert x in SnapshotIds(snapshot);
      var k :| 0 <= k < |sections| && x in sections[k].segments;
      SingleHome(session, snapshot[i], sections, k);
    }
    assert 0 < |snapshot|;
  }

  /** Were one section empty, its evidence would be a minimum over nothing: non-empty parts are needed, not just convenient. */
  lemma {:induction false} EmptySectionFails(session: string, snapshot: seq<Segment>, sections: seq<Section>, k: nat)
    requires k < |sections| && sections[k].segments == []
    ensures AllEvidence(sections, Built(session, snapshot)).None?
  {
    var items := Built(session, snapshot);
    BuiltIds(session, snapshot);
    NothingCited(items, sections[k]);
    EvidenceAt(sections, items);
  }

  lemma {:induction false} NothingCited(items: seq<Item>, section: Section)
    requires section.segments == [] && forall i | 0 <= i < |items| :: |items[i].segments| == 1
    ensures Cited(items, section) == []
  {
    if items != [] {
      NothingCited(items[..|items| - 1], section);
      var last := items[|items| - 1];
      assert last.segments[0] in Elements(last.segments);
    }
  }
}
