/** Polling the event log of one session with a cursor that also jumps over other sessions' events. */
module EventCursor {

  datatype Event = Event(id: nat, session: string, body: string)

  /** Events in commit order; the identifiers grow. */
  type Log = seq<Event>

  ghost predicate Growing(log: Log) {
    (forall i | 0 <= i < |log| :: log[i].id > 0) && (forall i, j | 0 <= i < j < |log| :: log[i].id < log[j].id)
  }

  /** `current_event_cursor`: the largest identifier of any session. */
  function Top(log: Log): nat { if log == [] then 0 else log[|log| - 1].id }

  /** The events of session `s` with `lo < id <= hi`, in order. */
  function Own(log: Log, s: string, lo: nat, hi: nat): (r: seq<Event>)
    ensures |r| <= |log|
  {
    if log == [] then []
    else
      var e, rest := log[|log| - 1], Own(log[..|log| - 1], s, lo, hi);
      if e.session == s && lo < e.id <= hi then rest + [e] else rest
  }

  function After(log: Log, s: string, cursor: nat): seq<Event> { Own(log, s, cursor, Top(log)) }

  datatype Page = Page(events: seq<Event>, next: nat, more: bool)

  const MaxPage := 100

  function Bounded(limit: nat): nat { if limit < MaxPage then limit else MaxPage }

  function FirstOf(es: seq<Event>, n: nat): seq<Event> { if |es| <= n then es else es[..n] }

  function PageCursor(page: seq<Event>, after: nat): nat { if page == [] then after else page[|page| - 1].id }

  /**
    * `list_assistant_events`. Its three queries may see three states of the log: the page is
    * read from `listed`, the has-more flag from `checked` and the largest identifier from `topped`.
    */
  function Poll(listed: Log, checked: Log, topped: Log, s: string, after: nat, limit: nat): Page
    requires limit >= 1
  {
    var page := FirstOf(After(listed, s, after), Bounded(limit));
    var cursor := PageCursor(page, after);
    var more := After(checked, s, cursor) != [];
    Page(page, if more || Top(topped) <= cursor then cursor else Top(topped), more)
  }

  // ----- the filter

  lemma {:induction false} OwnNone(log: Log, s: string, lo: nat, hi: nat)
    requires hi <= lo || forall i | 0 <= i < |log| :: log[i].id <= lo
    ensures Own(log, s, lo, hi) == []
  {
    if log != [] {
      OwnNone(log[..|log| - 1], s, lo, hi);
    }
  }

  lemma {:induction false} OwnSplit(log: Log, s: string, a: nat, b: nat, c: nat)
    requires Growing(log) && a <= b <= c
    ensures Own(log, s, a, c) == Own(log, s, a, b) + Own(log, s, b, c)
  {
    if log != [] {
      var front := log[..|log| - 1];
      OwnSplit(front, s, a, b, c);
      if log[|log| - 1].id <= b {
        OwnNone(front, s, b, c);
      }
    }
  }

  lemma {:induction false} OwnExtend(log: Log, more: Log, s: string, lo: nat, hi: nat)
    requires Growing(log + more) && (hi <= lo || hi <= Top(log))
    ensures Own(log + more, s, lo, hi) == Own(log, s, lo, hi)
  {
    if hi <= lo {
      OwnNone(log, s, lo, hi);
      OwnNone(log + more, s, lo, hi);
    } else if more == [] {
      assert log + more == log;
    } else {
      var n := |more| - 1;
      assert (log + more)[..|log| + n] == log + more[..n];
      OwnExtend(log, more[..n], s, lo, hi);
      assert log != [] && (log + more)[|log| - 1].id < (log + more)[|log| + n].id;
    }
  }

  ghost predicate Belongs(e: Event, log: Log, s: string, lo: nat, hi: nat) { e in log && e.session == s && lo < e.id <= hi }

  lemma {:induction false} OwnMember(log: Log, s: string, lo: nat, hi: nat, e: Event)
    ensures e in Own(log, s, lo, hi) <==> Belongs(e, log, s, lo, hi)
  {
    if log != [] {
      var n := |log| - 1;
      OwnMember(log[..n], s, lo, hi, e);
      LastMember(log, e);
      LastMember(Own(log, s, lo, hi), e);
    }
  }

  lemma {:induction false} LastMember(es: seq<Event>, e: Event)
    ensures es != [] ==> (e in es <==> e in es[..|es| - 1] || e == es[|es| - 1])
  {
    if es != [] {
      assert es == es[..|es| - 1] + [es[|es| - 1]];
    }
  }

  lemma {:induction false} OwnGrowing(log: Log, s: string, lo: nat, hi: nat)
    requires Growing(log)
    ensures Growing(Own(log, s, lo, hi))
  {
    if log != [] {
      var n := |log| - 1;
      var rest := Own(log[..n], s, lo, hi);
      OwnGrowing(log[..n], s, lo, hi);
      forall i | 0 <= i < |rest|
        ensures rest[i].id < log[n].id
      {
        OwnMember(log[..n], s, lo, hi, rest[i]);
      }
    }
  }

  lemma {:induction false} OwnMembers(log: Log, s: string, lo: nat, hi: nat)
    requires Growing(log)
    ensures Growing(Own(log, s, lo, hi))
    ensures forall e :: e in Own(log, s, lo, hi) <==> e in log && e.session == s && lo < e.id <= hi
  {
    OwnGrowing(log, s, lo, hi);
    forall e
      ensures e in Own(log, s, lo, hi) <==> e in log && e.session == s && lo < e.id <= hi
    {
      OwnMember(log, s, lo, hi, e);
    }
  }

  /** Cutting the outstanding events at the `k`th one is reading up to its identifier. */
  lemma {:induction false} OwnCut(log: Log, s: string, lo: nat, k: nat)
    requires Growing(log) && 0 < k <= |After(log, s, lo)|
    ensures var x := After(log, s, lo)[k - 1].id;
            lo < x <= Top(log) && Own(log, s, lo, x) == After(log, s, lo)[..k]
  {
    var all := After(log, s, lo);
    var x := all[k - 1].id;
    OwnMembers(log, s, lo, Top(log));
    assert all[k - 1] in all;
    OwnSplit(log, s, lo, x, Top(log));
    var low, high := Own(log, s, lo, x), Own(log, s, x, Top(log));
    OwnMembers(log, s, lo, x);
    OwnMembers(log, s, x, Top(log));
    assert all == low + high;
    CutPoint(low, high, k);
  }

  lemma {:induction false} CutPoint(low: seq<Event>, high: seq<Event>, k: nat)
    requires 0 < k <= |low + high| && Growing(low + high)
    requires forall e | e in low :: e.id <= (low + high)[k - 1].id
    requires forall e | e in high :: e.id > (low + high)[k - 1].id
    ensures |low| == k && (low + high)[..k] == low
  {
    SideOf(low, high, k - 1);
    if k < |low + high| {
      SideOf(low, high, k);
    }
  }

  lemma {:induction false} SideOf(low: seq<Event>, high: seq<Event>, i: nat)
    requires i < |low + high|
    ensures (low + high)[i] in if i < |low| then low else high
  {
  }

  // ----- the client

  /** What a client that started at `start` has received while its cursor went to `cursor`. */
  datatype Client = Client(start: nat, cursor: nat, received: seq<Event>)

  /** Every own event between the two cursors, once each and in order; and later events cannot fall below the cursor. */
  ghost predicate Caught(c: Client, log: Log, s: string) {
    && c.start <= c.cursor && (c.cursor == c.start || c.cursor <= Top(log))
    && c.received == Own(log, s, c.start, c.cursor)
  }

  function Receive(c: Client, p: Page): Client { Client(c.start, p.next, c.received + p.events) }

  lemma {:induction false} AppendKeepsCaught(c: Client, log: Log, more: Log, s: string)
    requires Caught(c, log, s) && Growing(log + more)
    ensures Caught(c, log + more, s)
  {
    OwnExtend(log, more, s, c.start, c.cursor);
    TopGrows(log, more);
  }

  lemma {:induction false} TopGrows(log: Log, more: Log)
    requires Growing(log + more)
    ensures Growing(log) && Top(log) <= Top(log + more)
  {
    assert forall i | 0 <= i < |log| :: log[i] == (log + more)[i];
  }

  /** The page itself, before the cursor jumps. */
  lemma {:induction false} PageCaught(c: Client, log: Log, s: string, limit: nat)
    requires Growing(log) && Caught(c, log, s) && limit >= 1
    ensures var page := FirstOf(After(log, s, c.cursor), Bounded(limit));
            Caught(Client(c.start, PageCursor(page, c.cursor), c.received + page), log, s)
  {
    var page := FirstOf(After(log, s, c.cursor), Bounded(limit));
    if page != [] {
      OwnCut(log, s, c.cursor, |page|);
      OwnSplit(log, s, c.start, c.cursor, page[|page| - 1].id);
      assert After(log, s, c.cursor)[..|page|] == page;
    } else {
      assert c.received + page == c.received;
    }
  }

  /** A jump to the top loses nothing exactly when no own event is outstanding. */
  lemma {:induction false} JumpCaught(c: Client, log: Log, s: string, top: nat)
    requires Growing(log) && Caught(c, log, s) && top == (if Top(log) <= c.cursor then c.cursor else Top(log))
    ensures Caught(c.(cursor := top), log, s) <==> After(log, s, c.cursor) == []
  {
    if Top(log) <= c.cursor {
      OwnNone(log, s, c.cursor, Top(log));
    } else {
      OwnSplit(log, s, c.start, c.cursor, Top(log));
    }
  }

  /** An own event that the client is due and that arrived in `second`. */
  ghost predicate Arrived(second: Log, s: string, start: nat) {
    exists e :: e in second && e.session == s && e.id > start
  }

  /**
    * One poll while other events are committed between its queries (`first` before the
    * has-more check, `second` before the top is read). The client stays exactly caught up if
    * and only if the has-more flag was set or no event of its own session arrived in the
    * second gap: the jump to the global top would pass over it.
    */
  lemma {:induction false} PollExact(c: Client, log: Log, first: Log, second: Log, s: string, limit: nat)
    requires Growing(log + first + second) && Caught(c, log, s) && limit >= 1
    ensures var p := Poll(log, log + first, log + first + second, s, c.cursor, limit);
            Caught(Receive(c, p), log + first + second, s) <==> p.more || !Arrived(second, s, c.start)
  {
    var page := FirstOf(After(log, s, c.cursor), Bounded(limit));
    var d := Client(c.start, PageCursor(page, c.cursor), c.received + page);
    var checked, topped := log + first, log + first + second;
    var p := Poll(log, checked, topped, s, c.cursor, limit);
    TopGrows(checked, second);
    TopGrows(log, first);
    PageCaught(c, log, s, limit);
    AppendKeepsCaught(d, log, first, s);
    AppendKeepsCaught(d, checked, second, s);
    if !p.more {
      JumpCaught(d, topped, s, p.next);
      OutstandingIsSecond(checked, second, s, d.cursor, d.start);
    }
  }

  /** When nothing is outstanding before `second`, only own events of `second` are outstanding after it. */
  lemma {:induction false} OutstandingIsSecond(log: Log, second: Log, s: string, cursor: nat, start: nat)
    requires Growing(log + second) && After(log, s, cursor) == []
    requires start <= cursor && (cursor == start || cursor <= Top(log))
    ensures After(log + second, s, cursor) == [] <==> !Arrived(second, s, start)
  {
    var all, rest := log + second, After(log + second, s, cursor);
    TopGrows(log, second);
    OwnMembers(log, s, cursor, Top(log));
    OwnMembers(all, s, cursor, Top(all));
    if rest != [] {
      var e := rest[0];
      assert e in rest;
      AtMostTop(log, e);
      assert e in log ==> e in After(log, s, cursor);
      assert e in second;
    } else {
      forall e | e in second && e.session == s
        ensures e.id <= start
      {
        assert e in all;
        AtMostTop(all, e);
        assert e !in rest;
        AboveTop(log, second, e);
      }
    }
  }

  lemma {:induction false} AtMostTop(log: Log, e: Event)
    requires Growing(log)
    ensures e in log ==> e.id <= Top(log)
  {
  }

  lemma {:induction false} AboveTop(log: Log, second: Log, e: Event)
    requires Growing(log + second) && e in second
    ensures e.id > Top(log)
  {
    var i :| 0 <= i < |second| && second[i] == e;
    assert (log + second)[|log| + i] == e;
    assert log != [] ==> (log + second)[|log| - 1] == log[|log| - 1];
  }

  // ----- whole runs

  /** Events of any session are committed, or the client polls; `second` is what arrives in the gap before the top is read. */
  datatype Step = Commit(events: Log) | Ask(limit: nat, first: Log, second: Log)

  datatype System = System(log: Log, client: Client)

  function Advance(y: System, step: Step, s: string): System {
    match step
    case Commit(events) => System(y.log + events, y.client)
    case Ask(limit, first, second) =>
      var checked, topped := y.log + first, y.log + first + second;
      System(topped, Receive(y.client, Poll(y.log, checked, topped, s, y.client.cursor, Limit(limit))))
  }

  function Run(y: System, steps: seq<Step>, s: string): System
    decreases |steps|
  {
    if steps == [] then y else Run(Advance(y, steps[0], s), steps[1..], s)
  }

  lemma {:induction false} LogGrows(y: System, steps: seq<Step>, s: string) returns (more: Log)
    ensures Run(y, steps, s).log == y.log + more
    decreases |steps|
  {
    if steps == [] {
      more := [];
    } else {
      var next := Advance(y, steps[0], s);
      var tail := LogGrows(next, steps[1..], s);
      var added := if steps[0].Commit? then steps[0].events else steps[0].first + steps[0].second;
      more := added + tail;
      assert next.log == y.log + added;
    }
  }

  function Limit(limit: nat): nat { if limit < 1 then 1 else limit }

  /** The step is no poll, or it flagged more, or no own event that is due arrived before its last query. */
  ghost predicate Harmless(y: System, step: Step, s: string) {
    step.Ask? ==>
      var checked := y.log + step.first;
      || Poll(y.log, checked, checked + step.second, s, y.client.cursor, Limit(step.limit)).more
      || !Arrived(step.second, s, y.client.start)
  }

  ghost predicate AllHarmless(y: System, steps: seq<Step>, s: string)
    decreases |steps|
  {
    steps == [] || (Harmless(y, steps[0], s) && AllHarmless(Advance(y, steps[0], s), steps[1..], s))
  }

  lemma {:induction false} StepCaught(y: System, step: Step, s: string)
    requires Growing(Advance(y, step, s).log) && Caught(y.client, y.log, s)
    ensures Caught(Advance(y, step, s).client, Advance(y, step, s).log, s) <==> Harmless(y, step, s)
  {
    match step
    case Commit(events) => AppendKeepsCaught(y.client, y.log, events, s);
    case Ask(limit, first, second) => PollExact(y.client, y.log, first, second, s, Limit(limit));
  }

  // ----- a missed event stays missed

  /** An own event between the client's cursors that it has not received. */
  ghost predicate Missed(y: System, s: string, e: Event) {
    Belongs(e, y.log, s, y.client.start, y.client.cursor) && e !in y.client.received
  }

  lemma {:induction false} CaughtMissesNothing(y: System, s: string, e: Event)
    requires Caught(y.client, y.log, s)
    ensures !Missed(y, s, e)
  {
    OwnMember(y.log, s, y.client.start, y.client.cursor, e);
  }

  /** A client that is behind in this way has missed some event. */
  lemma {:induction false} HarmMissesEvent(y: System, step: Step, s: string) returns (e: Event)
    requires Growing(Advance(y, step, s).log) && Caught(y.client, y.log, s) && !Harmless(y, step, s)
    ensures Missed(Advance(y, step, s), s, e)
  {
    var c, checked := y.client, y.log + step.first;
    var p := Poll(y.log, checked, checked + step.second, s, c.cursor, Limit(step.limit));
    e :| e in step.second && e.session == s && e.id > c.start;
    AboveTop(checked, step.second, e);
    TopGrows(checked, step.second);
    TopGrows(y.log, step.first);
    AtMostTop(checked + step.second, e);
    NotBefore(y.log, c, s, e);
    PageFromLog(y.log, s, c.cursor, Limit(step.limit), e);
    assert e in checked + step.second;
    assert p.next >= Top(checked + step.second);
  }

  /** A client cannot have received an event beyond the end of the log. */
  lemma {:induction false} NotBefore(log: Log, c: Client, s: string, e: Event)
    requires Growing(log) && Caught(c, log, s) && e.id > Top(log)
    ensures e !in c.received
  {
    OwnMember(log, s, c.start, c.cursor, e);
    AtMostTop(log, e);
  }

  /** A page holds only events of the log after the cursor. */
  lemma {:induction false} PageFromLog(log: Log, s: string, after: nat, limit: nat, e: Event)
    requires Growing(log) && (e.id > Top(log) || e.id <= after)
    ensures e !in FirstOf(After(log, s, after), Bounded(limit))
  {
    OwnMember(log, s, after, Top(log), e);
    AtMostTop(log, e);
  }

  lemma {:induction false} MissedStays(y: System, step: Step, s: string, e: Event)
    requires Growing(Advance(y, step, s).log) && Missed(y, s, e)
    ensures Missed(Advance(y, step, s), s, e)
  {
    if step.Ask? {
      var c, checked := y.client, y.log + step.first;
      TopGrows(checked, step.second);
      TopGrows(y.log, step.first);
      PageFromLog(y.log, s, c.cursor, Limit(step.limit), e);
      CursorRises(y.log, checked, checked + step.second, s, c.cursor, Limit(step.limit));
    }
  }

  lemma {:induction false} CursorRises(listed: Log, checked: Log, topped: Log, s: string, after: nat, limit: nat)
    requires limit >= 1 && Growing(listed)
    ensures Poll(listed, checked, topped, s, after, limit).next >= after
  {
    var page := FirstOf(After(listed, s, after), Bounded(limit));
    if page != [] {
      OwnMember(listed, s, after, Top(listed), page[|page| - 1]);
    }
  }

  /** A missed event is never delivered by any later poll. */
  lemma {:induction false} MissedForever(y: System, steps: seq<Step>, s: string, e: Event)
    requires Growing(Run(y, steps, s).log) && Missed(y, s, e)
    ensures Missed(Run(y, steps, s), s, e)
    decreases |steps|
  {
    if steps != [] {
      StepGrowing(y, steps, s);
      MissedStays(y, steps[0], s, e);
      MissedForever(Advance(y, steps[0], s), steps[1..], s, e);
    }
  }

  lemma {:induction false} StepGrowing(y: System, steps: seq<Step>, s: string)
    requires steps != [] && Growing(Run(y, steps, s).log)
    ensures Growing(Advance(y, steps[0], s).log)
  {
    var next := Advance(y, steps[0], s);
    var more := LogGrows(next, steps[1..], s);
    TopGrows(next.log, more);
  }

  /**
    * In every interleaving of polls with commits from any session, the client has at the end
    * received exactly its own session's events between its first and its current cursor, if and
    * only if every poll on the way flagged more or had no own event arrive before its last query.
    */
  lemma {:induction false} RunCaught(y: System, steps: seq<Step>, s: string)
    requires Growing(Run(y, steps, s).log) && Caught(y.client, y.log, s)
    ensures Caught(Run(y, steps, s).client, Run(y, steps, s).log, s) <==> AllHarmless(y, steps, s)
    decreases |steps|
  {
    if steps != [] {
      var next := Advance(y, steps[0], s);
      StepGrowing(y, steps, s);
      StepCaught(y, steps[0], s);
      if Harmless(y, steps[0], s) {
        RunCaught(next, steps[1..], s);
      } else {
        var e := HarmMissesEvent(y, steps[0], s);
        MissedForever(next, steps[1..], s, e);
        if Caught(Run(y, steps, s).client, Run(y, steps, s).log, s) {
          CaughtMissesNothing(Run(y, steps, s), s, e);
        }
      }
    }
  }

  /** Exactly once: the own events since the start are those received, then those after the cursor. */
  lemma {:induction false} NothingLostOrRepeated(c: Client, log: Log, s: string)
    requires Growing(log) && Caught(c, log, s)
    ensures c.cursor <= Top(log) ==> After(log, s, c.start) == c.received + After(log, s, c.cursor)
    ensures forall i, j | 0 <= i < j < |c.received| :: c.received[i].id < c.received[j].id
  {
    OwnMembers(log, s, c.start, c.cursor);
    if c.cursor <= Top(log) {
      OwnSplit(log, s, c.start, c.cursor, Top(log));
    }
  }

  /** A poll that sees one state either fills its page or leaves nothing outstanding, and then the cursor is at the top. */
  lemma {:induction false} PollProgress(c: Client, log: Log, s: string, limit: nat)
    requires Growing(log) && Caught(c, log, s) && limit >= 1
    ensures var p := Poll(log, log, log, s, c.cursor, limit);
            && (p.more ==> |p.events| == (if limit < 100 then limit else 100) && p.next > c.cursor)
            && (!p.more ==> p.next >= Top(log) && c.received + p.events == Own(log, s, c.start, p.next))
  {
    var p := Poll(log, log, log, s, c.cursor, limit);
    var all := After(log, s, c.cursor);
    assert log + [] + [] == log && log + [] == log;
    PollExact(c, log, [], [], s, limit);
    if p.events != [] {
      OwnCut(log, s, c.cursor, |p.events|);
      OwnSplit(log, s, c.cursor, p.events[|p.events| - 1].id, Top(log));
    }
  }

  /** Concretely: an own event committed between the last two queries of a poll is never delivered, whatever follows. */
  lemma {:induction false} GapLosesEvent(steps: seq<Step>)
    requires var e, f := Event(1, "s", "a"), Event(2, "s", "b");
             Growing(Run(System([e], Client(0, 0, [])), [Ask(100, [], [f])] + steps, "s").log)
    ensures var e, f := Event(1, "s", "a"), Event(2, "s", "b");
            Missed(Run(System([e], Client(0, 0, [])), [Ask(100, [], [f])] + steps, "s"), "s", f)
  {
    var e, f := Event(1, "s", "a"), Event(2, "s", "b");
    var y, all := System([e], Client(0, 0, [])), [Ask(100, [], [f])] + steps;
    assert all[0] == Ask(100, [], [f]) && all[1..] == steps;
    GapPoll(e, f);
    MissedForever(Advance(y, all[0], "s"), steps, "s", f);
  }

  lemma {:induction false} GapPoll(e: Event, f: Event)
    requires e == Event(1, "s", "a") && f == Event(2, "s", "b")
    ensures Advance(System([e], Client(0, 0, [])), Ask(100, [], [f]), "s") == System([e, f], Client(0, 2, [e]))
    ensures Missed(System([e, f], Client(0, 2, [e])), "s", f)
  {
    assert [e] + [] == [e] && [e] + [f] == [e, f] && [e][..0] == [];
    assert Own([e], "s", 0, 1) == [e];
    assert Own([e], "s", 1, 1) == [];
    assert [e, f][1] == f;
  }
}
