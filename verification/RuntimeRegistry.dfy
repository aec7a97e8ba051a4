/** The bounded registry of runtime snapshots: least recently touched sessions are evicted first. */
module RuntimeRegistry {
  import opened Outcome

  datatype Entry<+V> = Entry(session: string, value: V)

  /** Entries of the ordered dictionary, least recently touched first. */
  type Log<+V> = seq<Entry<V>>

  function Keys<V>(es: Log<V>): set<string> { set i | 0 <= i < |es| :: es[i].session }

  ghost predicate DistinctKeys<V>(es: Log<V>) {
    forall i, j | 0 <= i < j < |es| :: es[i].session != es[j].session
  }

  function Find<V>(es: Log<V>, s: string): Option<V> {
    if es == [] then None
    else if es[0].session == s then Some(es[0].value)
    else Find(es[1..], s)
  }

  function Without<V>(es: Log<V>, s: string): Log<V> {
    if es == [] then []
    else if es[0].session == s then Without(es[1..], s)
    else [es[0]] + Without(es[1..], s)
  }

  /** Session `s` as the most recently touched one, with value `v`. */
  function Touched<V>(es: Log<V>, s: string, v: V): Log<V> { Without(es, s) + [Entry(s, v)] }

  /** The newest `max` entries. */
  function Capped<V>(es: Log<V>, max: nat): Log<V> { if |es| > max then es[|es| - max..] else es }

  datatype Op<+V> = Update(session: string, value: V) | Get(session: string)

  function Step<V>(es: Log<V>, op: Op<V>, max: nat): Log<V> {
    match op
    case Update(s, v) => Capped(Touched(es, s, v), max)
    case Get(s) => if Find(es, s).Some? then Touched(es, s, Find(es, s).value) else es
  }

  function Run<V>(es: Log<V>, ops: seq<Op<V>>, max: nat): Log<V>
    decreases |ops|
  {
    if ops == [] then es else Run(Step(es, ops[0], max), ops[1..], max)
  }

  class Registry<V> {
    const max: nat
    var entries: Log<V>

    ghost predicate Valid()
      reads this
    {
      max > 0 && |entries| <= max && DistinctKeys(entries)
    }

    /** The source raises on a bound below one. */
    constructor (maxSessions: nat)
      requires maxSessions > 0
      ensures Valid() && max == maxSessions && entries == []
    {
      max := maxSessions;
      entries := [];
    }

    /** `update`: fails on an empty session id, and otherwise stores the snapshot and evicts down to the bound. */
    method Update(session: string, value: V) returns (r: Result<V, string>)
      requires Valid()
      modifies this
      ensures Valid()
      ensures session == "" ==> r.Failure? && entries == old(entries)
      ensures session != "" ==> r == Success(value) && entries == Step(old(entries), Op.Update(session, value), max)
    {
      if session == "" {
        return Failure("session_id is required");
      }
      WithoutFacts(entries, session);
      entries := Without(entries, session) + [Entry(session, value)];
      ghost var full := entries;
      while |entries| > max
        invariant |entries| <= |full| && entries == full[|full| - |entries|..]
        invariant |full| > max ==> |entries| >= max
        invariant |full| <= max ==> entries == full
      {
        entries := entries[1..];
      }
      return Success(value);
    }

    /** `get`: a hit makes the session the most recently touched one. */
    method Get(session: string) returns (r: Option<V>)
      requires Valid()
      modifies this
      ensures Valid()
      ensures r == Find(old(entries), session)
      ensures entries == Step(old(entries), Op.Get(session), max)
    {
      r := Find(entries, session);
      if r.Some? {
        FindKeys(entries, session);
        WithoutFacts(entries, session);
        entries := Without(entries, session) + [Entry(session, r.value)];
      }
    }
  }

  // ----- every run

  lemma {:induction false} KeysConcat<V>(a: Log<V>, b: Log<V>)
    ensures Keys(a + b) == Keys(a) + Keys(b)
  {
    forall s | s in Keys(a) + Keys(b)
      ensures s in Keys(a + b)
    {
      if s in Keys(a) {
        var i :| 0 <= i < |a| && a[i].session == s;
        assert (a + b)[i].session == s;
      } else {
        var i :| 0 <= i < |b| && b[i].session == s;
        assert (a + b)[|a| + i].session == s;
      }
    }
  }

  lemma {:induction false} KeysSplit<V>(es: Log<V>)
    requires es != []
    ensures Keys(es) == {es[0].session} + Keys(es[1..])
    ensures DistinctKeys(es) <==> es[0].session !in Keys(es[1..]) && DistinctKeys(es[1..])
  {
    assert es == [es[0]] + es[1..];
    KeysConcat([es[0]], es[1..]);
    assert forall i | 0 < i < |es| :: es[i] == es[1..][i - 1];
  }

  lemma {:induction false} FindKeys<V>(es: Log<V>, s: string)
    ensures Find(es, s).Some? <==> s in Keys(es)
  {
    if es != [] {
      KeysSplit(es);
      FindKeys(es[1..], s);
    }
  }

  lemma {:induction false} WithoutFacts<V>(es: Log<V>, s: string)
    ensures Keys(Without(es, s)) == Keys(es) - {s}
    ensures DistinctKeys(es) ==> DistinctKeys(Without(es, s)) && |Without(es, s)| == |es| - (if s in Keys(es) then 1 else 0)
  {
    if es != [] {
      WithoutFacts(es[1..], s);
      KeysSplit(es);
      if es[0].session != s {
        KeysSplit(Without(es, s));
        assert Without(es, s)[1..] == Without(es[1..], s);
      }
    }
  }

  lemma {:induction false} TouchedFacts<V>(es: Log<V>, s: string, v: V)
    ensures Keys(Touched(es, s, v)) == Keys(es) + {s}
    ensures DistinctKeys(es) ==>
              && DistinctKeys(Touched(es, s, v))
              && |Touched(es, s, v)| == |es| + (if s in Keys(es) then 0 else 1)
  {
    var kept, e := Without(es, s), Entry(s, v);
    WithoutFacts(es, s);
    KeysConcat(kept, [e]);
    assert Keys([e]) == {s} by {
      assert [e][0].session == s;
    }
    assert Keys(kept) + {s} == Keys(es) + {s};
    assert forall i | 0 <= i < |kept| :: kept[i].session in Keys(kept);
  }

  lemma {:induction false} StepBounded<V>(es: Log<V>, op: Op<V>, max: nat)
    requires max > 0 && |es| <= max && DistinctKeys(es)
    ensures |Step(es, op, max)| <= max && DistinctKeys(Step(es, op, max))
  {
    match op
    case Update(s, v) => TouchedFacts(es, s, v);
    case Get(s) =>
      if Find(es, s).Some? {
        FindKeys(es, s);
        TouchedFacts(es, s, Find(es, s).value);
      }
  }

  /** The registry never exceeds its bound and never holds a session twice. */
  lemma {:induction false} RunBounded<V>(es: Log<V>, ops: seq<Op<V>>, max: nat)
    requires max > 0 && |es| <= max && DistinctKeys(es)
    ensures |Run(es, ops, max)| <= max && DistinctKeys(Run(es, ops, max))
    decreases |ops|
  {
    if ops != [] {
      StepBounded(es, ops[0], max);
      RunBounded(Step(es, ops[0], max), ops[1..], max);
    }
  }

  lemma {:induction false} FindAppend<V>(es: Log<V>, e: Entry<V>, s: string)
    requires e.session !in Keys(es)
    ensures Find(es + [e], s) == if s == e.session then Some(e.value) else Find(es, s)
  {
    if es == [] {
      assert es + [e] == [e];
    } else {
      assert (es + [e])[0] == es[0] && (es + [e])[1..] == es[1..] + [e];
      FindAppend(es[1..], e, s);
    }
  }

  lemma {:induction false} FindWithout<V>(es: Log<V>, s: string, t: string)
    requires s != t
    ensures Find(Without(es, s), t) == Find(es, t)
  {
    if es != [] {
      FindWithout(es[1..], s, t);
      if es[0].session != s {
        assert ([es[0]] + Without(es[1..], s))[1..] == Without(es[1..], s);
      }
    }
  }

  lemma {:induction false} FindTouched<V>(es: Log<V>, s: string, v: V, t: string)
    ensures Find(Touched(es, s, v), t) == if t == s then Some(v) else Find(es, t)
  {
    WithoutFacts(es, s);
    FindAppend(Without(es, s), Entry(s, v), t);
    if t != s {
      FindWithout(es, s, t);
    }
  }

  lemma {:induction false} FindDrop<V>(es: Log<V>, n: nat, t: string)
    requires n <= |es| && DistinctKeys(es)
    ensures Find(es[n..], t).None? || Find(es[n..], t) == Find(es, t)
  {
    if n == 0 {
      assert es[0..] == es;
    } else {
      assert es[n..] == es[1..][n - 1..];
      FindDrop(es[1..], n - 1, t);
      if es[0].session == t {
        FindKeys(es[n..], t);
        assert t !in Keys(es[n..]);
      }
    }
  }

  lemma {:induction false} FindCapped<V>(es: Log<V>, max: nat, t: string)
    requires DistinctKeys(es)
    ensures Find(Capped(es, max), t).None? || Find(Capped(es, max), t) == Find(es, t)
  {
    if |es| > max {
      FindDrop(es, |es| - max, t);
    }
  }

  /** The value of the last update of `s` in a run, if any. */
  function LastUpdate<V>(ops: seq<Op<V>>, s: string, initial: Option<V>): Option<V>
    decreases |ops|
  {
    if ops == [] then initial
    else LastUpdate(ops[1..], s, if ops[0].Update? && ops[0].session == s then Some(ops[0].value) else initial)
  }

  lemma {:induction false} StepLatest<V>(es: Log<V>, op: Op<V>, max: nat, s: string, latest: Option<V>)
    requires max > 0 && |es| <= max && DistinctKeys(es)
    requires Find(es, s).None? || Find(es, s) == latest
    ensures var now := if op.Update? && op.session == s then Some(op.value) else latest;
            Find(Step(es, op, max), s).None? || Find(Step(es, op, max), s) == now
  {
    match op
    case Get(t) =>
      if Find(es, t).Some? {
        FindTouched(es, t, Find(es, t).value, s);
      }
    case Update(t, v) =>
      FindTouched(es, t, v, s);
      TouchedFacts(es, t, v);
      FindCapped(Touched(es, t, v), max, s);
  }

  /** A kept session always shows the value of its last update. */
  lemma {:induction false} RunLatest<V>(es: Log<V>, ops: seq<Op<V>>, max: nat, s: string, latest: Option<V>)
    requires max > 0 && |es| <= max && DistinctKeys(es)
    requires Find(es, s).None? || Find(es, s) == latest
    ensures Find(Run(es, ops, max), s).None? || Find(Run(es, ops, max), s) == LastUpdate(ops, s, latest)
    decreases |ops|
  {
    if ops != [] {
      StepBounded(es, ops[0], max);
      StepLatest(es, ops[0], max, s, latest);
      RunLatest(Step(es, ops[0], max), ops[1..], max, s,
                if ops[0].Update? && ops[0].session == s then Some(ops[0].value) else latest);
    }
  }

  // ----- recency

  lemma {:induction false} DistinctCount<V>(es: Log<V>)
    requires DistinctKeys(es)
    ensures |Keys(es)| == |es|
  {
    if es != [] {
      KeysSplit(es);
      DistinctCount(es[1..]);
    }
  }

  lemma {:induction false} WithoutConcat<V>(a: Log<V>, b: Log<V>, s: string)
    ensures Without(a + b, s) == Without(a, s) + Without(b, s)
  {
    if a == [] {
      assert a + b == b;
    } else {
      assert (a + b)[0] == a[0] && (a + b)[1..] == a[1..] + b;
      WithoutConcat(a[1..], b, s);
    }
  }

  lemma {:induction false} SubsetSize(a: set<string>, b: set<string>)
    requires a <= b
    ensures |a| <= |b|
  {
    assert b == a + (b - a);
  }

  /** `es` is `older`, then session `s`, then entries for exactly the sessions in `others`. */
  ghost predicate LiesAt<V>(es: Log<V>, older: Log<V>, e: Entry<V>, newer: Log<V>, s: string, others: set<string>) {
    es == older + [e] + newer && e.session == s && Keys(newer) == others
  }

  /** While fewer than `max` others have been touched since, `s` is held with exactly those after it; then it is gone. */
  ghost predicate Placed<V(!new)>(es: Log<V>, s: string, others: set<string>, max: nat) {
    if |others| < max then exists older, e, newer :: LiesAt(es, older, e, newer, s, others)
    else s !in Keys(es)
  }

  /** An update touches its session, and so does a read that finds it. */
  predicate Touches<V>(es: Log<V>, op: Op<V>) { op.Update? || op.session in Keys(es) }

  /** Which other sessions have been touched since `s` was. */
  function Since<V>(es: Log<V>, op: Op<V>, s: string, others: set<string>): set<string> {
    if !Touches(es, op) then others
    else if op.session == s then {}
    else others + {op.session}
  }

  function SinceAll<V>(es: Log<V>, ops: seq<Op<V>>, max: nat, s: string, others: set<string>): set<string>
    decreases |ops|
  {
    if ops == [] then others else SinceAll(Step(es, ops[0], max), ops[1..], max, s, Since(es, ops[0], s, others))
  }

  lemma {:induction false} LiesAtHolds<V>(es: Log<V>, older: Log<V>, e: Entry<V>, newer: Log<V>, s: string, others: set<string>)
    requires LiesAt(es, older, e, newer, s, others)
    ensures s in Keys(es)
  {
    assert es[|older|].session == s;
  }

  /** A read that misses changes nothing; everything else touches its session, and then the bound applies. */
  lemma {:induction false} StepTouches<V>(es: Log<V>, op: Op<V>, max: nat) returns (v: Option<V>)
    requires |es| <= max && DistinctKeys(es)
    ensures v.Some? <==> Touches(es, op)
    ensures v.None? ==> Step(es, op, max) == es
    ensures v.Some? ==> Step(es, op, max) == Capped(Touched(es, op.session, v.value), max)
  {
    v := if op.Update? then Some(op.value) else Find(es, op.session);
    if op.Get? {
      FindKeys(es, op.session);
      if v.Some? {
        TouchedFacts(es, op.session, v.value);
      }
    }
  }

  /** Capping leaves `s` in place, or cuts off exactly up to it. */
  lemma {:induction false} CappedPlaced<V(!new)>(older: Log<V>, e: Entry<V>, newer: Log<V>, max: nat)
    requires DistinctKeys(older + [e] + newer) && |newer| <= max
    ensures Placed(Capped(older + [e] + newer, max), e.session, Keys(newer), max)
  {
    var full := older + [e] + newer;
    assert DistinctKeys(newer) by {
      assert forall i | 0 <= i < |newer| :: newer[i] == full[|older| + 1 + i];
    }
    DistinctCount(newer);
    if |newer| < max {
      var n := if |full| > max then |full| - max else 0;
      assert full[n..] == older[n..] + [e] + newer;
      assert LiesAt(Capped(full, max), older[n..], e, newer, e.session, Keys(newer));
    } else {
      assert Capped(full, max) == newer;
      NotAmong(newer, full, |older| + 1, e.session);
    }
  }

  /** A session of a distinct log does not occur after its own entry. */
  lemma {:induction false} NotAmong<V>(newer: Log<V>, full: Log<V>, n: nat, s: string)
    requires DistinctKeys(full) && 0 < n <= |full| && full[n..] == newer && full[n - 1].session == s
    ensures s !in Keys(newer)
  {
    assert forall i | 0 <= i < |newer| :: newer[i] == full[n + i];
  }

  /** Touching `s` itself puts it last. */
  lemma {:induction false} OwnPlaced<V(!new)>(es: Log<V>, s: string, v: V, max: nat)
    requires max > 0 && DistinctKeys(es)
    ensures Placed(Capped(Touched(es, s, v), max), s, {}, max)
  {
    TouchedFacts(es, s, v);
    assert Touched(es, s, v) == Without(es, s) + [Entry(s, v)] + [];
    CappedPlaced(Without(es, s), Entry(s, v), [], max);
    var none: Log<V> := [];
    assert Keys(none) == {};
  }

  /** Touching another session while `s` is held. */
  lemma {:induction false} OtherPlaced<V(!new)>(es: Log<V>, older: Log<V>, e: Entry<V>, newer: Log<V>, t: string, v: V, max: nat)
    requires DistinctKeys(es) && LiesAt(es, older, e, newer, e.session, Keys(newer)) && t != e.session && |Keys(newer)| < max
    ensures Placed(Capped(Touched(es, t, v), max), e.session, Keys(newer) + {t}, max)
  {
    WithoutConcat(older + [e], newer, t);
    WithoutConcat(older, [e], t);
    assert Without([e], t) == [e];
    var older', newer' := Without(older, t), Without(newer, t) + [Entry(t, v)];
    assert Touched(es, t, v) == older' + [e] + newer';
    TouchedFacts(es, t, v);
    NewerKeys(es, older, e, newer, t, v, max);
    CappedPlaced(older', e, newer', max);
  }

  lemma {:induction false} NewerKeys<V>(es: Log<V>, older: Log<V>, e: Entry<V>, newer: Log<V>, t: string, v: V, max: nat)
    requires DistinctKeys(es) && es == older + [e] + newer && |Keys(newer)| < max
    ensures Keys(Without(newer, t) + [Entry(t, v)]) == Keys(newer) + {t} && |Without(newer, t) + [Entry(t, v)]| <= max
  {
    assert DistinctKeys(newer) by {
      assert forall i | 0 <= i < |newer| :: newer[i] == es[|older| + 1 + i];
    }
    DistinctCount(newer);
    TouchedFacts(newer, t, v);
  }

  /** Once `s` is gone, touching another session does not bring it back. */
  lemma {:induction false} StaysGone<V>(es: Log<V>, s: string, t: string, v: V, max: nat)
    requires s !in Keys(es) && t != s
    ensures s !in Keys(Capped(Touched(es, t, v), max))
  {
    TouchedKeys(es, t, v);
    var full := Touched(es, t, v);
    if |full| > max {
      assert full == full[..|full| - max] + full[|full| - max..];
      KeysConcat(full[..|full| - max], full[|full| - max..]);
    }
  }

  lemma {:induction false} TouchedKeys<V>(es: Log<V>, s: string, v: V)
    ensures Keys(Touched(es, s, v)) == Keys(es) + {s}
  {
    TouchedFacts(es, s, v);
  }

  lemma {:induction false} StepPlaced<V(!new)>(es: Log<V>, op: Op<V>, s: string, others: set<string>, max: nat)
    requires max > 0 && |es| <= max && DistinctKeys(es) && Placed(es, s, others, max)
    ensures Placed(Step(es, op, max), s, Since(es, op, s, others), max)
  {
    var v := StepTouches(es, op, max);
    if v.Some? {
      if op.session == s {
        OwnPlaced(es, s, v.value, max);
      } else if |others| < max {
        var older, e, newer :| LiesAt(es, older, e, newer, s, others);
        OtherPlaced(es, older, e, newer, op.session, v.value, max);
      } else {
        StaysGone(es, s, op.session, v.value, max);
        SubsetSize(others, others + {op.session});
      }
    }
  }

  /** A session is held exactly as long as fewer than `max` others have been touched since it was. */
  lemma {:induction false} RunPlaced<V(!new)>(es: Log<V>, ops: seq<Op<V>>, max: nat, s: string, others: set<string>)
    requires max > 0 && |es| <= max && DistinctKeys(es) && Placed(es, s, others, max)
    ensures s in Keys(Run(es, ops, max)) <==> |SinceAll(es, ops, max, s, others)| < max
    decreases |ops|
  {
    if ops == [] {
      if |others| < max {
        var older, e, newer :| LiesAt(es, older, e, newer, s, others);
        LiesAtHolds(es, older, e, newer, s, others);
      }
    } else {
      StepPlaced(es, ops[0], s, others, max);
      StepBounded(es, ops[0], max);
      RunPlaced(Step(es, ops[0], max), ops[1..], max, s, Since(es, ops[0], s, others));
    }
  }

  /**
    * After any operations that follow an update of `s`, the registry holds `s` if and only if
    * fewer than `max` other sessions have been touched since `s` last was. Reads of unknown
    * sessions do not count.
    */
  lemma {:induction false} KeptExactly<V(!new)>(es: Log<V>, s: string, v: V, ops: seq<Op<V>>, max: nat)
    requires max > 0 && |es| <= max && DistinctKeys(es)
    ensures var start := Step(es, Op.Update(s, v), max);
            s in Keys(Run(start, ops, max)) <==> |SinceAll(start, ops, max, s, {})| < max
  {
    OwnPlaced(es, s, v, max);
    StepBounded(es, Op.Update(s, v), max);
    RunPlaced(Step(es, Op.Update(s, v), max), ops, max, s, {});
  }

  // ----- a larger registry holds everything a smaller one holds

  function Restrict<V>(es: Log<V>, keys: set<string>): Log<V> {
    if es == [] then []
    else if es[0].session in keys then [es[0]] + Restrict(es[1..], keys)
    else Restrict(es[1..], keys)
  }

  /** `small` is `big` with some sessions left out. */
  predicate Nested<V(==)>(small: Log<V>, big: Log<V>) { small == Restrict(big, Keys(small)) }

  lemma {:induction false} RestrictConcat<V>(a: Log<V>, b: Log<V>, keys: set<string>)
    ensures Restrict(a + b, keys) == Restrict(a, keys) + Restrict(b, keys)
  {
    if a == [] {
      assert a + b == b;
    } else {
      assert (a + b)[0] == a[0] && (a + b)[1..] == a[1..] + b;
      RestrictConcat(a[1..], b, keys);
    }
  }

  lemma {:induction false} RestrictWithout<V>(es: Log<V>, keys: set<string>, s: string)
    ensures Restrict(Without(es, s), keys) == Without(Restrict(es, keys), s)
    ensures Restrict(Without(es, s), keys + {s}) == Restrict(Without(es, s), keys)
  {
    if es != [] {
      RestrictWithout(es[1..], keys, s);
      if es[0].session != s {
        assert ([es[0]] + Without(es[1..], s))[1..] == Without(es[1..], s);
      }
      if es[0].session in keys {
        assert ([es[0]] + Restrict(es[1..], keys))[1..] == Restrict(es[1..], keys);
      }
    }
  }

  lemma {:induction false} RestrictAgrees<V>(es: Log<V>, a: set<string>, b: set<string>)
    requires Keys(es) * a == Keys(es) * b
    ensures Restrict(es, a) == Restrict(es, b)
  {
    if es != [] {
      KeysSplit(es);
      assert es[0].session in a <==> es[0].session in b by {
        assert es[0].session in Keys(es) * a <==> es[0].session in a;
        assert es[0].session in Keys(es) * b <==> es[0].session in b;
      }
      assert Keys(es[1..]) * a == Keys(es[1..]) * b by {
        assert Keys(es[1..]) * a == Keys(es[1..]) * (Keys(es) * a);
        assert Keys(es[1..]) * b == Keys(es[1..]) * (Keys(es) * b);
      }
      RestrictAgrees(es[1..], a, b);
    }
  }

  lemma {:induction false} RestrictKeys<V>(es: Log<V>, keys: set<string>)
    ensures Keys(Restrict(es, keys)) == Keys(es) * keys
  {
    if es != [] {
      var e, rest := es[0], es[1..];
      KeysSplit(es);
      RestrictKeys(rest, keys);
      if e.session in keys {
        KeysConcat([e], Restrict(rest, keys));
        assert Keys([e]) == {e.session} by {
          assert [e][0] == e;
        }
        assert ({e.session} + Keys(rest)) * keys == {e.session} + Keys(rest) * keys;
      } else {
        assert ({e.session} + Keys(rest)) * keys == Keys(rest) * keys;
      }
    }
  }

  lemma {:induction false} NestedKeys<V>(small: Log<V>, big: Log<V>)
    requires Nested(small, big)
    ensures Keys(small) <= Keys(big)
  {
    RestrictKeys(big, Keys(small));
  }

  lemma {:induction false} FindRestrict<V>(es: Log<V>, keys: set<string>, s: string)
    ensures Find(Restrict(es, keys), s) == if s in keys then Find(es, s) else None
  {
    if es != [] {
      FindRestrict(es[1..], keys, s);
      if es[0].session in keys {
        assert ([es[0]] + Restrict(es[1..], keys))[1..] == Restrict(es[1..], keys);
      }
    }
  }

  lemma {:induction false} NestedTouched<V>(small: Log<V>, big: Log<V>, s: string, v: V)
    requires Nested(small, big)
    ensures Nested(Touched(small, s, v), Touched(big, s, v))
  {
    var K, e := Keys(small), Entry(s, v);
    TouchedFacts(small, s, v);
    RestrictConcat(Without(big, s), [e], K + {s});
    RestrictWithout(big, K, s);
    assert Restrict([e], K + {s}) == [e];
  }

  /** The larger registry is touched on a session that the smaller one no longer holds. */
  lemma {:induction false} NestedMiss<V>(small: Log<V>, big: Log<V>, s: string, v: V)
    requires Nested(small, big) && s !in Keys(small)
    ensures Nested(small, Touched(big, s, v))
  {
    var K := Keys(small);
    RestrictConcat(Without(big, s), [Entry(s, v)], K);
    RestrictWithout(big, K, s);
    WithoutAbsent(small, s);
    assert Restrict([Entry(s, v)], K) == [];
  }

  lemma {:induction false} WithoutAbsent<V>(es: Log<V>, s: string)
    requires s !in Keys(es)
    ensures Without(es, s) == es
  {
    if es != [] {
      KeysSplit(es);
      WithoutAbsent(es[1..], s);
    }
  }

  /** Dropping the oldest entry of the larger registry, and of the smaller one if it is the same entry. */
  lemma {:induction false} DropBig<V>(small: Log<V>, big: Log<V>)
    requires Nested(small, big) && big != [] && DistinctKeys(big) && DistinctKeys(small)
    ensures if big[0].session in Keys(small)
            then small != [] && small[0] == big[0] && Nested(small[1..], big[1..])
            else Nested(small, big[1..])
  {
    KeysSplit(big);
    if big[0].session in Keys(small) {
      assert small == [big[0]] + Restrict(big[1..], Keys(small));
      KeysSplit(small);
      RestrictAgrees(big[1..], Keys(small), Keys(small[1..]));
    }
  }

  lemma {:induction false} DropSmall<V>(small: Log<V>, big: Log<V>)
    requires Nested(small, big) && small != [] && DistinctKeys(big) && DistinctKeys(small)
    ensures Nested(small[1..], big)
  {
    var s, K := small[0].session, Keys(small);
    KeysSplit(small);
    WithoutAbsent(small[1..], s);
    RestrictWithout(big, K - {s}, s);
    assert K - {s} + {s} == K;
    RestrictWithout(big, K, s);
    WithoutRestrict(big, K, s);
    assert Keys(small[1..]) == K - {s};
  }

  lemma {:induction false} WithoutRestrict<V>(es: Log<V>, keys: set<string>, s: string)
    ensures Without(Restrict(es, keys), s) == Restrict(es, keys - {s})
  {
    if es != [] {
      WithoutRestrict(es[1..], keys, s);
      if es[0].session in keys {
        assert ([es[0]] + Restrict(es[1..], keys))[1..] == Restrict(es[1..], keys);
      }
    }
  }

  /** The inclusion invariant: nested, and equal until the smaller registry has filled up. */
  ghost predicate Included<V>(small: Log<V>, big: Log<V>, less: nat, more: nat) {
    && DistinctKeys(small) && DistinctKeys(big) && |small| <= less && |big| <= more
    && Nested(small, big) && (|small| < less ==> small == big)
  }

  lemma {:induction false} IncludedCapped<V>(small: Log<V>, big: Log<V>, less: nat, more: nat)
    requires 0 < less <= more && DistinctKeys(small) && DistinctKeys(big) && Nested(small, big)
    requires |small| <= less + 1 && |big| <= more + 1
    requires |small| < less ==> small == big
    requires |big| > more ==> |small| > less || big[0].session !in Keys(small)
    ensures Included(Capped(small, less), Capped(big, more), less, more)
  {
    var s, b := Capped(small, less), Capped(big, more);
    if |big| > more {
      DropBig(small, big);
      assert b == big[1..];
      if |small| > less {
        assert s == small[1..];
        if big[0].session !in Keys(small) {
          DropSmall(small, big[1..]);
        }
      }
    } else if |small| > less {
      assert s == small[1..];
      DropSmall(small, big);
    }
  }

  lemma {:induction false} StepIncluded<V>(small: Log<V>, big: Log<V>, op: Op<V>, less: nat, more: nat)
    requires 0 < less <= more && Included(small, big, less, more)
    ensures Included(Step(small, op, less), Step(big, op, more), less, more)
  {
    var s := op.session;
    NestedKeys(small, big);
    FindRestrict(big, Keys(small), s);
    FindKeys(small, s);
    FindKeys(big, s);
    match op
    case Get(_) =>
      if Find(big, s).Some? {
        var v := Find(big, s).value;
        TouchedFacts(big, s, v);
        TouchedFacts(small, s, v);
        if Find(small, s).Some? {
          NestedTouched(small, big, s, v);
        } else {
          NestedMiss(small, big, s, v);
        }
      }
    case Update(_, v) =>
      var S, B := Touched(small, s, v), Touched(big, s, v);
      TouchedFacts(big, s, v);
      TouchedFacts(small, s, v);
      NestedTouched(small, big, s, v);
      IncludedCapped(S, B, less, more);
  }

  /** On the same operations, a registry with a larger bound holds every session of a smaller one, with the same value. */
  lemma {:induction false} LargerHoldsMore<V>(small: Log<V>, big: Log<V>, ops: seq<Op<V>>, less: nat, more: nat, s: string)
    requires 0 < less <= more && Included(small, big, less, more)
    ensures Find(Run(small, ops, less), s).Some? ==> Find(Run(big, ops, more), s) == Find(Run(small, ops, less), s)
    decreases |ops|
  {
    if ops == [] {
      FindRestrict(big, Keys(small), s);
    } else {
      StepIncluded(small, big, ops[0], less, more);
      LargerHoldsMore(Step(small, ops[0], less), Step(big, ops[0], more), ops[1..], less, more, s);
    }
  }

  // ----- when the smaller registry is the newest part of the larger

  ghost predicate NewestPart<V>(small: Log<V>, big: Log<V>) {
    |small| <= |big| && big[|big| - |small|..] == small
  }

  lemma {:induction false} TouchedNewest<V>(small: Log<V>, big: Log<V>, s: string, v: V)
    requires NewestPart(small, big)
    ensures NewestPart(Touched(small, s, v), Touched(big, s, v))
  {
    var older := big[..|big| - |small|];
    assert big == older + small;
    WithoutConcat(older, small, s);
  }

  lemma {:induction false} CappedNewest<V>(small: Log<V>, big: Log<V>, less: nat, more: nat)
    requires NewestPart(small, big) && less <= more
    ensures NewestPart(Capped(small, less), Capped(big, more))
  {
    var s, b := Capped(small, less), Capped(big, more);
    assert s == big[|big| - |s|..];
    assert b == big[|big| - |b|..];
    assert b[|b| - |s|..] == big[|big| - |s|..];
  }

  /** A read of a session that only the larger registry still holds. */
  ghost predicate ReadsOlder<V>(small: Log<V>, big: Log<V>, op: Op<V>) {
    op.Get? && op.session in Keys(big) && op.session !in Keys(small)
  }

  /** A touched session becomes the last entry, so the smaller registry without it is not the newest part. */
  lemma {:induction false} OlderReadBreaks<V>(small: Log<V>, big: Log<V>, s: string, v: V)
    requires small != [] && s !in Keys(small)
    ensures !NewestPart(small, Touched(big, s, v))
  {
    var b, x := Touched(big, s, v), small[|small| - 1];
    assert x.session in Keys(small) && b[|b| - 1].session == s;
    assert |small| <= |b| ==> b[|b| - |small|..][|small| - 1] == b[|b| - 1];
  }

  /**
    * Containment is all that always holds. From a state in which the smaller registry is the
    * newest part of the larger, a step keeps that if and only if it is not a read of a session
    * that only the larger one still holds.
    */
  lemma {:induction false} StaysNewestExactly<V>(small: Log<V>, big: Log<V>, op: Op<V>, less: nat, more: nat)
    requires 0 < less <= more && Included(small, big, less, more) && NewestPart(small, big)
    ensures NewestPart(Step(small, op, less), Step(big, op, more)) <==> !ReadsOlder(small, big, op)
  {
    var s := op.session;
    FindKeys(small, s);
    FindKeys(big, s);
    NestedKeys(small, big);
    FindRestrict(big, Keys(small), s);
    match op
    case Update(_, v) =>
      TouchedNewest(small, big, s, v);
      CappedNewest(Touched(small, s, v), Touched(big, s, v), less, more);
    case Get(_) =>
      if s in Keys(small) {
        TouchedNewest(small, big, s, Find(big, s).value);
      } else if s in Keys(big) {
        OlderReadBreaks(small, big, s, Find(big, s).value);
      }
  }

  /** Concretely: a read reorders the larger registry alone, so the smaller one is not its newest part. */
  lemma {:induction false} NotAlwaysNewest()
    ensures var ops := [Op.Update("a", 1), Op.Update("b", 2), Op.Get("a")];
            Run([], ops, 1) == [Entry("b", 2)] && Run([], ops, 2) == [Entry("b", 2), Entry("a", 1)]
  {
    var a, b := Entry("a", 1), Entry("b", 2);
    var u1, u2, g := Op.Update("a", 1), Op.Update("b", 2), Op.Get("a");
    var ops := [u1, u2, g];
    assert ops[1..] == [u2, g] && [u2, g][1..] == [g];
    assert Step([], u1, 1) == [a] && Step([], u1, 2) == [a];
    assert Without([a], "b") == [a];
    assert Step([a], u2, 1) == [a, b][1..] == [b];
    assert Step([a], u2, 2) == [a, b];
    assert [a, b][1..] == [b];
    assert Without([b], "a") == [b];
    assert Without([a, b], "a") == [b];
    assert Find([b], "a") == None;
    assert Step([b], g, 1) == [b];
    assert Step([a, b], g, 2) == [b, a];
  }
}
