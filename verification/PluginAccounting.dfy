/** What the parser counts, as a trace of the accepted tree and as a running context. */
module PluginAccounting {
  import opened PluginSchema

  /** One thing the parser accounts for, in document order. */
  datatype Mark = Node(id: string, kind: string, depth: nat) | Chars(n: nat) | Mention(action: string) | Time(ms: int)

  // ----- the trace of a tree, independent of any parsing

  function Trace(c: Component, depth: nat): seq<Mark> {
    [Node(c.id, c.kind, depth), Chars(|c.kind|)] + TraceEntries(c.entries, depth)
  }

  function TraceEntries(es: seq<Entry>, depth: nat): seq<Mark> {
    if es == [] then [] else TraceEntries(es[..|es| - 1], depth) + TraceValue(es[|es| - 1].value, depth)
  }

  function TraceValue(v: Value, depth: nat): seq<Mark> {
    match v
    case TextOf(s) => [Chars(|s|)]
    case ReferenceTo(action) => [Mention(action)]
    case AnchorAt(ms) => [Time(ms)]
    case KidsOf(kids) => TraceKids(kids, depth + 1)
    case ItemsOf(items) => TraceItems(items, depth)
    case RowsOf(rows) => TraceRows(rows)
    case _ => []
  }

  function TraceKids(cs: seq<Component>, depth: nat): seq<Mark> {
    if cs == [] then [] else TraceKids(cs[..|cs| - 1], depth) + Trace(cs[|cs| - 1], depth)
  }

  function TraceItems(xs: seq<Item>, depth: nat): seq<Mark> {
    if xs == [] then [] else TraceItems(xs[..|xs| - 1], depth) + TraceEntries(xs[|xs| - 1].entries, depth)
  }

  function TraceCells(cs: seq<Cell>): seq<Mark> {
    if cs == [] then [] else TraceCells(cs[..|cs| - 1]) + [Chars(|cs[|cs| - 1].text|)]
  }

  function TraceRows(rs: seq<Row>): seq<Mark> {
    if rs == [] then [] else TraceRows(rs[..|rs| - 1]) + TraceCells(rs[|rs| - 1].cells)
  }

  // ----- totals of a trace

  function Ids(ms: seq<Mark>): seq<string> {
    if ms == [] then []
    else if ms[|ms| - 1].Node? then Ids(ms[..|ms| - 1]) + [ms[|ms| - 1].id]
    else Ids(ms[..|ms| - 1])
  }

  function CharCount(ms: seq<Mark>): nat {
    if ms == [] then 0 else CharCount(ms[..|ms| - 1]) + (if ms[|ms| - 1].Chars? then ms[|ms| - 1].n else 0)
  }

  function Mentions(ms: seq<Mark>): seq<string> {
    if ms == [] then []
    else if ms[|ms| - 1].Mention? then Mentions(ms[..|ms| - 1]) + [ms[|ms| - 1].action]
    else Mentions(ms[..|ms| - 1])
  }

  function Times(ms: seq<Mark>): seq<int> {
    if ms == [] then []
    else if ms[|ms| - 1].Time? then Times(ms[..|ms| - 1]) + [ms[|ms| - 1].ms]
    else Times(ms[..|ms| - 1])
  }

  function KindsOf(ms: seq<Mark>): set<string> { set m | m in ms && m.Node? :: m.kind }

  lemma {:induction false} TotalsSnoc(ms: seq<Mark>, m: Mark)
    ensures Ids(ms + [m]) == if m.Node? then Ids(ms) + [m.id] else Ids(ms)
    ensures CharCount(ms + [m]) == CharCount(ms) + (if m.Chars? then m.n else 0)
    ensures Mentions(ms + [m]) == if m.Mention? then Mentions(ms) + [m.action] else Mentions(ms)
    ensures Times(ms + [m]) == if m.Time? then Times(ms) + [m.ms] else Times(ms)
  {
    assert (ms + [m])[..|ms|] == ms;
  }

  // ----- the running context

  datatype Context = Context(ids: set<string>, nodes: nat, chars: nat, kinds: set<string>, times: seq<int>, mentions: seq<string>)

  const Fresh := Context({}, 0, 0, {}, [], [])

  function Add(c: Context, m: Mark): Context {
    match m
    case Node(id, kind, _) => c.(ids := c.ids + {id}, nodes := c.nodes + 1, kinds := c.kinds + {kind})
    case Chars(n) => c.(chars := c.chars + n)
    case Mention(action) => c.(mentions := c.mentions + [action])
    case Time(ms) => c.(times := c.times + [ms])
  }

  /** The check that goes with a mark passes. */
  predicate Room(c: Context, m: Mark) {
    match m
    case Node(id, _, _) => id !in c.ids && c.nodes + 1 <= MaxNodes
    case Chars(n) => c.chars + n <= MaxChars
    case _ => true
  }

  function Absorb(c: Context, ms: seq<Mark>): Context {
    if ms == [] then c else Add(Absorb(c, ms[..|ms| - 1]), ms[|ms| - 1])
  }

  predicate Fits(c: Context, ms: seq<Mark>) {
    ms == [] || (Fits(c, ms[..|ms| - 1]) && Room(Absorb(c, ms[..|ms| - 1]), ms[|ms| - 1]))
  }

  lemma {:induction false} AbsorbConcat(c: Context, a: seq<Mark>, b: seq<Mark>)
    ensures Absorb(c, a + b) == Absorb(Absorb(c, a), b)
    ensures Fits(c, a + b) <==> Fits(c, a) && Fits(Absorb(c, a), b)
  {
    if b == [] {
      assert a + b == a;
    } else {
      assert (a + b)[..|a + b| - 1] == a + b[..|b| - 1];
      AbsorbConcat(c, a, b[..|b| - 1]);
    }
  }

  lemma {:induction false} AbsorbOne(c: Context, m: Mark)
    ensures Absorb(c, [m]) == Add(c, m) && (Fits(c, [m]) <==> Room(c, m))
  {
    assert [m][..0] == [];
  }

  lemma {:induction false} AbsorbTwo(c: Context, m: Mark, n: Mark)
    ensures Absorb(c, [m, n]) == Add(Add(c, m), n)
    ensures Fits(c, [m, n]) <==> Room(c, m) && Room(Add(c, m), n)
  {
    assert [m, n] == [m] + [n];
    AbsorbConcat(c, [m], [n]);
    AbsorbOne(c, m);
    AbsorbOne(Add(c, m), n);
  }

  // ----- the running context is the totals

  function Set<T>(xs: seq<T>): set<T> { set x | x in xs }

  ghost predicate Distinct(xs: seq<string>) {
    forall i, j | 0 <= i < j < |xs| :: xs[i] != xs[j]
  }

  lemma {:induction false} SetSnoc<T>(xs: seq<T>, x: T)
    ensures Set(xs + [x]) == Set(xs) + {x}
  {
  }

  lemma {:induction false} KindsSnoc(ms: seq<Mark>)
    requires ms != []
    ensures KindsOf(ms) == KindsOf(ms[..|ms| - 1]) + (if ms[|ms| - 1].Node? then {ms[|ms| - 1].kind} else {})
  {
    assert ms == ms[..|ms| - 1] + [ms[|ms| - 1]];
  }

  /** The mutable counters equal the totals of the trace. */
  lemma {:induction false} AbsorbIsTotals(ms: seq<Mark>)
    ensures Absorb(Fresh, ms) == Context(Set(Ids(ms)), |Ids(ms)|, CharCount(ms), KindsOf(ms), Times(ms), Mentions(ms))
  {
    if ms != [] {
      var front, last := ms[..|ms| - 1], ms[|ms| - 1];
      AbsorbIsTotals(front);
      KindsSnoc(ms);
      if last.Node? {
        SetSnoc(Ids(front), last.id);
      }
    }
  }

  lemma {:induction false} DistinctSnoc(xs: seq<string>, x: string)
    ensures Distinct(xs + [x]) <==> Distinct(xs) && x !in xs
  {
    var ys := xs + [x];
    if Distinct(ys) {
      assert forall i | 0 <= i < |xs| :: ys[i] == xs[i] && ys[i] != ys[|xs|];
    }
  }

  /** No running check ever failed if and only if the totals are within bounds and no identifier repeats. */
  lemma {:induction false} FitsIsBounds(ms: seq<Mark>)
    ensures Fits(Fresh, ms) <==> Distinct(Ids(ms)) && |Ids(ms)| <= MaxNodes && CharCount(ms) <= MaxChars
  {
    if ms != [] {
      var front, last := ms[..|ms| - 1], ms[|ms| - 1];
      FitsIsBounds(front);
      AbsorbIsTotals(front);
      if last.Node? {
        DistinctSnoc(Ids(front), last.id);
      }
    }
  }
}
