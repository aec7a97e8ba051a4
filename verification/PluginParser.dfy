/** The parser as it runs: one mutable context, checked and updated at every step. */
module PluginParser {
  import opened Outcome
  import opened PluginSchema
  import opened PluginShape
  import opened PluginAccounting
  import opened PluginNormalForm

  /** `read` did what reading `spec` and then checking its trace would have done. */
  ghost predicate Accounted<T(!new)>(r: Option<T>, spec: Option<T>, marks: seq<Mark>, before: Context, after: Context) {
    && (r.Some? <==> spec.Some? && Fits(before, marks))
    && (r.Some? ==> r == spec && after == Absorb(before, marks))
  }

  ghost function EntryMarks(o: Option<seq<Entry>>, depth: nat): seq<Mark> { if o.Some? then TraceEntries(o.value, depth) else [] }

  ghost function ValueMarks(o: Option<Value>, depth: nat): seq<Mark> { if o.Some? then TraceValue(o.value, depth) else [] }

  ghost function KidMarks(o: Option<seq<Component>>, depth: nat): seq<Mark> { if o.Some? then TraceKids(o.value, depth) else [] }

  ghost function ItemMarks(o: Option<seq<Item>>, depth: nat): seq<Mark> { if o.Some? then TraceItems(o.value, depth) else [] }

  ghost function RowMarks(o: Option<seq<Row>>): seq<Mark> { if o.Some? then TraceRows(o.value) else [] }

  ghost function CellMarks(o: Option<seq<Cell>>): seq<Mark> { if o.Some? then TraceCells(o.value) else [] }

  ghost function ComponentMarks(o: Option<Component>, depth: nat): seq<Mark> { if o.Some? then Trace(o.value, depth) else [] }

  class ParseContext {
    var ids: set<string>
    var nodeCount: nat
    var stringChars: nat
    var componentTypes: set<string>
    var mediaAnchors: seq<int>
    var actionReferences: seq<string>

    ghost function Now(): Context
      reads this
    {
      Context(ids, nodeCount, stringChars, componentTypes, mediaAnchors, actionReferences)
    }

    constructor ()
      ensures Now() == Fresh
    {
      ids, nodeCount, stringChars, componentTypes, mediaAnchors, actionReferences := {}, 0, 0, {}, [], [];
    }

    /** `string`. */
    method ReadString(v: Json, max: nat) returns (r: Option<string>)
      modifies this
      ensures r.Some? <==> v.Str? && |v.s| <= max && Room(old(Now()), Chars(|v.s|))
      ensures r.Some? ==> r.value == v.s && Now() == Add(old(Now()), Chars(|v.s|))
    {
      if !v.Str? || |v.s| > max {
        return None;
      }
      stringChars := stringChars + |v.s|;
      if stringChars > MaxChars {
        return None;
      }
      return Some(v.s);
    }

    /** A field that is not a list. */
    method ParseScalar(v: Json, kind: Kind, depth: nat, rules: Rules) returns (r: Option<Value>)
      requires depth <= MaxDepth && !kind.Kids? && !kind.Items? && !kind.Rows?
      modifies this
      ensures var spec := Leaf(v, kind, rules.safe, KidReader(depth, rules));
              Accounted(r, spec, ValueMarks(spec, depth), old(Now()), Now())
    {
      match kind
      case Text(max) =>
        var s := ReadString(v, max);
        if s.None? {
          return None;
        }
        AbsorbOne(old(Now()), Chars(|s.value|));
        return Some(TextOf(s.value));
      case Markdown(max) =>
        var s := ReadString(v, max);
        if s.None? || !rules.safe(s.value) {
          return None;
        }
        AbsorbOne(old(Now()), Chars(|s.value|));
        return Some(TextOf(s.value));
      case Reference =>
        if !(v.Str? && Stable(v.s)) {
          return None;
        }
        AbsorbOne(Now(), Mention(v.s));
        actionReferences := actionReferences + [v.s];
        return Some(ReferenceTo(v.s));
      case Anchor =>
        if !IntegerIn(v, 0, MaxSafe) {
          return None;
        }
        AbsorbOne(Now(), Time(v.n.Floor));
        mediaAnchors := mediaAnchors + [v.n.Floor];
        return Some(AnchorAt(v.n.Floor));
      case _ =>
        return Leaf(v, kind, rules.safe, _ => None);
    }

    /** The cells of one table row. */
    method ParseCells(fields: seq<Member>, columns: set<string>) returns (r: Option<seq<Cell>>)
      modifies this
      ensures var spec := ReadCells(fields, columns);
              Accounted(r, spec, CellMarks(spec), old(Now()), Now())
    {
      var cells: seq<Cell>, k := [], 0;
      while k < |fields|
        invariant CellsRead(fields, k, columns, cells, old(Now()), Now())
      {
        var m := fields[k];
        CellsStep(fields, k, columns, cells, old(Now()), Now());
        if m.name !in columns {
          return None;
        }
        var s := ReadString(m.value, MaxCell);
        if s.None? {
          return None;
        }
        cells, k := cells + [Cell(m.name, s.value)], k + 1;
      }
      assert fields[..k] == fields;
      return Some(cells);
    }

    method ParseRows(xs: seq<Json>, columns: set<string>) returns (r: Option<seq<Row>>)
      modifies this
      ensures var spec := All(xs, RowReader(columns));
              Accounted(r, spec, RowMarks(spec), old(Now()), Now())
      decreases |xs|
    {
      if xs == [] {
        return Some([]);
      }
      var n := |xs| - 1;
      var front := ParseRows(xs[..n], columns);
      if front.None? || !xs[n].Obj? {
        RowsStep(xs, columns, old(Now()));
        return None;
      }
      RowsStep(xs, columns, old(Now()));
      var cells := ParseCells(xs[n].fields, columns);
      if cells.None? {
        return None;
      }
      return Some(front.value + [Row(cells.value)]);
    }

    /** `parseChildren` after its bounds check, for children at depth `depth + 1`. */
    method ParseKids(xs: seq<Json>, depth: nat, rules: Rules) returns (r: Option<seq<Component>>)
      requires depth <= MaxDepth
      modifies this
      ensures var spec := All(xs, KidReader(depth, rules));
              Accounted(r, spec, KidMarks(spec, depth + 1), old(Now()), Now())
      decreases MaxDepth + 1 - depth, 0, |xs|
    {
      if xs == [] {
        return Some([]);
      }
      var n := |xs| - 1;
      KidsStep(xs, depth, rules, Now());
      var front := ParseKids(xs[..n], depth, rules);
      if front.None? {
        return None;
      }
      var last := ParseComponent(xs[n], depth + 1, rules);
      if last.None? {
        return None;
      }
      return Some(front.value + [last.value]);
    }

    method ParseItems(xs: seq<Json>, schema: seq<Field>, depth: nat, rules: Rules) returns (r: Option<seq<Item>>)
      requires depth <= MaxDepth
      modifies this
      ensures var spec := All(xs, ItemReader(schema, LeafReader(rules.safe, KidReader(depth, rules))));
              Accounted(r, spec, ItemMarks(spec, depth), old(Now()), Now())
      decreases MaxDepth + 1 - depth, 3, |xs|
    {
      if xs == [] {
        return Some([]);
      }
      var n := |xs| - 1;
      ItemsStep(xs, schema, LeafReader(rules.safe, KidReader(depth, rules)), depth, Now());
      var front := ParseItems(xs[..n], schema, depth, rules);
      if front.None? || !xs[n].Obj? || !OnlyKeys(xs[n].fields, Names(schema)) {
        return None;
      }
      var es := ParseEntries(xs[n].fields, schema, [], depth, rules, true, Now());
      if es.None? {
        return None;
      }
      return Some(front.value + [Item(es.value)]);
    }

    /** One field of a component, or of an item when `nested`. */
    method ParseValue(v: Json, kind: Kind, done: seq<Entry>, depth: nat, rules: Rules, nested: bool) returns (r: Option<Value>)
      requires depth <= MaxDepth
      modifies this
      ensures var spec := ReaderFor(depth, rules, nested)(v, kind, done);
              Accounted(r, spec, ValueMarks(spec, depth), old(Now()), Now())
      decreases MaxDepth + 1 - depth, if nested then 1 else 4, 1
    {
      if kind.Kids? {
        r := ParseChildren(v, depth, rules);
      } else if kind.Items? || kind.Rows? {
        if nested {
          return None;
        }
        r := ParseList(v, kind, done, depth, rules);
      } else {
        r := ParseScalar(v, kind, depth, rules);
      }
    }

    /** `parseChildren`. */
    method ParseChildren(v: Json, depth: nat, rules: Rules) returns (r: Option<Value>)
      requires depth <= MaxDepth
      modifies this
      ensures var spec := KidList(v, KidReader(depth, rules));
              Accounted(r, spec, ValueMarks(spec, depth), old(Now()), Now())
      decreases MaxDepth + 1 - depth, 1, 0
    {
      if !v.Arr? || |v.items| > MaxKids {
        return None;
      }
      var kids := ParseKids(v.items, depth, rules);
      if kids.None? {
        return None;
      }
      return Some(KidsOf(kids.value));
    }

    /** The lists of items or rows that tabs, lists, tables, timelines and selects have. */
    method ParseList(v: Json, kind: Kind, done: seq<Entry>, depth: nat, rules: Rules) returns (r: Option<Value>)
      requires depth <= MaxDepth && (kind.Items? || kind.Rows?)
      modifies this
      ensures var spec := ReadValue(v, kind, done, rules.safe, KidReader(depth, rules));
              Accounted(r, spec, ValueMarks(spec, depth), old(Now()), Now())
      decreases MaxDepth + 1 - depth, 4, 0
    {
      if !v.Arr? {
        return None;
      }
      if kind.Rows? {
        if |v.items| > MaxRows {
          return None;
        }
        var rows := ParseRows(v.items, ColumnIds(done));
        return if rows.None? then None else Some(RowsOf(rows.value));
      }
      if |v.items| < kind.min || |v.items| > kind.max {
        return None;
      }
      var items := ParseItems(v.items, kind.fields, depth, rules);
      return if items.None? then None else Some(ItemsOf(items.value));
    }

    /** The fields of one object after those in `done`; `start` is the context before the first of them. */
    method ParseEntries(fields: seq<Member>, schema: seq<Field>, done: seq<Entry>, depth: nat, rules: Rules, nested: bool, ghost start: Context)
      returns (r: Option<seq<Entry>>)
      requires depth <= MaxDepth
      requires Fits(start, TraceEntries(done, depth)) && Now() == Absorb(start, TraceEntries(done, depth))
      modifies this
      ensures var spec := Entries(fields, schema, done, ReaderFor(depth, rules, nested));
              Accounted(r, spec, EntryMarks(spec, depth), start, Now())
      decreases MaxDepth + 1 - depth, if nested then 2 else 5, |schema|
    {
      if schema == [] {
        return Some(done);
      }
      var f := schema[0];
      var v := Lookup(fields, f.name);
      var next := done;
      EntriesStep(fields, schema, done, ReaderFor(depth, rules, nested), depth, start);
      if v.Some? {
        var value := ParseValue(v.value, f.kind, done, depth, rules, nested);
        if value.None? {
          return None;
        }
        next := done + [Entry(f.name, value.value)];
      } else if f.presence.Required? {
        return None;
      } else if f.presence.Default? {
        next := done + [Entry(f.name, ValueOf(f.presence.preset))];
        QuietPreset(done, f, depth, start);
      }
      r := ParseEntries(fields, schema[1..], next, depth, rules, nested, start);
    }

    /** The part of `parseComponent` before the switch, and the key check that every case starts with. */
    method ParseHeader(raw: Json, depth: nat, rules: Rules) returns (r: Option<(string, string, seq<Field>)>)
      modifies this
      ensures var spec := Header(raw, rules);
              Accounted(r, spec, HeaderMarks(spec, depth), old(Now()), Now())
    {
      if !raw.Obj? {
        return None;
      }
      var id := Lookup(raw.fields, "id");
      if id.None? || !id.value.Str? || !Stable(id.value.s) {
        return None;
      }
      ghost var spec := Header(raw, rules);
      if spec.Some? {
        AbsorbTwo(Now(), Node(spec.value.0, spec.value.1, depth), Chars(|spec.value.1|));
      }
      if id.value.s in ids {
        return None;
      }
      ids := ids + {id.value.s};
      nodeCount := nodeCount + 1;
      if nodeCount > MaxNodes {
        return None;
      }
      var kind := Lookup(raw.fields, "type");
      if kind.None? {
        return None;
      }
      var name := ReadString(kind.value, 64);
      if name.None? {
        return None;
      }
      componentTypes := componentTypes + {name.value};
      var schema := rules.fields(name.value);
      if schema.None? || !OnlyKeys(raw.fields, ["id", "type"] + Names(schema.value)) {
        return None;
      }
      return Some((id.value.s, name.value, schema.value));
    }

    /** `parseComponent`. */
    method ParseComponent(raw: Json, depth: nat, rules: Rules) returns (r: Option<Component>)
      modifies this
      ensures var spec := Shape(raw, depth, rules);
              Accounted(r, spec, ComponentMarks(spec, depth), old(Now()), Now())
      decreases MaxDepth + 1 - depth, 6, 0
    {
      if depth > MaxDepth {
        return None;
      }
      if Header(raw, rules).Some? {
        ComponentStep(raw, depth, rules, Now());
      }
      var header := ParseHeader(raw, depth, rules);
      if header.None? {
        return None;
      }
      var (id, kind, schema) := header.value;
      var es := ParseEntries(raw.fields, schema, [], depth, rules, false, Now());
      if es.None? {
        return None;
      }
      return Some(Component(id, kind, es.value));
    }
  }

  ghost function HeaderMarks(h: Option<(string, string, seq<Field>)>, depth: nat): seq<Mark> {
    if h.Some? then [Node(h.value.0, h.value.1, depth), Chars(|h.value.1|)] else []
  }

  lemma {:induction false} ComponentStep(raw: Json, depth: nat, rules: Rules, before: Context)
    requires depth <= MaxDepth && Header(raw, rules).Some?
    ensures var h := Header(raw, rules);
            var es := Entries(raw.fields, h.value.2, [], ReaderFor(depth, rules, false));
            var spec := Shape(raw, depth, rules);
            && (spec.Some? <==> es.Some?)
            && (spec.Some? ==>
                  && spec.value == Component(h.value.0, h.value.1, es.value)
                  && Absorb(before, ComponentMarks(spec, depth)) ==
                     Absorb(Absorb(before, HeaderMarks(h, depth)), TraceEntries(es.value, depth))
                  && (Fits(before, ComponentMarks(spec, depth)) <==>
                      Fits(before, HeaderMarks(h, depth)) && Fits(Absorb(before, HeaderMarks(h, depth)), TraceEntries(es.value, depth))))
  {
    var h := Header(raw, rules);
    var es := Entries(raw.fields, h.value.2, [], ReaderFor(depth, rules, false));
    if es.Some? {
      AbsorbConcat(before, HeaderMarks(h, depth), TraceEntries(es.value, depth));
    }
  }

  lemma {:induction false} QuietPreset(done: seq<Entry>, f: Field, depth: nat, start: Context)
    requires f.presence.Default?
    ensures TraceEntries(done + [Entry(f.name, ValueOf(f.presence.preset))], depth) == TraceEntries(done, depth)
  {
    TraceSnoc(done, Entry(f.name, ValueOf(f.presence.preset)), depth, start);
  }

  /** The first `k` cells have been read and accounted for. */
  ghost predicate CellsRead(fields: seq<Member>, k: nat, columns: set<string>, cells: seq<Cell>, before: Context, now: Context) {
    && k <= |fields| && ReadCells(fields[..k], columns) == Some(cells)
    && Fits(before, TraceCells(cells)) && now == Absorb(before, TraceCells(cells))
  }

  /** Reading one more cell, and what a failure there means for the whole row. */
  lemma {:induction false} CellsStep(fields: seq<Member>, k: nat, columns: set<string>, cells: seq<Cell>, before: Context, now: Context)
    requires k < |fields| && CellsRead(fields, k, columns, cells, before, now)
    ensures var m := fields[k];
            if m.name in columns && m.value.Str? && |m.value.s| <= MaxCell && Room(now, Chars(|m.value.s|))
            then CellsRead(fields, k + 1, columns, cells + [Cell(m.name, m.value.s)], before, Add(now, Chars(|m.value.s|)))
            else !(ReadCells(fields, columns).Some? && Fits(before, CellMarks(ReadCells(fields, columns))))
  {
    var m := fields[k];
    assert fields[..k + 1][..k] == fields[..k];
    if m.name in columns && m.value.Str? && |m.value.s| <= MaxCell {
      var c := Cell(m.name, m.value.s);
      assert (cells + [c])[..|cells|] == cells;
      AbsorbConcat(before, TraceCells(cells), [Chars(|c.text|)]);
      AbsorbOne(Absorb(before, TraceCells(cells)), Chars(|c.text|));
    }
    if ReadCells(fields, columns).Some? {
      CellsPrefix(fields, k + 1, columns, before);
    }
  }

  lemma {:induction false} CellsPrefix(fields: seq<Member>, k: nat, columns: set<string>, before: Context)
    requires k <= |fields| && ReadCells(fields, columns).Some?
    ensures ReadCells(fields[..k], columns).Some?
    ensures Fits(before, TraceCells(ReadCells(fields, columns).value)) ==> Fits(before, TraceCells(ReadCells(fields[..k], columns).value))
  {
    if k == |fields| {
      assert fields[..k] == fields;
    } else {
      var n := |fields| - 1;
      assert fields[..n][..k] == fields[..k];
      CellsPrefix(fields[..n], k, columns, before);
      var front, all := ReadCells(fields[..n], columns).value, ReadCells(fields, columns).value;
      assert all[..|all| - 1] == front;
      AbsorbConcat(before, TraceCells(front), [Chars(|all[|all| - 1].text|)]);
    }
  }

  lemma {:induction false} RowsStep(xs: seq<Json>, columns: set<string>, before: Context)
    requires xs != []
    ensures var n := |xs| - 1;
            var front, last, all := All(xs[..n], RowReader(columns)), ReadRow(xs[n], columns), All(xs, RowReader(columns));
            && (all.Some? <==> front.Some? && last.Some?)
            && (all.Some? ==>
                  && all.value == front.value + [last.value]
                  && RowMarks(all) == RowMarks(front) + TraceCells(last.value.cells)
                  && Absorb(before, RowMarks(all)) == Absorb(Absorb(before, RowMarks(front)), TraceCells(last.value.cells))
                  && (Fits(before, RowMarks(all)) <==>
                      Fits(before, RowMarks(front)) && Fits(Absorb(before, RowMarks(front)), TraceCells(last.value.cells))))
  {
    var n := |xs| - 1;
    var front, last, all := All(xs[..n], RowReader(columns)), ReadRow(xs[n], columns), All(xs, RowReader(columns));
    if all.Some? {
      assert all.value[..|all.value| - 1] == front.value;
      AbsorbConcat(before, RowMarks(front), TraceCells(last.value.cells));
    }
  }

  function ReaderFor(depth: nat, rules: Rules, nested: bool): Reader
    requires depth <= MaxDepth
  {
    if nested then LeafReader(rules.safe, KidReader(depth, rules)) else FieldReader(rules.safe, KidReader(depth, rules))
  }

  lemma {:induction false} KidsStep(xs: seq<Json>, depth: nat, rules: Rules, before: Context)
    requires xs != [] && depth <= MaxDepth
    ensures var n := |xs| - 1;
            var front, last, all := All(xs[..n], KidReader(depth, rules)), Shape(xs[n], depth + 1, rules), All(xs, KidReader(depth, rules));
            && (all.Some? <==> front.Some? && last.Some?)
            && (all.Some? ==>
                  && all.value == front.value + [last.value]
                  && Absorb(before, KidMarks(all, depth + 1)) ==
                     Absorb(Absorb(before, KidMarks(front, depth + 1)), Trace(last.value, depth + 1))
                  && (Fits(before, KidMarks(all, depth + 1)) <==>
                      Fits(before, KidMarks(front, depth + 1))
                      && Fits(Absorb(before, KidMarks(front, depth + 1)), Trace(last.value, depth + 1))))
  {
    var n := |xs| - 1;
    var front, last, all := All(xs[..n], KidReader(depth, rules)), Shape(xs[n], depth + 1, rules), All(xs, KidReader(depth, rules));
    if all.Some? {
      assert all.value[..|all.value| - 1] == front.value;
      AbsorbConcat(before, KidMarks(front, depth + 1), Trace(last.value, depth + 1));
    }
  }

  lemma {:induction false} ItemsStep(xs: seq<Json>, schema: seq<Field>, read: Reader, depth: nat, before: Context)
    requires xs != []
    ensures var n, item := |xs| - 1, ItemReader(schema, read);
            var front, last, all := All(xs[..n], item), ReadItem(xs[n], schema, read), All(xs, item);
            && (all.Some? <==> front.Some? && last.Some?)
            && (all.Some? ==>
                  && all.value == front.value + [last.value]
                  && Absorb(before, ItemMarks(all, depth)) ==
                     Absorb(Absorb(before, ItemMarks(front, depth)), TraceEntries(last.value.entries, depth))
                  && (Fits(before, ItemMarks(all, depth)) <==>
                      Fits(before, ItemMarks(front, depth))
                      && Fits(Absorb(before, ItemMarks(front, depth)), TraceEntries(last.value.entries, depth))))
  {
    var n, item := |xs| - 1, ItemReader(schema, read);
    var front, last, all := All(xs[..n], item), ReadItem(xs[n], schema, read), All(xs, item);
    if all.Some? {
      assert all.value[..|all.value| - 1] == front.value;
      AbsorbConcat(before, ItemMarks(front, depth), TraceEntries(last.value.entries, depth));
    }
  }

  lemma {:induction false} TraceSnoc(done: seq<Entry>, e: Entry, depth: nat, start: Context)
    ensures TraceEntries(done + [e], depth) == TraceEntries(done, depth) + TraceValue(e.value, depth)
    ensures Absorb(start, TraceEntries(done + [e], depth)) == Absorb(Absorb(start, TraceEntries(done, depth)), TraceValue(e.value, depth))
    ensures Fits(start, TraceEntries(done + [e], depth)) <==>
            Fits(start, TraceEntries(done, depth)) && Fits(Absorb(start, TraceEntries(done, depth)), TraceValue(e.value, depth))
  {
    assert (done + [e])[..|done|] == done;
    AbsorbConcat(start, TraceEntries(done, depth), TraceValue(e.value, depth));
  }

  lemma {:induction false} TracePrefix(done: seq<Entry>, more: seq<Entry>, depth: nat, start: Context)
    requires Fits(start, TraceEntries(done + more, depth))
    ensures Fits(start, TraceEntries(done, depth))
  {
    if more == [] {
      assert done + more == done;
    } else {
      var n := |more| - 1;
      assert done + more == done + more[..n] + [more[n]];
      TraceSnoc(done + more[..n], more[n], depth, start);
      TracePrefix(done, more[..n], depth, start);
    }
  }

  /** Reading one more field, and what that means for the whole object. */
  lemma {:induction false} EntriesStep(fields: seq<Member>, schema: seq<Field>, done: seq<Entry>, read: Reader, depth: nat, start: Context)
    requires schema != []
    ensures var f := schema[0];
            var v := Lookup(fields, f.name);
            var spec := Entries(fields, schema, done, read);
            && (v.Some? && read(v.value, f.kind, done).Some? ==>
                  var e := Entry(f.name, read(v.value, f.kind, done).value);
                  && TraceEntries(done + [e], depth) == TraceEntries(done, depth) + TraceValue(e.value, depth)
                  && Absorb(start, TraceEntries(done + [e], depth)) ==
                     Absorb(Absorb(start, TraceEntries(done, depth)), TraceValue(e.value, depth))
                  && (Fits(start, TraceEntries(done + [e], depth)) <==>
                      Fits(start, TraceEntries(done, depth)) && Fits(Absorb(start, TraceEntries(done, depth)), TraceValue(e.value, depth))))
            && (spec.Some? && Fits(start, TraceEntries(spec.value, depth)) ==>
                  ReadField(v, f, done, read).Some? && Fits(start, TraceEntries(ReadField(v, f, done, read).value, depth)))
  {
    var f := schema[0];
    var v := Lookup(fields, f.name);
    var spec := Entries(fields, schema, done, read);
    if v.Some? && read(v.value, f.kind, done).Some? {
      TraceSnoc(done, Entry(f.name, read(v.value, f.kind, done).value), depth, start);
    }
    if spec.Some? && Fits(start, TraceEntries(spec.value, depth)) {
      var next := ReadField(v, f, done, read).value;
      var more := EntriesExtend(fields, schema[1..], next, read);
      TracePrefix(next, more, depth, start);
    }
  }
}
