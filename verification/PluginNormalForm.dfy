/** Writing an accepted component back as JSON, and why reading it again gives the same component. */
module PluginNormalForm {
  import opened Outcome
  import opened PluginSchema
  import opened PluginShape

  // ----- writing

  function Render(c: Component): Json {
    Obj([Member("id", Str(c.id)), Member("type", Str(c.kind))] + RenderEntries(c.entries))
  }

  function RenderEntries(es: seq<Entry>): seq<Member> {
    if es == [] then [] else [Member(es[0].name, RenderValue(es[0].value))] + RenderEntries(es[1..])
  }

  function RenderValue(v: Value): Json {
    match v
    case TextOf(s) => Str(s)
    case IdOf(s) => Str(s)
    case ChoiceOf(s) => Str(s)
    case WholeOf(n) => Num(n as real)
    case AmountOf(r) => Num(r)
    case FlagOf(on) => Bool(on)
    case ReferenceTo(action) => Str(action)
    case AnchorAt(ms) => Num(ms as real)
    case KidsOf(kids) => Arr(RenderKids(kids))
    case ItemsOf(items) => Arr(RenderItems(items))
    case RowsOf(rows) => Arr(RenderRows(rows))
  }

  function RenderKids(cs: seq<Component>): seq<Json> {
    if cs == [] then [] else [Render(cs[0])] + RenderKids(cs[1..])
  }

  function RenderItem(i: Item): Json { Obj(RenderEntries(i.entries)) }

  function RenderItems(xs: seq<Item>): seq<Json> {
    if xs == [] then [] else [RenderItem(xs[0])] + RenderItems(xs[1..])
  }

  function RenderCells(cs: seq<Cell>): seq<Member> {
    if cs == [] then [] else RenderCells(cs[..|cs| - 1]) + [Member(cs[|cs| - 1].column, Str(cs[|cs| - 1].text))]
  }

  function RenderRow(r: Row): Json { Obj(RenderCells(r.cells)) }

  function RenderRows(rs: seq<Row>): seq<Json> {
    if rs == [] then [] else [RenderRow(rs[0])] + RenderRows(rs[1..])
  }

  lemma {:induction false} KidsAt(cs: seq<Component>)
    ensures |RenderKids(cs)| == |cs|
    ensures forall i | 0 <= i < |cs| :: RenderKids(cs)[i] == Render(cs[i])
  {
    if cs != [] {
      KidsAt(cs[1..]);
    }
  }

  lemma {:induction false} ItemsAt(xs: seq<Item>)
    ensures |RenderItems(xs)| == |xs|
    ensures forall i | 0 <= i < |xs| :: RenderItems(xs)[i] == RenderItem(xs[i])
  {
    if xs != [] {
      ItemsAt(xs[1..]);
    }
  }

  lemma {:induction false} RowsAt(rs: seq<Row>)
    ensures |RenderRows(rs)| == |rs|
    ensures forall i | 0 <= i < |rs| :: RenderRows(rs)[i] == RenderRow(rs[i])
  {
    if rs != [] {
      RowsAt(rs[1..]);
    }
  }

  // ----- lists

  ghost predicate Matches<T(!new)>(xs: seq<Json>, ys: seq<T>, read: Json -> Option<T>) {
    |xs| == |ys| && forall i | 0 <= i < |xs| :: read(xs[i]) == Some(ys[i])
  }

  lemma {:induction false} AllIff<T(!new)>(xs: seq<Json>, ys: seq<T>, read: Json -> Option<T>)
    ensures All(xs, read) == Some(ys) <==> Matches(xs, ys, read)
  {
    if xs != [] {
      var n := |xs| - 1;
      if |ys| == |xs| {
        AllIff(xs[..n], ys[..n], read);
        assert ys == ys[..n] + [ys[n]];
      }
      if All(xs, read).Some? {
        AllLength(xs[..n], read);
      }
    }
  }

  lemma {:induction false} AllLength<T(!new)>(xs: seq<Json>, read: Json -> Option<T>)
    ensures All(xs, read).Some? ==> |All(xs, read).value| == |xs|
  {
    if xs != [] {
      AllLength(xs[..|xs| - 1], read);
    }
  }

  // ----- leaves

  ghost predicate KidBack(kid: Json -> Option<Component>) {
    forall j :: kid(j).Some? ==> kid(Render(kid(j).value)) == kid(j)
  }

  lemma {:induction false} KidListBack(v: Json, kid: Json -> Option<Component>)
    requires KidBack(kid) && KidList(v, kid).Some?
    ensures KidList(RenderValue(KidList(v, kid).value), kid) == KidList(v, kid)
  {
    var ys := All(v.items, kid).value;
    AllIff(v.items, ys, kid);
    KidsAt(ys);
    AllIff(RenderKids(ys), ys, kid);
  }

  lemma {:induction false} LeafBack(v: Json, kind: Kind, safe: string -> bool, kid: Json -> Option<Component>)
    requires KidBack(kid) && Leaf(v, kind, safe, kid).Some?
    ensures Leaf(RenderValue(Leaf(v, kind, safe, kid).value), kind, safe, kid) == Leaf(v, kind, safe, kid)
  {
    if kind.Kids? {
      KidListBack(v, kid);
    }
  }

  // ----- the fields of one object

  function EntryNames(es: seq<Entry>): seq<string> {
    if es == [] then [] else [es[0].name] + EntryNames(es[1..])
  }

  lemma {:induction false} NamesConcat(a: seq<Entry>, b: seq<Entry>)
    ensures EntryNames(a + b) == EntryNames(a) + EntryNames(b)
  {
    if a == [] {
      assert a + b == b;
    } else {
      assert (a + b)[0] == a[0] && (a + b)[1..] == a[1..] + b;
      NamesConcat(a[1..], b);
    }
  }

  lemma {:induction false} LookupMissing(es: seq<Entry>, name: string)
    requires name !in EntryNames(es)
    ensures Lookup(RenderEntries(es), name) == None
  {
    if es != [] {
      var rest := RenderEntries(es[1..]);
      assert es[0].name in EntryNames(es);
      assert name !in EntryNames(es[1..]);
      LookupMissing(es[1..], name);
      assert RenderEntries(es)[1..] == rest;
    }
  }

  lemma {:induction false} LookupPresent(a: seq<Entry>, e: Entry, b: seq<Entry>)
    requires e.name !in EntryNames(a)
    ensures Lookup(RenderEntries(a + [e] + b), e.name) == Some(RenderValue(e.value))
  {
    var es := a + [e] + b;
    if a != [] {
      assert es[0] == a[0] && es[1..] == a[1..] + [e] + b;
      assert a[0].name in EntryNames(a);
      LookupPresent(a[1..], e, b);
      assert RenderEntries(es)[1..] == RenderEntries(es[1..]);
    }
  }

  ghost predicate NoRepeat(names: seq<string>) {
    names == [] || (names[0] !in names[1..] && NoRepeat(names[1..]))
  }

  ghost predicate Disjoint(a: seq<string>, b: seq<string>) {
    forall x | x in a :: x !in b
  }

  /** A reader accepts what it has read in a field of kind `k`. */
  ghost predicate Back(read: Reader, k: Kind) {
    forall v, done :: read(v, k, done).Some? ==> read(RenderValue(read(v, k, done).value), k, done) == read(v, k, done)
  }

  ghost predicate DefaultRead(f: PluginSchema.Field, read: Reader) {
    f.presence.Default? ==> forall done :: read(RenderValue(ValueOf(f.presence.preset)), f.kind, done) == Some(ValueOf(f.presence.preset))
  }

  ghost predicate Settled(schema: seq<PluginSchema.Field>, read: Reader) {
    forall i | 0 <= i < |schema| :: Back(read, schema[i].kind) && DefaultRead(schema[i], read)
  }

  /** Reading on only appends entries that the schema names. */
  lemma {:induction false} EntriesExtend(fields: seq<Member>, schema: seq<PluginSchema.Field>, done: seq<Entry>, read: Reader)
    returns (more: seq<Entry>)
    requires Entries(fields, schema, done, read).Some?
    ensures Entries(fields, schema, done, read).value == done + more
    ensures forall x | x in EntryNames(more) :: x in Names(schema)
    decreases |schema|
  {
    if schema == [] {
      more := [];
    } else {
      var f := schema[0];
      var next := ReadField(Lookup(fields, f.name), f, done, read).value;
      var tail := EntriesExtend(fields, schema[1..], next, read);
      if next == done {
        more := tail;
      } else {
        var e := next[|next| - 1];
        more := [e] + tail;
        assert next + tail == done + more;
        assert (more)[1..] == tail;
      }
    }
  }

  /** Looking the first field of the schema up among the written entries. */
  lemma {:induction false} FirstWritten(fields: seq<Member>, schema: seq<PluginSchema.Field>, done: seq<Entry>, read: Reader)
    requires schema != [] && Entries(fields, schema, done, read).Some?
    requires NoRepeat(Names(schema)) && Disjoint(EntryNames(done), Names(schema))
    ensures var f := schema[0];
            var next := ReadField(Lookup(fields, f.name), f, done, read).value;
            Lookup(RenderEntries(Entries(fields, schema, done, read).value), f.name) ==
            if |next| == |done| then None else Some(RenderValue(next[|next| - 1].value))
  {
    var f, es := schema[0], Entries(fields, schema, done, read).value;
    var next := ReadField(Lookup(fields, f.name), f, done, read).value;
    var more := EntriesExtend(fields, schema[1..], next, read);
    assert Names(schema)[1..] == Names(schema[1..]);
    assert f.name in Names(schema);
    if |next| == |done| {
      NamesConcat(done, more);
      LookupMissing(es, f.name);
    } else {
      LookupPresent(done, next[|next| - 1], more);
    }
  }

  lemma {:induction false} NextDisjoint(f: PluginSchema.Field, rest: seq<string>, v: Option<Json>, done: seq<Entry>, read: Reader)
    requires ReadField(v, f, done, read).Some?
    requires NoRepeat([f.name] + rest) && Disjoint(EntryNames(done), [f.name] + rest)
    ensures Disjoint(EntryNames(ReadField(v, f, done, read).value), rest)
  {
    var next := ReadField(v, f, done, read).value;
    assert ([f.name] + rest)[1..] == rest;
    if |next| != |done| {
      var e := next[|next| - 1];
      NamesConcat(done, [e]);
      assert EntryNames([e]) == [f.name];
    }
  }

  /** Reading the written entries again gives the same entries. */
  lemma {:induction false} EntriesBack(fields: seq<Member>, again: seq<Member>, schema: seq<PluginSchema.Field>, done: seq<Entry>, read: Reader)
    requires Entries(fields, schema, done, read).Some? && Settled(schema, read)
    requires NoRepeat(Names(schema)) && Disjoint(EntryNames(done), Names(schema))
    requires forall x | x in Names(schema) :: Lookup(again, x) == Lookup(RenderEntries(Entries(fields, schema, done, read).value), x)
    ensures Entries(again, schema, done, read) == Entries(fields, schema, done, read)
    decreases |schema|
  {
    if schema != [] {
      var f := schema[0];
      var v := Lookup(fields, f.name);
      var next := ReadField(v, f, done, read).value;
      assert Names(schema)[1..] == Names(schema[1..]);
      assert f.name in Names(schema);
      FirstWritten(fields, schema, done, read);
      FieldBack(v, f, done, read);
      NextDisjoint(f, Names(schema[1..]), v, done, read);
      assert forall i | 0 <= i < |schema[1..]| :: schema[1..][i] == schema[i + 1];
      EntriesBack(fields, again, schema[1..], next, read);
    }
  }

  lemma {:induction false} FieldBack(v: Option<Json>, f: PluginSchema.Field, done: seq<Entry>, read: Reader)
    requires ReadField(v, f, done, read).Some? && Back(read, f.kind) && DefaultRead(f, read)
    ensures var next := ReadField(v, f, done, read).value;
            var again := if |next| == |done| then None else Some(RenderValue(next[|next| - 1].value));
            ReadField(again, f, done, read) == Some(next)
  {
  }

  // ----- items and rows

  lemma {:induction false} RenderedKeys(es: seq<Entry>, allowed: seq<string>)
    requires forall x | x in EntryNames(es) :: x in allowed
    ensures OnlyKeys(RenderEntries(es), allowed)
  {
    if es != [] {
      assert es[0].name in EntryNames(es);
      assert forall x | x in EntryNames(es[1..]) :: x in EntryNames(es);
      RenderedKeys(es[1..], allowed);
    }
  }

  /** Names are told apart and every field can be read back. */
  ghost predicate Tidy(schema: seq<PluginSchema.Field>, read: Reader) { NoRepeat(Names(schema)) && Settled(schema, read) }

  lemma {:induction false} ItemBack(v: Json, schema: seq<PluginSchema.Field>, read: Reader)
    requires ReadItem(v, schema, read).Some? && Tidy(schema, read)
    ensures ReadItem(RenderItem(ReadItem(v, schema, read).value), schema, read) == ReadItem(v, schema, read)
  {
    var es := Entries(v.fields, schema, [], read).value;
    var more := EntriesExtend(v.fields, schema, [], read);
    assert more == es;
    RenderedKeys(es, Names(schema));
    EntriesBack(v.fields, RenderEntries(es), schema, [], read);
  }

  lemma {:induction false} ItemListBack(v: Json, min: nat, max: nat, schema: seq<PluginSchema.Field>, read: Reader)
    requires ItemList(v, min, max, ItemReader(schema, read)).Some? && Tidy(schema, read)
    ensures var r := ItemList(v, min, max, ItemReader(schema, read));
            ItemList(RenderValue(r.value), min, max, ItemReader(schema, read)) == r
  {
    var item := ItemReader(schema, read);
    var ys := All(v.items, item).value;
    AllIff(v.items, ys, item);
    ItemsAt(ys);
    forall i | 0 <= i < |ys|
      ensures item(RenderItems(ys)[i]) == Some(ys[i])
    {
      ItemBack(v.items[i], schema, read);
    }
    AllIff(RenderItems(ys), ys, item);
  }

  lemma {:induction false} CellsBack(fields: seq<Member>, columns: set<string>)
    requires ReadCells(fields, columns).Some?
    ensures ReadCells(RenderCells(ReadCells(fields, columns).value), columns) == ReadCells(fields, columns)
  {
    if fields != [] {
      var n := |fields| - 1;
      CellsBack(fields[..n], columns);
      var front := ReadCells(fields[..n], columns).value;
      var c := Cell(fields[n].name, fields[n].value.s);
      assert (front + [c])[..|front|] == front;
      var out := RenderCells(front) + [Member(c.column, Str(c.text))];
      assert RenderCells(front + [c]) == out;
      assert out[..|out| - 1] == RenderCells(front);
    }
  }

  lemma {:induction false} RowListBack(v: Json, columns: set<string>)
    requires RowList(v, RowReader(columns)).Some?
    ensures RowList(RenderValue(RowList(v, RowReader(columns)).value), RowReader(columns)) == RowList(v, RowReader(columns))
  {
    var row := RowReader(columns);
    var ys := All(v.items, row).value;
    AllIff(v.items, ys, row);
    RowsAt(ys);
    forall i | 0 <= i < |ys|
      ensures row(RenderRows(ys)[i]) == Some(ys[i])
    {
      CellsBack(v.items[i].fields, columns);
    }
    AllIff(RenderRows(ys), ys, row);
  }

  // ----- components

  /** A kind whose items, if it has any, are tidy. */
  ghost predicate KindTidy(k: Kind, safe: string -> bool, kid: Json -> Option<Component>) {
    k.Items? ==> Tidy(k.fields, LeafReader(safe, kid))
  }

  lemma {:induction false} ReadValueBack(v: Json, k: Kind, done: seq<Entry>, safe: string -> bool, kid: Json -> Option<Component>)
    requires ReadValue(v, k, done, safe, kid).Some? && KidBack(kid) && KindTidy(k, safe, kid)
    ensures ReadValue(RenderValue(ReadValue(v, k, done, safe, kid).value), k, done, safe, kid) == ReadValue(v, k, done, safe, kid)
  {
    match k
    case Items(min, max, schema) => ItemListBack(v, min, max, schema, LeafReader(safe, kid));
    case Rows => RowListBack(v, ColumnIds(done));
    case _ => LeafBack(v, k, safe, kid);
  }

  /** What a table of component types must satisfy: names told apart, none of them `id` or `type`, and defaults in range. */
  ghost predicate TidyType(schema: seq<PluginSchema.Field>) {
    && NoRepeat(["id", "type"] + Names(schema))
    && (forall i | 0 <= i < |schema| :: TidyField(schema[i]))
  }

  ghost predicate TidyField(f: PluginSchema.Field) {
    && (f.kind.Items? ==> NoRepeat(Names(f.kind.fields)) && forall j | 0 <= j < |f.kind.fields| :: !f.kind.fields[j].presence.Default?)
    && (f.presence.Default? ==>
          match (f.kind, f.presence.preset)
          case (Choice(options), PresetChoice(s)) => s in options
          case (Whole(low, high), PresetWhole(n)) => low <= n <= high
          case (Flag, PresetFlag(_)) => true
          case _ => false)
  }

  ghost predicate TidyRules(rules: Rules) {
    forall kind :: rules.fields(kind).Some? ==> TidyType(rules.fields(kind).value)
  }

  lemma {:induction false} LeafReaderTidy(schema: seq<PluginSchema.Field>, safe: string -> bool, kid: Json -> Option<Component>)
    requires KidBack(kid) && NoRepeat(Names(schema)) && forall j | 0 <= j < |schema| :: !schema[j].presence.Default?
    ensures Tidy(schema, LeafReader(safe, kid))
  {
    forall i | 0 <= i < |schema|
      ensures Back(LeafReader(safe, kid), schema[i].kind)
    {
      forall v: Json | Leaf(v, schema[i].kind, safe, kid).Some? {
        LeafBack(v, schema[i].kind, safe, kid);
      }
    }
  }

  lemma {:induction false} FieldReaderSettled(f: PluginSchema.Field, safe: string -> bool, kid: Json -> Option<Component>)
    requires KidBack(kid) && TidyField(f)
    ensures Back(FieldReader(safe, kid), f.kind) && DefaultRead(f, FieldReader(safe, kid))
  {
    if f.kind.Items? {
      LeafReaderTidy(f.kind.fields, safe, kid);
    }
    forall v: Json, done: seq<Entry> | ReadValue(v, f.kind, done, safe, kid).Some? {
      ReadValueBack(v, f.kind, done, safe, kid);
    }
  }

  lemma {:induction false} LookupSkips(c: Component, name: string)
    requires name != "id" && name != "type"
    ensures Lookup(Render(c).fields, name) == Lookup(RenderEntries(c.entries), name)
  {
    var es := RenderEntries(c.entries);
    assert Render(c).fields[1..][1..] == es;
  }

  lemma {:induction false} HeaderBack(raw: Json, rules: Rules, c: Component)
    requires Header(raw, rules).Some?
    requires c.id == Header(raw, rules).value.0 && c.kind == Header(raw, rules).value.1
    requires forall x | x in EntryNames(c.entries) :: x in Names(Header(raw, rules).value.2)
    ensures Header(Render(c), rules) == Header(raw, rules)
  {
    var allowed := ["id", "type"] + Names(Header(raw, rules).value.2);
    var fields := Render(c).fields;
    RenderedKeys(c.entries, allowed);
    assert fields[0] == Member("id", Str(c.id)) && fields[1..][0] == Member("type", Str(c.kind));
    assert Lookup(fields, "id") == Some(Str(c.id));
    assert Lookup(fields, "type") == Some(Str(c.kind));
    assert OnlyKeys(fields, allowed);
  }

  lemma {:induction false} ShapeStep(raw: Json, depth: nat, rules: Rules)
    requires TidyRules(rules) && depth <= MaxDepth && KidBack(KidReader(depth, rules)) && Shape(raw, depth, rules).Some?
    ensures Shape(Render(Shape(raw, depth, rules).value), depth, rules) == Shape(raw, depth, rules)
  {
    var (id, kind, schema) := Header(raw, rules).value;
    var c := Shape(raw, depth, rules).value;
    var read := FieldReader(rules.safe, KidReader(depth, rules));
    var more := EntriesExtend(raw.fields, schema, [], read);
    assert more == c.entries;
    HeaderBack(raw, rules, c);
    SchemaReadsBack(schema, read, rules.safe, KidReader(depth, rules));
    forall x | x in Names(schema)
      ensures Lookup(Render(c).fields, x) == Lookup(RenderEntries(c.entries), x)
    {
      LookupSkips(c, x);
    }
    EntriesBack(raw.fields, Render(c).fields, schema, [], read);
  }

  lemma {:induction false} SchemaReadsBack(schema: seq<PluginSchema.Field>, read: Reader, safe: string -> bool, kid: Json -> Option<Component>)
    requires TidyType(schema) && KidBack(kid) && read == FieldReader(safe, kid)
    ensures NoRepeat(Names(schema)) && Settled(schema, read) && "id" !in Names(schema) && "type" !in Names(schema)
  {
    var all := ["id", "type"] + Names(schema);
    assert all[1..] == ["type"] + Names(schema);
    assert all[1..][1..] == Names(schema);
    assert NoRepeat(all[1..]) && "id" !in all[1..] && "type" !in all[1..][1..];
    assert forall x | x in Names(schema) :: x in all[1..];
    forall i | 0 <= i < |schema|
      ensures Back(read, schema[i].kind) && DefaultRead(schema[i], read)
    {
      FieldReaderSettled(schema[i], safe, kid);
    }
  }

  /** Reading is a normal form: what was read, written back and read again at the same depth, is the same component. */
  lemma {:induction false} ShapeBack(raw: Json, depth: nat, rules: Rules)
    requires TidyRules(rules) && Shape(raw, depth, rules).Some?
    ensures Shape(Render(Shape(raw, depth, rules).value), depth, rules) == Shape(raw, depth, rules)
    decreases MaxDepth + 1 - depth
  {
    var kid := KidReader(depth, rules);
    forall j: Json | kid(j).Some?
      ensures kid(Render(kid(j).value)) == kid(j)
    {
      ShapeBack(j, depth + 1, rules);
    }
    ShapeStep(raw, depth, rules);
  }
}
