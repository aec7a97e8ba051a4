/**
  * The declared types of view components, and what they promise the renderer: every
  * component of an accepted view has its type, every action that a button or a
  * confirmation names is declared, and every media anchor lies within the media.
  */
module PluginTypes {
  import opened Outcome
  import opened PluginSchema
  import opened PluginShape
  import opened PluginAccounting
  import opened PluginNormalForm
  import opened PluginView
  import opened PluginGuarantees

  /**
    * `ActionName` is a string that names an action and `MediaTime` a position in the media;
    * the bounds are those that the server declares beside the same fields.
    */
  datatype Type =
    | StringType(max: nat) | MarkdownType(max: nat) | Identifier | ActionName | Literals(options: seq<string>)
    | WholeType(low: int, high: int) | NumberType(low: int, high: int) | MediaTime | BooleanType
    | Components(max: nat) | Records(min: nat, max: nat, properties: seq<Property>) | CellRecords(max: nat, longest: nat)

  /** A property that is left out may stay out, or be filled in. */
  datatype Property = Property(name: string, kind: Type, optional: bool, filled: Option<Json>)

  /** The largest integer that the source takes. */
  const LargestWhole := 9_007_199_254_740_991

  function Has(name: string, kind: Type): Property { Property(name, kind, false, None) }

  function MayHave(name: string, kind: Type): Property { Property(name, kind, true, None) }

  function Filled(name: string, kind: Type, j: Json): Property { Property(name, kind, false, Some(j)) }

  /** The members of `PluginUIComponent`, besides `id` and `type`, with the limits of the server's models. */
  function Declared(kind: string): Option<seq<Property>> {
    match kind
    case "text" => Some([Has("text", StringType(32_000))])
    case "safe_markdown" => Some([Has("markdown", MarkdownType(32_000))])
    case "card" => Some([MayHave("title", StringType(500)), Has("children", Components(500))])
    case "section" => Some([Has("title", StringType(500)), Has("children", Components(500))])
    case "tabs" =>
      Some([Has("tabs", Records(1, 20, [Has("id", Identifier), Has("label", StringType(200)), Has("children", Components(500))]))])
    case "list" =>
      Some([Has("items", Records(0, 200, [Has("id", Identifier), Has("primary", StringType(2_000)),
                                          MayHave("secondary", StringType(4_000))]))])
    case "table" =>
      Some([Has("columns", Records(1, 20, [Has("id", Identifier), Has("label", StringType(200))])),
            Has("rows", CellRecords(100, 4_000))])
    case "timeline" =>
      Some([Has("items", Records(0, 200, [Has("id", Identifier), Has("time_ms", WholeType(0, LargestWhole)),
                                          Has("title", StringType(500)), MayHave("body", StringType(4_000))]))])
    case "media_anchor" => Some([Has("media_time_ms", MediaTime), Has("label", StringType(500))])
    case "badge" =>
      Some([Has("text", StringType(200)),
            Filled("tone", Literals(["neutral", "info", "success", "warning", "danger"]), Str("neutral"))])
    case "metric" =>
      Some([Has("label", StringType(200)), Has("value", StringType(500)), MayHave("detail", StringType(1_000))])
    case "progress" => Some([Has("label", StringType(200)), Has("value", NumberType(0, 100))])
    case "input" =>
      Some([Has("name", Identifier), Has("label", StringType(200)), MayHave("placeholder", StringType(500))])
    case "textarea" =>
      Some([Has("name", Identifier), Has("label", StringType(200)), MayHave("placeholder", StringType(500)),
            Filled("rows", WholeType(2, 20), Num(4.0))])
    case "select" =>
      Some([Has("name", Identifier), Has("label", StringType(200)),
            Has("options", Records(1, 50, [Has("id", Identifier), Has("label", StringType(200)), Has("value", StringType(500))]))])
    case "checkbox" =>
      Some([Has("name", Identifier), Has("label", StringType(500)), Filled("checked", BooleanType, Bool(false))])
    case "button" =>
      Some([Has("label", StringType(200)), Has("action_id", ActionName),
            Filled("tone", Literals(["neutral", "primary", "danger"]), Str("neutral"))])
    case "confirmation" =>
      Some([Has("title", StringType(500)), Has("body", StringType(4_000)), Has("confirm_action_id", ActionName),
            MayHave("cancel_action_id", ActionName)])
    case "empty_state" => Some([Has("title", StringType(500)), MayHave("message", StringType(4_000))])
    case "error_state" => Some([Has("title", StringType(500)), Has("message", StringType(4_000))])
    case _ => None
  }

  // ----- having a type

  type Typing = (Value, Type) -> bool

  predicate IsWhole(j: Json, low: int, high: int) {
    j.Num? && j.n == j.n.Floor as real && low as real <= j.n <= high as real
  }

  /** What a scalar of type `t` looks like in JSON; markdown must be safe besides. */
  predicate ScalarFits(j: Json, t: Type) {
    match t
    case StringType(max) => j.Str? && |j.s| <= max
    case MarkdownType(max) => j.Str? && |j.s| <= max
    case Identifier => j.Str? && Stable(j.s)
    case ActionName => j.Str? && Stable(j.s)
    case Literals(options) => j.Str? && j.s in options
    case WholeType(low, high) => IsWhole(j, low, high)
    case MediaTime => IsWhole(j, 0, LargestWhole)
    case NumberType(low, high) => j.Num? && low as real <= j.n <= high as real
    case BooleanType => j.Bool?
    case _ => false
  }

  /** A value that is not a list of records. */
  predicate HasLeafType(v: Value, t: Type) {
    match t
    case Components(max) => v.KidsOf? && |v.kids| <= max
    case CellRecords(max, longest) =>
      && v.RowsOf? && |v.rows| <= max
      && forall i, j | 0 <= i < |v.rows| && 0 <= j < |v.rows[i].cells| :: |v.rows[i].cells[j].text| <= longest
    case _ => ScalarFits(RenderValue(v), t) && (t.ActionName? ==> v.ReferenceTo?) && (t.MediaTime? ==> v.AnchorAt?)
  }

  /** The entries are the properties in their order, save that optional ones may be missing. */
  predicate Listed(es: seq<Entry>, ps: seq<Property>, has: Typing)
    decreases |ps|
  {
    if ps == [] then es == []
    else
      || (es != [] && es[0].name == ps[0].name && has(es[0].value, ps[0].kind) && Listed(es[1..], ps[1..], has))
      || (ps[0].optional && Listed(es, ps[1..], has))
  }

  predicate HasType(v: Value, t: Type) {
    match t
    case Records(min, max, properties) =>
      && v.ItemsOf? && min <= |v.items| <= max
      && forall i | 0 <= i < |v.items| :: Listed(v.items[i].entries, properties, HasLeafType)
    case _ => HasLeafType(v, t)
  }

  predicate Conforms(c: Component) {
    Stable(c.id) && Declared(c.kind).Some? && Listed(c.entries, Declared(c.kind).value, HasType)
  }

  // ----- the parser's table agrees with the types

  predicate LeafAgrees(k: Kind, t: Type) {
    match t
    case StringType(max) => k == Text(max)
    case MarkdownType(max) => k == Markdown(max)
    case Identifier => k == Id
    case ActionName => k == Reference
    case Literals(options) => k == Choice(options)
    case WholeType(low, high) => k == Whole(low, high)
    case NumberType(low, high) => k == Amount(low, high)
    case MediaTime => k == Anchor
    case BooleanType => k == Flag
    case Components(max) => k == Kids && max == MaxKids
    case CellRecords(max, longest) => k == Rows && max == MaxRows && longest == MaxCell
    case Records(_, _, _) => false
  }

  predicate PropertyAgrees(f: Field, p: Property) {
    && f.name == p.name && p.optional == f.presence.Optional? && p.filled.Some? == f.presence.Default?
    && (p.filled.Some? ==>
          && RenderValue(ValueOf(f.presence.preset)) == p.filled.value && ScalarFits(p.filled.value, p.kind)
          && !p.kind.ActionName? && !p.kind.MediaTime?)
  }

  predicate LeavesAgree(fs: seq<Field>, ps: seq<Property>) {
    |fs| == |ps| && forall i | 0 <= i < |fs| :: PropertyAgrees(fs[i], ps[i]) && LeafAgrees(fs[i].kind, ps[i].kind)
  }

  predicate KindAgrees(k: Kind, t: Type) {
    if t.Records? then k.Items? && k.min == t.min && k.max == t.max && LeavesAgree(k.fields, t.properties) else LeafAgrees(k, t)
  }

  predicate FieldsAgree(fs: seq<Field>, ps: seq<Property>) {
    |fs| == |ps| && forall i | 0 <= i < |fs| :: PropertyAgrees(fs[i], ps[i]) && KindAgrees(fs[i].kind, ps[i].kind)
  }

  predicate TypeAgrees(kind: string) {
    FieldsOf(kind).Some? && Declared(kind).Some? && FieldsAgree(FieldsOf(kind).value, Declared(kind).value)
  }

  lemma {:induction false} ProseAgrees(kind: string)
    requires kind in ["text", "safe_markdown"]
    ensures TypeAgrees(kind)
  {
  }

  lemma {:induction false} FrameAgrees(kind: string)
    requires kind in ["card", "section"]
    ensures TypeAgrees(kind)
  {
  }

  lemma {:induction false} TabsAgrees(kind: string)
    requires kind in ["tabs"]
    ensures TypeAgrees(kind)
  {
  }

  lemma {:induction false} ListAgrees(kind: string)
    requires kind in ["list"]
    ensures TypeAgrees(kind)
  {
  }

  lemma {:induction false} GridAgrees(kind: string)
    requires kind in ["table"]
    ensures TypeAgrees(kind)
  {
  }

  lemma {:induction false} TimelineAgrees(kind: string)
    requires kind in ["timeline"]
    ensures TypeAgrees(kind)
  {
  }

  lemma {:induction false} MarkAgrees(kind: string)
    requires kind in ["media_anchor", "badge"]
    ensures TypeAgrees(kind)
  {
  }

  lemma {:induction false} FigureAgrees(kind: string)
    requires kind in ["metric", "progress"]
    ensures TypeAgrees(kind)
  {
  }

  lemma {:induction false} InputAgrees(kind: string)
    requires kind in ["input"]
    ensures TypeAgrees(kind)
  {
  }

  lemma {:induction false} AreaAgrees(kind: string)
    requires kind in ["textarea"]
    ensures TypeAgrees(kind)
  {
  }

  lemma {:induction false} SelectAgrees(kind: string)
    requires kind in ["select"]
    ensures TypeAgrees(kind)
  {
  }

  lemma {:induction false} CheckAgrees(kind: string)
    requires kind in ["checkbox"]
    ensures TypeAgrees(kind)
  {
  }

  lemma {:induction false} ButtonAgrees(kind: string)
    requires kind in ["button"]
    ensures TypeAgrees(kind)
  {
  }

  lemma {:induction false} ConfirmAgrees(kind: string)
    requires kind in ["confirmation"]
    ensures TypeAgrees(kind)
  {
  }

  lemma {:induction false} StateAgrees(kind: string)
    requires kind in ["empty_state", "error_state"]
    ensures TypeAgrees(kind)
  {
  }

  /** The parser knows exactly the declared component types, with exactly the declared fields. */
  lemma {:induction false} TableAgrees(kind: string)
    ensures FieldsOf(kind).Some? <==> Declared(kind).Some?
    ensures FieldsOf(kind).Some? ==> FieldsAgree(FieldsOf(kind).value, Declared(kind).value)
  {
    if kind in ["text", "safe_markdown"] {
      ProseAgrees(kind);
    } else if kind in ["card", "section"] {
      FrameAgrees(kind);
    } else if kind in ["tabs"] {
      TabsAgrees(kind);
    } else if kind in ["list"] {
      ListAgrees(kind);
    } else if kind in ["table"] {
      GridAgrees(kind);
    } else if kind in ["timeline"] {
      TimelineAgrees(kind);
    } else if kind in ["media_anchor", "badge"] {
      MarkAgrees(kind);
    } else if kind in ["metric", "progress"] {
      FigureAgrees(kind);
    } else if kind in ["input"] {
      InputAgrees(kind);
    } else if kind in ["textarea"] {
      AreaAgrees(kind);
    } else if kind in ["select"] {
      SelectAgrees(kind);
    } else if kind in ["checkbox"] {
      CheckAgrees(kind);
    } else if kind in ["button"] {
      ButtonAgrees(kind);
    } else if kind in ["confirmation"] {
      ConfirmAgrees(kind);
    } else if kind in ["empty_state", "error_state"] {
      StateAgrees(kind);
    }
  }

  // ----- what is read has its type

  /** Whatever is read in a field of kind `k` has type `t`. */
  ghost predicate ReadsAs(read: Reader, k: Kind, t: Type, has: Typing) {
    forall v, done :: read(v, k, done).Some? ==> has(read(v, k, done).value, t)
  }

  ghost predicate FieldReadsAs(read: Reader, f: Field, p: Property, has: Typing) {
    && f.name == p.name && p.optional == f.presence.Optional? && ReadsAs(read, f.kind, p.kind, has)
    && (f.presence.Default? ==> has(ValueOf(f.presence.preset), p.kind))
  }

  ghost predicate SchemaReadsAs(read: Reader, fs: seq<Field>, ps: seq<Property>, has: Typing) {
    |fs| == |ps| && forall i | 0 <= i < |fs| :: FieldReadsAs(read, fs[i], ps[i], has)
  }

  lemma {:induction false} TailReadsAs(read: Reader, fs: seq<Field>, ps: seq<Property>, has: Typing)
    requires fs != [] && SchemaReadsAs(read, fs, ps, has)
    ensures ps != [] && FieldReadsAs(read, fs[0], ps[0], has) && SchemaReadsAs(read, fs[1..], ps[1..], has)
  {
    assert forall i | 0 <= i < |fs[1..]| :: fs[1..][i] == fs[i + 1] && ps[1..][i] == ps[i + 1];
  }

  /** The entries that reading appends are the properties, in their order. */
  lemma {:induction false} EntriesListed(fields: seq<Member>, fs: seq<Field>, ps: seq<Property>, done: seq<Entry>, read: Reader, has: Typing)
    returns (more: seq<Entry>)
    requires SchemaReadsAs(read, fs, ps, has) && Entries(fields, fs, done, read).Some?
    ensures Entries(fields, fs, done, read).value == done + more && Listed(more, ps, has)
    decreases |fs|
  {
    if fs == [] {
      more := [];
    } else {
      TailReadsAs(read, fs, ps, has);
      var next := ReadField(Lookup(fields, fs[0].name), fs[0], done, read).value;
      var tail := EntriesListed(fields, fs[1..], ps[1..], next, read, has);
      more := AppendListed(Lookup(fields, fs[0].name), fs[0], ps, done, tail, read, has);
    }
  }

  lemma {:induction false} AppendListed(v: Option<Json>, f: Field, ps: seq<Property>, done: seq<Entry>, tail: seq<Entry>, read: Reader, has: Typing)
    returns (more: seq<Entry>)
    requires ps != [] && FieldReadsAs(read, f, ps[0], has) && ReadField(v, f, done, read).Some? && Listed(tail, ps[1..], has)
    ensures ReadField(v, f, done, read).value + tail == done + more && Listed(more, ps, has)
  {
    var next := ReadField(v, f, done, read).value;
    if next == done {
      more := tail;
    } else {
      more := [next[|next| - 1]] + tail;
      assert more[1..] == tail;
      assert next + tail == done + more;
    }
  }

  /** A scalar is read exactly when it fits its type, and then as it stands. */
  lemma {:induction false} ScalarExactly(j: Json, k: Kind, t: Type, safe: string -> bool, kid: Json -> Option<Component>)
    requires LeafAgrees(k, t) && !t.Components? && !t.CellRecords?
    ensures Leaf(j, k, safe, kid).Some? <==> ScalarFits(j, t) && (t.MarkdownType? ==> safe(j.s))
    ensures Leaf(j, k, safe, kid).Some? ==> RenderValue(Leaf(j, k, safe, kid).value) == j && HasLeafType(Leaf(j, k, safe, kid).value, t)
  {
  }

  lemma {:induction false} KidsReadAs(v: Json, kid: Json -> Option<Component>)
    requires KidList(v, kid).Some?
    ensures HasLeafType(KidList(v, kid).value, Components(MaxKids))
  {
    AllLength(v.items, kid);
  }

  lemma {:induction false} LeafReadsAs(safe: string -> bool, kid: Json -> Option<Component>, k: Kind, t: Type)
    requires LeafAgrees(k, t)
    ensures ReadsAs(LeafReader(safe, kid), k, t, HasLeafType)
  {
    forall v | Leaf(v, k, safe, kid).Some?
      ensures HasLeafType(Leaf(v, k, safe, kid).value, t)
    {
      if t.Components? {
        KidsReadAs(v, kid);
      } else if !t.CellRecords? {
        ScalarExactly(v, k, t, safe, kid);
      }
    }
  }

  lemma {:induction false} CellsReadAs(fields: seq<Member>, columns: set<string>)
    requires ReadCells(fields, columns).Some?
    ensures var cells := ReadCells(fields, columns).value;
            forall i | 0 <= i < |cells| :: |cells[i].text| <= MaxCell && cells[i].column in columns
  {
    if fields != [] {
      CellsReadAs(fields[..|fields| - 1], columns);
    }
  }

  lemma {:induction false} RowsReadAs(v: Json, columns: set<string>)
    requires RowList(v, RowReader(columns)).Some?
    ensures HasLeafType(RowList(v, RowReader(columns)).value, CellRecords(MaxRows, MaxCell))
  {
    var rows := All(v.items, RowReader(columns)).value;
    AllIff(v.items, rows, RowReader(columns));
    forall i | 0 <= i < |rows|
      ensures forall j | 0 <= j < |rows[i].cells| :: |rows[i].cells[j].text| <= MaxCell
    {
      assert ReadRow(v.items[i], columns) == Some(rows[i]);
      CellsReadAs(v.items[i].fields, columns);
    }
  }

  lemma {:induction false} ItemsListed(xs: seq<Json>, fs: seq<Field>, ps: seq<Property>, read: Reader)
    requires SchemaReadsAs(read, fs, ps, HasLeafType) && All(xs, ItemReader(fs, read)).Some?
    ensures var items := All(xs, ItemReader(fs, read)).value;
            forall i | 0 <= i < |items| :: Listed(items[i].entries, ps, HasLeafType)
  {
    if xs != [] {
      var n := |xs| - 1;
      ItemsListed(xs[..n], fs, ps, read);
      var more := EntriesListed(xs[n].fields, fs, ps, [], read, HasLeafType);
      assert ReadItem(xs[n], fs, read).value.entries == more;
    }
  }

  lemma {:induction false} LeavesReadAs(safe: string -> bool, kid: Json -> Option<Component>, fs: seq<Field>, ps: seq<Property>)
    requires LeavesAgree(fs, ps)
    ensures SchemaReadsAs(LeafReader(safe, kid), fs, ps, HasLeafType)
  {
    forall i | 0 <= i < |fs|
      ensures FieldReadsAs(LeafReader(safe, kid), fs[i], ps[i], HasLeafType)
    {
      LeafReadsAs(safe, kid, fs[i].kind, ps[i].kind);
    }
  }

  lemma {:induction false} RecordsReadAs(v: Json, fs: seq<Field>, ps: seq<Property>, min: nat, max: nat, read: Reader)
    requires SchemaReadsAs(read, fs, ps, HasLeafType) && ItemList(v, min, max, ItemReader(fs, read)).Some?
    ensures HasType(ItemList(v, min, max, ItemReader(fs, read)).value, Records(min, max, ps))
  {
    ItemsListed(v.items, fs, ps, read);
    AllLength(v.items, ItemReader(fs, read));
  }

  lemma {:induction false} ValueReadsAs(v: Json, k: Kind, done: seq<Entry>, safe: string -> bool, kid: Json -> Option<Component>, t: Type)
    requires KindAgrees(k, t) && ReadValue(v, k, done, safe, kid).Some?
    ensures HasType(ReadValue(v, k, done, safe, kid).value, t)
  {
    if t.Records? {
      LeavesReadAs(safe, kid, k.fields, t.properties);
      RecordsReadAs(v, k.fields, t.properties, k.min, k.max, LeafReader(safe, kid));
    } else if t.CellRecords? {
      RowsReadAs(v, ColumnIds(done));
    } else {
      PlainReadsAs(v, k, done, safe, kid, t);
    }
  }

  lemma {:induction false} PlainReadsAs(v: Json, k: Kind, done: seq<Entry>, safe: string -> bool, kid: Json -> Option<Component>, t: Type)
    requires LeafAgrees(k, t) && !t.CellRecords? && Leaf(v, k, safe, kid).Some?
    ensures ReadValue(v, k, done, safe, kid) == Leaf(v, k, safe, kid) && HasLeafType(Leaf(v, k, safe, kid).value, t)
  {
    if t.Components? {
      KidsReadAs(v, kid);
    } else {
      ScalarExactly(v, k, t, safe, kid);
    }
  }

  lemma {:induction false} FieldsReadAs(safe: string -> bool, kid: Json -> Option<Component>, fs: seq<Field>, ps: seq<Property>)
    requires FieldsAgree(fs, ps)
    ensures SchemaReadsAs(FieldReader(safe, kid), fs, ps, HasType)
  {
    forall i | 0 <= i < |fs|
      ensures FieldReadsAs(FieldReader(safe, kid), fs[i], ps[i], HasType)
    {
      forall v, done | ReadValue(v, fs[i].kind, done, safe, kid).Some?
        ensures HasType(ReadValue(v, fs[i].kind, done, safe, kid).value, ps[i].kind)
      {
        ValueReadsAs(v, fs[i].kind, done, safe, kid, ps[i].kind);
      }
    }
  }

  lemma {:induction false} ShapeConforms(raw: Json, depth: nat, safe: string -> bool)
    requires Shape(raw, depth, StandardRules(safe)).Some?
    ensures Conforms(Shape(raw, depth, StandardRules(safe)).value)
  {
    var rules := StandardRules(safe);
    var (id, kind, schema) := Header(raw, rules).value;
    TableAgrees(kind);
    var ps := Declared(kind).value;
    FieldsReadAs(safe, KidReader(depth, rules), schema, ps);
    var more := EntriesListed(raw.fields, schema, ps, [], FieldReader(safe, KidReader(depth, rules)), HasType);
    assert Shape(raw, depth, rules).value.entries == more;
  }

  // ----- walking the tree

  /** Every component of the tree is good. */
  ghost predicate Everywhere(c: Component, good: Component -> bool) {
    good(c) && forall i | 0 <= i < |c.entries| :: EverywhereIn(c.entries[i].value, good)
  }

  ghost predicate EverywhereIn(v: Value, good: Component -> bool) {
    match v
    case KidsOf(kids) => forall i | 0 <= i < |kids| :: Everywhere(kids[i], good)
    case ItemsOf(items) =>
      forall i, j | 0 <= i < |items| && 0 <= j < |items[i].entries| :: EverywhereIn(items[i].entries[j].value, good)
    case _ => true
  }

  ghost predicate EntriesGood(es: seq<Entry>, good: Component -> bool) {
    forall i | 0 <= i < |es| :: EverywhereIn(es[i].value, good)
  }

  ghost predicate KidsGood(kid: Json -> Option<Component>, good: Component -> bool) {
    forall j :: kid(j).Some? ==> Everywhere(kid(j).value, good)
  }

  ghost predicate ReadsGood(read: Reader, good: Component -> bool) {
    forall v, k, done :: read(v, k, done).Some? ==> EverywhereIn(read(v, k, done).value, good)
  }

  lemma {:induction false} KidListGood(xs: seq<Json>, kid: Json -> Option<Component>, good: Component -> bool)
    requires KidsGood(kid, good) && All(xs, kid).Some?
    ensures forall i | 0 <= i < |All(xs, kid).value| :: Everywhere(All(xs, kid).value[i], good)
  {
    if xs != [] {
      KidListGood(xs[..|xs| - 1], kid, good);
    }
  }

  lemma {:induction false} LeafReaderGood(safe: string -> bool, kid: Json -> Option<Component>, good: Component -> bool)
    requires KidsGood(kid, good)
    ensures ReadsGood(LeafReader(safe, kid), good)
  {
    forall v: Json, k: Kind | Leaf(v, k, safe, kid).Some?
      ensures EverywhereIn(Leaf(v, k, safe, kid).value, good)
    {
      if k.Kids? {
        KidListGood(v.items, kid, good);
      }
    }
  }

  lemma {:induction false} ReadEntriesGood(fields: seq<Member>, schema: seq<Field>, done: seq<Entry>, read: Reader, good: Component -> bool)
    requires ReadsGood(read, good) && EntriesGood(done, good) && Entries(fields, schema, done, read).Some?
    ensures EntriesGood(Entries(fields, schema, done, read).value, good)
    decreases |schema|
  {
    if schema != [] {
      var v := Lookup(fields, schema[0].name);
      OneFieldGood(v, schema[0], done, read, good);
      ReadEntriesGood(fields, schema[1..], ReadField(v, schema[0], done, read).value, read, good);
    }
  }

  lemma {:induction false} OneFieldGood(v: Option<Json>, f: Field, done: seq<Entry>, read: Reader, good: Component -> bool)
    requires ReadsGood(read, good) && EntriesGood(done, good) && ReadField(v, f, done, read).Some?
    ensures EntriesGood(ReadField(v, f, done, read).value, good)
  {
  }

  lemma {:induction false} ItemListGood(xs: seq<Json>, schema: seq<Field>, read: Reader, good: Component -> bool)
    requires ReadsGood(read, good) && All(xs, ItemReader(schema, read)).Some?
    ensures forall i | 0 <= i < |All(xs, ItemReader(schema, read)).value| :: EntriesGood(All(xs, ItemReader(schema, read)).value[i].entries, good)
  {
    if xs != [] {
      var n := |xs| - 1;
      ItemListGood(xs[..n], schema, read, good);
      ReadEntriesGood(xs[n].fields, schema, [], read, good);
    }
  }

  lemma {:induction false} FieldReaderGood(safe: string -> bool, kid: Json -> Option<Component>, good: Component -> bool)
    requires KidsGood(kid, good)
    ensures ReadsGood(FieldReader(safe, kid), good)
  {
    LeafReaderGood(safe, kid, good);
    forall v: Json, k: Kind, done: seq<Entry> | ReadValue(v, k, done, safe, kid).Some?
      ensures EverywhereIn(ReadValue(v, k, done, safe, kid).value, good)
    {
      ValueGood(v, k, done, safe, kid, good);
    }
  }

  lemma {:induction false} ValueGood(v: Json, k: Kind, done: seq<Entry>, safe: string -> bool, kid: Json -> Option<Component>, good: Component -> bool)
    requires ReadsGood(LeafReader(safe, kid), good) && ReadValue(v, k, done, safe, kid).Some?
    ensures EverywhereIn(ReadValue(v, k, done, safe, kid).value, good)
  {
    if k.Items? {
      ItemListGood(v.items, k.fields, LeafReader(safe, kid), good);
    } else if !k.Rows? {
      assert LeafReader(safe, kid)(v, k, done) == Leaf(v, k, safe, kid);
    }
  }

  /** What holds of every component that is read, at whatever depth, holds everywhere in the tree. */
  lemma {:induction false} ShapeEverywhere(raw: Json, depth: nat, rules: Rules, good: Component -> bool)
    requires forall r: Json, d: nat :: Shape(r, d, rules).Some? ==> good(Shape(r, d, rules).value)
    requires Shape(raw, depth, rules).Some?
    ensures Everywhere(Shape(raw, depth, rules).value, good)
    decreases MaxDepth + 1 - depth
  {
    var kid := KidReader(depth, rules);
    forall j: Json | kid(j).Some?
      ensures Everywhere(kid(j).value, good)
    {
      ShapeEverywhere(j, depth + 1, rules, good);
    }
    FieldReaderGood(rules.safe, kid, good);
    ReadEntriesGood(raw.fields, Header(raw, rules).value.2, [], FieldReader(rules.safe, kid), good);
  }

  /** Every component of an accepted view has its declared type. */
  lemma {:induction false} AcceptedIsTyped(raw: Json, options: Options, safe: string -> bool)
    requires Judge(raw, options, StandardRules(safe)).Accepted?
    ensures Everywhere(Judge(raw, options, StandardRules(safe)).view.root, Conforms)
  {
    var rules := StandardRules(safe);
    forall r: Json, d: nat | Shape(r, d, rules).Some?
      ensures Conforms(Shape(r, d, rules).value)
    {
      ShapeConforms(r, d, safe);
    }
    ShapeEverywhere(Document(raw).value[4], 1, rules, Conforms);
  }

  // ----- from the trace back to the components

  /** Every action the component names and every time it holds is marked well. */
  ghost predicate WellMarked(c: Component, ok: Mark -> bool) {
    forall i | 0 <= i < |c.entries| ::
      && (c.entries[i].value.ReferenceTo? ==> ok(Mention(c.entries[i].value.action)))
      && (c.entries[i].value.AnchorAt? ==> ok(Time(c.entries[i].value.ms)))
  }

  lemma {:induction false} EntryMarks(es: seq<Entry>, depth: nat, ok: Mark -> bool, i: nat)
    requires Only(TraceEntries(es, depth), ok) && i < |es|
    ensures Only(TraceValue(es[i].value, depth), ok)
  {
    var n := |es| - 1;
    OnlyConcat(TraceEntries(es[..n], depth), TraceValue(es[n].value, depth), ok);
    if i < n {
      EntryMarks(es[..n], depth, ok, i);
    }
  }

  lemma {:induction false} KidMarks(cs: seq<Component>, depth: nat, ok: Mark -> bool, i: nat)
    requires Only(TraceKids(cs, depth), ok) && i < |cs|
    ensures Only(Trace(cs[i], depth), ok)
  {
    var n := |cs| - 1;
    OnlyConcat(TraceKids(cs[..n], depth), Trace(cs[n], depth), ok);
    if i < n {
      KidMarks(cs[..n], depth, ok, i);
    }
  }

  lemma {:induction false} ItemMarks(xs: seq<Item>, depth: nat, ok: Mark -> bool, i: nat)
    requires Only(TraceItems(xs, depth), ok) && i < |xs|
    ensures Only(TraceEntries(xs[i].entries, depth), ok)
  {
    var n := |xs| - 1;
    OnlyConcat(TraceItems(xs[..n], depth), TraceEntries(xs[n].entries, depth), ok);
    if i < n {
      ItemMarks(xs[..n], depth, ok, i);
    }
  }

  lemma {:induction false} OwnMarks(c: Component, depth: nat, ok: Mark -> bool)
    requires Only(TraceEntries(c.entries, depth), ok)
    ensures WellMarked(c, ok)
  {
    forall i | 0 <= i < |c.entries|
      ensures Only(TraceValue(c.entries[i].value, depth), ok)
    {
      EntryMarks(c.entries, depth, ok, i);
    }
    assert forall i | 0 <= i < |c.entries| && c.entries[i].value.ReferenceTo? ::
        TraceValue(c.entries[i].value, depth)[0] == Mention(c.entries[i].value.action);
    assert forall i | 0 <= i < |c.entries| && c.entries[i].value.AnchorAt? ::
        TraceValue(c.entries[i].value, depth)[0] == Time(c.entries[i].value.ms);
  }

  /** Marks that are all well leave every component well marked. */
  lemma {:induction false} TraceReaches(c: Component, depth: nat, ok: Mark -> bool)
    requires Only(Trace(c, depth), ok)
    ensures Everywhere(c, (d: Component) => WellMarked(d, ok))
  {
    OnlyConcat([Node(c.id, c.kind, depth), Chars(|c.kind|)], TraceEntries(c.entries, depth), ok);
    OwnMarks(c, depth, ok);
    forall i | 0 <= i < |c.entries|
      ensures EverywhereIn(c.entries[i].value, (d: Component) => WellMarked(d, ok))
    {
      EntryMarks(c.entries, depth, ok, i);
      ValueReaches(c.entries[i].value, depth, ok);
    }
  }

  lemma {:induction false} ValueReaches(v: Value, depth: nat, ok: Mark -> bool)
    requires Only(TraceValue(v, depth), ok)
    ensures EverywhereIn(v, (d: Component) => WellMarked(d, ok))
  {
    match v
    case KidsOf(kids) =>
      forall i | 0 <= i < |kids|
        ensures Everywhere(kids[i], (d: Component) => WellMarked(d, ok))
      {
        KidMarks(kids, depth + 1, ok, i);
        TraceReaches(kids[i], depth + 1, ok);
      }
    case ItemsOf(items) =>
      forall i, j | 0 <= i < |items| && 0 <= j < |items[i].entries|
        ensures EverywhereIn(items[i].entries[j].value, (d: Component) => WellMarked(d, ok))
      {
        ItemMarks(items, depth, ok, i);
        EntryMarks(items[i].entries, depth, ok, j);
        ValueReaches(items[i].entries[j].value, depth, ok);
      }
    case _ =>
  }

  lemma {:induction false} EverywhereBoth(c: Component, a: Component -> bool, b: Component -> bool, both: Component -> bool)
    requires Everywhere(c, a) && Everywhere(c, b) && forall d :: a(d) && b(d) ==> both(d)
    ensures Everywhere(c, both)
  {
    forall i | 0 <= i < |c.entries|
      ensures EverywhereIn(c.entries[i].value, both)
    {
      EverywhereInBoth(c.entries[i].value, a, b, both);
    }
  }

  lemma {:induction false} EverywhereInBoth(v: Value, a: Component -> bool, b: Component -> bool, both: Component -> bool)
    requires EverywhereIn(v, a) && EverywhereIn(v, b) && forall d :: a(d) && b(d) ==> both(d)
    ensures EverywhereIn(v, both)
  {
    match v
    case KidsOf(kids) =>
      forall i | 0 <= i < |kids|
        ensures Everywhere(kids[i], both)
      {
        EverywhereBoth(kids[i], a, b, both);
      }
    case ItemsOf(items) =>
      forall i, j | 0 <= i < |items| && 0 <= j < |items[i].entries|
        ensures EverywhereIn(items[i].entries[j].value, both)
      {
        EverywhereInBoth(items[i].entries[j].value, a, b, both);
      }
    case _ =>
  }

  // ----- actions and media times

  /** Field `name` of a component is written as `j`. */
  ghost predicate Holds(c: Component, name: string, j: Json) {
    exists i :: 0 <= i < |c.entries| && c.entries[i].name == name && RenderValue(c.entries[i].value) == j
  }

  ghost predicate Present(c: Component, name: string) { exists j :: Holds(c, name, j) }

  /** Field `name`, if the component has it, is the id of exactly one declared action with an allowed command. */
  ghost predicate NamesAction(c: Component, name: string, v: View, commands: set<string>) {
    forall j | Holds(c, name, j) :: j.Str? && exists i :: Resolves(v, j.s, commands, i)
  }

  ghost predicate WithinMedia(c: Component, name: string, duration: Option<real>) {
    forall j | Holds(c, name, j) :: j.Num? && j.n >= 0.0 && (duration.Some? ==> j.n <= duration.value)
  }

  /** What the renderer relies on when the user acts on a component. */
  ghost predicate Actionable(c: Component, v: View, options: Options) {
    && (c.kind == "button" ==> Present(c, "action_id") && NamesAction(c, "action_id", v, options.commands))
    && (c.kind == "confirmation" ==>
          && Present(c, "confirm_action_id") && NamesAction(c, "confirm_action_id", v, options.commands)
          && NamesAction(c, "cancel_action_id", v, options.commands))
    && (c.kind == "media_anchor" ==> Present(c, "media_time_ms") && WithinMedia(c, "media_time_ms", options.duration))
  }

  /** Marks that only name declared actions and only hold times within the media. */
  ghost predicate MarksResolve(v: View, options: Options, ok: Mark -> bool) {
    forall m | ok(m) ::
      && (m.Mention? ==> exists i :: Resolves(v, m.action, options.commands, i))
      && (m.Time? && options.duration.Some? ==> m.ms as real <= options.duration.value)
  }

  /** Each entry has the type of a property with its name. */
  lemma {:induction false} ListedFrom(es: seq<Entry>, ps: seq<Property>, has: Typing, i: nat) returns (j: nat)
    requires Listed(es, ps, has) && i < |es|
    ensures j < |ps| && es[i].name == ps[j].name && has(es[i].value, ps[j].kind)
    decreases |ps|
  {
    if es[0].name == ps[0].name && has(es[0].value, ps[0].kind) && Listed(es[1..], ps[1..], has) {
      if i == 0 {
        j := 0;
      } else {
        j := ListedFrom(es[1..], ps[1..], has, i - 1);
        j := j + 1;
      }
    } else {
      j := ListedFrom(es, ps[1..], has, i);
      j := j + 1;
    }
  }

  /** Each property that is not optional has an entry. */
  lemma {:induction false} ListedAll(es: seq<Entry>, ps: seq<Property>, has: Typing, j: nat) returns (i: nat)
    requires Listed(es, ps, has) && j < |ps| && !ps[j].optional
    ensures i < |es| && es[i].name == ps[j].name
    decreases |ps|
  {
    if es != [] && es[0].name == ps[0].name && has(es[0].value, ps[0].kind) && Listed(es[1..], ps[1..], has) {
      if j == 0 {
        i := 0;
      } else {
        i := ListedAll(es[1..], ps[1..], has, j - 1);
        i := i + 1;
      }
    } else {
      i := ListedAll(es, ps[1..], has, j - 1);
    }
  }

  lemma {:induction false} RequiredIsPresent(c: Component, ps: seq<Property>, j: nat)
    requires Listed(c.entries, ps, HasType) && j < |ps| && !ps[j].optional
    ensures Present(c, ps[j].name)
  {
    var i := ListedAll(c.entries, ps, HasType, j);
    assert Holds(c, ps[j].name, RenderValue(c.entries[i].value));
  }

  /** A field that is only ever declared as an action name resolves. */
  lemma {:induction false} ActionFieldActs(c: Component, ps: seq<Property>, name: string, v: View, options: Options, ok: Mark -> bool)
    requires Listed(c.entries, ps, HasType) && WellMarked(c, ok) && MarksResolve(v, options, ok)
    requires forall j | 0 <= j < |ps| && ps[j].name == name :: ps[j].kind.ActionName?
    ensures NamesAction(c, name, v, options.commands)
  {
    forall x | Holds(c, name, x)
      ensures x.Str? && exists i :: Resolves(v, x.s, options.commands, i)
    {
      var i :| 0 <= i < |c.entries| && c.entries[i].name == name && RenderValue(c.entries[i].value) == x;
      var j := ListedFrom(c.entries, ps, HasType, i);
      assert ok(Mention(c.entries[i].value.action));
    }
  }

  lemma {:induction false} TimeFieldActs(c: Component, ps: seq<Property>, name: string, v: View, options: Options, ok: Mark -> bool)
    requires Listed(c.entries, ps, HasType) && WellMarked(c, ok) && MarksResolve(v, options, ok)
    requires forall j | 0 <= j < |ps| && ps[j].name == name :: ps[j].kind.MediaTime?
    ensures WithinMedia(c, name, options.duration)
  {
    forall x | Holds(c, name, x)
      ensures x.Num? && x.n >= 0.0 && (options.duration.Some? ==> x.n <= options.duration.value)
    {
      var i :| 0 <= i < |c.entries| && c.entries[i].name == name && RenderValue(c.entries[i].value) == x;
      var j := ListedFrom(c.entries, ps, HasType, i);
      assert ok(Time(c.entries[i].value.ms));
    }
  }

  lemma {:induction false} ActionProperties(button: seq<Property>, confirmation: seq<Property>, anchor: seq<Property>)
    requires Some(button) == Declared("button") && Some(confirmation) == Declared("confirmation") && Some(anchor) == Declared("media_anchor")
    ensures |button| == 3 && button[1] == Has("action_id", ActionName)
    ensures forall j | 0 <= j < |button| && button[j].name == "action_id" :: button[j].kind.ActionName?
    ensures |confirmation| == 4 && confirmation[2] == Has("confirm_action_id", ActionName)
    ensures forall j | 0 <= j < |confirmation| && confirmation[j].name == "confirm_action_id" :: confirmation[j].kind.ActionName?
    ensures forall j | 0 <= j < |confirmation| && confirmation[j].name == "cancel_action_id" :: confirmation[j].kind.ActionName?
    ensures |anchor| == 2 && anchor[0] == Has("media_time_ms", MediaTime)
    ensures forall j | 0 <= j < |anchor| && anchor[j].name == "media_time_ms" :: anchor[j].kind.MediaTime?
  {
    assert |"label"| == 5 && |"action_id"| == 9 && |"tone"| == 4 && |"media_time_ms"| == 13;
    assert |"title"| == 5 && |"body"| == 4 && |"confirm_action_id"| == 17 && |"cancel_action_id"| == 16;
  }

  lemma {:induction false} ActsByType(c: Component, v: View, options: Options, ok: Mark -> bool)
    requires Conforms(c) && WellMarked(c, ok) && MarksResolve(v, options, ok)
    ensures Actionable(c, v, options)
  {
    var ps := Declared(c.kind).value;
    ActionProperties(Declared("button").value, Declared("confirmation").value, Declared("media_anchor").value);
    if c.kind == "button" {
      RequiredIsPresent(c, ps, 1);
      ActionFieldActs(c, ps, "action_id", v, options, ok);
    } else if c.kind == "confirmation" {
      RequiredIsPresent(c, ps, 2);
      ActionFieldActs(c, ps, "confirm_action_id", v, options, ok);
      ActionFieldActs(c, ps, "cancel_action_id", v, options, ok);
    } else if c.kind == "media_anchor" {
      RequiredIsPresent(c, ps, 0);
      TimeFieldActs(c, ps, "media_time_ms", v, options, ok);
    }
  }

  lemma {:induction false} MarkCounted(ms: seq<Mark>, i: nat)
    requires i < |ms|
    ensures ms[i].Mention? ==> ms[i].action in Mentions(ms)
    ensures ms[i].Time? ==> ms[i].ms in Times(ms)
  {
    if i < |ms| - 1 {
      MarkCounted(ms[..|ms| - 1], i);
    }
  }

  ghost predicate Counted(m: Mark, ms: seq<Mark>) {
    (m.Mention? ==> m.action in Mentions(ms)) && (m.Time? ==> m.ms in Times(ms))
  }

  /**
    * In every accepted view, wherever in the tree: each button's `action_id` and each confirmation's
    * `confirm_action_id` and `cancel_action_id` is the id of exactly one declared action with an
    * allowed command, and each media anchor's `media_time_ms` is within the duration that was given.
    */
  lemma {:induction false} AcceptedIsActionable(raw: Json, options: Options, safe: string -> bool)
    requires Judge(raw, options, StandardRules(safe)).Accepted?
    ensures var v := Judge(raw, options, StandardRules(safe)).view;
            Everywhere(v.root, (c: Component) => Actionable(c, v, options))
  {
    var v := Judge(raw, options, StandardRules(safe)).view;
    var ms := Marks(v);
    var ok := (m: Mark) => Counted(m, ms);
    AcceptedIsTyped(raw, options, safe);
    AcceptedIsBounded(raw, options, StandardRules(safe));
    forall i | 0 <= i < |ms|
      ensures ok(ms[i])
    {
      MarkCounted(ms, i);
    }
    OnlyConcat(Trace(v.root, 1), ActionMarks(v.actions), ok);
    TraceReaches(v.root, 1, ok);
    assert MarksResolve(v, options, ok);
    forall c: Component | Conforms(c) && WellMarked(c, ok)
      ensures Actionable(c, v, options)
    {
      ActsByType(c, v, options, ok);
    }
    EverywhereBoth(v.root, Conforms, (c: Component) => WellMarked(c, ok), (c: Component) => Actionable(c, v, options));
  }

  /** The actions of an accepted view: at most 32, with distinct stable ids and allowed commands. */
  lemma {:induction false} AcceptedActions(raw: Json, options: Options, rules: Rules)
    requires Judge(raw, options, rules).Accepted?
    ensures var actions := Judge(raw, options, rules).view.actions;
            && |actions| <= 32
            && (forall i | 0 <= i < |actions| ::
                  Stable(actions[i].id) && actions[i].command in options.commands && CommandName(actions[i].command))
            && (forall i, j | 0 <= i < j < |actions| :: actions[i].id != actions[j].id)
  {
    var actions, xs := Judge(raw, options, rules).view.actions, Document(raw).value[5].items;
    AllIff(xs, actions, ActionReader(options.commands));
    ActionIdAt(actions);
    forall i | 0 <= i < |actions|
      ensures Stable(actions[i].id) && actions[i].command in options.commands && CommandName(actions[i].command)
    {
      assert ReadAction(xs[i], options.commands) == Some(actions[i]);
    }
    forall i, j | 0 <= i < j < |actions|
      ensures actions[i].id != actions[j].id
    {
      assert ActionIds(actions)[i] != ActionIds(actions)[j];
    }
  }

  /** The conditions on a document as a whole, in plain numbers. */
  ghost predicate Acceptable(v: View, options: Options) {
    var ms := Marks(v);
    && (forall i, j | 0 <= i < j < |Ids(ms)| :: Ids(ms)[i] != Ids(ms)[j]) && |Ids(ms)| <= 200 && CharCount(ms) <= 64_000
    && (forall i, j | 0 <= i < j < |v.actions| :: v.actions[i].id != v.actions[j].id)
    && (forall x | x in Mentions(ms) :: Declares(v, x))
    && (v.surface.Overlay? ==> forall k | k in KindsOf(ms) ::
            k in ["text", "safe_markdown", "media_anchor", "badge", "metric", "progress", "empty_state", "error_state"])
    && (options.duration.Some? ==>
          options.duration.value >= 0.0 && forall t | t in Times(ms) :: t as real <= options.duration.value)
  }

  ghost predicate Declares(v: View, x: string) { exists i :: 0 <= i < |v.actions| && v.actions[i].id == x }

  lemma {:induction false} DeclaresExactly(v: View, x: string)
    ensures x in ActionIds(v.actions) <==> Declares(v, x)
  {
    ActionIdAt(v.actions);
    if Declares(v, x) {
      var i :| 0 <= i < |v.actions| && v.actions[i].id == x;
      assert ActionIds(v.actions)[i] == x;
    }
  }

  /**
    * A readable document is refused for its contents exactly when a component or action id repeats, there
    * are more than 200 components or 64,000 characters, an action that is named is not declared, an
    * overlay has a component that overlays may not use, or a media anchor lies outside the media.
    */
  lemma {:induction false} AcceptedExactly(raw: Json, options: Options, rules: Rules)
    requires options.previous.None? && ReadView(raw, options.commands, rules).Some?
    ensures var v := ReadView(raw, options.commands, rules).value;
            Judge(raw, options, rules) == if Acceptable(v, options) then Accepted(v) else Invalid(SafeView())
  {
    SoundExactly(ReadView(raw, options.commands, rules).value, options);
  }

  lemma {:induction false} SoundExactly(v: View, options: Options)
    ensures Sound(v, options) <==> Acceptable(v, options)
  {
    ActionsTold(v.actions);
    forall x
      ensures x in ActionIds(v.actions) <==> Declares(v, x)
    {
      DeclaresExactly(v, x);
    }
  }

  lemma {:induction false} ActionsTold(xs: seq<Action>)
    ensures Distinct(ActionIds(xs)) <==> forall i, j | 0 <= i < j < |xs| :: xs[i].id != xs[j].id
  {
    ActionIdAt(xs);
    var ids := ActionIds(xs);
    if Distinct(ids) {
      forall i, j | 0 <= i < j < |xs|
        ensures xs[i].id != xs[j].id
      {
        assert ids[i] != ids[j];
      }
    }
  }

  /** `v` is a version of the view shown before it that is not newer. */
  ghost predicate NotNewer(v: View, previous: Option<View>) {
    match previous
    case None => false
    case Some(shown) => shown.surface == v.surface && shown.id == v.id && v.version <= shown.version
  }

  /** A view is never replaced by an older or equal version of itself, and by anything else that is valid. */
  lemma {:induction false} OnlyNewerReplaces(raw: Json, options: Options, rules: Rules)
    ensures var alone, verdict := Judge(raw, options.(previous := None), rules), Judge(raw, options, rules);
            if !alone.Accepted? then alone == verdict && verdict.Invalid?
            else if NotNewer(alone.view, options.previous) then verdict.Stale?
            else verdict == alone
  {
  }
}
