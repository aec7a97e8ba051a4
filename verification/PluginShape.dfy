/**
  * What a component document means, without any accounting: the shape a JSON value is read
  * as, and the JSON that a shape is written as.
  */
module PluginShape {
  import opened Outcome
  import opened PluginSchema

  function Lookup(fields: seq<Member>, name: string): Option<Json> {
    if fields == [] then None
    else if fields[0].name == name then Some(fields[0].value)
    else Lookup(fields[1..], name)
  }

  function Names(schema: seq<Field>): seq<string> {
    if schema == [] then [] else [schema[0].name] + Names(schema[1..])
  }

  /** `exactKeys`. */
  predicate OnlyKeys(fields: seq<Member>, allowed: seq<string>) {
    forall i | 0 <= i < |fields| :: fields[i].name in allowed
  }

  /** Reads every element, or nothing. */
  function All<T>(xs: seq<Json>, read: Json -> Option<T>): Option<seq<T>> {
    if xs == [] then Some([])
    else
      var front, last := All(xs[..|xs| - 1], read), read(xs[|xs| - 1]);
      if front.Some? && last.Some? then Some(front.value + [last.value]) else None
  }

  predicate IntegerIn(v: Json, min: int, max: int) {
    v.Num? && v.n == v.n.Floor as real && min <= v.n.Floor <= max
  }

  /** A field that is not a list of items or rows; `kid` reads a child component. */
  function Leaf(v: Json, kind: Kind, safe: string -> bool, kid: Json -> Option<Component>): Option<Value> {
    match kind
    case Text(max) => if v.Str? && |v.s| <= max then Some(TextOf(v.s)) else None
    case Markdown(max) => if v.Str? && |v.s| <= max && safe(v.s) then Some(TextOf(v.s)) else None
    case Id => if v.Str? && Stable(v.s) then Some(IdOf(v.s)) else None
    case Choice(options) => if v.Str? && v.s in options then Some(ChoiceOf(v.s)) else None
    case Whole(min, max) => if IntegerIn(v, min, max) then Some(WholeOf(v.n.Floor)) else None
    case Anchor => if IntegerIn(v, 0, MaxSafe) then Some(AnchorAt(v.n.Floor)) else None
    case Amount(min, max) => if v.Num? && min as real <= v.n <= max as real then Some(AmountOf(v.n)) else None
    case Flag => if v.Bool? then Some(FlagOf(v.on)) else None
    case Reference => if v.Str? && Stable(v.s) then Some(ReferenceTo(v.s)) else None
    case Kids => KidList(v, kid)
    case Items(_, _, _) => None
    case Rows => None
  }

  function KidList(v: Json, kid: Json -> Option<Component>): Option<Value> {
    if v.Arr? && |v.items| <= MaxKids && All(v.items, kid).Some? then Some(KidsOf(All(v.items, kid).value)) else None
  }

  /** Reads a field given what the fields before it were read as. */
  type Reader = (Json, Kind, seq<Entry>) -> Option<Value>

  function ReadField(v: Option<Json>, f: Field, done: seq<Entry>, read: Reader): Option<seq<Entry>> {
    match v
    case None =>
      if f.presence.Required? then None
      else if f.presence.Optional? then Some(done)
      else Some(done + [Entry(f.name, ValueOf(f.presence.preset))])
    case Some(j) =>
      var r := read(j, f.kind, done);
      if r.Some? then Some(done + [Entry(f.name, r.value)]) else None
  }

  /** The fields of one object, in the order of the schema. */
  function Entries(fields: seq<Member>, schema: seq<Field>, done: seq<Entry>, read: Reader): Option<seq<Entry>>
    decreases |schema|
  {
    if schema == [] then Some(done)
    else
      var next := ReadField(Lookup(fields, schema[0].name), schema[0], done, read);
      if next.Some? then Entries(fields, schema[1..], next.value, read) else None
  }

  function LeafReader(safe: string -> bool, kid: Json -> Option<Component>): Reader {
    (v, k, done) => Leaf(v, k, safe, kid)
  }

  function ItemReader(schema: seq<Field>, read: Reader): Json -> Option<Item> {
    v => ReadItem(v, schema, read)
  }

  function ReadItem(v: Json, schema: seq<Field>, read: Reader): Option<Item> {
    if v.Obj? && OnlyKeys(v.fields, Names(schema)) then
      var es := Entries(v.fields, schema, [], read);
      if es.Some? then Some(Item(es.value)) else None
    else None
  }

  function ItemList(v: Json, min: nat, max: nat, item: Json -> Option<Item>): Option<Value> {
    if v.Arr? && min <= |v.items| <= max && All(v.items, item).Some? then Some(ItemsOf(All(v.items, item).value)) else None
  }

  function ReadCells(fields: seq<Member>, columns: set<string>): Option<seq<Cell>> {
    if fields == [] then Some([])
    else
      var front, last := ReadCells(fields[..|fields| - 1], columns), fields[|fields| - 1];
      if front.Some? && last.name in columns && last.value.Str? && |last.value.s| <= MaxCell
      then Some(front.value + [Cell(last.name, last.value.s)]) else None
  }

  function RowReader(columns: set<string>): Json -> Option<Row> { v => ReadRow(v, columns) }

  function ReadRow(v: Json, columns: set<string>): Option<Row> {
    if v.Obj? && ReadCells(v.fields, columns).Some? then Some(Row(ReadCells(v.fields, columns).value)) else None
  }

  function RowList(v: Json, row: Json -> Option<Row>): Option<Value> {
    if v.Arr? && |v.items| <= MaxRows && All(v.items, row).Some? then Some(RowsOf(All(v.items, row).value)) else None
  }

  /** A column's `id` is its first entry. */
  function ItemId(i: Item): string {
    if i.entries != [] && i.entries[0].value.IdOf? then i.entries[0].value.s else ""
  }

  /** The identifiers of the columns, which are the field read just before the rows. */
  function ColumnIds(done: seq<Entry>): set<string> {
    if done != [] && done[|done| - 1].value.ItemsOf?
    then (set i | i in done[|done| - 1].value.items :: ItemId(i))
    else {}
  }

  function FieldReader(safe: string -> bool, kid: Json -> Option<Component>): Reader {
    (v, k, done) => ReadValue(v, k, done, safe, kid)
  }

  function ReadValue(v: Json, kind: Kind, done: seq<Entry>, safe: string -> bool, kid: Json -> Option<Component>): Option<Value> {
    match kind
    case Items(min, max, schema) => ItemList(v, min, max, ItemReader(schema, LeafReader(safe, kid)))
    case Rows => RowList(v, RowReader(ColumnIds(done)))
    case _ => Leaf(v, kind, safe, kid)
  }

  /** Identifier, type and the fields of a component object, if the first two are there and no other field is. */
  function Header(raw: Json, rules: Rules): Option<(string, string, seq<Field>)> {
    if !raw.Obj? then None
    else
      match (Lookup(raw.fields, "id"), Lookup(raw.fields, "type"))
      case (Some(Str(id)), Some(Str(kind))) =>
        if Stable(id) && |kind| <= 64 && rules.fields(kind).Some?
           && OnlyKeys(raw.fields, ["id", "type"] + Names(rules.fields(kind).value))
        then Some((id, kind, rules.fields(kind).value)) else None
      case _ => None
  }

  /** `parseComponent` without its accounting. */
  function Shape(raw: Json, depth: nat, rules: Rules): Option<Component>
    decreases MaxDepth + 1 - depth, 1
  {
    if depth > MaxDepth then None
    else
      match Header(raw, rules)
      case None => None
      case Some((id, kind, schema)) =>
        var es := Entries(raw.fields, schema, [], FieldReader(rules.safe, KidReader(depth, rules)));
        if es.Some? then Some(Component(id, kind, es.value)) else None
  }

  function KidReader(depth: nat, rules: Rules): Json -> Option<Component>
    requires depth <= MaxDepth
    decreases MaxDepth + 1 - depth, 0
  {
    v => Shape(v, depth + 1, rules)
  }
}
