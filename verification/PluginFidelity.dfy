/** Nothing that a plugin sends is altered: an accepted view, written as JSON, holds every field as it was sent. */
module PluginFidelity {
  import opened Outcome
  import opened PluginSchema
  import opened PluginShape
  import opened PluginNormalForm
  import opened PluginView
  import opened PluginGuarantees

  /** The member that counts when names repeat. */
  predicate First(fields: seq<Member>, i: nat)
    requires i < |fields|
  {
    forall j | 0 <= j < i :: fields[j].name != fields[i].name
  }

  /** `out` holds what `raw` holds: scalars and lists as they are, and every field of an object, to which fields may be added. */
  ghost predicate Kept(raw: Json, out: Json)
    decreases raw, 0
  {
    match raw
    case Obj(fields) => out.Obj? && forall i | 0 <= i < |fields| && First(fields, i) :: FieldKept(fields[i].name, fields[i].value, out)
    case Arr(items) => out.Arr? && |out.items| == |items| && forall i | 0 <= i < |items| :: Kept(items[i], out.items[i])
    case _ => out == raw
  }

  ghost predicate FieldKept(name: string, value: Json, out: Json)
    requires out.Obj?
    decreases value, 1
  {
    Lookup(out.fields, name).Some? && Kept(value, Lookup(out.fields, name).value)
  }

  ghost predicate KidKept(kid: Json -> Option<Component>) { forall j :: kid(j).Some? ==> Kept(j, Render(kid(j).value)) }

  ghost predicate ReadsKept(read: Reader, k: Kind) {
    forall v, done :: read(v, k, done).Some? ==> Kept(v, RenderValue(read(v, k, done).value))
  }

  ghost predicate SchemaKept(schema: seq<Field>, read: Reader) { forall i | 0 <= i < |schema| :: ReadsKept(read, schema[i].kind) }

  /** A field that was sent and read is among the entries, as it was sent. */
  lemma {:induction false} EntryKept(fields: seq<Member>, schema: seq<Field>, done: seq<Entry>, read: Reader, name: string)
    requires SchemaKept(schema, read) && Entries(fields, schema, done, read).Some?
    requires NoRepeat(Names(schema)) && Disjoint(EntryNames(done), Names(schema))
    requires name in Names(schema) && Lookup(fields, name).Some?
    ensures var out := Lookup(RenderEntries(Entries(fields, schema, done, read).value), name);
            out.Some? && Kept(Lookup(fields, name).value, out.value)
    decreases |schema|
  {
    var f := schema[0];
    var v := Lookup(fields, f.name);
    var next := ReadField(v, f, done, read).value;
    if name == f.name {
      assert ReadsKept(read, schema[0].kind);
      FirstWritten(fields, schema, done, read);
    } else {
      assert Names(schema)[1..] == Names(schema[1..]);
      NextDisjoint(f, Names(schema[1..]), v, done, read);
      assert forall i | 0 <= i < |schema[1..]| :: schema[1..][i] == schema[i + 1];
      EntryKept(fields, schema[1..], next, read, name);
    }
  }

  lemma {:induction false} LeafKept(v: Json, kind: Kind, safe: string -> bool, kid: Json -> Option<Component>)
    requires KidKept(kid) && Leaf(v, kind, safe, kid).Some?
    ensures Kept(v, RenderValue(Leaf(v, kind, safe, kid).value))
  {
    if kind.Kids? {
      var ys := All(v.items, kid).value;
      AllIff(v.items, ys, kid);
      KidsAt(ys);
    }
  }

  lemma {:induction false} ItemKept(v: Json, schema: seq<Field>, read: Reader)
    requires SchemaKept(schema, read) && NoRepeat(Names(schema)) && ReadItem(v, schema, read).Some?
    ensures Kept(v, RenderItem(ReadItem(v, schema, read).value))
  {
    var out := RenderItem(ReadItem(v, schema, read).value);
    forall i | 0 <= i < |v.fields| && First(v.fields, i)
      ensures FieldKept(v.fields[i].name, v.fields[i].value, out)
    {
      LookupAt(v.fields, i);
      EntryKept(v.fields, schema, [], read, v.fields[i].name);
    }
  }

  lemma {:induction false} ItemListKept(v: Json, min: nat, max: nat, schema: seq<Field>, read: Reader)
    requires SchemaKept(schema, read) && NoRepeat(Names(schema)) && ItemList(v, min, max, ItemReader(schema, read)).Some?
    ensures Kept(v, RenderValue(ItemList(v, min, max, ItemReader(schema, read)).value))
  {
    var ys := All(v.items, ItemReader(schema, read)).value;
    AllIff(v.items, ys, ItemReader(schema, read));
    ItemsAt(ys);
    forall i | 0 <= i < |ys|
      ensures Kept(v.items[i], RenderItem(ys[i]))
    {
      assert ReadItem(v.items[i], schema, read) == Some(ys[i]);
      ItemKept(v.items[i], schema, read);
    }
  }

  lemma {:induction false} CellsKept(fields: seq<Member>, columns: set<string>)
    requires ReadCells(fields, columns).Some?
    ensures RenderCells(ReadCells(fields, columns).value) == fields
    ensures forall i | 0 <= i < |fields| :: fields[i].value.Str?
  {
    if fields != [] {
      var n := |fields| - 1;
      CellsKept(fields[..n], columns);
      var front := ReadCells(fields[..n], columns).value;
      var c := Cell(fields[n].name, fields[n].value.s);
      assert (front + [c])[..|front|] == front;
      assert fields == fields[..n] + [fields[n]];
    }
  }

  lemma {:induction false} RowKept(v: Json, columns: set<string>)
    requires ReadRow(v, columns).Some?
    ensures Kept(v, RenderRow(ReadRow(v, columns).value))
  {
    CellsKept(v.fields, columns);
    forall i | 0 <= i < |v.fields| && First(v.fields, i)
      ensures FieldKept(v.fields[i].name, v.fields[i].value, RenderRow(ReadRow(v, columns).value))
    {
      LookupAt(v.fields, i);
    }
  }

  lemma {:induction false} RowListKept(v: Json, columns: set<string>)
    requires RowList(v, RowReader(columns)).Some?
    ensures Kept(v, RenderValue(RowList(v, RowReader(columns)).value))
  {
    var ys := All(v.items, RowReader(columns)).value;
    AllIff(v.items, ys, RowReader(columns));
    RowsAt(ys);
    forall i | 0 <= i < |ys|
      ensures Kept(v.items[i], RenderRow(ys[i]))
    {
      assert ReadRow(v.items[i], columns) == Some(ys[i]);
      RowKept(v.items[i], columns);
    }
  }

  lemma {:induction false} LeavesKept(schema: seq<Field>, safe: string -> bool, kid: Json -> Option<Component>)
    requires KidKept(kid)
    ensures SchemaKept(schema, LeafReader(safe, kid))
  {
    forall i, v: Json | 0 <= i < |schema| && Leaf(v, schema[i].kind, safe, kid).Some?
      ensures Kept(v, RenderValue(Leaf(v, schema[i].kind, safe, kid).value))
    {
      LeafKept(v, schema[i].kind, safe, kid);
    }
  }

  lemma {:induction false} ValueKept(v: Json, k: Kind, done: seq<Entry>, safe: string -> bool, kid: Json -> Option<Component>)
    requires KidKept(kid) && (k.Items? ==> NoRepeat(Names(k.fields))) && ReadValue(v, k, done, safe, kid).Some?
    ensures Kept(v, RenderValue(ReadValue(v, k, done, safe, kid).value))
  {
    match k
    case Items(min, max, schema) =>
      LeavesKept(schema, safe, kid);
      ItemListKept(v, min, max, schema, LeafReader(safe, kid));
    case Rows => RowListKept(v, ColumnIds(done));
    case _ => LeafKept(v, k, safe, kid);
  }

  lemma {:induction false} FieldsKept(schema: seq<Field>, safe: string -> bool, kid: Json -> Option<Component>)
    requires KidKept(kid) && TidyType(schema)
    ensures SchemaKept(schema, FieldReader(safe, kid))
  {
    forall i, v: Json, done: seq<Entry> | 0 <= i < |schema| && ReadValue(v, schema[i].kind, done, safe, kid).Some?
      ensures Kept(v, RenderValue(ReadValue(v, schema[i].kind, done, safe, kid).value))
    {
      assert TidyField(schema[i]);
      ValueKept(v, schema[i].kind, done, safe, kid);
    }
  }

  lemma {:induction false} TypeNames(schema: seq<Field>)
    requires TidyType(schema)
    ensures NoRepeat(Names(schema)) && "id" !in Names(schema) && "type" !in Names(schema)
  {
    var all := ["id", "type"] + Names(schema);
    assert all[1..] == ["type"] + Names(schema);
    assert all[1..][1..] == Names(schema);
    assert NoRepeat(all[1..]) && "id" !in all[1..] && "type" !in all[1..][1..];
    assert forall x | x in Names(schema) :: x in all[1..];
  }

  /** The two fields of every component. */
  lemma {:induction false} HeaderKept(raw: Json, rules: Rules, c: Component)
    requires Header(raw, rules).Some? && c.id == Header(raw, rules).value.0 && c.kind == Header(raw, rules).value.1
    ensures Lookup(raw.fields, "id") == Lookup(Render(c).fields, "id") == Some(Str(c.id))
    ensures Lookup(raw.fields, "type") == Lookup(Render(c).fields, "type") == Some(Str(c.kind))
  {
    var fields := Render(c).fields;
    assert fields[0] == Member("id", Str(c.id)) && fields[1..][0] == Member("type", Str(c.kind));
  }

  lemma {:induction false} ComponentKept(raw: Json, depth: nat, rules: Rules)
    requires TidyRules(rules) && depth <= MaxDepth && KidKept(KidReader(depth, rules)) && Shape(raw, depth, rules).Some?
    ensures Kept(raw, Render(Shape(raw, depth, rules).value))
  {
    var (id, kind, schema) := Header(raw, rules).value;
    var c, read := Shape(raw, depth, rules).value, FieldReader(rules.safe, KidReader(depth, rules));
    TypeNames(schema);
    FieldsKept(schema, rules.safe, KidReader(depth, rules));
    HeaderKept(raw, rules, c);
    forall i | 0 <= i < |raw.fields| && First(raw.fields, i)
      ensures FieldKept(raw.fields[i].name, raw.fields[i].value, Render(c))
    {
      var name := raw.fields[i].name;
      LookupAt(raw.fields, i);
      if name != "id" && name != "type" {
        assert name in ["id", "type"] + Names(schema);
        EntryKept(raw.fields, schema, [], read, name);
        LookupSkips(c, name);
      }
    }
  }

  lemma {:induction false} ShapeKept(raw: Json, depth: nat, rules: Rules)
    requires TidyRules(rules) && Shape(raw, depth, rules).Some?
    ensures Kept(raw, Render(Shape(raw, depth, rules).value))
    decreases MaxDepth + 1 - depth
  {
    forall j: Json | KidReader(depth, rules)(j).Some?
      ensures Kept(j, Render(KidReader(depth, rules)(j).value))
    {
      ShapeKept(j, depth + 1, rules);
    }
    ComponentKept(raw, depth, rules);
  }

  lemma {:induction false} ActionKept(raw: Json, commands: set<string>)
    requires ReadAction(raw, commands).Some?
    ensures Kept(raw, RenderAction(ReadAction(raw, commands).value))
  {
    var out := RenderAction(ReadAction(raw, commands).value);
    LookupAt(out.fields, 0);
    LookupAt(out.fields, 1);
    LookupAt(out.fields, 2);
    forall i | 0 <= i < |raw.fields| && First(raw.fields, i)
      ensures FieldKept(raw.fields[i].name, raw.fields[i].value, out)
    {
      LookupAt(raw.fields, i);
    }
  }

  lemma {:induction false} ActionsKept(raw: Json, commands: set<string>)
    requires raw.Arr? && All(raw.items, ActionReader(commands)).Some?
    ensures Kept(raw, Arr(RenderActions(All(raw.items, ActionReader(commands)).value)))
  {
    var xs := All(raw.items, ActionReader(commands)).value;
    AllIff(raw.items, xs, ActionReader(commands));
    RenderActionsAt(xs);
    forall i | 0 <= i < |xs|
      ensures Kept(raw.items[i], RenderAction(xs[i]))
    {
      assert ReadAction(raw.items[i], commands) == Some(xs[i]);
      ActionKept(raw.items[i], commands);
    }
  }

  /** The six fields of a document, as they were sent. */
  lemma {:induction false} DocumentFields(raw: Json, names: seq<string>)
    requires names == ["schema_version", "surface", "view_id", "view_version", "root", "actions"] && Document(raw).Some?
    ensures forall i | 0 <= i < 6 :: Lookup(raw.fields, names[i]) == Some(Document(raw).value[i])
    ensures forall i | 0 <= i < |raw.fields| :: raw.fields[i].name in names
  {
    LookedUp(raw.fields, names);
  }

  lemma {:induction false} LookedUp(fields: seq<Member>, names: seq<string>)
    requires LookupAll(fields, names).Some?
    ensures forall i | 0 <= i < |names| :: Lookup(fields, names[i]) == Some(LookupAll(fields, names).value[i])
  {
    if names != [] {
      LookedUp(fields, names[1..]);
    }
  }

  lemma {:induction false} RenderedFields(v: View, names: seq<string>, values: seq<Json>)
    requires names == ["schema_version", "surface", "view_id", "view_version", "root", "actions"]
    requires Document(RenderView(v)) == Some(values)
    ensures |values| == 6 && forall i | 0 <= i < 6 :: Lookup(RenderView(v).fields, names[i]) == Some(values[i])
  {
    LookedUp(RenderView(v).fields, names);
  }

  lemma {:induction false} ViewValuesKept(raw: Json, commands: set<string>, rules: Rules)
    requires TidyRules(rules) && ReadView(raw, commands, rules).Some?
    ensures var v, fields := ReadView(raw, commands, rules).value, Document(raw).value;
            && Kept(fields[0], Num(1.0)) && Kept(fields[1], Str(if v.surface.Panel? then "panel" else "overlay"))
            && Kept(fields[2], Str(v.id)) && Kept(fields[3], Num(v.version as real))
            && Kept(fields[4], Render(v.root)) && Kept(fields[5], Arr(RenderActions(v.actions)))
  {
    var fields := Document(raw).value;
    ShapeKept(fields[4], 1, rules);
    ActionsKept(fields[5], commands);
  }

  /** The names of the fields, and what they held when sent and hold when written again. */
  lemma {:induction false} SixFields(raw: Json, commands: set<string>, rules: Rules) returns (names: seq<string>, sent: seq<Json>, kept: seq<Json>)
    requires TidyRules(rules) && ReadView(raw, commands, rules).Some?
    ensures var out := RenderView(ReadView(raw, commands, rules).value);
            && |names| == 6 && Document(raw) == Some(sent) && Document(out) == Some(kept) && |sent| == 6 && |kept| == 6
            && (forall i | 0 <= i < 6 :: Lookup(raw.fields, names[i]) == Some(sent[i]))
            && (forall i | 0 <= i < 6 :: Lookup(out.fields, names[i]) == Some(kept[i]))
            && (forall i | 0 <= i < |raw.fields| :: raw.fields[i].name in names)
  {
    var v := ReadView(raw, commands, rules).value;
    names := ["schema_version", "surface", "view_id", "view_version", "root", "actions"];
    DocumentFields(raw, names);
    DocumentBack(v);
    sent, kept := Document(raw).value, Document(RenderView(v)).value;
    RenderedFields(v, names, kept);
  }

  lemma {:induction false} SixKept(raw: Json, commands: set<string>, rules: Rules, sent: seq<Json>, kept: seq<Json>)
    requires TidyRules(rules) && ReadView(raw, commands, rules).Some?
    requires Document(raw) == Some(sent) && Document(RenderView(ReadView(raw, commands, rules).value)) == Some(kept)
    ensures |sent| == |kept| == 6 && forall i | 0 <= i < 6 :: Kept(sent[i], kept[i])
  {
    DocumentBack(ReadView(raw, commands, rules).value);
    ViewValuesKept(raw, commands, rules);
  }

  /** A document that is read holds, written again, every field as it was sent. */
  lemma {:induction false} ViewKept(raw: Json, commands: set<string>, rules: Rules)
    requires TidyRules(rules) && ReadView(raw, commands, rules).Some?
    ensures Kept(raw, RenderView(ReadView(raw, commands, rules).value))
  {
    var names, sent, kept := SixFields(raw, commands, rules);
    SixKept(raw, commands, rules, sent, kept);
    var out := RenderView(ReadView(raw, commands, rules).value);
    NamedKept(raw.fields, out, names, sent, kept);
  }

  /** Fields that are all among some names are kept if the values under those names are. */
  lemma {:induction false} NamedKept(fields: seq<Member>, out: Json, names: seq<string>, sent: seq<Json>, kept: seq<Json>)
    requires out.Obj? && |sent| == |names| && |kept| == |names|
    requires forall i | 0 <= i < |names| :: Lookup(fields, names[i]) == Some(sent[i])
    requires forall i | 0 <= i < |names| :: Lookup(out.fields, names[i]) == Some(kept[i])
    requires forall i | 0 <= i < |names| :: Kept(sent[i], kept[i])
    requires forall i | 0 <= i < |fields| :: fields[i].name in names
    ensures Kept(Obj(fields), out)
  {
    forall i | 0 <= i < |fields| && First(fields, i)
      ensures FieldKept(fields[i].name, fields[i].value, out)
    {
      LookupAt(fields, i);
      var k :| 0 <= k < |names| && names[k] == fields[i].name;
      assert Kept(sent[k], kept[k]);
    }
  }

  /** Nothing that a plugin sends in an accepted view is altered or left out. */
  lemma {:induction false} AcceptedIsUnaltered(raw: Json, options: Options, safe: string -> bool)
    requires Judge(raw, options, StandardRules(safe)).Accepted?
    ensures Kept(raw, RenderView(Judge(raw, options, StandardRules(safe)).view))
  {
    StandardRulesTidy(safe);
    ViewKept(raw, options.commands, StandardRules(safe));
  }
}
