/** What a caller may rely on once a plugin view has been accepted. */
module PluginGuarantees {
  import opened Outcome
  import opened PluginSchema
  import opened PluginShape
  import opened PluginAccounting
  import opened PluginNormalForm
  import opened PluginView

  /** The parser's own table of component types; the markdown check stays a parameter. */
  function StandardRules(safe: string -> bool): Rules { Rules(FieldsOf, safe) }

  // ----- marks that satisfy a condition

  ghost predicate Only(ms: seq<Mark>, good: Mark -> bool) { forall i | 0 <= i < |ms| :: good(ms[i]) }

  lemma {:induction false} OnlyConcat(a: seq<Mark>, b: seq<Mark>, good: Mark -> bool)
    ensures Only(a + b, good) <==> Only(a, good) && Only(b, good)
  {
    assert forall i | 0 <= i < |a| :: (a + b)[i] == a[i];
    assert forall i | 0 <= i < |b| :: (a + b)[|a| + i] == b[i];
  }

  /** Everything but component nodes is good. */
  ghost predicate Lenient(good: Mark -> bool) { forall m: Mark :: !m.Node? ==> good(m) }

  ghost predicate KidsOnly(kid: Json -> Option<Component>, depth: nat, good: Mark -> bool) {
    forall j :: kid(j).Some? ==> Only(Trace(kid(j).value, depth), good)
  }

  lemma {:induction false} KidTraceOnly(xs: seq<Json>, kid: Json -> Option<Component>, depth: nat, good: Mark -> bool)
    requires KidsOnly(kid, depth, good) && All(xs, kid).Some?
    ensures Only(TraceKids(All(xs, kid).value, depth), good)
  {
    if xs != [] {
      var n := |xs| - 1;
      KidTraceOnly(xs[..n], kid, depth, good);
      var front, last := All(xs[..n], kid).value, kid(xs[n]).value;
      assert (front + [last])[..|front|] == front;
      OnlyConcat(TraceKids(front, depth), Trace(last, depth), good);
    }
  }

  lemma {:induction false} LeafOnly(v: Json, kind: Kind, safe: string -> bool, kid: Json -> Option<Component>, depth: nat, good: Mark -> bool)
    requires Lenient(good) && (kind.Kids? ==> KidsOnly(kid, depth + 1, good)) && Leaf(v, kind, safe, kid).Some?
    ensures Only(TraceValue(Leaf(v, kind, safe, kid).value, depth), good)
  {
    if kind.Kids? {
      KidTraceOnly(v.items, kid, depth + 1, good);
    }
  }

  ghost predicate ReaderOnly(read: Reader, kind: Kind, depth: nat, good: Mark -> bool) {
    forall v, done :: read(v, kind, done).Some? ==> Only(TraceValue(read(v, kind, done).value, depth), good)
  }

  ghost predicate SchemaOnly(schema: seq<Field>, read: Reader, depth: nat, good: Mark -> bool) {
    forall i | 0 <= i < |schema| :: ReaderOnly(read, schema[i].kind, depth, good)
  }

  /** Reading one field adds at most one entry, and that one is good. */
  lemma {:induction false} FieldOnly(v: Option<Json>, f: Field, done: seq<Entry>, read: Reader, depth: nat, good: Mark -> bool)
    requires ReaderOnly(read, f.kind, depth, good) && Only(TraceEntries(done, depth), good)
    requires ReadField(v, f, done, read).Some?
    ensures Only(TraceEntries(ReadField(v, f, done, read).value, depth), good)
  {
    var next := ReadField(v, f, done, read).value;
    if |next| != |done| {
      var e := next[|next| - 1];
      assert next[..|next| - 1] == done;
      OnlyConcat(TraceEntries(done, depth), TraceValue(e.value, depth), good);
    }
  }

  lemma {:induction false} EntriesOnly(fields: seq<Member>, schema: seq<Field>, done: seq<Entry>, read: Reader, depth: nat, good: Mark -> bool)
    requires SchemaOnly(schema, read, depth, good) && Only(TraceEntries(done, depth), good)
    requires Entries(fields, schema, done, read).Some?
    ensures Only(TraceEntries(Entries(fields, schema, done, read).value, depth), good)
    decreases |schema|
  {
    if schema != [] {
      var v, rest := Lookup(fields, schema[0].name), schema[1..];
      assert ReaderOnly(read, schema[0].kind, depth, good);
      FieldOnly(v, schema[0], done, read, depth, good);
      SchemaTail(schema, read, depth, good);
      EntriesOnly(fields, rest, ReadField(v, schema[0], done, read).value, read, depth, good);
    }
  }

  lemma {:induction false} SchemaTail(schema: seq<Field>, read: Reader, depth: nat, good: Mark -> bool)
    requires schema != [] && SchemaOnly(schema, read, depth, good)
    ensures SchemaOnly(schema[1..], read, depth, good)
  {
    assert forall i | 0 <= i < |schema[1..]| :: schema[1..][i] == schema[i + 1];
  }

  lemma {:induction false} ItemTraceOnly(xs: seq<Json>, schema: seq<Field>, read: Reader, depth: nat, good: Mark -> bool)
    requires SchemaOnly(schema, read, depth, good) && All(xs, ItemReader(schema, read)).Some?
    ensures Only(TraceItems(All(xs, ItemReader(schema, read)).value, depth), good)
  {
    if xs != [] {
      var n := |xs| - 1;
      ItemTraceOnly(xs[..n], schema, read, depth, good);
      var front, last := All(xs[..n], ItemReader(schema, read)).value, ReadItem(xs[n], schema, read).value;
      EntriesOnly(xs[n].fields, schema, [], read, depth, good);
      assert (front + [last])[..|front|] == front;
      OnlyConcat(TraceItems(front, depth), TraceEntries(last.entries, depth), good);
    }
  }

  lemma {:induction false} CellsOnly(cs: seq<Cell>, good: Mark -> bool)
    requires Lenient(good)
    ensures Only(TraceCells(cs), good)
  {
    if cs != [] {
      CellsOnly(cs[..|cs| - 1], good);
    }
  }

  lemma {:induction false} RowsOnly(rs: seq<Row>, good: Mark -> bool)
    requires Lenient(good)
    ensures Only(TraceRows(rs), good)
  {
    if rs != [] {
      RowsOnly(rs[..|rs| - 1], good);
      CellsOnly(rs[|rs| - 1].cells, good);
      OnlyConcat(TraceRows(rs[..|rs| - 1]), TraceCells(rs[|rs| - 1].cells), good);
    }
  }

  lemma {:induction false} LeafReaderOnly(schema: seq<Field>, safe: string -> bool, kid: Json -> Option<Component>, depth: nat, good: Mark -> bool)
    requires Lenient(good) && KidsOnly(kid, depth + 1, good)
    ensures SchemaOnly(schema, LeafReader(safe, kid), depth, good)
  {
    forall i, v: Json | 0 <= i < |schema| && Leaf(v, schema[i].kind, safe, kid).Some?
      ensures Only(TraceValue(Leaf(v, schema[i].kind, safe, kid).value, depth), good)
    {
      LeafOnly(v, schema[i].kind, safe, kid, depth, good);
    }
  }

  lemma {:induction false} ReadValueOnly(v: Json, kind: Kind, done: seq<Entry>, safe: string -> bool, kid: Json -> Option<Component>, depth: nat, good: Mark -> bool)
    requires Lenient(good) && ReadValue(v, kind, done, safe, kid).Some?
    requires KidsOnly(kid, depth + 1, good) || !(kind.Kids? || kind.Items?)
    ensures Only(TraceValue(ReadValue(v, kind, done, safe, kid).value, depth), good)
  {
    match kind
    case Items(_, _, schema) =>
      LeafReaderOnly(schema, safe, kid, depth, good);
      ItemTraceOnly(v.items, schema, LeafReader(safe, kid), depth, good);
    case Rows => RowsOnly(ReadValue(v, kind, done, safe, kid).value.rows, good);
    case _ => LeafOnly(v, kind, safe, kid, depth, good);
  }

  lemma {:induction false} FieldsOnly(schema: seq<Field>, safe: string -> bool, kid: Json -> Option<Component>, depth: nat, good: Mark -> bool)
    requires Lenient(good)
    requires KidsOnly(kid, depth + 1, good) || forall i | 0 <= i < |schema| :: !(schema[i].kind.Kids? || schema[i].kind.Items?)
    ensures SchemaOnly(schema, FieldReader(safe, kid), depth, good)
  {
    forall i, v: Json, done: seq<Entry> | 0 <= i < |schema| && ReadValue(v, schema[i].kind, done, safe, kid).Some?
      ensures Only(TraceValue(ReadValue(v, schema[i].kind, done, safe, kid).value, depth), good)
    {
      ReadValueOnly(v, schema[i].kind, done, safe, kid, depth, good);
    }
  }

  // ----- depth

  function Shallow(): Mark -> bool { (m: Mark) => m.Node? ==> m.depth <= 8 }

  /** Every component of an accepted tree sits at depth eight or less. */
  lemma {:induction false} DepthBounded(raw: Json, depth: nat, rules: Rules)
    requires Shape(raw, depth, rules).Some?
    ensures Only(Trace(Shape(raw, depth, rules).value, depth), Shallow())
    decreases MaxDepth + 1 - depth
  {
    var kid := KidReader(depth, rules);
    forall j: Json | kid(j).Some?
      ensures Only(Trace(kid(j).value, depth + 1), Shallow())
    {
      DepthBounded(j, depth + 1, rules);
    }
    var schema := Header(raw, rules).value.2;
    FieldsOnly(schema, rules.safe, kid, depth, Shallow());
    EntriesOnly(raw.fields, schema, [], FieldReader(rules.safe, kid), depth, Shallow());
    var c := Shape(raw, depth, rules).value;
    OnlyConcat([Node(c.id, c.kind, depth), Chars(|c.kind|)], TraceEntries(c.entries, depth), Shallow());
  }

  // ----- overlays

  function NoNode(): Mark -> bool { (m: Mark) => !m.Node? }

  lemma {:induction false} IdsConcat(a: seq<Mark>, b: seq<Mark>)
    ensures Ids(a + b) == Ids(a) + Ids(b)
  {
    if b == [] {
      assert a + b == a;
    } else {
      assert (a + b)[..|a + b| - 1] == a + b[..|b| - 1];
      IdsConcat(a, b[..|b| - 1]);
    }
  }

  lemma {:induction false} NoNodeNoIds(ms: seq<Mark>)
    requires Only(ms, NoNode())
    ensures Ids(ms) == []
  {
    if ms != [] {
      NoNodeNoIds(ms[..|ms| - 1]);
    }
  }

  lemma {:induction false} ActionsNoNode(xs: seq<Action>)
    ensures Only(ActionMarks(xs), NoNode())
  {
    if xs != [] {
      ActionsNoNode(xs[..|xs| - 1]);
    }
  }

  /** No component type that an overlay may use has children. */
  lemma {:induction false} OverlayKindsAreLeaves(kind: string)
    requires OverlayKind(kind)
    ensures FieldsOf(kind).Some?
    ensures var schema := FieldsOf(kind).value;
            forall i | 0 <= i < |schema| :: !(schema[i].kind.Kids? || schema[i].kind.Items?)
  {
  }

  lemma {:induction false} RootIds(c: Component, depth: nat)
    requires Only(TraceEntries(c.entries, depth), NoNode())
    ensures Ids(Trace(c, depth)) == [c.id]
  {
    var head := [Node(c.id, c.kind, depth), Chars(|c.kind|)];
    IdsConcat(head, TraceEntries(c.entries, depth));
    NoNodeNoIds(TraceEntries(c.entries, depth));
    assert head[..1] == [Node(c.id, c.kind, depth)];
    assert Ids(head[..1]) == [c.id];
    assert Ids(head) == [c.id];
  }

  /** An accepted overlay is exactly one component. */
  lemma {:induction false} OverlayIsOneNode(raw: Json, options: Options, safe: string -> bool)
    ensures var r := Judge(raw, options, StandardRules(safe));
            r.Accepted? && r.view.surface.Overlay? ==> Ids(Marks(r.view)) == [r.view.root.id]
  {
    var r := Judge(raw, options, StandardRules(safe));
    if r.Accepted? && r.view.surface.Overlay? {
      OverlayRootIsLeaf(raw, r.view, options, safe);
    }
  }

  lemma {:induction false} OverlayRootIsLeaf(raw: Json, v: View, options: Options, safe: string -> bool)
    requires ReadView(raw, options.commands, StandardRules(safe)) == Some(v) && Sound(v, options) && v.surface.Overlay?
    ensures Ids(Marks(v)) == [v.root.id]
  {
    var rules := StandardRules(safe);
    var tree := Document(raw).value[4];
    var root, schema := v.root, Header(tree, rules).value.2;
    assert Marks(v)[0] == Node(root.id, root.kind, 1);
    assert Marks(v)[0] in Marks(v) && root.kind in KindsOf(Marks(v));
    OverlayKindsAreLeaves(root.kind);
    FieldsOnly(schema, safe, KidReader(1, rules), 1, NoNode());
    EntriesOnly(tree.fields, schema, [], FieldReader(safe, KidReader(1, rules)), 1, NoNode());
    RootIds(root, 1);
    ActionsNoNode(v.actions);
    NoNodeNoIds(ActionMarks(v.actions));
    IdsConcat(Trace(root, 1), ActionMarks(v.actions));
  }

  // ----- acceptance

  lemma {:induction false} ActionIdAt(xs: seq<Action>)
    ensures |ActionIds(xs)| == |xs| && forall i | 0 <= i < |xs| :: ActionIds(xs)[i] == xs[i].id
  {
    if xs != [] {
      ActionIdAt(xs[..|xs| - 1]);
    }
  }

  lemma {:induction false} ActionsAllowed(xs: seq<Json>, commands: set<string>)
    requires All(xs, ActionReader(commands)).Some?
    ensures var ys := All(xs, ActionReader(commands)).value;
            forall i | 0 <= i < |ys| :: ys[i].command in commands && CommandName(ys[i].command)
  {
    var ys := All(xs, ActionReader(commands)).value;
    AllIff(xs, ys, ActionReader(commands));
    forall i | 0 <= i < |ys|
      ensures ys[i].command in commands && CommandName(ys[i].command)
    {
      assert ReadAction(xs[i], commands) == Some(ys[i]);
    }
  }

  /** `a` is the one declared action with identifier `id`, and its command is allowed. */
  ghost predicate Resolves(v: View, id: string, commands: set<string>, i: nat) {
    && i < |v.actions| && v.actions[i].id == id && v.actions[i].command in commands && CommandName(v.actions[i].command)
    && forall j | 0 <= j < |v.actions| && v.actions[j].id == id :: j == i
  }

  /**
    * Of every accepted view: at most eight levels, at most 200 components with distinct
    * identifiers, at most 64,000 counted characters, and every action reference resolves to
    * exactly one declared action with an allowed command.
    */
  lemma {:induction false} AcceptedIsBounded(raw: Json, options: Options, rules: Rules)
    requires Judge(raw, options, rules).Accepted?
    ensures var v := Judge(raw, options, rules).view;
            && Only(Trace(v.root, 1), Shallow())
            && Distinct(Ids(Marks(v))) && |Ids(Marks(v))| <= 200 && CharCount(Marks(v)) <= 64_000
            && forall x | x in Mentions(Marks(v)) :: exists i :: Resolves(v, x, options.commands, i)
  {
    var v := Judge(raw, options, rules).view;
    var fields := Document(raw).value;
    DepthBounded(fields[4], 1, rules);
    ActionsAllowed(fields[5].items, options.commands);
    forall x | x in Mentions(Marks(v))
      ensures exists i :: Resolves(v, x, options.commands, i)
    {
      var i := ReferenceResolves(v, x);
      assert Resolves(v, x, options.commands, i);
    }
  }

  lemma {:induction false} ReferenceResolves(v: View, x: string) returns (i: nat)
    requires Distinct(ActionIds(v.actions)) && x in ActionIds(v.actions)
    ensures i < |v.actions| && v.actions[i].id == x
    ensures forall j | 0 <= j < |v.actions| && v.actions[j].id == x :: j == i
  {
    ActionIdAt(v.actions);
    var ids := ActionIds(v.actions);
    i :| 0 <= i < |ids| && ids[i] == x;
    forall j | 0 <= j < |v.actions| && v.actions[j].id == x
      ensures j == i
    {
      assert ids[j] == ids[i];
    }
  }

  // ----- normal form

  function RenderAction(a: Action): Json {
    Obj([Member("id", Str(a.id)), Member("kind", Str("command")), Member("command", Str(a.command))])
  }

  function RenderActions(xs: seq<Action>): seq<Json> {
    if xs == [] then [] else [RenderAction(xs[0])] + RenderActions(xs[1..])
  }

  function RenderView(v: View): Json {
    Obj([Member("schema_version", Num(1.0)),
         Member("surface", Str(if v.surface.Panel? then "panel" else "overlay")),
         Member("view_id", Str(v.id)),
         Member("view_version", Num(v.version as real)),
         Member("root", Render(v.root)),
         Member("actions", Arr(RenderActions(v.actions)))])
  }

  lemma {:induction false} RenderActionsAt(xs: seq<Action>)
    ensures |RenderActions(xs)| == |xs| && forall i | 0 <= i < |xs| :: RenderActions(xs)[i] == RenderAction(xs[i])
  {
    if xs != [] {
      RenderActionsAt(xs[1..]);
    }
  }

  lemma {:induction false} ActionBack(a: Action, commands: set<string>)
    requires Stable(a.id) && CommandName(a.command) && a.command in commands
    ensures ReadAction(RenderAction(a), commands) == Some(a)
  {
    var m := RenderAction(a).fields;
    LookupAt(m, 0);
    LookupAt(m, 1);
    LookupAt(m, 2);
    assert OnlyKeys(m, ["id", "kind", "command"]);
  }

  lemma {:induction false} ActionsBack(xs: seq<Json>, commands: set<string>)
    requires All(xs, ActionReader(commands)).Some?
    ensures All(RenderActions(All(xs, ActionReader(commands)).value), ActionReader(commands)) == All(xs, ActionReader(commands))
  {
    var ys := All(xs, ActionReader(commands)).value;
    AllIff(xs, ys, ActionReader(commands));
    RenderActionsAt(ys);
    forall i | 0 <= i < |ys|
      ensures ActionReader(commands)(RenderActions(ys)[i]) == Some(ys[i])
    {
      assert ReadAction(xs[i], commands) == Some(ys[i]);
      ActionBack(ys[i], commands);
    }
    AllIff(RenderActions(ys), ys, ActionReader(commands));
  }

  lemma {:induction false} DocumentBack(v: View)
    ensures Document(RenderView(v)) == Some(
                                         [Num(1.0), Str(if v.surface.Panel? then "panel" else "overlay"), Str(v.id), Num(v.version as real), Render(v.root),
                                          Arr(RenderActions(v.actions))])
  {
    var m := RenderView(v).fields;
    var names := ["schema_version", "surface", "view_id", "view_version", "root", "actions"];
    var values := [Num(1.0), Str(if v.surface.Panel? then "panel" else "overlay"), Str(v.id), Num(v.version as real),
                   Render(v.root), Arr(RenderActions(v.actions))];
    assert forall i | 0 <= i < 6 :: m[i] == Member(names[i], values[i]);
    DocumentNamesApart(names);
    forall i | 0 <= i < 6
      ensures Lookup(m, names[i]) == Some(values[i])
    {
      LookupAt(m, i);
    }
    LookupAllIs(m, names, values);
    assert forall i | 0 <= i < 6 :: m[i].name == names[i];
  }

  lemma {:induction false} DocumentNamesApart(names: seq<string>)
    requires names == ["schema_version", "surface", "view_id", "view_version", "root", "actions"]
    ensures forall i, j | 0 <= i < j < 6 :: names[i] != names[j]
  {
    assert names[1][0] != names[2][0] && names[1][0] != names[5][0] && names[2][0] != names[5][0];
    assert |names[0]| == 14 && |names[3]| == 12 && |names[4]| == 4;
  }

  lemma {:induction false} LookupAt(m: seq<Member>, i: nat)
    requires i < |m| && forall j | 0 <= j < i :: m[j].name != m[i].name
    ensures Lookup(m, m[i].name) == Some(m[i].value)
  {
    if i > 0 {
      assert forall j | 0 <= j < i :: m[1..][j] == m[j + 1];
      LookupAt(m[1..], i - 1);
    }
  }

  lemma {:induction false} LookupAllIs(m: seq<Member>, names: seq<string>, values: seq<Json>)
    requires |names| == |values| && forall i | 0 <= i < |names| :: Lookup(m, names[i]) == Some(values[i])
    ensures LookupAll(m, names) == Some(values)
  {
    if names != [] {
      assert forall i | 0 <= i < |names| - 1 :: names[1..][i] == names[i + 1];
      LookupAllIs(m, names[1..], values[1..]);
      assert values == [values[0]] + values[1..];
    }
  }

  /** Writing a view and reading it again gives the same view. */
  lemma {:induction false} ViewBack(raw: Json, commands: set<string>, rules: Rules)
    requires TidyRules(rules) && ReadView(raw, commands, rules).Some?
    ensures ReadView(RenderView(ReadView(raw, commands, rules).value), commands, rules) == ReadView(raw, commands, rules)
  {
    var v := ReadView(raw, commands, rules).value;
    var fields := Document(raw).value;
    DocumentBack(v);
    ShapeBack(fields[4], 1, rules);
    ActionsBack(fields[5].items, commands);
    RenderActionsAt(v.actions);
    SurfaceBack(v.surface);
    AllLength(fields[5].items, ActionReader(commands));
  }

  lemma {:induction false} SurfaceBack(s: Surface)
    ensures ReadSurface(Str(if s.Panel? then "panel" else "overlay")) == Some(s)
  {
    assert |"panel"| == 5 && |"overlay"| == 7;
  }

  /**
    * Parsing is a normal form: the accepted view, written as JSON and parsed with the same
    * options, is accepted again and is the same view, so defaults are filled in once and
    * absent fields stay absent.
    */
  lemma {:induction false} ParsingIsNormalForm(raw: Json, options: Options, safe: string -> bool)
    ensures var r := Judge(raw, options, StandardRules(safe));
            r.Accepted? ==> Judge(RenderView(r.view), options, StandardRules(safe)) == r
  {
    if Judge(raw, options, StandardRules(safe)).Accepted? {
      StandardRulesTidy(safe);
      ViewBack(raw, options.commands, StandardRules(safe));
    }
  }

  // ----- the view shown after a failure

  function SafeFields(): seq<Field> { [Need("title", Text(500)), Need("message", Text(4_000))] }

  lemma {:induction false} SafeHeader(safe: string -> bool)
    ensures var c := SafeView().root;
            Header(Render(c), StandardRules(safe)) == Some((c.id, c.kind, SafeFields()))
  {
    var c := SafeView().root;
    SafeMembers(c, Render(c).fields);
    ErrorStateFields();
    assert ["id", "type"] + Names(SafeFields()) == ["id", "type", "title", "message"];
    SafeIdStable();
  }

  lemma {:induction false} ErrorStateFields()
    ensures FieldsOf("error_state") == Some(SafeFields()) && Names(SafeFields()) == ["title", "message"]
  {
    var m := Need("message", Text(4_000));
    assert SafeFields()[1..] == [m] && [m][1..] == [];
    assert Names([m]) == ["message"];
  }

  lemma {:induction false} SafeIdStable()
    ensures Stable("plugin-ui-error")
  {
  }

  lemma {:induction false} SafeEntries(read: Reader, m: seq<Member>)
    requires m == Render(SafeView().root).fields
    requires forall s: string, max: nat, done: seq<Entry> | |s| <= max :: read(Str(s), Text(max), done) == Some(TextOf(s))
    ensures Entries(m, SafeFields(), [], read) == Some(SafeView().root.entries)
  {
    var c, schema := SafeView().root, SafeFields();
    SafeMembers(c, m);
    var title, s, u := [c.entries[0]], c.entries[0].value.s, c.entries[1].value.s;
    assert |s| == 23 && |u| == 47;
    assert read(Str(s), Text(500), []) == Some(TextOf(s)) && read(Str(u), Text(4_000), title) == Some(TextOf(u));
    assert [] + [Entry("title", TextOf(s))] == title && title + [Entry("message", TextOf(u))] == c.entries;
    assert ReadField(Lookup(m, "title"), schema[0], [], read) == Some(title);
    assert ReadField(Lookup(m, "message"), schema[1], title, read) == Some(c.entries);
    assert schema[1..] == [schema[1]] && [schema[1]][1..] == [];
    assert Entries(m, schema[1..], title, read) == Some(c.entries);
  }

  lemma {:induction false} SafeRootReads(safe: string -> bool)
    ensures Shape(Render(SafeView().root), 1, StandardRules(safe)) == Some(SafeView().root)
  {
    SafeHeader(safe);
    SafeEntries(FieldReader(safe, KidReader(1, StandardRules(safe))), Render(SafeView().root).fields);
  }

  lemma {:induction false} SafeMembers(c: Component, m: seq<Member>)
    requires c == SafeView().root && m == Render(c).fields
    ensures Lookup(m, "id") == Some(Str(c.id)) && Lookup(m, "type") == Some(Str(c.kind))
    ensures Lookup(m, "title") == Some(RenderValue(c.entries[0].value))
    ensures Lookup(m, "message") == Some(RenderValue(c.entries[1].value))
    ensures OnlyKeys(m, ["id", "type", "title", "message"])
  {
    var e, f := c.entries[0], c.entries[1];
    assert c.entries[1..] == [f] && [f][1..] == [];
    assert m == [Member("id", Str(c.id)), Member("type", Str(c.kind)), Member(e.name, RenderValue(e.value)), Member(f.name, RenderValue(f.value))];
    LookupAt(m, 0);
    LookupAt(m, 1);
    LookupAt(m, 2);
    LookupAt(m, 3);
  }

  lemma {:induction false} SafeTrace()
    ensures var ms := Marks(SafeView());
            Ids(ms) == ["plugin-ui-error"] && CharCount(ms) == 81 && Mentions(ms) == [] && Times(ms) == []
  {
    var a, b, c, d := Node("plugin-ui-error", "error_state", 1), Chars(11), Chars(23), Chars(47);
    SafeMarks(a, b, c, d);
    TotalsSnoc([], a);
    TotalsSnoc([a], b);
    TotalsSnoc([a, b], c);
    TotalsSnoc([a, b, c], d);
    assert [] + [a] == [a] && [a] + [b] == [a, b] && [a, b] + [c] == [a, b, c] && [a, b, c] + [d] == [a, b, c, d];
  }

  lemma {:induction false} SafeMarks(a: Mark, b: Mark, c: Mark, d: Mark)
    requires a == Node("plugin-ui-error", "error_state", 1) && b == Chars(11) && c == Chars(23) && d == Chars(47)
    ensures Marks(SafeView()) == [a, b, c, d]
  {
    var root := SafeView().root;
    var e, f := root.entries[0], root.entries[1];
    assert root.entries[..1] == [e] && [e][..0] == [];
    assert TraceEntries([e], 1) == TraceEntries([], 1) + [c] == [c];
    assert TraceEntries(root.entries, 1) == [c] + [d] == [c, d];
    assert Trace(root, 1) == [a, b] + [c, d];
    assert ActionMarks(SafeView().actions) == [];
  }

  /**
    * The view shown in place of a refused one is itself an acceptable view, unless the media
    * duration is negative (then no view is) or a newer failure view is already shown.
    */
  lemma {:induction false} SafeViewIsAcceptable(options: Options, safe: string -> bool)
    ensures Judge(RenderView(SafeView()), options, StandardRules(safe)).Accepted? <==>
            (options.duration.Some? ==> options.duration.value >= 0.0) && !Superseded(SafeView(), options.previous)
  {
    SafeViewReads(options.commands, safe);
    SafeTrace();
  }

  lemma {:induction false} SafeViewReads(commands: set<string>, safe: string -> bool)
    ensures ReadView(RenderView(SafeView()), commands, StandardRules(safe)) == Some(SafeView())
  {
    SafeRootReads(safe);
    SafeIdStable();
    PlainViewReads(SafeView(), commands, StandardRules(safe));
  }

  /** A view without actions reads back if its root does. */
  lemma {:induction false} PlainViewReads(v: View, commands: set<string>, rules: Rules)
    requires v.actions == [] && Stable(v.id) && 1 <= v.version <= MaxSafe && Shape(Render(v.root), 1, rules) == Some(v.root)
    ensures ReadView(RenderView(v), commands, rules) == Some(v)
  {
    DocumentBack(v);
    SurfaceBack(v.surface);
  }

  // ----- the table of component types

  lemma {:induction false} StandardRulesTidy(safe: string -> bool)
    ensures TidyRules(StandardRules(safe))
  {
    forall kind: string | FieldsOf(kind).Some?
      ensures TidyType(FieldsOf(kind).value)
    {
      TypeTidy(kind);
    }
  }

  ghost predicate Apart(schema: seq<Field>) {
    forall i, j | 0 <= i < j < |schema| :: schema[i].name != schema[j].name
  }

  lemma {:induction false} NamesAt(schema: seq<Field>)
    ensures |Names(schema)| == |schema| && forall i | 0 <= i < |schema| :: Names(schema)[i] == schema[i].name
  {
    if schema != [] {
      NamesAt(schema[1..]);
    }
  }

  lemma {:induction false} ApartNoRepeat(schema: seq<Field>)
    requires Apart(schema)
    ensures NoRepeat(Names(schema))
  {
    if schema != [] {
      NamesAt(schema);
      assert Names(schema)[1..] == Names(schema[1..]);
      assert forall i | 0 <= i < |schema[1..]| :: schema[1..][i] == schema[i + 1];
      ApartNoRepeat(schema[1..]);
    }
  }

  /** Field names checked pairwise. */
  lemma {:induction false} TidyFrom(schema: seq<Field>)
    requires Apart(schema) && forall i | 0 <= i < |schema| :: schema[i].name !in ["id", "type"] && TidyField(schema[i])
    ensures TidyType(schema)
  {
    ApartNoRepeat(schema);
    NamesAt(schema);
    var all := ["id", "type"] + Names(schema);
    assert all[1..] == ["type"] + Names(schema) && all[1..][1..] == Names(schema);
    assert |"id"| == 2 && |"type"| == 4;
  }

  lemma {:induction false} TypeTidy(kind: string)
    requires FieldsOf(kind).Some?
    ensures TidyType(FieldsOf(kind).value)
  {
    if kind in ["text", "safe_markdown"] {
      ProseTypesTidy(kind);
    } else if kind in ["card", "section"] {
      FrameTypesTidy(kind);
    } else if kind in ["media_anchor", "badge"] {
      MarkTypesTidy(kind);
    } else if kind in ["metric", "progress"] {
      FigureTypesTidy(kind);
    } else if kind in ["input", "textarea"] {
      LineTypesTidy(kind);
    } else if kind in ["checkbox"] {
      BoxTypesTidy(kind);
    } else if kind in ["button", "confirmation"] {
      ActTypesTidy(kind);
    } else if kind in ["empty_state", "error_state"] {
      StateTypesTidy(kind);
    } else if kind in ["tabs", "list"] {
      TabTypesTidy(kind);
    } else if kind in ["table"] {
      GridTypesTidy(kind);
    } else if kind in ["timeline"] {
      TimeTypesTidy(kind);
    } else {
      OptionTypesTidy(kind);
    }
  }

  lemma {:induction false} ProseTypesTidy(kind: string)
    requires kind in ["text", "safe_markdown"]
    ensures FieldsOf(kind).Some? && TidyType(FieldsOf(kind).value)
  {
    TidyFrom(FieldsOf(kind).value);
  }

  lemma {:induction false} FrameTypesTidy(kind: string)
    requires kind in ["card", "section"]
    ensures FieldsOf(kind).Some? && TidyType(FieldsOf(kind).value)
  {
    TidyFrom(FieldsOf(kind).value);
  }

  lemma {:induction false} MarkTypesTidy(kind: string)
    requires kind in ["media_anchor", "badge"]
    ensures FieldsOf(kind).Some? && TidyType(FieldsOf(kind).value)
  {
    TidyFrom(FieldsOf(kind).value);
  }

  lemma {:induction false} FigureTypesTidy(kind: string)
    requires kind in ["metric", "progress"]
    ensures FieldsOf(kind).Some? && TidyType(FieldsOf(kind).value)
  {
    TidyFrom(FieldsOf(kind).value);
  }

  lemma {:induction false} LineTypesTidy(kind: string)
    requires kind in ["input", "textarea"]
    ensures FieldsOf(kind).Some? && TidyType(FieldsOf(kind).value)
  {
    TidyFrom(FieldsOf(kind).value);
  }

  lemma {:induction false} BoxTypesTidy(kind: string)
    requires kind in ["checkbox"]
    ensures FieldsOf(kind).Some? && TidyType(FieldsOf(kind).value)
  {
    TidyFrom(FieldsOf(kind).value);
  }

  lemma {:induction false} ActTypesTidy(kind: string)
    requires kind in ["button", "confirmation"]
    ensures FieldsOf(kind).Some? && TidyType(FieldsOf(kind).value)
  {
    TidyFrom(FieldsOf(kind).value);
  }

  lemma {:induction false} StateTypesTidy(kind: string)
    requires kind in ["empty_state", "error_state"]
    ensures FieldsOf(kind).Some? && TidyType(FieldsOf(kind).value)
  {
    TidyFrom(FieldsOf(kind).value);
  }

  lemma {:induction false} TabTypesTidy(kind: string)
    requires kind in ["tabs", "list"]
    ensures FieldsOf(kind).Some? && TidyType(FieldsOf(kind).value)
  {
    ListTidy(FieldsOf(kind).value);
  }

  lemma {:induction false} GridTypesTidy(kind: string)
    requires kind in ["table"]
    ensures FieldsOf(kind).Some? && TidyType(FieldsOf(kind).value)
  {
    ListTidy(FieldsOf(kind).value);
  }

  lemma {:induction false} TimeTypesTidy(kind: string)
    requires kind in ["timeline"]
    ensures FieldsOf(kind).Some? && TidyType(FieldsOf(kind).value)
  {
    ListTidy(FieldsOf(kind).value);
  }

  lemma {:induction false} OptionTypesTidy(kind: string)
    requires kind in ["select"]
    ensures FieldsOf(kind).Some? && TidyType(FieldsOf(kind).value)
  {
    ListTidy(FieldsOf(kind).value);
  }

  /** A schema with lists of items. */
  lemma {:induction false} ListTidy(schema: seq<Field>)
    requires Apart(schema)
    requires forall i | 0 <= i < |schema| :: schema[i].name !in ["id", "type"] && !schema[i].presence.Default?
    requires forall i | 0 <= i < |schema| && schema[i].kind.Items? ::
               Apart(schema[i].kind.fields) && forall j | 0 <= j < |schema[i].kind.fields| :: !schema[i].kind.fields[j].presence.Default?
    ensures TidyType(schema)
  {
    forall i | 0 <= i < |schema|
      ensures TidyField(schema[i])
    {
      if schema[i].kind.Items? {
        ApartNoRepeat(schema[i].kind.fields);
      }
    }
    TidyFrom(schema);
  }
}
