/** Whole plugin views: the document around the component tree, and what acceptance guarantees. */
module PluginView {
  import opened Outcome
  import opened PluginSchema
  import opened PluginShape
  import opened PluginAccounting
  import opened PluginParser

  datatype Surface = Panel | Overlay

  datatype Action = Action(id: string, command: string)

  datatype View = View(surface: Surface, id: string, version: int, root: Component, actions: seq<Action>)

  datatype Options = Options(commands: set<string>, previous: Option<View>, duration: Option<real>)

  function ReadAction(raw: Json, commands: set<string>): Option<Action> {
    if raw.Obj? && OnlyKeys(raw.fields, ["id", "kind", "command"]) then
      match (Lookup(raw.fields, "id"), Lookup(raw.fields, "kind"), Lookup(raw.fields, "command"))
      case (Some(Str(id)), Some(Str(kind)), Some(Str(command))) =>
        if Stable(id) && kind == "command" && |command| <= 64 && CommandName(command) && command in commands
        then Some(Action(id, command)) else None
      case _ => None
    else None
  }

  function ActionReader(commands: set<string>): Json -> Option<Action> { v => ReadAction(v, commands) }

  function ReadSurface(v: Json): Option<Surface> {
    if v == Str("panel") then Some(Panel) else if v == Str("overlay") then Some(Overlay) else None
  }

  /** The six fields of a document, if they are all there and no other is. */
  function Document(raw: Json): Option<seq<Json>> {
    var names := ["schema_version", "surface", "view_id", "view_version", "root", "actions"];
    if raw.Obj? && OnlyKeys(raw.fields, names) then LookupAll(raw.fields, names) else None
  }

  function LookupAll(fields: seq<Member>, names: seq<string>): (r: Option<seq<Json>>)
    ensures r.Some? ==> |r.value| == |names|
  {
    if names == [] then Some([])
    else
      var first, rest := Lookup(fields, names[0]), LookupAll(fields, names[1..]);
      if first.Some? && rest.Some? then Some([first.value] + rest.value) else None
  }

  /** A document as a view, with every reading done and nothing counted. */
  function ReadView(raw: Json, commands: set<string>, rules: Rules): Option<View> {
    match Document(raw)
    case None => None
    case Some(fields) =>
      if |fields| != 6 || fields[0] != Num(1.0) then None
      else
        var surface, root := ReadSurface(fields[1]), Shape(fields[4], 1, rules);
        if surface.Some? && fields[2].Str? && Stable(fields[2].s) && IntegerIn(fields[3], 1, MaxSafe) && root.Some?
           && fields[5].Arr? && |fields[5].items| <= MaxActions && All(fields[5].items, ActionReader(commands)).Some?
        then Some(View(surface.value, fields[2].s, fields[3].n.Floor, root.value, All(fields[5].items, ActionReader(commands)).value))
        else None
  }

  function ActionMarks(xs: seq<Action>): seq<Mark> {
    if xs == [] then [] else ActionMarks(xs[..|xs| - 1]) + [Chars(|xs[|xs| - 1].command|)]
  }

  /** Everything the parser counts in a view. */
  function Marks(v: View): seq<Mark> { Trace(v.root, 1) + ActionMarks(v.actions) }

  function ActionIds(xs: seq<Action>): seq<string> {
    if xs == [] then [] else ActionIds(xs[..|xs| - 1]) + [xs[|xs| - 1].id]
  }

  /** The conditions on the document as a whole, in terms of its trace alone. */
  ghost predicate Sound(v: View, options: Options) {
    var ms := Marks(v);
    && Distinct(Ids(ms)) && |Ids(ms)| <= MaxNodes && CharCount(ms) <= MaxChars
    && Distinct(ActionIds(v.actions)) && (forall x | x in Mentions(ms) :: x in ActionIds(v.actions))
    && (v.surface.Overlay? ==> forall k | k in KindsOf(ms) :: OverlayKind(k))
    && (options.duration.Some? ==>
          options.duration.value >= 0.0 && forall t | t in Times(ms) :: t as real <= options.duration.value)
  }

  predicate Superseded(v: View, previous: Option<View>) {
    && previous.Some? && previous.value.surface == v.surface && previous.value.id == v.id
    && v.version <= previous.value.version
  }

  datatype Verdict = Accepted(view: View) | Invalid(shown: View) | Stale(shown: View)

  /** `safeFailure`. */
  function SafeView(): View {
    View(Panel, "plugin-ui-error", 1,
         Component("plugin-ui-error", "error_state",
                   [Entry("title", TextOf("Plugin view unavailable")),
                    Entry("message", TextOf("This plugin view could not be displayed safely."))]),
         [])
  }

  /** What parsing a view means. */
  ghost function Judge(raw: Json, options: Options, rules: Rules): Verdict {
    var v := ReadView(raw, options.commands, rules);
    if v.None? || !Sound(v.value, options) then Invalid(SafeView())
    else if Superseded(v.value, options.previous) then Stale(SafeView())
    else Accepted(v.value)
  }

  // ----- the parser as it runs

  /** `parseAction`. */
  method ParseAction(context: ParseContext, raw: Json, commands: set<string>) returns (r: Option<Action>)
    modifies context
    ensures var spec := ReadAction(raw, commands);
            Accounted(r, spec, if spec.Some? then [Chars(|spec.value.command|)] else [], old(context.Now()), context.Now())
  {
    if !raw.Obj? || !OnlyKeys(raw.fields, ["id", "kind", "command"]) {
      return None;
    }
    var id, kind, command := Lookup(raw.fields, "id"), Lookup(raw.fields, "kind"), Lookup(raw.fields, "command");
    if id.None? || !id.value.Str? || !Stable(id.value.s) || kind != Some(Str("command")) || command.None? {
      return None;
    }
    var name := context.ReadString(command.value, 64);
    if command.value.Str? {
      AbsorbOne(old(context.Now()), Chars(|command.value.s|));
    }
    if name.None? || !CommandName(name.value) || name.value !in commands {
      return None;
    }
    return Some(Action(id.value.s, name.value));
  }

  method ParseActions(context: ParseContext, xs: seq<Json>, commands: set<string>) returns (r: Option<seq<Action>>)
    modifies context
    ensures var spec := All(xs, ActionReader(commands));
            Accounted(r, spec, if spec.Some? then ActionMarks(spec.value) else [], old(context.Now()), context.Now())
    decreases |xs|
  {
    if xs == [] {
      return Some([]);
    }
    var n := |xs| - 1;
    ActionsStep(xs, commands, context.Now());
    var front := ParseActions(context, xs[..n], commands);
    if front.None? {
      return None;
    }
    var last := ParseAction(context, xs[n], commands);
    if last.None? {
      return None;
    }
    return Some(front.value + [last.value]);
  }

  lemma {:induction false} ActionsStep(xs: seq<Json>, commands: set<string>, before: Context)
    requires xs != []
    ensures var n := |xs| - 1;
            var front, last, all := All(xs[..n], ActionReader(commands)), ReadAction(xs[n], commands), All(xs, ActionReader(commands));
            && (all.Some? <==> front.Some? && last.Some?)
            && (all.Some? ==>
                  var m := [Chars(|last.value.command|)];
                  && all.value == front.value + [last.value]
                  && Absorb(before, ActionMarks(all.value)) == Absorb(Absorb(before, ActionMarks(front.value)), m)
                  && (Fits(before, ActionMarks(all.value)) <==>
                      Fits(before, ActionMarks(front.value)) && Fits(Absorb(before, ActionMarks(front.value)), m)))
  {
    var n := |xs| - 1;
    var front, last, all := All(xs[..n], ActionReader(commands)), ReadAction(xs[n], commands), All(xs, ActionReader(commands));
    if all.Some? {
      assert all.value[..|all.value| - 1] == front.value;
      AbsorbConcat(before, ActionMarks(front.value), [Chars(|last.value.command|)]);
    }
  }

  lemma {:induction false} SetSize(xs: seq<string>)
    ensures |Set(xs)| <= |xs| && (|Set(xs)| == |xs| <==> Distinct(xs))
  {
    if xs != [] {
      var front, last := xs[..|xs| - 1], xs[|xs| - 1];
      assert xs == front + [last];
      SetSize(front);
      SetSnoc(front, last);
      DistinctSnoc(front, last);
    }
  }

  /** The checks that end `parseDocument`, on the context as the parser left it. */
  predicate Closing(c: Context, surface: Surface, actions: seq<Action>, duration: Option<real>) {
    && |Set(ActionIds(actions))| == |actions|
    && (forall x | x in c.mentions :: x in Set(ActionIds(actions)))
    && (surface.Overlay? ==> forall k | k in c.kinds :: OverlayKind(k))
    && (duration.Some? ==> duration.value >= 0.0 && forall t | t in c.times :: t as real <= duration.value)
    && c.nodes <= MaxNodes && c.chars <= MaxChars
  }

  lemma {:induction false} ActionIdCount(xs: seq<Action>)
    ensures |ActionIds(xs)| == |xs|
  {
    if xs != [] {
      ActionIdCount(xs[..|xs| - 1]);
    }
  }

  /** The running checks and the closing ones together are the conditions on the trace. */
  lemma {:induction false} ClosingIsSound(v: View, options: Options)
    ensures Fits(Fresh, Marks(v)) && Closing(Absorb(Fresh, Marks(v)), v.surface, v.actions, options.duration) <==> Sound(v, options)
  {
    AbsorbIsTotals(Marks(v));
    FitsIsBounds(Marks(v));
    SetSize(ActionIds(v.actions));
    ActionIdCount(v.actions);
    assert forall x :: x in Set(ActionIds(v.actions)) <==> x in ActionIds(v.actions);
  }

  /** The tree and the actions of a document, read with one context. */
  method ParseParts(context: ParseContext, root: Json, actions: Json, commands: set<string>, rules: Rules)
    returns (r: Option<(Component, seq<Action>)>)
    requires context.Now() == Fresh
    modifies context
    ensures var c := Shape(root, 1, rules);
            var xs := if actions.Arr? && |actions.items| <= MaxActions then All(actions.items, ActionReader(commands)) else None;
            var ms := if c.Some? && xs.Some? then Trace(c.value, 1) + ActionMarks(xs.value) else [];
            Accounted(r, if c.Some? && xs.Some? then Some((c.value, xs.value)) else None, ms, Fresh, context.Now())
  {
    ghost var c := Shape(root, 1, rules);
    ghost var xs := if actions.Arr? && |actions.items| <= MaxActions then All(actions.items, ActionReader(commands)) else None;
    if c.Some? && xs.Some? {
      AbsorbConcat(Fresh, Trace(c.value, 1), ActionMarks(xs.value));
    }
    var tree := context.ParseComponent(root, 1, rules);
    if tree.None? || !actions.Arr? || |actions.items| > MaxActions {
      return None;
    }
    var list := ParseActions(context, actions.items, commands);
    if list.None? {
      return None;
    }
    return Some((tree.value, list.value));
  }

  /** `parseDocument`: it accepts exactly the documents that read as a view whose trace is sound. */
  method ParseDocument(raw: Json, options: Options, rules: Rules) returns (r: Option<View>)
    ensures var v := ReadView(raw, options.commands, rules);
            r == if v.Some? && Sound(v.value, options) then v else None
  {
    var fields := Document(raw);
    if fields.None? || |fields.value| != 6 || fields.value[0] != Num(1.0) {
      return None;
    }
    var surface := ReadSurface(fields.value[1]);
    var id, version := fields.value[2], fields.value[3];
    if surface.None? || !id.Str? || !Stable(id.s) || !IntegerIn(version, 1, MaxSafe) {
      return None;
    }
    var context := new ParseContext();
    var parts := ParseParts(context, fields.value[4], fields.value[5], options.commands, rules);
    ghost var spec := ReadView(raw, options.commands, rules);
    if spec.Some? {
      ClosingIsSound(spec.value, options);
    }
    if parts.None? {
      return None;
    }
    var c := Context(context.ids, context.nodeCount, context.stringChars, context.componentTypes, context.mediaAnchors,
                     context.actionReferences);
    if !Closing(c, surface.value, parts.value.1, options.duration) {
      return None;
    }
    return Some(View(surface.value, id.s, version.n.Floor, parts.value.0, parts.value.1));
  }

  /** `parsePluginUIView`. */
  method ParsePluginUIView(raw: Json, options: Options, rules: Rules) returns (r: Verdict)
    ensures r == Judge(raw, options, rules)
  {
    var parsed := ParseDocument(raw, options, rules);
    if parsed.None? {
      return Invalid(SafeView());
    }
    if Superseded(parsed.value, options.previous) {
      return Stale(SafeView());
    }
    return Accepted(parsed.value);
  }
}
