/** The component vocabulary of plugin views: which fields each component has and what a field may hold. */
module PluginSchema {
  import opened Outcome

  /** A parsed JSON value; an object lists its fields in order. */
  datatype Json = Null | Bool(on: bool) | Num(n: real) | Str(s: string) | Arr(items: seq<Json>) | Obj(fields: seq<Member>)

  datatype Member = Member(name: string, value: Json)

  /** What a field may hold. `Rows` holds table cells keyed by the identifiers of the `columns` field before it. */
  datatype Kind =
    | Text(max: nat) | Markdown(max: nat) | Id | Choice(options: seq<string>) | Whole(low: int, high: int)
    | Amount(low: int, high: int) | Flag | Reference | Anchor | Kids
    | Items(min: nat, max: nat, fields: seq<Field>) | Rows

  /** Defaults are choices, numbers or flags, none of which the parser counts. */
  datatype Preset = PresetChoice(s: string) | PresetWhole(n: int) | PresetFlag(on: bool)

  datatype Presence = Required | Optional | Default(preset: Preset)

  function ValueOf(p: Preset): Value {
    match p
    case PresetChoice(s) => ChoiceOf(s)
    case PresetWhole(n) => WholeOf(n)
    case PresetFlag(on) => FlagOf(on)
  }

  datatype Field = Field(name: string, kind: Kind, presence: Presence)

  /** A field of the accepted view, told apart by how the parser accounts for it. */
  datatype Value =
    | TextOf(s: string) | IdOf(s: string) | ChoiceOf(s: string) | WholeOf(n: int) | AmountOf(r: real) | FlagOf(on: bool)
    | ReferenceTo(action: string) | AnchorAt(ms: int) | KidsOf(kids: seq<Component>) | ItemsOf(items: seq<Item>)
    | RowsOf(rows: seq<Row>)

  datatype Entry = Entry(name: string, value: Value)

  datatype Item = Item(entries: seq<Entry>)

  datatype Row = Row(cells: seq<Cell>)

  datatype Cell = Cell(column: string, text: string)

  datatype Component = Component(id: string, kind: string, entries: seq<Entry>)

  const MaxDepth := 8
  const MaxNodes := 200
  const MaxChars := 64_000
  const MaxRows := 100
  const MaxOptions := 50
  const MaxActions := 32
  const MaxKids := 500
  const MaxCell := 4_000
  const MaxSafe := 9_007_199_254_740_991

  predicate Letter(c: char) { 'a' <= c <= 'z' || 'A' <= c <= 'Z' }

  predicate Digit(c: char) { '0' <= c <= '9' }

  /** `STABLE_ID`. */
  predicate Stable(s: string) {
    && 1 <= |s| <= 128 && Letter(s[0])
    && forall i | 0 < i < |s| :: Letter(s[i]) || Digit(s[i]) || s[i] in "_.-"
  }

  /** `COMMAND`. */
  predicate CommandName(s: string) {
    && 1 <= |s| <= 64 && 'a' <= s[0] <= 'z'
    && forall i | 0 < i < |s| :: 'a' <= s[i] <= 'z' || Digit(s[i]) || s[i] in "_-"
  }

  /** The parser's outside knowledge: the fields of each component type and the markdown check. */
  datatype Rules = Rules(fields: string -> Option<seq<Field>>, safe: string -> bool)

  function Need(name: string, kind: Kind): Field { Field(name, kind, Required) }

  function May(name: string, kind: Kind): Field { Field(name, kind, Optional) }

  function Tone(options: seq<string>): Field { Field("tone", Choice(options), Default(PresetChoice("neutral"))) }

  /** The cases of `parseComponent`, besides the `id` and `type` that every component has. */
  function FieldsOf(kind: string): Option<seq<Field>> {
    match kind
    case "text" => Some([Need("text", Text(32_000))])
    case "safe_markdown" => Some([Need("markdown", Markdown(32_000))])
    case "card" => Some([May("title", Text(500)), Need("children", Kids)])
    case "section" => Some([Need("title", Text(500)), Need("children", Kids)])
    case "tabs" =>
      Some([Need("tabs", Items(1, 20, [Need("id", Id), Need("label", Text(200)), Need("children", Kids)]))])
    case "list" =>
      Some([Need("items", Items(0, 200, [Need("id", Id), Need("primary", Text(2_000)), May("secondary", Text(4_000))]))])
    case "table" =>
      Some([Need("columns", Items(1, 20, [Need("id", Id), Need("label", Text(200))])), Need("rows", Rows)])
    case "timeline" =>
      Some([Need("items", Items(0, 200, [Need("id", Id), Need("time_ms", Whole(0, MaxSafe)), Need("title", Text(500)),
                                         May("body", Text(4_000))]))])
    case "media_anchor" => Some([Need("media_time_ms", Anchor), Need("label", Text(500))])
    case "badge" => Some([Need("text", Text(200)), Tone(["neutral", "info", "success", "warning", "danger"])])
    case "metric" => Some([Need("label", Text(200)), Need("value", Text(500)), May("detail", Text(1_000))])
    case "progress" => Some([Need("label", Text(200)), Need("value", Amount(0, 100))])
    case "input" => Some([Need("name", Id), Need("label", Text(200)), May("placeholder", Text(500))])
    case "textarea" =>
      Some([Need("name", Id), Need("label", Text(200)), May("placeholder", Text(500)),
            Field("rows", Whole(2, 20), Default(PresetWhole(4)))])
    case "select" =>
      Some([Need("name", Id), Need("label", Text(200)),
            Need("options", Items(1, MaxOptions, [Need("id", Id), Need("label", Text(200)), Need("value", Text(500))]))])
    case "checkbox" =>
      Some([Need("name", Id), Need("label", Text(500)), Field("checked", Flag, Default(PresetFlag(false)))])
    case "button" =>
      Some([Need("label", Text(200)), Need("action_id", Reference), Tone(["neutral", "primary", "danger"])])
    case "confirmation" =>
      Some([Need("title", Text(500)), Need("body", Text(4_000)), Need("confirm_action_id", Reference),
            May("cancel_action_id", Reference)])
    case "empty_state" => Some([Need("title", Text(500)), May("message", Text(4_000))])
    case "error_state" => Some([Need("title", Text(500)), Need("message", Text(4_000))])
    case _ => None
  }

  /** `OVERLAY_COMPONENTS`. */
  predicate OverlayKind(kind: string) {
    kind in ["text", "safe_markdown", "media_anchor", "badge", "metric", "progress", "empty_state", "error_state"]
  }
}
