/**
  * Confirming a previewed plugin action. The plugin is asked over an RPC whose outcome may
  * stay unknown, other confirmations and admissions run in between, and the durable
  * operation row decides what a retry answers.
  */
module HostConfirm {
  import opened Outcome

  /** The columns of the unique constraint on operations. */
  datatype Key = Key(plugin: string, version: string, media: string, request: string)

  datatype Source = PluginView | HostHistory

  datatype Stored = Applied | Accepted(operation: string) | Authorized

  datatype Preview = Preview(key: Key, action: string, source: Source, hash: string, context: string, response: Option<Stored>)

  datatype Row = Row(id: string, key: Key, action: string)

  /** A confirmation between two of its suspension points. */
  datatype Call = Call(preview: string, key: Key, action: string, asking: bool)

  datatype Answer = Answer(key: Key, operation: string)

  datatype State = State(
    previews: map<string, Preview>,
    rows: seq<Row>,
    intents: set<(Key, string)>,
    calls: map<nat, Call>,
    asked: seq<Key>,
    answers: seq<Answer>)

  datatype Request = Request(preview: string, media: string, hash: string, context: string, confirmed: bool)

  datatype Reply = Said(answer: Stored) | CancelledByUser | Unknown | Denied | Conflict | Unavailable

  /** What the RPC came back with, if anything. */
  datatype Heard = Lost | Named(operation: string) | Other

  predicate IsAnalysis(action: string) { "meeting.analysis." <= action }

  function ByKey(rows: seq<Row>, key: Key): (r: Option<string>)
  {
    if rows == [] then None else if rows[0].key == key then Some(rows[0].id) else ByKey(rows[1..], key)
  }

  function ById(rows: seq<Row>, id: string): (r: Option<Row>)
  {
    if rows == [] then None else if rows[0].id == id then Some(rows[0]) else ById(rows[1..], id)
  }

  /** An insert under the primary key and the unique constraint: a clash changes nothing. */
  function Insert(rows: seq<Row>, row: Row): seq<Row> {
    if ByKey(rows, row.key).Some? || ById(rows, row.id).Some? then rows else rows + [row]
  }

  /** `remember_admission`, and the answer that goes with it. */
  function Admitted(st: State, call: Call, n: nat, id: string): (State, Reply) {
    var previews :=
      if call.preview in st.previews
      then st.previews[call.preview := st.previews[call.preview].(response := Some(Accepted(id)))]
      else st.previews;
    (st.(previews := previews, calls := st.calls - {n}, answers := st.answers + [Answer(call.key, id)]), Said(Accepted(id)))
  }

  function Closed(st: State, n: nat, reply: Reply): (State, Reply) { (st.(calls := st.calls - {n}), reply) }

  /**
    * `HostActions.confirm` for a preview without a stored answer; `opId` names the row of a
    * history action, which is refused when the request already has a row.
    */
  function Decide(st: State, n: nat, id: string, p: Preview, opId: string): (State, Option<Reply>) {
    var granted := st.(intents := st.intents + {(p.key, p.action)});
    if IsAnalysis(p.action) then
      (granted.(previews := st.previews[id := p.(response := Some(Applied))]), Some(Said(Applied)))
    else if p.source.HostHistory? then
      var rows := Insert(st.rows, Row(opId, p.key, p.action));
      if rows == st.rows then (st, Some(Denied))
      else (granted.(rows := rows, previews := st.previews[id := p.(response := Some(Accepted(opId)))],
            answers := st.answers + [Answer(p.key, opId)]), Some(Said(Accepted(opId))))
    else
      (granted.(previews := st.previews[id := p.(response := Some(Authorized))],
       calls := st.calls[n := Call(id, p.key, p.action, false)]), None)
  }

  /** First part of `confirm_action`: the preview is checked under the lock; `None` means the call goes on to dispatch. */
  function Authorize(st: State, n: nat, q: Request, sameScope: bool, opId: string): (State, Option<Reply>) {
    if n in st.calls then (st, Some(Denied))
    else if q.preview !in st.previews then (st, Some(Denied))
    else
      var p := st.previews[q.preview];
      if p.key.media != q.media || p.context != q.context || p.hash != q.hash then (st, Some(Denied))
      else if !q.confirmed then (st.(previews := st.previews - {q.preview}), Some(CancelledByUser))
      else
        match p.response
        case Some(Accepted(id)) => (st.(answers := st.answers + [Answer(p.key, id)]), Some(Said(Accepted(id))))
        case Some(Applied) => (st, Some(Said(Applied)))
        case Some(Authorized) => (st.(calls := st.calls[n := Call(q.preview, p.key, p.action, false)]), None)
        case None => if !sameScope then (st, Some(Denied)) else Decide(st, n, q.preview, p, opId)
  }

  /** Second part: an operation on record is the answer; otherwise the plugin is asked. */
  function Dispatch(st: State, n: nat, targetOk: bool, running: bool): (State, Option<Reply>) {
    if n !in st.calls || st.calls[n].asking then (st, None)
    else
      var call := st.calls[n];
      if call.preview !in st.previews then (Closed(st, n, Denied).0, Some(Denied))
      else
        match ByKey(st.rows, call.key)
        case Some(id) => (Admitted(st, call, n, id).0, Some(Said(Accepted(id))))
        case None =>
          if !targetOk then (Closed(st, n, Conflict).0, Some(Conflict))
          else if !running then (Closed(st, n, Unavailable).0, Some(Unavailable))
          else (st.(calls := st.calls[n := call.(asking := true)], asked := st.asked + [call.key]), None)
  }

  /** Third part: the reply counts only if it names a durable row of this very request and action. */
  function Finish(st: State, n: nat, outcome: Heard): (State, Option<Reply>) {
    if n !in st.calls || !st.calls[n].asking then (st, None)
    else
      var call := st.calls[n];
      match outcome
      case Named(id) =>
        var row := ById(st.rows, id);
        if row.Some? && row.value.key == call.key && row.value.action == call.action
        then (Admitted(st, call, n, id).0, Some(Said(Accepted(id))))
        else (Closed(st, n, Unknown).0, Some(Unknown))
      case _ => (Closed(st, n, Unknown).0, Some(Unknown))
  }

  /** `admit` inserts a row only for an intent that a confirmation has created. */
  function Admit(st: State, row: Row): State {
    if (row.key, row.action) in st.intents then st.(rows := Insert(st.rows, row)) else st
  }

  // ----- the same, in place

  /** The preview table of the host and the durable tables, as one confirmation after the other changes them. */
  class Host {
    var previews: map<string, Preview>
    var rows: seq<Row>
    var intents: set<(Key, string)>
    var calls: map<nat, Call>
    var asked: seq<Key>
    var answers: seq<Answer>

    ghost function Now(): State
      reads this
    {
      State(previews, rows, intents, calls, asked, answers)
    }

    /** `remember_admission`. */
    method Remember(n: nat, call: Call, id: string)
      modifies this
      ensures Now() == Admitted(old(Now()), call, n, id).0
    {
      if call.preview in previews {
        previews := previews[call.preview := previews[call.preview].(response := Some(Accepted(id)))];
      }
      calls := calls - {n};
      answers := answers + [Answer(call.key, id)];
    }

    /** The part of `HostActions.confirm` that creates an intent. */
    method DecidePreview(n: nat, id: string, opId: string) returns (reply: Option<Reply>)
      requires id in previews
      modifies this
      ensures (Now(), reply) == Decide(old(Now()), n, id, old(previews[id]), opId)
    {
      var p := previews[id];
      if IsAnalysis(p.action) {
        intents := intents + {(p.key, p.action)};
        previews := previews[id := p.(response := Some(Applied))];
        return Some(Said(Applied));
      }
      if p.source.HostHistory? {
        var grown := Insert(rows, Row(opId, p.key, p.action));
        if grown == rows {
          return Some(Denied);
        }
        intents := intents + {(p.key, p.action)};
        rows := grown;
        answers := answers + [Answer(p.key, opId)];
        previews := previews[id := p.(response := Some(Accepted(opId)))];
        return Some(Said(Accepted(opId)));
      }
      intents := intents + {(p.key, p.action)};
      previews := previews[id := p.(response := Some(Authorized))];
      calls := calls[n := Call(id, p.key, p.action, false)];
      return None;
    }

    method AuthorizeCall(n: nat, q: Request, sameScope: bool, opId: string) returns (reply: Option<Reply>)
      modifies this
      ensures (Now(), reply) == Authorize(old(Now()), n, q, sameScope, opId)
    {
      if n in calls || q.preview !in previews {
        return Some(Denied);
      }
      var p := previews[q.preview];
      if p.key.media != q.media || p.context != q.context || p.hash != q.hash {
        return Some(Denied);
      }
      if !q.confirmed {
        previews := previews - {q.preview};
        return Some(CancelledByUser);
      }
      match p.response
      case Some(Accepted(id)) =>
        answers := answers + [Answer(p.key, id)];
        return Some(Said(Accepted(id)));
      case Some(Applied) =>
        return Some(Said(Applied));
      case Some(Authorized) =>
        calls := calls[n := Call(q.preview, p.key, p.action, false)];
        return None;
      case None =>
        if !sameScope {
          return Some(Denied);
        }
        reply := DecidePreview(n, q.preview, opId);
    }

    method DispatchCall(n: nat, targetOk: bool, running: bool) returns (reply: Option<Reply>)
      modifies this
      ensures (Now(), reply) == Dispatch(old(Now()), n, targetOk, running)
    {
      if n !in calls || calls[n].asking {
        return None;
      }
      var call := calls[n];
      if call.preview !in previews {
        calls := calls - {n};
        return Some(Denied);
      }
      var existing := ByKey(rows, call.key);
      if existing.Some? {
        Remember(n, call, existing.value);
        return Some(Said(Accepted(existing.value)));
      }
      if !targetOk {
        calls := calls - {n};
        return Some(Conflict);
      }
      if !running {
        calls := calls - {n};
        return Some(Unavailable);
      }
      asked := asked + [call.key];
      calls := calls[n := call.(asking := true)];
      return None;
    }

    method FinishCall(n: nat, outcome: Heard) returns (reply: Option<Reply>)
      modifies this
      ensures (Now(), reply) == Finish(old(Now()), n, outcome)
    {
      if n !in calls || !calls[n].asking {
        return None;
      }
      var call := calls[n];
      if outcome.Named? {
        var durable := ById(rows, outcome.operation);
        if durable.Some? && durable.value.key == call.key && durable.value.action == call.action {
          Remember(n, call, outcome.operation);
          return Some(Said(Accepted(outcome.operation)));
        }
      }
      calls := calls - {n};
      return Some(Unknown);
    }
  }

  // ----- every interleaving

  /**
    * Besides the three parts of a confirmation: previews appear under identifiers not in use,
    * previews expire, and plugins admit operations.
    */
  datatype Step =
    | Prepare(id: string, preview: Preview)
    | Expire(id: string)
    | Insertion(row: Row)
    | First(n: nat, q: Request, sameScope: bool, opId: string)
    | Second(n: nat, targetOk: bool, running: bool)
    | Third(n: nat, outcome: Heard)

  function Next(st: State, step: Step): State {
    match step
    case Prepare(id, p) =>
      if id in st.previews || exists n | n in st.calls :: st.calls[n].preview == id then st
      else st.(previews := st.previews[id := p.(response := None)])
    case Expire(id) => st.(previews := st.previews - {id})
    case Insertion(row) => Admit(st, row)
    case First(n, q, sameScope, opId) => Authorize(st, n, q, sameScope, opId).0
    case Second(n, targetOk, running) => Dispatch(st, n, targetOk, running).0
    case Third(n, outcome) => Finish(st, n, outcome).0
  }

  function Run(st: State, steps: seq<Step>): State
    decreases |steps|
  {
    if steps == [] then st else Run(Next(st, steps[0]), steps[1..])
  }

  ghost predicate Unique(rows: seq<Row>) {
    forall i, j | 0 <= i < j < |rows| :: rows[i].key != rows[j].key && rows[i].id != rows[j].id
  }

  /** Row `id` is on record for request `key`. */
  ghost predicate Names(rows: seq<Row>, id: string, key: Key) {
    exists i :: 0 <= i < |rows| && rows[i].id == id && rows[i].key == key
  }

  ghost predicate AnswersNamed(st: State) {
    forall i | 0 <= i < |st.answers| :: Names(st.rows, st.answers[i].operation, st.answers[i].key)
  }

  ghost predicate PreviewNamed(p: Preview, rows: seq<Row>) {
    p.response.Some? && p.response.value.Accepted? ==> Names(rows, p.response.value.operation, p.key)
  }

  ghost predicate PreviewsNamed(st: State) {
    forall id | id in st.previews :: PreviewNamed(st.previews[id], st.rows)
  }

  /** A call belongs to its preview for as long as that exists, and every row to an intent. */
  ghost predicate Good(st: State) {
    && Unique(st.rows) && AnswersNamed(st) && PreviewsNamed(st)
    && (forall n | n in st.calls && st.calls[n].preview in st.previews ::
          st.previews[st.calls[n].preview].key == st.calls[n].key)
    && (forall i | 0 <= i < |st.rows| :: (st.rows[i].key, st.rows[i].action) in st.intents)
  }

  lemma {:induction false} ByKeyNames(rows: seq<Row>, key: Key)
    ensures ByKey(rows, key).Some? ==> Names(rows, ByKey(rows, key).value, key)
    ensures ByKey(rows, key).None? ==> forall i | 0 <= i < |rows| :: rows[i].key != key
  {
    if rows != [] {
      ByKeyNames(rows[1..], key);
      if rows[0].key == key {
        assert Names(rows, rows[0].id, key);
      } else if ByKey(rows, key).Some? {
        var i :| 0 <= i < |rows| - 1 && rows[1..][i].id == ByKey(rows, key).value && rows[1..][i].key == key;
        assert rows[i + 1] == rows[1..][i];
      } else {
        assert forall i | 0 < i < |rows| :: rows[i] == rows[1..][i - 1];
      }
    }
  }

  lemma {:induction false} ByIdNames(rows: seq<Row>, id: string)
    ensures ById(rows, id).Some? ==> Names(rows, id, ById(rows, id).value.key)
    ensures ById(rows, id).None? ==> forall i | 0 <= i < |rows| :: rows[i].id != id
  {
    if rows != [] {
      ByIdNames(rows[1..], id);
      if rows[0].id == id {
        assert Names(rows, id, rows[0].key);
      } else if ById(rows, id).Some? {
        var i :| 0 <= i < |rows| - 1 && rows[1..][i].id == id && rows[1..][i].key == ById(rows, id).value.key;
        assert rows[i + 1] == rows[1..][i];
      } else {
        assert forall i | 0 < i < |rows| :: rows[i] == rows[1..][i - 1];
      }
    }
  }

  lemma {:induction false} InsertUnique(rows: seq<Row>, row: Row)
    requires Unique(rows)
    ensures Unique(Insert(rows, row)) && rows <= Insert(rows, row)
    ensures Insert(rows, row) != rows ==> Insert(rows, row) == rows + [row] && Names(Insert(rows, row), row.id, row.key)
  {
    ByKeyNames(rows, row.key);
    ByIdNames(rows, row.id);
    if ByKey(rows, row.key).None? && ById(rows, row.id).None? {
      assert (rows + [row])[|rows|] == row;
    }
  }

  lemma {:induction false} NamesGrow(rows: seq<Row>, more: seq<Row>, id: string, key: Key)
    requires Names(rows, id, key) && rows <= more
    ensures Names(more, id, key)
  {
    var i :| 0 <= i < |rows| && rows[i].id == id && rows[i].key == key;
    assert more[i] == rows[i];
  }

  /** More rows keep every answer and preview valid. */
  lemma {:induction false} RowsGrow(st: State, rows: seq<Row>)
    requires AnswersNamed(st) && PreviewsNamed(st) && st.rows <= rows
    ensures forall i | 0 <= i < |st.answers| :: Names(rows, st.answers[i].operation, st.answers[i].key)
    ensures forall id | id in st.previews :: PreviewNamed(st.previews[id], rows)
  {
    forall i | 0 <= i < |st.answers|
      ensures Names(rows, st.answers[i].operation, st.answers[i].key)
    {
      NamesGrow(st.rows, rows, st.answers[i].operation, st.answers[i].key);
    }
    forall id | id in st.previews
      ensures PreviewNamed(st.previews[id], rows)
    {
      var p := st.previews[id];
      assert PreviewNamed(p, st.rows);
      if p.response.Some? && p.response.value.Accepted? {
        NamesGrow(st.rows, rows, p.response.value.operation, p.key);
      }
    }
  }

  lemma {:induction false} AdmittedGood(st: State, n: nat, id: string)
    requires Good(st) && n in st.calls && Names(st.rows, id, st.calls[n].key)
    ensures Good(Admitted(st, st.calls[n], n, id).0)
  {
  }

  lemma {:induction false} AdmitGood(st: State, row: Row)
    requires Good(st)
    ensures Good(Admit(st, row))
  {
    InsertUnique(st.rows, row);
    RowsGrow(st, Insert(st.rows, row));
  }

  lemma {:induction false} DecideGood(st: State, n: nat, id: string, p: Preview, opId: string)
    requires Good(st) && n !in st.calls && id in st.previews && p == st.previews[id]
    ensures Good(Decide(st, n, id, p, opId).0)
  {
    var row := Row(opId, p.key, p.action);
    var rows := Insert(st.rows, row);
    InsertUnique(st.rows, row);
    RowsGrow(st, rows);
  }

  lemma {:induction false} AuthorizeGood(st: State, n: nat, q: Request, sameScope: bool, opId: string)
    requires Good(st)
    ensures Good(Authorize(st, n, q, sameScope, opId).0)
  {
    if n !in st.calls && q.preview in st.previews {
      var p := st.previews[q.preview];
      assert PreviewNamed(p, st.rows);
      if p.response.None? {
        DecideGood(st, n, q.preview, p, opId);
      }
    }
  }

  lemma {:induction false} DispatchGood(st: State, n: nat, targetOk: bool, running: bool)
    requires Good(st)
    ensures Good(Dispatch(st, n, targetOk, running).0)
  {
    if n in st.calls && !st.calls[n].asking {
      ByKeyNames(st.rows, st.calls[n].key);
      var id := ByKey(st.rows, st.calls[n].key);
      if id.Some? {
        AdmittedGood(st, n, id.value);
      }
    }
  }

  lemma {:induction false} FinishGood(st: State, n: nat, outcome: Heard)
    requires Good(st)
    ensures Good(Finish(st, n, outcome).0)
  {
    if n in st.calls && st.calls[n].asking && outcome.Named? {
      ByIdNames(st.rows, outcome.operation);
      var row := ById(st.rows, outcome.operation);
      if row.Some? && row.value.key == st.calls[n].key {
        AdmittedGood(st, n, outcome.operation);
      }
    }
  }

  const EmptyHost := State(map[], [], {}, map[], [], [])

  lemma {:induction false} EmptyHostGood()
    ensures Good(EmptyHost)
  {
  }

  lemma {:induction false} NextGood(st: State, step: Step)
    requires Good(st)
    ensures Good(Next(st, step))
  {
    match step
    case Insertion(row) => AdmitGood(st, row);
    case First(n, q, sameScope, opId) => AuthorizeGood(st, n, q, sameScope, opId);
    case Second(n, targetOk, running) => DispatchGood(st, n, targetOk, running);
    case Third(n, outcome) => FinishGood(st, n, outcome);
    case _ =>
  }

  lemma {:induction false} RunGood(st: State, steps: seq<Step>)
    requires Good(st)
    ensures Good(Run(st, steps))
    decreases |steps|
  {
    if steps != [] {
      NextGood(st, steps[0]);
      RunGood(Next(st, steps[0]), steps[1..]);
    }
  }

  /** Across all confirmations and retries, the accepted answers to one request name one operation, and it is durable. */
  lemma {:induction false} SameOperation(st: State, i: nat, j: nat)
    requires Good(st) && i < |st.answers| && j < |st.answers| && st.answers[i].key == st.answers[j].key
    ensures st.answers[i] == st.answers[j]
    ensures ByKey(st.rows, st.answers[i].key) == Some(st.answers[i].operation)
  {
    var key := st.answers[i].key;
    OnlyName(st.rows, st.answers[i].operation, key);
    OnlyName(st.rows, st.answers[j].operation, key);
  }

  lemma {:induction false} OnlyName(rows: seq<Row>, id: string, key: Key)
    requires Unique(rows) && Names(rows, id, key)
    ensures ByKey(rows, key) == Some(id)
  {
    ByKeyNames(rows, key);
    var i :| 0 <= i < |rows| && rows[i].id == id && rows[i].key == key;
    var other := ByKey(rows, key).value;
    var j :| 0 <= j < |rows| && rows[j].id == other && rows[j].key == key;
    assert i == j;
  }

  // ----- the plugin is not asked again

  lemma {:induction false} ByKeyGrows(rows: seq<Row>, more: seq<Row>, key: Key)
    requires rows <= more && ByKey(rows, key).Some?
    ensures ByKey(more, key) == ByKey(rows, key)
  {
    assert more[0] == rows[0];
    if rows[0].key != key {
      assert rows[1..] <= more[1..];
      ByKeyGrows(rows[1..], more[1..], key);
    }
  }

  lemma {:induction false} RowsOnlyGrow(st: State, step: Step)
    ensures st.rows <= Next(st, step).rows
  {
  }

  /** A step asks the plugin about `key` only while no operation is on record for it. */
  lemma {:induction false} AsksOnlyWhenMissing(st: State, step: Step, key: Key)
    requires ByKey(st.rows, key).Some?
    ensures multiset(Next(st, step).asked)[key] == multiset(st.asked)[key]
  {
  }

  /** Once the operation of a request exists, no run of further steps asks the plugin about that request again. */
  lemma {:induction false} NeverAskedAgain(st: State, steps: seq<Step>, key: Key)
    requires ByKey(st.rows, key).Some?
    ensures multiset(Run(st, steps).asked)[key] == multiset(st.asked)[key]
    ensures ByKey(Run(st, steps).rows, key) == ByKey(st.rows, key)
    decreases |steps|
  {
    if steps != [] {
      var next := Next(st, steps[0]);
      RowsOnlyGrow(st, steps[0]);
      ByKeyGrows(st.rows, next.rows, key);
      AsksOnlyWhenMissing(st, steps[0], key);
      NeverAskedAgain(next, steps[1..], key);
    }
  }

  // ----- which action an accepted answer stands for

  /** Everything known about request `key` is about action `a`. */
  ghost predicate Uniform(st: State, key: Key, a: string) {
    && (forall x | x in st.intents :: x.0 == key ==> x.1 == a)
    && (forall id | id in st.previews :: st.previews[id].key == key ==> st.previews[id].action == a)
    && (forall n | n in st.calls :: st.calls[n].key == key ==> st.calls[n].action == a)
  }

  lemma {:induction false} NextUniform(st: State, step: Step, key: Key, a: string)
    requires Uniform(st, key, a) && (step.Prepare? && step.preview.key == key ==> step.preview.action == a)
    ensures Uniform(Next(st, step), key, a)
  {
    if step.First? {
      AuthorizeUniform(st, step.n, step.q, step.sameScope, step.opId, key, a);
    }
  }

  lemma {:induction false} AuthorizeUniform(st: State, n: nat, q: Request, sameScope: bool, opId: string, key: Key, a: string)
    requires Uniform(st, key, a)
    ensures Uniform(Authorize(st, n, q, sameScope, opId).0, key, a)
  {
    if n !in st.calls && q.preview in st.previews {
      DecideUniform(st, n, q.preview, opId, key, a);
    }
  }

  lemma {:induction false} DecideUniform(st: State, n: nat, id: string, opId: string, key: Key, a: string)
    requires Uniform(st, key, a) && id in st.previews
    ensures Uniform(Decide(st, n, id, st.previews[id], opId).0, key, a)
  {
  }

  /** If a request id is never prepared for two actions, every accepted answer names an operation of its own action. */
  lemma {:induction false} AnswersKeepAction(st: State, steps: seq<Step>, key: Key, a: string, i: nat)
    requires Good(st) && Uniform(st, key, a)
    requires forall k | 0 <= k < |steps| :: steps[k].Prepare? && steps[k].preview.key == key ==> steps[k].preview.action == a
    requires i < |Run(st, steps).answers| && Run(st, steps).answers[i].key == key
    ensures exists r :: r in Run(st, steps).rows && r == Row(Run(st, steps).answers[i].operation, key, a)
    decreases |steps|
  {
    if steps == [] {
      var x := st.answers[i];
      assert Names(st.rows, x.operation, x.key);
      var j :| 0 <= j < |st.rows| && st.rows[j].id == x.operation && st.rows[j].key == x.key;
      assert (st.rows[j].key, st.rows[j].action) in st.intents;
      assert st.rows[j] in st.rows && st.rows[j] == Row(x.operation, key, a);
    } else {
      NextGood(st, steps[0]);
      NextUniform(st, steps[0], key, a);
      assert forall k | 0 <= k < |steps[1..]| :: steps[1..][k] == steps[k + 1];
      AnswersKeepAction(Next(st, steps[0]), steps[1..], key, a, i);
    }
  }

  /** An operation of another action is on record for the request of call `n`. */
  ghost predicate OtherAction(st: State, n: nat)
    requires n in st.calls
  {
    exists r :: r in st.rows && r.key == st.calls[n].key && r.action != st.calls[n].action
  }

  /** `reply` accepts call `n` with an operation of another action. */
  ghost predicate WrongAction(st: State, n: nat, reply: Option<Reply>)
    requires n in st.calls
  {
    exists r :: r in st.rows && reply == Some(Said(Accepted(r.id))) && r.action != st.calls[n].action
  }

  /**
    * Without that discipline it fails: the lookup before the RPC does not compare actions. It
    * answers a call with an operation of another action if and only if one is on record for the
    * request, while the check after the RPC never does.
    */
  lemma {:induction false} LookupIgnoresAction(st: State, n: nat, targetOk: bool, running: bool, outcome: Heard)
    requires Good(st) && n in st.calls && st.calls[n].preview in st.previews
    ensures !st.calls[n].asking ==> (WrongAction(st, n, Dispatch(st, n, targetOk, running).1) <==> OtherAction(st, n))
    ensures !WrongAction(st, n, Finish(st, n, outcome).1)
  {
    var call := st.calls[n];
    ByKeyNames(st.rows, call.key);
    if !call.asking && OtherAction(st, n) {
      var r :| r in st.rows && r.key == call.key && r.action != call.action;
      assert Names(st.rows, r.id, r.key);
      OnlyName(st.rows, r.id, r.key);
    }
    if !call.asking && WrongAction(st, n, Dispatch(st, n, targetOk, running).1) {
      var r :| r in st.rows && Dispatch(st, n, targetOk, running).1 == Some(Said(Accepted(r.id))) && r.action != call.action;
      SameIdSameKey(st.rows, r, call.key);
    }
    if call.asking && WrongAction(st, n, Finish(st, n, outcome).1) {
      var r :| r in st.rows && Finish(st, n, outcome).1 == Some(Said(Accepted(r.id))) && r.action != call.action;
      OnlyRow(st.rows, r);
    }
  }

  lemma {:induction false} SameIdSameKey(rows: seq<Row>, r: Row, key: Key)
    requires Unique(rows) && r in rows && Names(rows, r.id, key)
    ensures r.key == key
  {
    var i :| 0 <= i < |rows| && rows[i].id == r.id && rows[i].key == key;
    var j :| 0 <= j < |rows| && rows[j] == r;
    assert i == j;
  }

  // ----- a run that produces the wrong answer

  const Asked := Key("meeting", "1", "m", "r")

  /** One request id is prepared and confirmed for two actions; the operation of the first is admitted in between. */
  function ReuseRun(): seq<Step> {
    [Prepare("p", Preview(Asked, "meeting.ask", PluginView, "h", "c", None)),
     First(1, Request("p", "m", "h", "c", true), true, ""),
     Insertion(Row("o", Asked, "meeting.ask")),
     Prepare("q", Preview(Asked, "meeting.mark.create", PluginView, "h", "c", None)),
     First(2, Request("q", "m", "h", "c", true), true, "")]
  }

  lemma {:induction false} RunSnoc(st: State, steps: seq<Step>, step: Step)
    ensures Run(st, steps + [step]) == Next(Run(st, steps), step)
    decreases |steps|
  {
    if steps == [] {
      assert steps + [step] == [step] && [step][1..] == [];
    } else {
      assert (steps + [step])[0] == steps[0] && (steps + [step])[1..] == steps[1..] + [step];
      RunSnoc(Next(st, steps[0]), steps[1..], step);
    }
  }

  lemma {:induction false} ActionsApart()
    ensures "meeting.ask" != "meeting.mark.create" && !IsAnalysis("meeting.ask") && !IsAnalysis("meeting.mark.create") && "p" != "q"
  {
    assert "meeting.ask"[8] != "meeting.mark.create"[8] && "meeting.analysis."[9] == 'n';
    assert "meeting.ask"[9] == 's' && "meeting.mark.create"[8] == 'm' && "meeting.analysis."[8] == 'a';
    assert "p"[0] != "q"[0];
  }

  /** The first action is confirmed and its operation admitted. */
  lemma {:induction false} ReuseFirstHalf()
    ensures var p := Preview(Asked, "meeting.ask", PluginView, "h", "c", Some(Authorized));
            Run(EmptyHost, ReuseRun()[..3]) ==
            State(map["p" := p], [Row("o", Asked, "meeting.ask")], {(Asked, "meeting.ask")},
                  map[1 := Call("p", Asked, "meeting.ask", false)], [], [])
  {
    var run := ReuseRun();
    RunSnoc(EmptyHost, [], run[0]);
    RunSnoc(EmptyHost, [run[0]], run[1]);
    RunSnoc(EmptyHost, [run[0], run[1]], run[2]);
    assert [] + [run[0]] == [run[0]] && [run[0]] + [run[1]] == [run[0], run[1]] && [run[0], run[1]] + [run[2]] == run[..3];
    ActionsApart();
  }

  lemma {:induction false} PrepareTakesEffect(st: State, id: string, p: Preview)
    requires id !in st.previews && (forall n | n in st.calls :: st.calls[n].preview != id) && p.response.None?
    ensures Next(st, Prepare(id, p)) == st.(previews := st.previews[id := p])
  {
  }

  /** Confirming a new preview of a plugin action opens a call for it. */
  lemma {:induction false} ConfirmTakesEffect(st: State, n: nat, q: Request)
    requires n !in st.calls && q.preview in st.previews && q.confirmed
    requires var p := st.previews[q.preview];
             && p.key.media == q.media && p.context == q.context && p.hash == q.hash
             && p.response.None? && !IsAnalysis(p.action) && p.source.PluginView?
    ensures var next, p := Next(st, First(n, q, true, "")), st.previews[q.preview];
            && next.rows == st.rows && q.preview in next.previews
            && n in next.calls && next.calls[n] == Call(q.preview, p.key, p.action, false)
  {
  }

  /** The second action is prepared and confirmed under the same request id. */
  lemma {:induction false} ReuseSecondHalf()
    ensures var st := Run(EmptyHost, ReuseRun());
            && st.rows == [Row("o", Asked, "meeting.ask")] && "q" in st.previews
            && 2 in st.calls && st.calls[2] == Call("q", Asked, "meeting.mark.create", false)
  {
    var run := ReuseRun();
    var s3 := Run(EmptyHost, run[..3]);
    ReuseFirstHalf();
    ActionsApart();
    RunSnoc(EmptyHost, run[..3], run[3]);
    RunSnoc(EmptyHost, run[..4], run[4]);
    assert run[..3] + [run[3]] == run[..4] && run[..4] + [run[4]] == run;
    PrepareTakesEffect(s3, "q", run[3].preview);
    ConfirmTakesEffect(Next(s3, run[3]), 2, run[4].q);
  }

  /** Its call is then answered with the operation of the first. */
  lemma {:induction false} ReuseAnswersWrongly()
    ensures var st := Run(EmptyHost, ReuseRun());
            2 in st.calls && !st.calls[2].asking && WrongAction(st, 2, Dispatch(st, 2, true, true).1)
  {
    ReuseSecondHalf();
    ActionsApart();
    AnswersOnlyRow(Run(EmptyHost, ReuseRun()), 2, Row("o", Asked, "meeting.ask"));
  }

  /** A call whose request has the only row is answered with it. */
  lemma {:induction false} AnswersOnlyRow(st: State, n: nat, row: Row)
    requires n in st.calls && !st.calls[n].asking && st.calls[n].preview in st.previews
    requires st.rows == [row] && row.key == st.calls[n].key && row.action != st.calls[n].action
    ensures WrongAction(st, n, Dispatch(st, n, true, true).1)
  {
    assert st.rows[0] == row && ByKey(st.rows, row.key) == Some(row.id);
    assert row in st.rows;
  }

  lemma {:induction false} OnlyRow(rows: seq<Row>, r: Row)
    requires Unique(rows) && r in rows
    ensures ById(rows, r.id) == Some(r)
  {
    if rows[0] != r {
      var i :| 0 <= i < |rows| && rows[i] == r;
      assert rows[0].id != r.id;
      assert rows[1..][i - 1] == r;
      OnlyRow(rows[1..], r);
    }
  }

  /** Once an admission is remembered, confirming the same preview answers it at once, with no lookup and no question to the plugin. */
  lemma {:induction false} AdmissionIsRemembered(st: State, n: nat, id: string, m: nat, q: Request, sameScope: bool, opId: string)
    requires n in st.calls && st.calls[n].preview == q.preview && q.preview in st.previews
    requires var p := st.previews[q.preview];
             q.confirmed && p.key.media == q.media && p.context == q.context && p.hash == q.hash
    requires m !in st.calls
    ensures var next := Admitted(st, st.calls[n], n, id).0;
            var again := Authorize(next, m, q, sameScope, opId);
            again.1 == Some(Said(Accepted(id))) && again.0.asked == st.asked && again.0.rows == st.rows
  {
  }
}
