/**
  * What each part of a confirmation does, said of the tables alone, and that over every run
  * nothing is asked of a plugin and no operation admitted without the user's confirmation of
  * exactly the preview that was prepared.
  */
module ConfirmEffects {
  import opened Outcome
  import opened HostConfirm

  /** The request names a preview of its own media, under the hash and the context it was shown with. */
  predicate Matches(st: State, q: Request) {
    && q.preview in st.previews
    && st.previews[q.preview].key.media == q.media
    && st.previews[q.preview].hash == q.hash && st.previews[q.preview].context == q.context
  }

  ghost predicate OnRecord(st: State, key: Key) { exists r :: r in st.rows && r.key == key }

  ghost predicate Fits(st: State, row: Row) { forall r | r in st.rows :: r.key != row.key && r.id != row.id }

  lemma {:induction false} OnRecordExactly(st: State, key: Key)
    ensures ByKey(st.rows, key).Some? <==> OnRecord(st, key)
    ensures ByKey(st.rows, key).Some? ==> exists r :: r in st.rows && r.key == key && r.id == ByKey(st.rows, key).value
  {
    ByKeyNames(st.rows, key);
    if ByKey(st.rows, key).Some? {
      var i :| 0 <= i < |st.rows| && st.rows[i].id == ByKey(st.rows, key).value && st.rows[i].key == key;
      assert st.rows[i] in st.rows;
    }
  }

  lemma {:induction false} InsertExactly(st: State, row: Row)
    ensures Insert(st.rows, row) == if Fits(st, row) then st.rows + [row] else st.rows
  {
    OnRecordExactly(st, row.key);
    ByIdNames(st.rows, row.id);
    if ById(st.rows, row.id).Some? {
      var i :| 0 <= i < |st.rows| && st.rows[i].id == row.id && st.rows[i].key == ById(st.rows, row.id).value.key;
      assert st.rows[i] in st.rows;
    }
  }

  /** A preview that the user confirms for the first time, in the scope it was prepared in. */
  predicate Decides(st: State, n: nat, q: Request, sameScope: bool) {
    n !in st.calls && Matches(st, q) && q.confirmed && st.previews[q.preview].response == None && sameScope
  }

  /** Whether the confirmed action takes effect: only an operation of the history can still be refused. */
  ghost predicate TakesEffect(st: State, p: Preview, opId: string) {
    "meeting.analysis." <= p.action || p.source == PluginView || Fits(st, Row(opId, p.key, p.action))
  }

  /**
    * When a confirmation creates an intent, a call, an operation, and what it answers. Nothing
    * happens for a request that does not match its preview, and a request that is not confirmed
    * only drops the preview.
    */
  lemma {:induction false} AuthorizeExactly(st: State, n: nat, q: Request, sameScope: bool, opId: string)
    ensures var (next, reply) := Authorize(st, n, q, sameScope, opId);
            && (n in st.calls || !Matches(st, q) ==> next == st && reply == Some(Denied))
            && (n !in st.calls && Matches(st, q) && !q.confirmed ==>
                  next == st.(previews := st.previews - {q.preview}) && reply == Some(CancelledByUser))
            && next.asked == st.asked
            && (Decides(st, n, q, sameScope) && TakesEffect(st, st.previews[q.preview], opId) ==>
                  next.intents == st.intents + {(st.previews[q.preview].key, st.previews[q.preview].action)})
            && (!(Decides(st, n, q, sameScope) && TakesEffect(st, st.previews[q.preview], opId)) ==> next.intents == st.intents)
  {
    if q.preview in st.previews {
      var p := st.previews[q.preview];
      InsertExactly(st, Row(opId, p.key, p.action));
    }
  }

  /** The preview goes to a plugin: it is neither an analysis nor of the history. */
  predicate ForPlugin(p: Preview) { p.source == PluginView && !("meeting.analysis." <= p.action) }

  /** When a confirmation goes on to ask, and the call it then opens. */
  lemma {:induction false} CallOpensExactly(st: State, n: nat, q: Request, sameScope: bool, opId: string)
    ensures var (next, reply) := Authorize(st, n, q, sameScope, opId);
            && (reply.None? <==>
                && n !in st.calls && Matches(st, q) && q.confirmed
                && (|| st.previews[q.preview].response == Some(Authorized)
                    || (st.previews[q.preview].response == None && sameScope && ForPlugin(st.previews[q.preview]))))
            && (reply.None? ==>
                  var p := st.previews[q.preview];
                  && next.calls == st.calls[n := Call(q.preview, p.key, p.action, false)] && next.rows == st.rows
                  && next.previews == st.previews[q.preview := p.(response := Some(Authorized))])
            && (reply.Some? ==> next.calls == st.calls)
  {
  }

  /** When a confirmation is answered with an accepted operation at once: a stored answer, or a new operation of the history. */
  lemma {:induction false} AcceptedAtOnceExactly(st: State, n: nat, q: Request, sameScope: bool, opId: string, id: string)
    ensures var (next, reply) := Authorize(st, n, q, sameScope, opId);
            && (reply == Some(Said(Accepted(id))) <==>
                && n !in st.calls && Matches(st, q) && q.confirmed
                && (|| st.previews[q.preview].response == Some(Accepted(id))
                    || (&& Decides(st, n, q, sameScope) && id == opId
                        && st.previews[q.preview].source == HostHistory && !("meeting.analysis." <= st.previews[q.preview].action)
                        && Fits(st, Row(opId, st.previews[q.preview].key, st.previews[q.preview].action)))))
            && (reply == Some(Said(Accepted(id))) ==> next.answers == st.answers + [Answer(st.previews[q.preview].key, id)])
            && (next.rows != st.rows ==>
                  && next.rows == st.rows + [Row(opId, st.previews[q.preview].key, st.previews[q.preview].action)]
                  && reply == Some(Said(Accepted(opId))))
  {
    if q.preview in st.previews {
      var p := st.previews[q.preview];
      InsertExactly(st, Row(opId, p.key, p.action));
    }
  }

  /** When the plugin is asked: nothing is on record for the request, its preview is still there, the target is unchanged and runs. */
  lemma {:induction false} AsksExactly(st: State, n: nat, targetOk: bool, running: bool)
    requires n in st.calls && !st.calls[n].asking
    ensures var (next, reply) := Dispatch(st, n, targetOk, running);
            var call := st.calls[n];
            && (reply.None? <==> call.preview in st.previews && !OnRecord(st, call.key) && targetOk && running)
            && (reply.None? ==> next == st.(calls := st.calls[n := call.(asking := true)], asked := st.asked + [call.key]))
            && (reply.Some? ==> next.calls == st.calls - {n} && next.asked == st.asked)
            && next.rows == st.rows && next.intents == st.intents
  {
    OnRecordExactly(st, st.calls[n].key);
  }

  /** What the host answers when it does not ask. */
  lemma {:induction false} DispatchAnswersExactly(st: State, n: nat, targetOk: bool, running: bool)
    requires n in st.calls && !st.calls[n].asking
    ensures var reply, call := Dispatch(st, n, targetOk, running).1, st.calls[n];
            && (call.preview !in st.previews ==> reply == Some(Denied))
            && (call.preview in st.previews && OnRecord(st, call.key) ==>
                  exists r :: r in st.rows && r.key == call.key && reply == Some(Said(Accepted(r.id))))
            && (call.preview in st.previews && !OnRecord(st, call.key) && !targetOk ==> reply == Some(Conflict))
            && (call.preview in st.previews && !OnRecord(st, call.key) && targetOk && !running ==> reply == Some(Unavailable))
  {
    OnRecordExactly(st, st.calls[n].key);
  }

  /** Row `id` is on record for exactly this request and action. */
  ghost predicate Durable(st: State, call: Call, id: string) { Row(id, call.key, call.action) in st.rows }

  /** What the plugin says is believed exactly when it names a durable operation of this request and action. */
  lemma {:induction false} BelievedExactly(st: State, n: nat, outcome: Heard)
    requires Good(st) && n in st.calls && st.calls[n].asking
    ensures var (next, reply) := Finish(st, n, outcome);
            var call := st.calls[n];
            && (forall id :: reply == Some(Said(Accepted(id))) <==> outcome == Named(id) && Durable(st, call, id))
            && (reply == Some(Unknown) || exists id :: reply == Some(Said(Accepted(id))))
            && next.calls == st.calls - {n} && next.rows == st.rows && next.asked == st.asked
            && (reply == Some(Unknown) ==> next == st.(calls := st.calls - {n}))
            && (forall id | reply == Some(Said(Accepted(id))) :: next.answers == st.answers + [Answer(call.key, id)])
  {
    if outcome.Named? {
      NamedExactly(st, st.calls[n], outcome.operation);
    }
  }

  lemma {:induction false} NamedExactly(st: State, call: Call, id: string)
    requires Good(st)
    ensures var row := ById(st.rows, id);
            (row.Some? && row.value.key == call.key && row.value.action == call.action) <==> Durable(st, call, id)
  {
    if Durable(st, call, id) {
      OnlyRow(st.rows, Row(id, call.key, call.action));
    } else if ById(st.rows, id).Some? {
      FoundIsMember(st.rows, id);
    }
  }

  lemma {:induction false} FoundIsMember(rows: seq<Row>, id: string)
    requires ById(rows, id).Some?
    ensures ById(rows, id).value in rows && ById(rows, id).value.id == id
  {
    if rows[0].id != id {
      FoundIsMember(rows[1..], id);
    }
  }

  // ----- nothing without the user

  /** Step `i` prepared a preview of this action and step `j` confirmed exactly that preview. */
  ghost predicate ConfirmedBy(steps: seq<Step>, key: Key, action: string, i: nat, j: nat) {
    && i < j < |steps| && steps[i].Prepare? && steps[j].First?
    && steps[i].preview.key == key && steps[i].preview.action == action
    && steps[j].q.preview == steps[i].id && steps[j].q.confirmed
    && steps[j].q.hash == steps[i].preview.hash && steps[j].q.context == steps[i].preview.context && steps[j].q.media == key.media
  }

  ghost predicate Confirmed(steps: seq<Step>, key: Key, action: string) { exists i: nat, j: nat :: ConfirmedBy(steps, key, action, i, j) }

  ghost predicate PreparedBy(steps: seq<Step>, id: string, p: Preview, i: nat) {
    i < |steps| && steps[i].Prepare? && steps[i].id == id && steps[i].preview.(response := p.response) == p
  }

  ghost predicate Prepared(steps: seq<Step>, id: string, p: Preview) { exists i: nat :: PreparedBy(steps, id, p, i) }

  ghost predicate CallWarranted(st: State, call: Call) {
    && (call.key, call.action) in st.intents
    && (call.preview in st.previews ==>
          st.previews[call.preview].key == call.key && st.previews[call.preview].action == call.action)
  }

  ghost predicate Intended(st: State, key: Key) { exists action :: (key, action) in st.intents }

  /** Every preview was prepared, every intent confirmed, and every answered preview, call and question has an intent. */
  ghost predicate Warranted(steps: seq<Step>, st: State) {
    && (forall id | id in st.previews :: Prepared(steps, id, st.previews[id]))
    && (forall id | id in st.previews && st.previews[id].response.Some? :: (st.previews[id].key, st.previews[id].action) in st.intents)
    && (forall x | x in st.intents :: Confirmed(steps, x.0, x.1))
    && (forall n | n in st.calls :: CallWarranted(st, st.calls[n]))
    && (forall i | 0 <= i < |st.asked| :: Intended(st, st.asked[i]))
  }

  lemma {:induction false} PreparedStays(steps: seq<Step>, step: Step, id: string, p: Preview)
    requires Prepared(steps, id, p)
    ensures Prepared(steps + [step], id, p)
  {
    var i: nat :| PreparedBy(steps, id, p, i);
    assert (steps + [step])[i] == steps[i];
    assert PreparedBy(steps + [step], id, p, i);
  }

  lemma {:induction false} ConfirmedStays(steps: seq<Step>, step: Step, key: Key, action: string)
    requires Confirmed(steps, key, action)
    ensures Confirmed(steps + [step], key, action)
  {
    var i: nat, j: nat :| ConfirmedBy(steps, key, action, i, j);
    assert (steps + [step])[i] == steps[i] && (steps + [step])[j] == steps[j];
    assert ConfirmedBy(steps + [step], key, action, i, j);
  }

  lemma {:induction false} WarrantedStays(steps: seq<Step>, step: Step, st: State)
    requires Warranted(steps, st)
    ensures Warranted(steps + [step], st)
  {
    forall id | id in st.previews
      ensures Prepared(steps + [step], id, st.previews[id])
    {
      PreparedStays(steps, step, id, st.previews[id]);
    }
    forall x | x in st.intents
      ensures Confirmed(steps + [step], x.0, x.1)
    {
      ConfirmedStays(steps, step, x.0, x.1);
    }
  }

  /** The confirmation of a prepared preview. */
  lemma {:induction false} NowConfirmed(steps: seq<Step>, st: State, step: Step)
    requires Warranted(steps, st) && step.First? && Matches(st, step.q) && step.q.confirmed
    ensures Confirmed(steps + [step], st.previews[step.q.preview].key, st.previews[step.q.preview].action)
  {
    var p := st.previews[step.q.preview];
    assert Prepared(steps, step.q.preview, p);
    var i: nat :| PreparedBy(steps, step.q.preview, p, i);
    var all := steps + [step];
    assert all[i] == steps[i] && all[|steps|] == step;
    assert ConfirmedBy(all, p.key, p.action, i, |steps|);
  }

  /** A change of one preview's stored answer, with an intent for it. */
  lemma {:induction false} AnswerStored(steps: seq<Step>, st: State, id: string, answer: Stored)
    requires Warranted(steps, st) && id in st.previews && (st.previews[id].key, st.previews[id].action) in st.intents
    ensures Warranted(steps, st.(previews := st.previews[id := st.previews[id].(response := Some(answer))]))
  {
    var p := st.previews[id];
    var next := st.(previews := st.previews[id := p.(response := Some(answer))]);
    AnyAnswer(steps, id, p, Some(answer));
    assert forall i | 0 <= i < |st.asked| :: Intended(st, st.asked[i]) ==> Intended(next, st.asked[i]);
    forall n | n in st.calls
      ensures CallWarranted(next, st.calls[n])
    {
      assert CallWarranted(st, st.calls[n]);
    }
  }

  /** What answer a preview holds says nothing about its preparation. */
  lemma {:induction false} AnyAnswer(steps: seq<Step>, id: string, p: Preview, answer: Option<Stored>)
    requires Prepared(steps, id, p)
    ensures Prepared(steps, id, p.(response := answer))
  {
    var i: nat :| PreparedBy(steps, id, p, i);
    assert PreparedBy(steps, id, p.(response := answer), i);
  }

  /** A call for a preview whose action has an intent. */
  lemma {:induction false} CallOpened(steps: seq<Step>, st: State, n: nat, id: string)
    requires Warranted(steps, st) && id in st.previews && (st.previews[id].key, st.previews[id].action) in st.intents
    ensures Warranted(steps, st.(calls := st.calls[n := Call(id, st.previews[id].key, st.previews[id].action, false)]))
  {
    var next := st.(calls := st.calls[n := Call(id, st.previews[id].key, st.previews[id].action, false)]);
    assert forall i | 0 <= i < |st.asked| :: Intended(st, st.asked[i]) ==> Intended(next, st.asked[i]);
  }

  /** A confirmed action gets its intent. */
  lemma {:induction false} IntentCreated(steps: seq<Step>, st: State, key: Key, action: string)
    requires Warranted(steps, st) && Confirmed(steps, key, action)
    ensures Warranted(steps, st.(intents := st.intents + {(key, action)}))
  {
    var next := st.(intents := st.intents + {(key, action)});
    forall i | 0 <= i < |st.asked|
      ensures Intended(next, st.asked[i])
    {
      var a :| (st.asked[i], a) in st.intents;
      assert (st.asked[i], a) in next.intents;
    }
  }

  /** Rows and answers are no part of the warrant. */
  lemma {:induction false} RowsApart(steps: seq<Step>, st: State, rows: seq<Row>, answers: seq<Answer>)
    requires Warranted(steps, st)
    ensures Warranted(steps, st.(rows := rows, answers := answers))
  {
    var next := st.(rows := rows, answers := answers);
    assert forall i | 0 <= i < |st.asked| :: Intended(st, st.asked[i]) ==> Intended(next, st.asked[i]);
  }

  lemma {:induction false} CallClosed(steps: seq<Step>, st: State, n: nat)
    requires Warranted(steps, st)
    ensures Warranted(steps, st.(calls := st.calls - {n}))
  {
    var next := st.(calls := st.calls - {n});
    assert forall i | 0 <= i < |st.asked| :: Intended(st, st.asked[i]) ==> Intended(next, st.asked[i]);
  }

  lemma {:induction false} PreviewDropped(steps: seq<Step>, st: State, id: string)
    requires Warranted(steps, st)
    ensures Warranted(steps, st.(previews := st.previews - {id}))
  {
    var next := st.(previews := st.previews - {id});
    assert forall i | 0 <= i < |st.asked| :: Intended(st, st.asked[i]) ==> Intended(next, st.asked[i]);
  }

  /** The first answer to a confirmed preview, step by step. */
  lemma {:induction false} DecideWarranted(steps: seq<Step>, st: State, n: nat, id: string, opId: string)
    requires Warranted(steps, st) && id in st.previews && Confirmed(steps, st.previews[id].key, st.previews[id].action)
    ensures Warranted(steps, Decide(st, n, id, st.previews[id], opId).0)
  {
    var p := st.previews[id];
    var granted := st.(intents := st.intents + {(p.key, p.action)});
    IntentCreated(steps, st, p.key, p.action);
    if IsAnalysis(p.action) {
      AnswerStored(steps, granted, id, Applied);
    } else if p.source.HostHistory? {
      var rows := Insert(st.rows, Row(opId, p.key, p.action));
      AnswerStored(steps, granted, id, Accepted(opId));
      RowsApart(steps, granted.(previews := st.previews[id := p.(response := Some(Accepted(opId)))]), rows, st.answers + [Answer(p.key, opId)]);
    } else {
      AnswerStored(steps, granted, id, Authorized);
      CallOpened(steps, granted.(previews := st.previews[id := p.(response := Some(Authorized))]), n, id);
    }
  }

  lemma {:induction false} FirstWarranted(steps: seq<Step>, st: State, step: Step)
    requires Warranted(steps, st) && step.First?
    ensures Warranted(steps + [step], Next(st, step))
  {
    var q, all := step.q, steps + [step];
    WarrantedStays(steps, step, st);
    if step.n !in st.calls && Matches(st, q) {
      if !q.confirmed {
        PreviewDropped(all, st, q.preview);
      } else {
        NowConfirmed(steps, st, step);
        match st.previews[q.preview].response
        case Some(Accepted(id)) => RowsApart(all, st, st.rows, st.answers + [Answer(st.previews[q.preview].key, id)]);
        case Some(Applied) =>
        case Some(Authorized) => CallOpened(all, st, step.n, q.preview);
        case None =>
          if step.sameScope {
            DecideWarranted(all, st, step.n, q.preview, step.opId);
          }
      }
    }
  }

  lemma {:induction false} AdmittedWarranted(steps: seq<Step>, st: State, n: nat, id: string)
    requires Warranted(steps, st) && n in st.calls
    ensures Warranted(steps, Admitted(st, st.calls[n], n, id).0)
  {
    var call := st.calls[n];
    assert CallWarranted(st, call);
    var stored := if call.preview in st.previews
    then st.(previews := st.previews[call.preview := st.previews[call.preview].(response := Some(Accepted(id)))]) else st;
    if call.preview in st.previews {
      AnswerStored(steps, st, call.preview, Accepted(id));
    }
    CallClosed(steps, stored, n);
    RowsApart(steps, stored.(calls := st.calls - {n}), st.rows, st.answers + [Answer(call.key, id)]);
  }

  lemma {:induction false} QuestionWarranted(steps: seq<Step>, st: State, n: nat)
    requires Warranted(steps, st) && n in st.calls
    ensures Warranted(steps, st.(calls := st.calls[n := st.calls[n].(asking := true)], asked := st.asked + [st.calls[n].key]))
  {
    var call := st.calls[n];
    var next := st.(calls := st.calls[n := call.(asking := true)], asked := st.asked + [call.key]);
    assert CallWarranted(st, call) && (call.key, call.action) in next.intents;
    forall i | 0 <= i < |next.asked|
      ensures Intended(next, next.asked[i])
    {
      if i < |st.asked| {
        assert Intended(st, st.asked[i]);
      } else {
        assert next.asked[i] == call.key;
      }
    }
  }

  /** A preview without an answer, under an identifier that nothing uses. */
  lemma {:induction false} PreviewAdded(steps: seq<Step>, st: State, id: string, p: Preview)
    requires Warranted(steps, st) && Prepared(steps, id, p) && p.response.None? && id !in st.previews
    requires forall n | n in st.calls :: st.calls[n].preview != id
    ensures Warranted(steps, st.(previews := st.previews[id := p]))
  {
    var next := st.(previews := st.previews[id := p]);
    assert forall i | 0 <= i < |st.asked| :: Intended(st, st.asked[i]) ==> Intended(next, st.asked[i]);
    forall n | n in st.calls
      ensures CallWarranted(next, st.calls[n])
    {
      assert CallWarranted(st, st.calls[n]);
    }
  }

  lemma {:induction false} PreparedWarranted(steps: seq<Step>, st: State, step: Step)
    requires Warranted(steps, st) && step.Prepare?
    ensures Warranted(steps + [step], Next(st, step))
  {
    var all := steps + [step];
    WarrantedStays(steps, step, st);
    if step.id !in st.previews && forall n | n in st.calls :: st.calls[n].preview != step.id {
      var p := step.preview.(response := None);
      assert all[|steps|] == step && PreparedBy(all, step.id, p, |steps|);
      PreviewAdded(all, st, step.id, p);
    }
  }

  lemma {:induction false} NextWarranted(steps: seq<Step>, st: State, step: Step)
    requires Warranted(steps, st)
    ensures Warranted(steps + [step], Next(st, step))
  {
    var all := steps + [step];
    WarrantedStays(steps, step, st);
    match step
    case Prepare(_, _) => PreparedWarranted(steps, st, step);
    case Expire(id) => PreviewDropped(all, st, id);
    case Insertion(row) => RowsApart(all, st, Insert(st.rows, row), st.answers);
    case First(_, _, _, _) => FirstWarranted(steps, st, step);
    case Second(n, targetOk, running) => SecondWarranted(all, st, n, targetOk, running);
    case Third(n, outcome) => ThirdWarranted(all, st, n, outcome);
  }

  lemma {:induction false} SecondWarranted(steps: seq<Step>, st: State, n: nat, targetOk: bool, running: bool)
    requires Warranted(steps, st)
    ensures Warranted(steps, Dispatch(st, n, targetOk, running).0)
  {
    if n in st.calls && !st.calls[n].asking {
      CallClosed(steps, st, n);
      QuestionWarranted(steps, st, n);
      var id := ByKey(st.rows, st.calls[n].key);
      if id.Some? {
        AdmittedWarranted(steps, st, n, id.value);
      }
    }
  }

  lemma {:induction false} ThirdWarranted(steps: seq<Step>, st: State, n: nat, outcome: Heard)
    requires Warranted(steps, st)
    ensures Warranted(steps, Finish(st, n, outcome).0)
  {
    if n in st.calls && st.calls[n].asking {
      CallClosed(steps, st, n);
      if outcome.Named? {
        AdmittedWarranted(steps, st, n, outcome.operation);
      }
    }
  }

  lemma {:induction false} RunWarranted(steps: seq<Step>)
    ensures Warranted(steps, Run(EmptyHost, steps))
  {
    if steps != [] {
      var n := |steps| - 1;
      RunWarranted(steps[..n]);
      RunSnoc(EmptyHost, steps[..n], steps[n]);
      assert steps[..n] + [steps[n]] == steps;
      NextWarranted(steps[..n], Run(EmptyHost, steps[..n]), steps[n]);
    }
  }

  /** The user has confirmed some action under this request. */
  ghost predicate UserAsked(steps: seq<Step>, key: Key) { exists action :: Confirmed(steps, key, action) }

  lemma {:induction false} RowHasIntent(st: State, r: Row)
    requires Good(st) && r in st.rows
    ensures (r.key, r.action) in st.intents
  {
    var i :| 0 <= i < |st.rows| && st.rows[i] == r;
    assert (st.rows[i].key, st.rows[i].action) in st.intents;
  }

  lemma {:induction false} QuestionConfirmed(steps: seq<Step>, st: State, i: nat)
    requires Warranted(steps, st) && i < |st.asked|
    ensures UserAsked(steps, st.asked[i])
  {
    assert Intended(st, st.asked[i]);
    var action :| (st.asked[i], action) in st.intents;
    assert Confirmed(steps, (st.asked[i], action).0, (st.asked[i], action).1);
  }

  /**
    * On every run from the empty host: each operation on record is of a request and action whose
    * preview was prepared and then confirmed by the user, under the hash, context and media it was
    * shown with; and a plugin is only ever asked about such a request.
    */
  lemma {:induction false} NothingUnconfirmed(steps: seq<Step>)
    ensures forall r | r in Run(EmptyHost, steps).rows :: Confirmed(steps, r.key, r.action)
    ensures forall i | 0 <= i < |Run(EmptyHost, steps).asked| :: UserAsked(steps, Run(EmptyHost, steps).asked[i])
  {
    var st := Run(EmptyHost, steps);
    RunWarranted(steps);
    EmptyHostGood();
    RunGood(EmptyHost, steps);
    forall r | r in st.rows
      ensures Confirmed(steps, r.key, r.action)
    {
      RowHasIntent(st, r);
      assert Confirmed(steps, (r.key, r.action).0, (r.key, r.action).1);
    }
    forall i | 0 <= i < |st.asked|
      ensures UserAsked(steps, st.asked[i])
    {
      QuestionConfirmed(steps, st, i);
    }
  }
}
