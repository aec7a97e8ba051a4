/** Whole runs of the approval protocol, from empty tables. */
module AssistantHistory {
  import opened Outcome
  import opened AssistantState
  import opened AssistantApi
  import opened AssistantRuns

  /** What the workers do to these tables between requests. */
  datatype Work =
    | Start(id: string, session: string, profile: Profile, goal: string, grant: Option<string>)
    | Move(id: string, expected: nat, to: Status, result: Option<map<string, Value>>, grant: Option<string>)
    | Ask(id: string, execution: string, actor: string, capability: string, scope: string, candidate: Option<string>, expires: int)
    | Lend(id: string, terms: Grant)

  /** `create_execution`, `transition_execution`, `create_pending_action_approval` and `create_grant`. */
  function Perform(db: Db, w: Work): Db {
    match w
    case Start(id, session, profile, goal, grant) =>
      if id in db.executions then db
      else db.(executions := db.executions[id := Execution(session, profile, goal, Initial(profile), 1, grant, map[])])
    case Move(id, expected, to, result, grant) =>
      if id !in db.executions then db
      else
        var r := Transition(db, id, db.executions[id], expected, to, result, grant);
        if r.Success? then r.value else db
    case Ask(id, execution, actor, capability, scope, candidate, expires) =>
      if execution !in db.executions || id in db.approvals then db
      else if exists i | i in db.approvals :: db.approvals[i].decision.Pending? && db.approvals[i].execution == execution then db
      else
        var a := Approval(execution, db.executions[execution].session, actor, capability, scope, candidate, expires, Pending, None);
        db.(approvals := db.approvals[id := a])
    case Lend(id, terms) =>
      var r := Issue(db, id, terms);
      if r.Success? then r.value else db
  }

  /** A request reads its rows from the state with index `at` of the past. */
  datatype Step = Request(q: AssistantApi.Request, at: nat, env: Env) | Worker(w: Work)

  function Seen(past: seq<Db>, at: nat): Db
    requires past != []
  {
    if at < |past| then past[at] else past[|past| - 1]
  }

  function Next(past: seq<Db>, step: Step): Db
    requires past != []
  {
    match step
    case Request(q, at, env) => Serve(past[|past| - 1], Seen(past, at), q, env).0
    case Worker(w) => Perform(past[|past| - 1], w)
  }

  /** The committed states of a run, oldest first. */
  function History(steps: seq<Step>): (h: seq<Db>)
    ensures |h| == |steps| + 1
  {
    if steps == [] then [Nothing]
    else
      var past := History(steps[..|steps| - 1]);
      past + [Next(past, steps[|steps| - 1])]
  }

  // ----- worker steps

  lemma {:induction false} StartStable(db: Db, w: Work)
    requires Good(db) && w.Start?
    ensures Good(Perform(db, w)) && Stable(db, Perform(db, w))
  {
    StableReflexive(db);
    if w.id !in db.executions {
      var d := Perform(db, w);
      assert CommitsOf(db.log, w.id) == [];
      assert forall e | e in db.executions :: d.executions[e] == db.executions[e];
      UsedStable(db.operations, db.executions, d.executions);
    }
  }

  lemma {:induction false} AskStable(db: Db, w: Work)
    requires Good(db) && w.Ask?
    ensures Good(Perform(db, w)) && Stable(db, Perform(db, w))
  {
    StableReflexive(db);
    var d := Perform(db, w);
    if d != db {
      forall i | i in d.approvals
        ensures Bound(d.approvals[i], d.grants)
      {
        assert i in db.approvals ==> Bound(db.approvals[i], db.grants);
      }
    }
  }

  lemma {:induction false} WorkStable(db: Db, w: Work)
    requires Good(db)
    ensures Good(Perform(db, w)) && Stable(db, Perform(db, w))
  {
    StableReflexive(db);
    match w
    case Start(_, _, _, _, _) => StartStable(db, w);
    case Move(id, expected, to, result, grant) =>
      if id in db.executions {
        TransitionStable(db, id, db.executions[id], expected, to, result, grant);
      }
    case Ask(_, _, _, _, _, _, _) => AskStable(db, w);
    case Lend(id, terms) => IssueStable(db, id, terms);
  }

  // ----- runs

  ghost predicate Orderly(h: seq<Db>) {
    && (forall i | 0 <= i < |h| :: Good(h[i]))
    && (forall i, j | 0 <= i <= j < |h| :: Stable(h[i], h[j]))
  }

  lemma {:induction false} OrderlySnoc(past: seq<Db>, d: Db)
    requires past != [] && Orderly(past) && Good(d) && Stable(past[|past| - 1], d)
    ensures Orderly(past + [d])
  {
    var h := past + [d];
    StableReflexive(d);
    forall i, j | 0 <= i <= j < |h|
      ensures Stable(h[i], h[j])
    {
      if i < |past| && j == |past| {
        StableTransitive(past[i], past[|past| - 1], d);
      }
    }
  }

  /**
    * Every state of every run satisfies the invariant, and every later state is stable over
    * every earlier one.
    */
  lemma {:induction false} RunOrderly(steps: seq<Step>)
    ensures Orderly(History(steps))
  {
    if steps == [] {
      StableReflexive(Nothing);
    } else {
      var past, step := History(steps[..|steps| - 1]), steps[|steps| - 1];
      RunOrderly(steps[..|steps| - 1]);
      NextStable(past, step);
      OrderlySnoc(past, Next(past, step));
    }
  }

  lemma {:induction false} NextStable(past: seq<Db>, step: Step)
    requires past != [] && Orderly(past)
    ensures Good(Next(past, step)) && Stable(past[|past| - 1], Next(past, step))
  {
    match step
    case Request(q, at, env) => ServeStable(past[|past| - 1], Seen(past, at), q, env);
    case Worker(w) => WorkStable(past[|past| - 1], w);
  }

  // ----- one commit per version

  lemma {:induction false} CommitPosition(log: seq<Commit>, i: nat) returns (k: nat)
    requires i < |log|
    ensures k < |CommitsOf(log, log[i].execution)| && CommitsOf(log, log[i].execution)[k] == log[i]
    ensures k == |CommitsOf(log[..i], log[i].execution)|
  {
    var n := |log| - 1;
    if i == n {
      k := |CommitsOf(log[..n], log[i].execution)|;
    } else {
      k := CommitPosition(log[..n], i);
      assert log[..n][..i] == log[..i];
    }
  }

  lemma {:induction false} CommitsGrow(log: seq<Commit>, i: nat, j: nat, e: string)
    requires i < j <= |log| && log[i].execution == e
    ensures |CommitsOf(log[..i], e)| < |CommitsOf(log[..j], e)|
  {
    assert log[..j][..j - 1] == log[..j - 1];
    if i + 1 < j {
      CommitsGrow(log, i, j - 1, e);
    }
  }

  /** Two commits of one execution never produced the same version, so no two requests spent the same expected version. */
  lemma {:induction false} OneCommitPerVersion(db: Db, i: nat, j: nat)
    requires Good(db) && i < |db.log| && j < |db.log|
    requires db.log[i].execution == db.log[j].execution && db.log[i].version == db.log[j].version
    ensures i == j
  {
    var e := db.log[i].execution;
    var k := CommitPosition(db.log, i);
    var m := CommitPosition(db.log, j);
    assert e in db.executions;
    assert Chain(CommitsOf(db.log, e), db.executions[e]);
    if i < j {
      CommitsGrow(db.log, i, j, e);
    } else if j < i {
      CommitsGrow(db.log, j, i, e);
    }
  }

  /** The commits of an execution spell out a legal path from its first status to its current one, one version at a time. */
  lemma {:induction false} VersionCountsCommits(db: Db, e: string)
    requires Good(db) && e in db.executions
    ensures |CommitsOf(db.log, e)| == db.executions[e].version - 1
    ensures Path(CommitsOf(db.log, e), db.executions[e].profile, db.executions[e].status)
  {
    assert Chain(CommitsOf(db.log, e), db.executions[e]);
  }

  // ----- what a request can move

  /** `d` has the executions and the log of `db`. */
  ghost predicate Unmoved(db: Db, d: Db) { d.executions == db.executions && d.log == db.log }

  /** No execution but `e` differs. */
  ghost predicate OnlyMoves(db: Db, d: Db, e: string) { d.executions - {e} == db.executions - {e} }

  /** The row is not what `row` was read as, so a compare-and-set on it must lose. */
  ghost predicate Lost(db: Db, q: AssistantApi.Request, row: Execution) {
    q.execution in db.executions ==>
      db.executions[q.execution].version != q.payload.expected || db.executions[q.execution].status != row.status
  }

  ghost predicate Blocked(db: Db, q: AssistantApi.Request, row: Execution) {
    Terminal(row.profile, row.status) || Lost(db, q, row)
  }

  ghost predicate Scoped(db: Db, d: Db, q: AssistantApi.Request, blocked: bool) {
    OnlyMoves(db, d, q.execution) && (blocked ==> Unmoved(db, d))
  }

  lemma {:induction false} AnsweredScope(before: Db, work: Db, q: AssistantApi.Request, row: Execution)
    requires Unmoved(before, work)
    ensures Scoped(before, Answered(before, work, q, row).0, q, true)
  {
  }

  lemma {:induction false} MovedScope(before: Db, work: Db, q: AssistantApi.Request, row: Execution, to: Status,
                                      result: map<string, Value>, grant: Option<string>)
    requires Unmoved(before, work)
    ensures Scoped(before, Moved(before, work, q, row, to, result, grant).0, q, Lost(before, q, row))
  {
  }

  lemma {:induction false} GrantScope(db: Db, q: AssistantApi.Request, row: Execution, a: Approval, env: Env)
    ensures Scoped(db, ServeGrant(db, q, row, a, env).0, q, Lost(db, q, row))
  {
    var issued := Issue(db, env.grantId, GrantFor(a, row, env));
    if issued.Success? {
      var resolved := Resolve(issued.value, q.approval, a, Approved, Some(env.grantId));
      if resolved.Success? {
        MovedScope(db, resolved.value, q, row, Planning,
                   map["input_received" := Flag(true), "pending_approval_id" := Reference(q.approval), "user_rejected" := Flag(false)],
                   Some(env.grantId));
      }
    }
  }

  lemma {:induction false} ApproveScope(db: Db, q: AssistantApi.Request, row: Execution, a: Approval, env: Env)
    ensures Scoped(db, ServeApprove(db, q, row, a, env).0, q, Blocked(db, q, row))
  {
    if a.decision.Approved? {
      AnsweredScope(db, db, q, row);
    } else if a.decision.Pending? && a.expires > env.now {
      var r := ServeApprove(db, q, row, a, env);
      assert r.0 == db || (r == ServeGrant(db, q, row, a, env) && row.profile.ActionRun? && row.status.NeedsInput?);
      GrantScope(db, q, row, a, env);
    }
  }

  lemma {:induction false} RejectScope(db: Db, q: AssistantApi.Request, row: Execution, a: Approval, env: Env)
    ensures Scoped(db, ServeReject(db, q, row, a, env).0, q, Blocked(db, q, row))
  {
    var resolved := if a.decision.Pending? then Resolve(db, q.approval, a, Rejected, None) else Success(db);
    if a.decision.Rejected? {
      AnsweredScope(db, db, q, row);
    } else if resolved.Success? {
      MovedScope(db, resolved.value, q, row, Cancelled, Rejection(q, row, env.effects), None);
    }
  }

  lemma {:induction false} InputScope(db: Db, seen: Db, q: AssistantApi.Request, row: Execution)
    ensures Scoped(db, ServeInput(db, seen, q, row).0, q, Blocked(db, q, row))
  {
    var note := Observation(q.execution, q.payload.operation, q.payload.input, ActorOf(seen, row));
    MovedScope(db, db.(observations := db.observations + [note]), q, row, Planning, map["input_received" := Flag(true)], None);
  }

  /** A request moves no execution but its own, and not even that when the compare-and-set must lose. */
  lemma {:induction false} ServeScope(db: Db, seen: Db, q: AssistantApi.Request, env: Env)
    ensures var d := Serve(db, seen, q, env).0;
            Scoped(db, d, q, q.execution in seen.executions ==> Blocked(db, q, seen.executions[q.execution]))
  {
    if q.execution in seen.executions && Key(q) !in seen.operations {
      var row := seen.executions[q.execution];
      match q.kind
      case Input => InputScope(db, seen, q, row);
      case Cancel => MovedScope(db, db, q, row, Cancelled, Cancellation(row, env.effects), None);
      case Approve =>
        if q.approval in seen.approvals {
          ApproveScope(db, q, row, seen.approvals[q.approval], env);
        }
      case Reject =>
        if q.approval in seen.approvals {
          RejectScope(db, q, row, seen.approvals[q.approval], env);
        }
    }
  }

  /** A request that names a version the execution no longer has moves no execution, whatever it read before. */
  lemma {:induction false} LateRequestMovesNothing(db: Db, seen: Db, q: AssistantApi.Request, env: Env)
    requires q.execution in db.executions ==> db.executions[q.execution].version != q.payload.expected
    ensures Unmoved(db, Serve(db, seen, q, env).0)
  {
    ServeScope(db, seen, q, env);
  }

  /** A request leaves the row of every terminal execution exactly as it is. */
  lemma {:induction false} TerminalUntouched(db: Db, seen: Db, q: AssistantApi.Request, env: Env, e: string)
    requires ExecutionsStable(seen.executions, db.executions)
    requires e in db.executions && Terminal(db.executions[e].profile, db.executions[e].status)
    ensures var d := Serve(db, seen, q, env).0;
            e in d.executions && d.executions[e] == db.executions[e]
  {
    ServeScope(db, seen, q, env);
    var d := Serve(db, seen, q, env).0;
    if e == q.execution {
      assert e in seen.executions ==> RowStable(seen.executions[e], db.executions[e]);
    } else {
      assert e in d.executions - {q.execution} && (d.executions - {q.execution})[e] == db.executions[e];
    }
  }

  /** A worker changes the row of a terminal execution exactly by a transition to the status it already has. */
  lemma {:induction false} WorkTouchesTerminalRow(db: Db, w: Work, e: string)
    requires e in db.executions && Terminal(db.executions[e].profile, db.executions[e].status)
    ensures e in Perform(db, w).executions
    ensures Perform(db, w).executions[e] != db.executions[e] <==>
            w.Move? && w.id == e && w.expected == db.executions[e].version && w.to == db.executions[e].status
  {
  }

  /** The step is a worker's transition of `e` from `row` to the status that `row` already has. */
  ghost predicate Rewrites(step: Step, e: string, row: Execution) {
    step.Worker? && step.w.Move? && step.w.id == e && step.w.expected == row.version && step.w.to == row.status
  }

  ghost predicate Unrewritten(steps: seq<Step>, from: nat, e: string, row: Execution) {
    forall k | from <= k < |steps| :: !Rewrites(steps[k], e, row)
  }

  /** One more step leaves the row of a terminal execution alone exactly if it does not rewrite it. */
  lemma {:induction false} StepOnTerminalRow(past: seq<Db>, step: Step, e: string)
    requires past != [] && Orderly(past) && e in past[|past| - 1].executions
    requires var row := past[|past| - 1].executions[e];
             Terminal(row.profile, row.status)
    ensures e in Next(past, step).executions
    ensures Next(past, step).executions[e] == past[|past| - 1].executions[e] <==> !Rewrites(step, e, past[|past| - 1].executions[e])
  {
    var db := past[|past| - 1];
    match step
    case Request(q, at, env) =>
      assert Stable(Seen(past, at), db);
      TerminalUntouched(db, Seen(past, at), q, env, e);
    case Worker(w) => WorkTouchesTerminalRow(db, w, e);
  }

  /**
    * Once an execution is terminal, its row stays exactly as it is, whatever requests come and
    * whatever they have read, if and only if no worker step is a transition of it from that
    * version to the status it already has.
    */
  lemma {:induction false} TerminalForever(steps: seq<Step>, i: nat, e: string)
    requires i <= |steps| && e in History(steps)[i].executions
    requires var row := History(steps)[i].executions[e];
             Terminal(row.profile, row.status)
    ensures e in History(steps)[|steps|].executions
    ensures var row := History(steps)[i].executions[e];
            History(steps)[|steps|].executions[e] == row <==> Unrewritten(steps, i, e, row)
  {
    if i < |steps| {
      var n := |steps| - 1;
      var past := History(steps[..n]);
      assert History(steps) == past + [Next(past, steps[n])];
      var row := past[i].executions[e];
      TerminalForever(steps[..n], i, e);
      RunOrderly(steps[..n]);
      RunOrderly(steps);
      UnrewrittenSnoc(steps, i, e, row);
      assert RowStable(row, past[n].executions[e]) by {
        assert Stable(past[i], past[n]);
      }
      if past[n].executions[e] == row {
        StepOnTerminalRow(past, steps[n], e);
      } else {
        VersionMovedOn(History(steps), i, n, n + 1, e);
      }
    }
  }

  lemma {:induction false} UnrewrittenSnoc(steps: seq<Step>, i: nat, e: string, row: Execution)
    requires i < |steps|
    ensures Unrewritten(steps, i, e, row) <==>
            Unrewritten(steps[..|steps| - 1], i, e, row) && !Rewrites(steps[|steps| - 1], e, row)
  {
    var n := |steps| - 1;
    assert forall k | i <= k < n :: steps[..n][k] == steps[k];
  }

  /** A row that has changed never comes back. */
  lemma {:induction false} VersionMovedOn(h: seq<Db>, i: nat, j: nat, k: nat, e: string)
    requires Orderly(h) && i <= j <= k < |h| && e in h[i].executions && e in h[j].executions
    requires h[j].executions[e] != h[i].executions[e]
    ensures e in h[k].executions && h[k].executions[e] != h[i].executions[e]
  {
    assert Stable(h[i], h[j]) && Stable(h[j], h[k]);
    assert RowStable(h[i].executions[e], h[j].executions[e]) && RowStable(h[j].executions[e], h[k].executions[e]);
  }

  // ----- repeated requests

  ghost predicate OnRecord(db: Db, q: AssistantApi.Request) {
    && q.execution in db.executions && Key(q) in db.operations
    && db.operations[Key(q)].kind == q.kind && db.operations[Key(q)].payload == q.payload
  }

  /**
    * Once an operation is on record, the same request, read at any moment since and in any
    * environment, answers what was recorded and changes nothing.
    */
  lemma {:induction false} ReplayForever(h: seq<Db>, i: nat, at: nat, now: nat, q: AssistantApi.Request, env: Env)
    requires Orderly(h) && i <= at <= now < |h| && OnRecord(h[i], q)
    ensures Serve(h[now], h[at], q, env) == (h[now], Done(h[i].operations[Key(q)].response))
  {
    assert Stable(h[i], h[at]);
    Replay(h[i], h[at], h[now], q, env);
  }

  lemma {:induction false} Replay(first: Db, seen: Db, db: Db, q: AssistantApi.Request, env: Env)
    requires OnRecord(first, q) && Kept(first.operations, seen.operations)
    requires ExecutionsStable(first.executions, seen.executions)
    ensures Serve(db, seen, q, env) == (db, Done(first.operations[Key(q)].response))
  {
  }

  // ----- what an accepted request leaves on record

  /** `reply` is a refusal, or `d` holds the operation, with this very answer when `exact`. */
  ghost predicate Recorded(d: Db, q: AssistantApi.Request, reply: Reply, exact: bool) {
    reply.Done? ==>
      && Key(q) in d.operations && d.operations[Key(q)].kind == q.kind && d.operations[Key(q)].payload == q.payload
      && (exact ==> d.operations[Key(q)].response == reply.response)
  }

  /** No identical request can have been recorded since the reading. */
  ghost predicate First(db: Db, q: AssistantApi.Request) {
    q.kind.Input? || q.kind.Cancel? || Key(q) !in db.operations
  }

  lemma {:induction false} AnsweredRecorded(before: Db, work: Db, q: AssistantApi.Request, row: Execution)
    ensures var (d, reply) := Answered(before, work, q, row);
            Recorded(d, q, reply, Key(q) !in work.operations)
  {
  }

  lemma {:induction false} MovedRecorded(before: Db, work: Db, q: AssistantApi.Request, row: Execution, to: Status,
                                         result: map<string, Value>, grant: Option<string>)
    requires AllUsed(before.operations, before.executions) && Unmoved(before, work) && work.operations == before.operations
    ensures var (d, reply) := Moved(before, work, q, row, to, result, grant);
            Recorded(d, q, reply, First(before, q))
  {
    var r := Transition(work, q.execution, row, q.payload.expected, to, Some(result), grant);
    if r.Success? && q.execution in r.value.executions {
      AnsweredRecorded(before, r.value, q, r.value.executions[q.execution]);
      if Key(q) in before.operations {
        assert Used(Key(q), before.operations[Key(q)], before.executions);
      }
    }
  }

  lemma {:induction false} GrantRecorded(db: Db, q: AssistantApi.Request, row: Execution, a: Approval, env: Env)
    requires AllUsed(db.operations, db.executions) && q.kind.Approve?
    ensures var (d, reply) := ServeGrant(db, q, row, a, env);
            Recorded(d, q, reply, First(db, q))
  {
    var issued := Issue(db, env.grantId, GrantFor(a, row, env));
    if issued.Success? {
      var resolved := Resolve(issued.value, q.approval, a, Approved, Some(env.grantId));
      if resolved.Success? {
        MovedRecorded(db, resolved.value, q, row, Planning,
                      map["input_received" := Flag(true), "pending_approval_id" := Reference(q.approval), "user_rejected" := Flag(false)],
                      Some(env.grantId));
      }
    }
  }

  lemma {:induction false} ApproveRecorded(db: Db, q: AssistantApi.Request, row: Execution, a: Approval, env: Env)
    requires AllUsed(db.operations, db.executions) && q.kind.Approve?
    ensures var (d, reply) := ServeApprove(db, q, row, a, env);
            Recorded(d, q, reply, First(db, q))
  {
    if a.decision.Approved? {
      AnsweredRecorded(db, db, q, row);
    } else {
      GrantRecorded(db, q, row, a, env);
    }
  }

  lemma {:induction false} RejectRecorded(db: Db, q: AssistantApi.Request, row: Execution, a: Approval, env: Env)
    requires AllUsed(db.operations, db.executions) && q.kind.Reject?
    ensures var (d, reply) := ServeReject(db, q, row, a, env);
            Recorded(d, q, reply, First(db, q))
  {
    if a.decision.Rejected? {
      AnsweredRecorded(db, db, q, row);
    } else {
      var resolved := if a.decision.Pending? then Resolve(db, q.approval, a, Rejected, None) else Success(db);
      if resolved.Success? {
        MovedRecorded(db, resolved.value, q, row, Cancelled, Rejection(q, row, env.effects), None);
      }
    }
  }

  lemma {:induction false} InputRecorded(db: Db, seen: Db, q: AssistantApi.Request, row: Execution)
    requires AllUsed(db.operations, db.executions)
    ensures var (d, reply) := ServeInput(db, seen, q, row);
            Recorded(d, q, reply, First(db, q))
  {
    var note := Observation(q.execution, q.payload.operation, q.payload.input, ActorOf(seen, row));
    MovedRecorded(db, db.(observations := db.observations + [note]), q, row, Planning, map["input_received" := Flag(true)], None);
  }

  /**
    * Every accepted request is on record afterwards, with the answer its caller got. The one
    * exception is an approval or rejection that raced an identical request: see
    * `AnswerIsStoredExactly`.
    */
  lemma {:induction false} AcceptedIsRecorded(db: Db, seen: Db, q: AssistantApi.Request, env: Env)
    requires Good(db) && Stable(seen, db)
    ensures var (d, reply) := Serve(db, seen, q, env);
            Recorded(d, q, reply, First(db, q) || Key(q) in seen.operations)
  {
    if q.execution in seen.executions && Key(q) !in seen.operations {
      var row := seen.executions[q.execution];
      match q.kind
      case Input => InputRecorded(db, seen, q, row);
      case Cancel => MovedRecorded(db, db, q, row, Cancelled, Cancellation(row, env.effects), None);
      case Approve =>
        if q.approval in seen.approvals {
          ApproveRecorded(db, q, row, seen.approvals[q.approval], env);
        }
      case Reject =>
        if q.approval in seen.approvals {
          RejectRecorded(db, q, row, seen.approvals[q.approval], env);
        }
    }
  }

  // ----- a request that raced its own duplicate

  /** The row that an accepted request answers with: the one it moved the execution to, or else the one it read. */
  function AnswerRow(db: Db, d: Db, q: AssistantApi.Request, row: Execution): Execution {
    if d.executions != db.executions && q.execution in d.executions then d.executions[q.execution] else row
  }

  /** If accepted, `d` keeps the operations of `db` and the answer is about that row. */
  ghost predicate AnswersAnew(db: Db, d: Db, q: AssistantApi.Request, row: Execution, reply: Reply) {
    reply.Done? ==> d.operations == db.operations && reply.response == Response(q.execution, AnswerRow(db, d, q, row))
  }

  lemma {:induction false} AnsweredAnew(before: Db, work: Db, q: AssistantApi.Request, row: Execution)
    requires Unmoved(before, work) && work.operations == before.operations && Key(q) in before.operations
    ensures var (d, reply) := Answered(before, work, q, row);
            AnswersAnew(before, d, q, row, reply)
  {
  }

  lemma {:induction false} MovedAnew(before: Db, work: Db, q: AssistantApi.Request, row: Execution, to: Status,
                                     result: map<string, Value>, grant: Option<string>)
    requires Unmoved(before, work) && work.operations == before.operations && Key(q) in before.operations
    ensures var (d, reply) := Moved(before, work, q, row, to, result, grant);
            AnswersAnew(before, d, q, row, reply)
  {
    var r := Transition(work, q.execution, row, q.payload.expected, to, Some(result), grant);
    if r.Success? {
      assert r.value.executions[q.execution].version != before.executions[q.execution].version;
      assert r.value.executions != before.executions;
    }
  }

  lemma {:induction false} ApproveAnew(db: Db, q: AssistantApi.Request, row: Execution, a: Approval, env: Env)
    requires Key(q) in db.operations
    ensures var (d, reply) := ServeApprove(db, q, row, a, env);
            AnswersAnew(db, d, q, row, reply)
  {
    if a.decision.Approved? {
      AnsweredAnew(db, db, q, row);
    } else {
      GrantAnew(db, q, row, a, env);
    }
  }

  lemma {:induction false} GrantAnew(db: Db, q: AssistantApi.Request, row: Execution, a: Approval, env: Env)
    requires Key(q) in db.operations
    ensures var (d, reply) := ServeGrant(db, q, row, a, env);
            AnswersAnew(db, d, q, row, reply)
  {
    var issued := Issue(db, env.grantId, GrantFor(a, row, env));
    if issued.Success? {
      var resolved := Resolve(issued.value, q.approval, a, Approved, Some(env.grantId));
      if resolved.Success? {
        MovedAnew(db, resolved.value, q, row, Planning,
                  map["input_received" := Flag(true), "pending_approval_id" := Reference(q.approval), "user_rejected" := Flag(false)],
                  Some(env.grantId));
      }
    }
  }

  lemma {:induction false} RejectAnew(db: Db, q: AssistantApi.Request, row: Execution, a: Approval, env: Env)
    requires Key(q) in db.operations
    ensures var (d, reply) := ServeReject(db, q, row, a, env);
            AnswersAnew(db, d, q, row, reply)
  {
    if a.decision.Rejected? {
      AnsweredAnew(db, db, q, row);
    } else {
      var resolved := if a.decision.Pending? then Resolve(db, q.approval, a, Rejected, None) else Success(db);
      if resolved.Success? {
        MovedAnew(db, resolved.value, q, row, Cancelled, Rejection(q, row, env.effects), None);
      }
    }
  }

  /** An approve or reject that was not on record when it was read, but is when it is written, answers anew. */
  lemma {:induction false} RacedDecisionAnswersAnew(db: Db, seen: Db, q: AssistantApi.Request, env: Env)
    requires q.execution in seen.executions && Key(q) !in seen.operations && Key(q) in db.operations
    requires q.kind.Approve? || q.kind.Reject?
    ensures var (d, reply) := Serve(db, seen, q, env);
            AnswersAnew(db, d, q, seen.executions[q.execution], reply)
  {
    if q.approval in seen.approvals {
      var row, a := seen.executions[q.execution], seen.approvals[q.approval];
      if q.kind.Approve? {
        ApproveAnew(db, q, row, a, env);
      } else {
        RejectAnew(db, q, row, a, env);
      }
    }
  }

  /** The approval was read as already decided the way the request asks for. */
  predicate AlreadyDecided(seen: Db, q: AssistantApi.Request) {
    && q.approval in seen.approvals
    && ((q.kind.Approve? && seen.approvals[q.approval].decision.Approved?)
        || (q.kind.Reject? && seen.approvals[q.approval].decision.Rejected?))
  }

  /** A decision that is already taken is answered with the row read; any other accepted decision moves the execution. */
  lemma {:induction false} DecidedOrMoved(db: Db, seen: Db, q: AssistantApi.Request, env: Env)
    requires q.execution in seen.executions && Key(q) !in seen.operations && (q.kind.Approve? || q.kind.Reject?)
    requires Serve(db, seen, q, env).1.Done?
    ensures var (d, reply) := Serve(db, seen, q, env);
            if AlreadyDecided(seen, q) then d.executions == db.executions && reply.response == Response(q.execution, seen.executions[q.execution])
            else q.execution in db.executions && reply.response.row.version == db.executions[q.execution].version + 1
  {
    var row, a := seen.executions[q.execution], seen.approvals[q.approval];
    if q.kind.Approve? {
      ApproveMoves(db, q, row, a, env);
    } else {
      RejectMoves(db, q, row, a, env);
    }
  }

  ghost predicate MovedAnswer(db: Db, q: AssistantApi.Request, reply: Reply) {
    reply.Done? ==> q.execution in db.executions && reply.response.row.version == db.executions[q.execution].version + 1
  }

  lemma {:induction false} MovedAnswers(before: Db, work: Db, q: AssistantApi.Request, row: Execution, to: Status,
                                        result: map<string, Value>, grant: Option<string>)
    requires Unmoved(before, work)
    ensures MovedAnswer(before, q, Moved(before, work, q, row, to, result, grant).1)
  {
  }

  lemma {:induction false} ApproveMoves(db: Db, q: AssistantApi.Request, row: Execution, a: Approval, env: Env)
    ensures var (d, reply) := ServeApprove(db, q, row, a, env);
            if a.decision.Approved? then reply.Done? ==> d.executions == db.executions && reply.response == Response(q.execution, row)
            else MovedAnswer(db, q, reply)
  {
    var issued := Issue(db, env.grantId, GrantFor(a, row, env));
    if a.decision.Pending? && issued.Success? {
      var resolved := Resolve(issued.value, q.approval, a, Approved, Some(env.grantId));
      if resolved.Success? {
        MovedAnswers(db, resolved.value, q, row, Planning,
                     map["input_received" := Flag(true), "pending_approval_id" := Reference(q.approval), "user_rejected" := Flag(false)],
                     Some(env.grantId));
      }
    }
  }

  lemma {:induction false} RejectMoves(db: Db, q: AssistantApi.Request, row: Execution, a: Approval, env: Env)
    ensures var (d, reply) := ServeReject(db, q, row, a, env);
            if a.decision.Rejected? then reply.Done? ==> d.executions == db.executions && reply.response == Response(q.execution, row)
            else MovedAnswer(db, q, reply)
  {
    if !a.decision.Rejected? {
      var resolved := if a.decision.Pending? then Resolve(db, q.approval, a, Rejected, None) else Success(db);
      if resolved.Success? {
        MovedAnswers(db, resolved.value, q, row, Cancelled, Rejection(q, row, env.effects), None);
      }
    }
  }

  /** A decision whose duplicate was recorded after it was read. */
  predicate Raced(db: Db, seen: Db, q: AssistantApi.Request) {
    (q.kind.Approve? || q.kind.Reject?) && Key(q) in db.operations && Key(q) !in seen.operations
  }

  /**
    * The answer that the caller of an accepted request gets is the stored one if and only if the
    * request did not race its duplicate, or it read the approval as already decided and the
    * duplicate recorded the very row that it read. A decision that moves the execution never
    * gets the stored answer: what is on record is older.
    */
  lemma {:induction false} AnswerIsStoredExactly(db: Db, seen: Db, q: AssistantApi.Request, env: Env)
    requires Good(db) && Stable(seen, db) && q.execution in seen.executions && Serve(db, seen, q, env).1.Done?
    ensures var (d, reply) := Serve(db, seen, q, env);
            && Key(q) in d.operations
            && (d.operations[Key(q)].response == reply.response <==>
                !Raced(db, seen, q)
                || (AlreadyDecided(seen, q)
                    && db.operations[Key(q)].response == Response(q.execution, seen.executions[q.execution])))
  {
    AcceptedIsRecorded(db, seen, q, env);
    if Raced(db, seen, q) {
      RacedDecisionAnswersAnew(db, seen, q, env);
      DecidedOrMoved(db, seen, q, env);
      assert Used(Key(q), db.operations[Key(q)], db.executions);
    }
  }

  // ----- what a replay looks at

  /** A request whose key is on record when it is read is accepted exactly if kind and payload match, and changes nothing. */
  lemma {:induction false} ReplayExactly(db: Db, seen: Db, q: AssistantApi.Request, env: Env)
    requires q.execution in seen.executions && Key(q) in seen.operations
    ensures var (d, reply) := Serve(db, seen, q, env);
            d == db && (reply.Done? <==> OnRecord(seen, q)) && (reply.Done? ==> reply.response == seen.operations[Key(q)].response)
  {
  }

  // ----- requests that find what they need

  /** An approve that reads the current tables, names the current version and a pending approval, takes effect. */
  lemma {:induction false} ApproveTakesEffect(db: Db, q: AssistantApi.Request, env: Env)
    requires q.kind.Approve? && Owns(db, q) && Key(q) !in db.operations && env.grantId !in db.grants
    requires var row, a := db.executions[q.execution], db.approvals[q.approval];
             && a.decision.Pending? && a.expires > env.now
             && row.version == q.payload.expected && row.profile.ActionRun? && row.status.NeedsInput?
    ensures var (d, reply) := Serve(db, db, q, env);
            && reply.Done? && MovedTo(d, q, Planning, Some(env.grantId))
            && d.executions[q.execution].session == db.executions[q.execution].session
            && d.executions[q.execution].profile.ActionRun?
            && q.approval in d.approvals
            && d.approvals[q.approval] == db.approvals[q.approval].(decision := Approved, grant := Some(env.grantId))
            && d.approvals.Keys == db.approvals.Keys && d.operations.Keys == db.operations.Keys + {Key(q)}
  {
    var row, a := db.executions[q.execution], db.approvals[q.approval];
    assert Serve(db, db, q, env) == ServeGrant(db, q, row, a, env);
    GrantTakesEffect(db, q, row, a, env);
  }

  lemma {:induction false} GrantTakesEffect(db: Db, q: AssistantApi.Request, row: Execution, a: Approval, env: Env)
    requires q.execution in db.executions && db.executions[q.execution] == row && Key(q) !in db.operations && env.grantId !in db.grants
    requires q.approval in db.approvals && db.approvals[q.approval] == a && a.decision.Pending?
    requires row.version == q.payload.expected && row.profile.ActionRun? && row.status.NeedsInput?
    ensures var (d, reply) := ServeGrant(db, q, row, a, env);
            && reply.Done? && MovedTo(d, q, Planning, Some(env.grantId))
            && d.executions[q.execution].session == row.session && d.executions[q.execution].profile.ActionRun?
            && q.approval in d.approvals && d.approvals[q.approval] == a.(decision := Approved, grant := Some(env.grantId))
            && d.approvals.Keys == db.approvals.Keys && d.operations.Keys == db.operations.Keys + {Key(q)}
  {
  }

  /** A legal worker transition from the current version takes effect and touches nothing else. */
  lemma {:induction false} MoveTakesEffect(db: Db, e: string, to: Status)
    requires e in db.executions && Legal(db.executions[e].profile, db.executions[e].status, to)
    ensures var row := db.executions[e];
            var d := Perform(db, Move(e, row.version, to, None, None));
            && d == db.(executions := d.executions, log := d.log)
            && e in d.executions && d.executions[e] == row.(status := to, version := row.version + 1)
  {
  }

  // ----- the two answers of a raced duplicate can differ

  /** An approval is approved, the execution moves on, and a second approve request is sent twice in between. */
  function DuplicateRun(): seq<Step> {
    [Worker(Start("e", "s", ActionRun, "g", None)),
     Worker(Move("e", 1, Planning, None, None)),
     Worker(Move("e", 2, NeedsInput, None, None)),
     Worker(Ask("a", "e", "u", "cap", "scope", None, 100)),
     Step.Request(ApproveWith("c1", 3), 4, Env(0, 10, "g1", Effects(0, 0))),
     Worker(Move("e", 4, Executing, None, None)),
     Step.Request(ApproveWith("c2", 3), 5, Env(0, 10, "g2", Effects(0, 0)))]
  }

  function ApproveWith(operation: string, expected: nat): AssistantApi.Request {
    AssistantApi.Request(Approve, "e", "a", Payload(operation, expected, ""))
  }

  /** The tables up to the question that is asked of the user. */
  lemma {:induction false} AskedPrefix()
    ensures var d := History(DuplicateRun()[..4])[4];
            && "e" in d.executions && d.executions["e"] == Execution("s", ActionRun, "g", NeedsInput, 3, None, map[])
            && "a" in d.approvals && d.approvals["a"] == Approval("e", "s", "u", "cap", "scope", None, 100, Pending, None)
            && d.approvals.Keys == {"a"} && d.operations == map[] && d.grants == map[]
  {
    var run := DuplicateRun();
    FourWorkers(run[0].w, run[1].w, run[2].w, run[3].w);
    assert run[..4] == [Worker(run[0].w), Worker(run[1].w), Worker(run[2].w), Worker(run[3].w)];
    AskedTables();
  }

  lemma {:induction false} AskedTables()
    ensures var d1 := Perform(Nothing, Start("e", "s", ActionRun, "g", None));
            var d3 := Perform(Perform(d1, Move("e", 1, Planning, None, None)), Move("e", 2, NeedsInput, None, None));
            var d := Perform(d3, Ask("a", "e", "u", "cap", "scope", None, 100));
            && "e" in d.executions && d.executions["e"] == Execution("s", ActionRun, "g", NeedsInput, 3, None, map[])
            && "a" in d.approvals && d.approvals["a"] == Approval("e", "s", "u", "cap", "scope", None, 100, Pending, None)
            && d.approvals.Keys == {"a"} && d.operations == map[] && d.grants == map[]
  {
    var d1 := Perform(Nothing, Start("e", "s", ActionRun, "g", None));
    assert d1 == Nothing.(executions := map["e" := Execution("s", ActionRun, "g", Queued, 1, None, map[])]);
    MoveTakesEffect(d1, "e", Planning);
    MoveTakesEffect(Perform(d1, Move("e", 1, Planning, None, None)), "e", NeedsInput);
  }

  lemma {:induction false} FourWorkers(a: Work, b: Work, c: Work, d: Work)
    ensures History([Worker(a), Worker(b), Worker(c), Worker(d)])[4] == Perform(Perform(Perform(Perform(Nothing, a), b), c), d)
  {
    var s0, s1, s2, s3 := Worker(a), Worker(b), Worker(c), Worker(d);
    HistorySnoc([], s0);
    HistorySnoc([s0], s1);
    HistorySnoc([s0, s1], s2);
    HistorySnoc([s0, s1, s2], s3);
    assert [] + [s0] == [s0] && [s0] + [s1] == [s0, s1] && [s0, s1] + [s2] == [s0, s1, s2];
    assert [s0, s1, s2] + [s3] == [s0, s1, s2, s3];
  }

  /** From the question on: approved under `q1`, moved on, and `q2` answered with the row before the move. */
  lemma {:induction false} ApprovedAndMovedOn(d4: Db, q1: AssistantApi.Request, env1: Env, q2: AssistantApi.Request, env2: Env)
    requires q1.kind.Approve? && Owns(d4, q1) && d4.operations == map[] && d4.grants == map[]
    requires var row, a := d4.executions[q1.execution], d4.approvals[q1.approval];
             && a.decision.Pending? && a.expires > env1.now
             && row.version == q1.payload.expected && row.profile.ActionRun? && row.status.NeedsInput?
    requires q2.kind.Approve? && q2.execution == q1.execution && q2.approval == q1.approval && q2.payload.operation != q1.payload.operation
    ensures var d5 := Serve(d4, d4, q1, env1).0;
            var d6 := Perform(d5, Move(q1.execution, q1.payload.expected + 1, Executing, None, None));
            var d7 := Serve(d6, d5, q2, env2).0;
            && Key(q2) !in d6.operations && Owns(d6, q2) && d6.approvals[q2.approval].decision.Approved?
            && OnRecord(d7, q2) && d7 == d6.(operations := d7.operations) && d7.approvals.Keys == d4.approvals.Keys
            && d7.operations[Key(q2)].response.row.version == q1.payload.expected + 1
            && d6.executions[q2.execution].version == q1.payload.expected + 2
  {
    ApproveTakesEffect(d4, q1, env1);
    var d5 := Serve(d4, d4, q1, env1).0;
    MoveTakesEffect(d5, q1.execution, Executing);
    var d6 := Perform(d5, Move(q1.execution, q1.payload.expected + 1, Executing, None, None));
    LateApproveIsRecorded(d6, d5, q2, env2);
  }

  /** The last three steps of the run, over any past of five states. */
  lemma {:induction false} LastThree(steps: seq<Step>, s4: Step, s5: Step, s6: Step)
    requires |steps| == 4 && s4.Request? && s4.at == 4 && s5.Worker? && s6.Request? && s6.at == 5
    ensures var h := History(steps + [s4] + [s5] + [s6]);
            var d4 := History(steps)[4];
            && h[5] == Serve(d4, d4, s4.q, s4.env).0 && h[6] == Perform(h[5], s5.w) && h[7] == Serve(h[6], h[5], s6.q, s6.env).0
  {
    HistorySnoc(steps, s4);
    HistorySnoc(steps + [s4], s5);
    HistorySnoc(steps + [s4] + [s5], s6);
  }

  /** ... and on to the recorded duplicate: it is stored with the row before the last transition. */
  lemma {:induction false} DuplicateRecorded()
    ensures var h := History(DuplicateRun());
            var q := ApproveWith("c2", 3);
            && Key(q) !in h[6].operations && Owns(h[6], q) && h[6].approvals[q.approval].decision.Approved?
            && OnRecord(h[7], q) && h[7].approvals.Keys == {"a"}
            && h[7].operations[Key(q)].response.row.version == 4 && h[6].executions[q.execution].version == 5
  {
    var run := DuplicateRun();
    AskedPrefix();
    LastThree(run[..4], run[4], run[5], run[6]);
    assert run[..4] + [run[4]] + [run[5]] + [run[6]] == run;
    assert "c1"[1] != "c2"[1];
    ApprovedAndMovedOn(History(run[..4])[4], run[4].q, run[4].env, run[6].q, run[6].env);
  }

  /** An approve that finds its approval approved records the row it read. */
  lemma {:induction false} LateApproveIsRecorded(db: Db, seen: Db, q: AssistantApi.Request, env: Env)
    requires q.kind.Approve? && Owns(seen, q) && seen.approvals[q.approval].decision.Approved?
    requires Key(q) !in seen.operations && (Key(q) in db.operations ==> OnRecord(db, q))
    ensures var answer := Response(q.execution, seen.executions[q.execution]);
            var (d, reply) := Serve(db, seen, q, env);
            && reply == Done(answer)
            && d == if Key(q) in db.operations then db
                    else db.(operations := db.operations[Key(q) := Operation(q.kind, q.payload, answer)])
  {
  }

  /** The second copy, read after the transition and before the record, answers otherwise than what is stored. */
  lemma {:induction false} DuplicateAnswersDiffer()
    ensures var h := History(DuplicateRun());
            var q := ApproveWith("c2", 3);
            var (d, reply) := Serve(h[7], h[6], q, Env(0, 10, "g3", Effects(0, 0)));
            d == h[7] && OnRecord(d, q) && reply.Done? && reply.response != d.operations[Key(q)].response
  {
    var h := History(DuplicateRun());
    DuplicateRecorded();
    LateApproveIsRecorded(h[7], h[6], ApproveWith("c2", 3), Env(0, 10, "g3", Effects(0, 0)));
  }

  /** The recorded request under an approval that does not exist: it is answered with the stored response, not refused. */
  lemma {:induction false} ReplayIgnoresApproval()
    ensures var d := History(DuplicateRun())[7];
            var q := ApproveWith("c2", 3).(approval := "b");
            && OnRecord(d, q) && Key(q) in d.operations && !Owns(d, q)
            && Serve(d, d, q, Env(0, 10, "g3", Effects(0, 0))) == (d, Done(d.operations[Key(q)].response))
  {
    var d, q := History(DuplicateRun())[7], ApproveWith("c2", 3).(approval := "b");
    DuplicateRecorded();
    assert "a"[0] != "b"[0];
    ReplayExactly(d, d, q, Env(0, 10, "g3", Effects(0, 0)));
  }

  // ----- approvals and grants

  /**
    * An approval leaves pending at most once: from the first state that shows it decided, every
    * later state shows the same row. If it was approved, the grant it is bound to allows one
    * side effect, expires no later than the approval, and is bound to no other approval.
    */
  lemma {:induction false} ApprovalDecidedOnce(h: seq<Db>, i: nat, j: nat, id: string)
    requires Orderly(h) && i <= j < |h| && id in h[i].approvals && !h[i].approvals[id].decision.Pending?
    ensures id in h[j].approvals && h[j].approvals[id] == h[i].approvals[id]
    ensures var a := h[i].approvals[id];
            if a.decision.Approved? then
              && a.grant.Some? && a.grant.value in h[j].grants && GrantMatches(a, h[j].grants[a.grant.value])
              && (forall k | k in h[j].approvals && k != id :: h[j].approvals[k].grant != a.grant)
            else a.grant.None?
  {
    assert Stable(h[i], h[j]) && Good(h[j]);
    assert ApprovalStable(h[i].approvals[id], h[j].approvals[id]);
    assert Bound(h[j].approvals[id], h[j].grants);
  }

  /**
    * Resolving a pending reading either fails or binds the grant it was given, so the branch of
    * the approve handler for an approval that came back with another grant is never taken.
    */
  lemma {:induction false} ResolvedBindsOwnGrant(db: Db, id: string, loaded: Approval, grant: string)
    requires loaded.decision.Pending?
    ensures var r := Resolve(db, id, loaded, Approved, Some(grant));
            r.Success? ==> id in r.value.approvals && r.value.approvals[id].grant == Some(grant) && r.value.approvals[id].decision.Approved?
  {
  }

  /** Approving commits no grant but one that the approval is bound to: a lost race rolls the grant back. */
  lemma {:induction false} NoUnboundGrant(db: Db, q: AssistantApi.Request, row: Execution, a: Approval, env: Env)
    requires a.decision.Pending?
    ensures var d := ServeGrant(db, q, row, a, env).0;
            d.grants == db.grants ||
            (q.approval in d.approvals && d.approvals[q.approval].decision.Approved?
             && d.approvals[q.approval].grant == Some(env.grantId) && d.grants == db.grants[env.grantId := GrantFor(a, row, env)])
  {
    var issued := Issue(db, env.grantId, GrantFor(a, row, env));
    if issued.Success? {
      ResolvedBindsOwnGrant(issued.value, q.approval, a, env.grantId);
      var resolved := Resolve(issued.value, q.approval, a, Approved, Some(env.grantId));
      if resolved.Success? {
        MovedOutcome(db, resolved.value, q, row, Planning,
                     map["input_received" := Flag(true), "pending_approval_id" := Reference(q.approval), "user_rejected" := Flag(false)],
                     Some(env.grantId));
      }
    }
  }

  /** What the end of a handler leaves: nothing new, or the execution moved and the other rows as they were. */
  lemma {:induction false} MovedOutcome(before: Db, work: Db, q: AssistantApi.Request, row: Execution, to: Status,
                                        result: map<string, Value>, grant: Option<string>)
    ensures var d := Moved(before, work, q, row, to, result, grant).0;
            d == before || (d.approvals == work.approvals && d.grants == work.grants && MovedTo(d, q, to, grant))
  {
  }

  ghost predicate MovedTo(d: Db, q: AssistantApi.Request, to: Status, grant: Option<string>) {
    && q.execution in d.executions && d.executions[q.execution].status == to
    && d.executions[q.execution].version == q.payload.expected + 1
    && (grant.Some? ==> d.executions[q.execution].grant == grant)
  }

  /** An approval and its execution move together: if the execution moved, both carry the new grant. */
  lemma {:induction false} ApprovedMovesWithItsGrant(db: Db, q: AssistantApi.Request, row: Execution, a: Approval, env: Env)
    requires a.decision.Pending?
    ensures var d := ServeGrant(db, q, row, a, env).0;
            d.executions != db.executions ==>
              && q.approval in d.approvals && d.approvals[q.approval].decision.Approved?
              && d.approvals[q.approval].grant == Some(env.grantId) && env.grantId in d.grants && env.grantId !in db.grants
              && MovedTo(d, q, Planning, Some(env.grantId))
  {
    var issued := Issue(db, env.grantId, GrantFor(a, row, env));
    if issued.Success? {
      var resolved := Resolve(issued.value, q.approval, a, Approved, Some(env.grantId));
      if resolved.Success? {
        MovedOutcome(db, resolved.value, q, row, Planning,
                     map["input_received" := Flag(true), "pending_approval_id" := Reference(q.approval), "user_rejected" := Flag(false)],
                     Some(env.grantId));
      }
    }
  }

  /** A rejection that cancels the execution leaves its approval rejected or expired, never approved or pending. */
  lemma {:induction false} RejectedMovesWithItsApproval(db: Db, q: AssistantApi.Request, row: Execution, a: Approval, env: Env)
    requires q.approval in db.approvals && ApprovalStable(a, db.approvals[q.approval])
    ensures var d := ServeReject(db, q, row, a, env).0;
            d.executions != db.executions ==>
              && q.approval in d.approvals
              && (d.approvals[q.approval].decision.Rejected? || d.approvals[q.approval].decision.Expired?)
              && MovedTo(d, q, Cancelled, None)
  {
    if a.decision.Rejected? {
      AnsweredScope(db, db, q, row);
    } else {
      var resolved := if a.decision.Pending? then Resolve(db, q.approval, a, Rejected, None) else Success(db);
      if resolved.Success? {
        MovedOutcome(db, resolved.value, q, row, Cancelled, Rejection(q, row, env.effects), None);
      }
    }
  }

  // ----- the repository alone does not protect terminal rows

  /** An execution is started, cancelled, and then moved once more to the status it has. */
  function RewriteRun(): seq<Step> {
    [Worker(Start("e", "s", ActionRun, "g", None)),
     Worker(Move("e", 1, Cancelled, None, None)),
     Worker(Move("e", 2, Cancelled, None, None))]
  }

  lemma {:induction false} HistorySnoc(steps: seq<Step>, step: Step)
    ensures History(steps + [step]) == History(steps) + [Next(History(steps), step)]
  {
    assert (steps + [step])[..|steps|] == steps;
  }

  /** A run in which a worker bumps the version of a terminal execution: `transition_execution` accepts a status already reached. */
  lemma {:induction false} WorkersCanTouchTerminalRows()
    ensures var h := History(RewriteRun());
            && "e" in h[2].executions && "e" in h[3].executions
            && h[2].executions["e"].status.Cancelled? && Terminal(h[2].executions["e"].profile, h[2].executions["e"].status)
            && h[3].executions["e"] == h[2].executions["e"].(version := 3) != h[2].executions["e"]
  {
    var run := RewriteRun();
    ThreeWorkers(run[0].w, run[1].w, run[2].w);
    assert run == [Worker(run[0].w), Worker(run[1].w), Worker(run[2].w)];
    var d1 := Perform(Nothing, run[0].w);
    assert d1.executions == map["e" := Execution("s", ActionRun, "g", Queued, 1, None, map[])];
    MoveTakesEffect(d1, "e", Cancelled);
    MoveTakesEffect(Perform(d1, run[1].w), "e", Cancelled);
  }

  lemma {:induction false} ThreeWorkers(a: Work, b: Work, c: Work)
    ensures var h := History([Worker(a), Worker(b), Worker(c)]);
            h[2] == Perform(Perform(Nothing, a), b) && h[3] == Perform(h[2], c)
  {
    var s0, s1, s2 := Worker(a), Worker(b), Worker(c);
    HistorySnoc([], s0);
    HistorySnoc([s0], s1);
    HistorySnoc([s0, s1], s2);
    assert [] + [s0] == [s0] && [s0] + [s1] == [s0, s1] && [s0, s1] + [s2] == [s0, s1, s2];
  }
}
