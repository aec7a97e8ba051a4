/** Every interleaving of user requests and worker steps: what each of them keeps. */
module AssistantRuns {
  import opened Outcome
  import opened AssistantState
  import opened AssistantApi

  // ----- what later states owe to earlier ones

  ghost predicate RowStable(a: Execution, b: Execution) {
    && a.session == b.session && a.profile == b.profile && a.version <= b.version
    && (a.version == b.version ==> a == b)
    && (Terminal(a.profile, a.status) ==> a.status == b.status)
  }

  ghost predicate ExecutionsStable(a: map<string, Execution>, b: map<string, Execution>) {
    forall e | e in a :: e in b && RowStable(a[e], b[e])
  }

  /** A decided approval never changes again, and a pending one keeps everything but the decision and its grant. */
  ghost predicate ApprovalStable(a: Approval, b: Approval) {
    && (a.decision.Pending? || a == b)
    && b == a.(decision := b.decision, grant := b.grant)
  }

  ghost predicate ApprovalsStable(a: map<string, Approval>, b: map<string, Approval>) {
    forall i | i in a :: i in b && ApprovalStable(a[i], b[i])
  }

  ghost predicate Kept<K, V>(a: map<K, V>, b: map<K, V>) {
    forall k | k in a :: k in b && b[k] == a[k]
  }

  ghost predicate Stable(a: Db, b: Db) {
    && ExecutionsStable(a.executions, b.executions)
    && ApprovalsStable(a.approvals, b.approvals)
    && Kept(a.grants, b.grants)
    && Kept(a.operations, b.operations)
    && a.log <= b.log
  }

  lemma {:induction false} StableTransitive(a: Db, b: Db, c: Db)
    requires Stable(a, b) && Stable(b, c)
    ensures Stable(a, c)
  {
    forall e | e in a.executions
      ensures RowStable(a.executions[e], c.executions[e])
    {
      assert RowStable(a.executions[e], b.executions[e]) && RowStable(b.executions[e], c.executions[e]);
    }
    forall i | i in a.approvals
      ensures ApprovalStable(a.approvals[i], c.approvals[i])
    {
      assert ApprovalStable(a.approvals[i], b.approvals[i]) && ApprovalStable(b.approvals[i], c.approvals[i]);
    }
  }

  // ----- what every reachable state satisfies

  /** An approved row is bound to a grant of one side effect that expires no later than it; any other row is bound to none. */
  ghost predicate Bound(a: Approval, grants: map<string, Grant>) {
    if a.decision.Approved? then
      && a.grant.Some? && a.grant.value in grants
      && GrantMatches(a, grants[a.grant.value])
    else a.grant.None?
  }

  ghost predicate GrantMatches(a: Approval, g: Grant) {
    && g.budget == 1 && g.expires <= a.expires
    && g.session == a.session && g.actor == a.actor && g.capabilities == [a.capability] && g.scope == a.scope
  }

  ghost predicate AllBound(approvals: map<string, Approval>, grants: map<string, Grant>) {
    forall i | i in approvals :: Bound(approvals[i], grants)
  }

  /** No grant serves two approvals. */
  ghost predicate Unshared(approvals: map<string, Approval>) {
    forall i, j | i in approvals && j in approvals && i != j ::
      approvals[i].grant.None? || approvals[i].grant != approvals[j].grant
  }

  ghost predicate OnePending(approvals: map<string, Approval>) {
    forall i, j | i in approvals && j in approvals && i != j ::
      !(approvals[i].decision.Pending? && approvals[j].decision.Pending? && approvals[i].execution == approvals[j].execution)
  }

  ghost function CommitsOf(log: seq<Commit>, e: string): seq<Commit> {
    if log == [] then []
    else
      var rest := CommitsOf(log[..|log| - 1], e);
      if log[|log| - 1].execution == e then rest + [log[|log| - 1]] else rest
  }

  /** Commits whose versions count up from 2 to `row.version`, each leaving the status the one before entered. */
  ghost predicate Chain(commits: seq<Commit>, row: Execution) {
    && |commits| + 1 == row.version
    && (forall i | 0 <= i < |commits| :: commits[i].version == i + 2)
    && Path(commits, row.profile, row.status)
  }

  ghost predicate Path(commits: seq<Commit>, p: Profile, now: Status) {
    if commits == [] then now == Initial(p)
    else
      var last := commits[|commits| - 1];
      last.to == now && Legal(p, last.from, last.to) && Path(commits[..|commits| - 1], p, last.from)
  }

  ghost predicate Logged(executions: map<string, Execution>, log: seq<Commit>) {
    && (forall e | e in executions :: Chain(CommitsOf(log, e), executions[e]))
    && (forall e | e !in executions :: CommitsOf(log, e) == [])
  }

  /** A recorded answer is no newer than its execution, and an input or a cancellation has used up the version it named. */
  ghost predicate Used(key: (string, string), op: Operation, executions: map<string, Execution>) {
    && key.0 in executions && op.response.row.version <= executions[key.0].version
    && (op.kind.Input? || op.kind.Cancel? ==> executions[key.0].version > op.payload.expected)
  }

  ghost predicate AllUsed(operations: map<(string, string), Operation>, executions: map<string, Execution>) {
    forall k | k in operations :: Used(k, operations[k], executions)
  }

  ghost predicate Good(db: Db) {
    && AllBound(db.approvals, db.grants) && Unshared(db.approvals) && OnePending(db.approvals)
    && Logged(db.executions, db.log) && AllUsed(db.operations, db.executions)
  }

  // ----- the repository's writes, one by one

  lemma {:induction false} CommitsSnoc(log: seq<Commit>, c: Commit, e: string)
    ensures CommitsOf(log + [c], e) == if c.execution == e then CommitsOf(log, e) + [c] else CommitsOf(log, e)
  {
    assert (log + [c])[..|log|] == log;
  }

  lemma {:induction false} ChainSnoc(commits: seq<Commit>, row: Execution, next: Execution, c: Commit)
    requires Chain(commits, row) && Legal(row.profile, row.status, next.status)
    requires next.profile == row.profile && next.version == row.version + 1
    requires c.version == next.version && c.from == row.status && c.to == next.status
    ensures Chain(commits + [c], next)
  {
    assert (commits + [c])[..|commits|] == commits;
  }

  lemma {:induction false} TransitionLogged(db: Db, id: string, row: Execution, expected: nat, to: Status,
                                            result: Option<map<string, Value>>, grant: Option<string>)
    requires Logged(db.executions, db.log) && id in db.executions && row.profile == db.executions[id].profile
    ensures var r := Transition(db, id, row, expected, to, result, grant);
            r.Success? ==> Logged(r.value.executions, r.value.log)
  {
    var r := Transition(db, id, row, expected, to, result, grant);
    if r.Success? {
      var c := Commit(id, expected + 1, row.status, to);
      forall e
        ensures e in r.value.executions ==> Chain(CommitsOf(r.value.log, e), r.value.executions[e])
        ensures e !in r.value.executions ==> CommitsOf(r.value.log, e) == []
      {
        CommitsSnoc(db.log, c, e);
        if e == id {
          ChainSnoc(CommitsOf(db.log, e), db.executions[e], r.value.executions[e], c);
        }
      }
    }
  }

  /** `row` is an earlier reading of execution `id`. */
  ghost predicate ReadBefore(db: Db, id: string, row: Execution) {
    id in db.executions && RowStable(row, db.executions[id])
  }

  /** The new row of a transition follows the old one. */
  lemma {:induction false} TransitionRow(db: Db, id: string, row: Execution, expected: nat, to: Status,
                                         result: Option<map<string, Value>>, grant: Option<string>)
    requires ReadBefore(db, id, row)
    ensures var r := Transition(db, id, row, expected, to, result, grant);
            r.Success? ==> ExecutionsStable(db.executions, r.value.executions) && id in r.value.executions
                           && r.value.executions[id].version == expected + 1
  {
    var r := Transition(db, id, row, expected, to, result, grant);
    if r.Success? {
      if Terminal(row.profile, row.status) {
        TerminalStays(row.profile, row.status, to);
      }
      assert RowStable(db.executions[id], r.value.executions[id]);
    }
  }

  lemma {:induction false} TransitionStable(db: Db, id: string, row: Execution, expected: nat, to: Status,
                                            result: Option<map<string, Value>>, grant: Option<string>)
    requires Good(db) && ReadBefore(db, id, row)
    ensures var r := Transition(db, id, row, expected, to, result, grant);
            r.Success? ==> Good(r.value) && Stable(db, r.value) && id in r.value.executions
                           && r.value.executions[id].version == expected + 1
  {
    TransitionLogged(db, id, row, expected, to, result, grant);
    TransitionRow(db, id, row, expected, to, result, grant);
    var r := Transition(db, id, row, expected, to, result, grant);
    if r.Success? {
      UsedStable(db.operations, db.executions, r.value.executions);
    }
  }

  lemma {:induction false} UsedStable(operations: map<(string, string), Operation>, executions: map<string, Execution>,
                                      later: map<string, Execution>)
    requires AllUsed(operations, executions) && ExecutionsStable(executions, later)
    ensures AllUsed(operations, later)
  {
    forall k | k in operations
      ensures Used(k, operations[k], later)
    {
      assert Used(k, operations[k], executions) && RowStable(executions[k.0], later[k.0]);
    }
  }

  lemma {:induction false} TerminalStays(p: Profile, s: Status, t: Status)
    requires Legal(p, s, t) && Terminal(p, s)
    ensures s == t
  {
  }

  ghost predicate Free(g: string, approvals: map<string, Approval>) {
    forall i | i in approvals :: approvals[i].grant != Some(g)
  }

  lemma {:induction false} IssueStable(db: Db, id: string, g: Grant)
    requires Good(db)
    ensures var r := Issue(db, id, g);
            r.Success? ==> Good(r.value) && Stable(db, r.value) && Free(id, db.approvals)
  {
    var r := Issue(db, id, g);
    if r.Success? {
      forall i | i in db.approvals
        ensures Bound(db.approvals[i], r.value.grants) && db.approvals[i].grant != Some(id)
      {
        assert Bound(db.approvals[i], db.grants);
      }
    }
  }

  /** The grant that a decision comes with, if any, fits the approval and is not taken. */
  ghost predicate Fits(db: Db, id: string, to: Decision, grant: Option<string>) {
    && id in db.approvals && !to.Pending?
    && if to.Approved? then
         grant.Some? && grant.value in db.grants && Free(grant.value, db.approvals)
         && GrantMatches(db.approvals[id], db.grants[grant.value])
       else grant.None?
  }

  /** Deciding a pending approval. */
  lemma {:induction false} DecideStable(db: Db, id: string, to: Decision, grant: Option<string>)
    requires AllBound(db.approvals, db.grants) && Unshared(db.approvals) && OnePending(db.approvals)
    requires Fits(db, id, to, grant) && db.approvals[id].decision.Pending?
    ensures var next := db.approvals[id].(decision := to, grant := grant);
            var approvals := db.approvals[id := next];
            && AllBound(approvals, db.grants)
            && Unshared(approvals) && OnePending(approvals) && ApprovalsStable(db.approvals, approvals)
  {
    var approvals := db.approvals[id := db.approvals[id].(decision := to, grant := grant)];
    forall i | i in approvals
      ensures Bound(approvals[i], db.grants)
    {
      assert Bound(db.approvals[i], db.grants);
    }
  }

  lemma {:induction false} ResolveStable(db: Db, id: string, loaded: Approval, to: Decision, grant: Option<string>)
    requires Good(db) && Fits(db, id, to, grant)
    ensures var r := Resolve(db, id, loaded, to, grant);
            r.Success? ==> Good(r.value) && Stable(db, r.value) && r.value.executions == db.executions
  {
    StableReflexive(db);
    var r := Resolve(db, id, loaded, to, grant);
    if r.Success? && r.value != db {
      assert Bound(db.approvals[id], db.grants);
      DecideStable(db, id, to, grant);
    }
  }

  lemma {:induction false} RecordStable(db: Db, q: Request, response: Response)
    requires Good(db) && Used(Key(q), Operation(q.kind, q.payload, response), db.executions)
    ensures var r := Record(db, q, response);
            r.Success? ==> Good(r.value) && Stable(db, r.value)
  {
    StableReflexive(db);
    if Key(q) !in db.operations {
      var op := Operation(q.kind, q.payload, response);
      OperationAdded(db.operations, Key(q), op, db.executions);
    }
  }

  lemma {:induction false} OperationAdded(operations: map<(string, string), Operation>, key: (string, string), op: Operation,
                                          executions: map<string, Execution>)
    requires AllUsed(operations, executions) && Used(key, op, executions) && key !in operations
    ensures AllUsed(operations[key := op], executions) && Kept(operations, operations[key := op])
  {
  }

  // ----- the handlers

  lemma {:induction false} AnsweredStable(before: Db, work: Db, q: Request, row: Execution)
    requires Good(before) && Good(work) && Stable(before, work)
    requires Used(Key(q), Operation(q.kind, q.payload, Response(q.execution, row)), work.executions)
    ensures var d := Answered(before, work, q, row).0;
            Good(d) && Stable(before, d)
  {
    var response := Response(q.execution, row);
    RecordStable(work, q, response);
    var r := Record(work, q, response);
    StableReflexive(before);
    if r.Success? {
      StableTransitive(before, work, r.value);
    }
  }

  lemma {:induction false} StableReflexive(db: Db)
    ensures Stable(db, db)
  {
  }

  lemma {:induction false} MovedStable(before: Db, work: Db, q: Request, row: Execution, to: Status,
                                       result: map<string, Value>, grant: Option<string>)
    requires Good(before) && Good(work) && Stable(before, work) && ReadBefore(work, q.execution, row)
    ensures var d := Moved(before, work, q, row, to, result, grant).0;
            Good(d) && Stable(before, d)
  {
    TransitionStable(work, q.execution, row, q.payload.expected, to, Some(result), grant);
    var r := Transition(work, q.execution, row, q.payload.expected, to, Some(result), grant);
    StableReflexive(before);
    if r.Success? {
      StableTransitive(before, work, r.value);
      AnsweredStable(before, r.value, q, r.value.executions[q.execution]);
    }
  }

  lemma {:induction false} InputStable(db: Db, seen: Db, q: Request, row: Execution)
    requires Good(db) && ReadBefore(db, q.execution, row)
    ensures var d := ServeInput(db, seen, q, row).0;
            Good(d) && Stable(db, d)
  {
    StableReflexive(db);
    if row.version == q.payload.expected && row.profile.ActionRun? && row.status.NeedsInput? {
      var note := Observation(q.execution, q.payload.operation, q.payload.input, ActorOf(seen, row));
      var noted := db.(observations := db.observations + [note]);
      var result := map["input_received" := Flag(true)];
      NotesStable(db, noted);
      MovedStable(db, noted, q, row, Planning, result, None);
      assert ServeInput(db, seen, q, row) == Moved(db, noted, q, row, Planning, result, None);
    }
  }

  lemma {:induction false} CancelStable(db: Db, q: Request, row: Execution, env: Env)
    requires Good(db) && ReadBefore(db, q.execution, row)
    ensures var d := ServeCancel(db, q, row, env).0;
            Good(d) && Stable(db, d)
  {
    StableReflexive(db);
    MovedStable(db, db, q, row, Cancelled, Cancellation(row, env.effects), None);
  }

  lemma {:induction false} NotesStable(db: Db, noted: Db)
    requires Good(db) && noted == db.(observations := noted.observations)
    ensures Good(noted) && Stable(db, noted)
  {
    StableReflexive(db);
  }

  lemma {:induction false} GrantStable(db: Db, q: Request, row: Execution, a: Approval, env: Env)
    requires Good(db) && ReadBefore(db, q.execution, row) && q.kind.Approve?
    requires q.approval in db.approvals && ApprovalStable(a, db.approvals[q.approval]) && a.session == row.session
    ensures var d := ServeGrant(db, q, row, a, env).0;
            Good(d) && Stable(db, d)
  {
    var g := GrantFor(a, row, env);
    IssueStable(db, env.grantId, g);
    StableReflexive(db);
    var issued := Issue(db, env.grantId, g);
    if issued.Success? {
      ResolveStable(issued.value, q.approval, a, Approved, Some(env.grantId));
      var resolved := Resolve(issued.value, q.approval, a, Approved, Some(env.grantId));
      if resolved.Success? {
        StableTransitive(db, issued.value, resolved.value);
        MovedStable(db, resolved.value, q, row, Planning,
                    map["input_received" := Flag(true), "pending_approval_id" := Reference(q.approval), "user_rejected" := Flag(false)],
                    Some(env.grantId));
      }
    }
  }

  lemma {:induction false} ApproveStable(db: Db, q: Request, row: Execution, a: Approval, env: Env)
    requires Good(db) && ReadBefore(db, q.execution, row) && q.kind.Approve?
    requires q.approval in db.approvals && ApprovalStable(a, db.approvals[q.approval]) && a.session == row.session
    ensures var d := ServeApprove(db, q, row, a, env).0;
            Good(d) && Stable(db, d)
  {
    StableReflexive(db);
    if a.decision.Approved? {
      AnsweredStable(db, db, q, row);
      assert ServeApprove(db, q, row, a, env) == Answered(db, db, q, row);
    } else if a.decision.Pending? && a.expires <= env.now {
      ExpireStable(db, q, row, a, env);
    } else {
      var r := ServeApprove(db, q, row, a, env);
      assert r.0 == db || r == ServeGrant(db, q, row, a, env);
      GrantStable(db, q, row, a, env);
    }
  }

  lemma {:induction false} ExpireStable(db: Db, q: Request, row: Execution, a: Approval, env: Env)
    requires Good(db) && q.approval in db.approvals && a.decision.Pending? && a.expires <= env.now
    ensures var d := ServeApprove(db, q, row, a, env).0;
            Good(d) && Stable(db, d)
  {
    StableReflexive(db);
    ResolveStable(db, q.approval, a, Expired, None);
  }

  lemma {:induction false} RejectStable(db: Db, q: Request, row: Execution, a: Approval, env: Env)
    requires Good(db) && ReadBefore(db, q.execution, row) && q.kind.Reject? && q.approval in db.approvals
    ensures var d := ServeReject(db, q, row, a, env).0;
            Good(d) && Stable(db, d)
  {
    StableReflexive(db);
    if a.decision.Rejected? {
      AnsweredStable(db, db, q, row);
    } else {
      ResolveStable(db, q.approval, a, Rejected, None);
      var resolved := if a.decision.Pending? then Resolve(db, q.approval, a, Rejected, None) else Success(db);
      if resolved.Success? {
        MovedStable(db, resolved.value, q, row, Cancelled, Rejection(q, row, env.effects), None);
      }
    }
  }

  /** One request, with readings taken from any earlier state, keeps the invariant and everything settled. */
  lemma {:induction false} ServeStable(db: Db, seen: Db, q: Request, env: Env)
    requires Good(db) && Stable(seen, db)
    ensures var d := Serve(db, seen, q, env).0;
            Good(d) && Stable(db, d)
  {
    StableReflexive(db);
    if q.execution in seen.executions && Key(q) !in seen.operations {
      var row := seen.executions[q.execution];
      assert ReadBefore(db, q.execution, row);
      match q.kind
      case Input => InputStable(db, seen, q, row);
      case Cancel => CancelStable(db, q, row, env);
      case Approve =>
        if Owns(seen, q) {
          ApproveStable(db, q, row, seen.approvals[q.approval], env);
        }
      case Reject =>
        if Owns(seen, q) {
          RejectStable(db, q, row, seen.approvals[q.approval], env);
        }
    }
  }
}
