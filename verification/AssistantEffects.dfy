/**
  * What each request does to the tables, said of the tables alone: exactly when it is
  * accepted, every row it writes then, and that nothing is written otherwise. `seen` is
  * what the request read and `db` what it finds when it writes; they may be the same.
  */
module AssistantEffects {
  import opened Outcome
  import opened AssistantState
  import opened AssistantApi

  /** The statuses an execution of each profile passes through before its last one. */
  predicate Running(p: Profile, s: Status) {
    match p
    case FastTurn => s in {Received, Contextualizing, Deciding, ExecutingReads, Responding}
    case ActionRun => s in {Queued, Planning, Executing, Observing, WaitingExternal, Reconciling, NeedsInput}
  }

  predicate Ended(p: Profile, s: Status) {
    match p
    case FastTurn => s in {HandedOff, Completed, Failed, Cancelled}
    case ActionRun => s in {Completed, Partial, Failed, Cancelled}
  }

  predicate AwaitsUser(row: Execution) { row.profile == ActionRun && row.status == NeedsInput }

  /** The request is new to the tables it read, and they hold its execution at the expected version. */
  predicate Fresh(seen: Db, q: Request) {
    && (q.execution, q.payload.operation) !in seen.operations
    && q.execution in seen.executions && seen.executions[q.execution].version == q.payload.expected
  }

  /** Nobody has moved the execution since it was read, and nobody has used the operation id for something else. */
  predicate Unraced(db: Db, seen: Db, q: Request)
    requires q.execution in seen.executions
  {
    var key := (q.execution, q.payload.operation);
    && q.execution in db.executions
    && db.executions[q.execution].version == seen.executions[q.execution].version
    && db.executions[q.execution].status == seen.executions[q.execution].status
    && (key in db.operations ==> db.operations[key].kind == q.kind && db.operations[key].payload == q.payload)
  }

  /** `d` is `db` with the operation on record under `response`, if it was not on record. */
  ghost predicate Recorded(db: Db, d: Db, q: Request, response: Response) {
    var key := (q.execution, q.payload.operation);
    d.operations == if key in db.operations then db.operations
    else db.operations[key := Operation(q.kind, q.payload, response)]
  }

  /** The execution row is now `next`, one log row says so, and the operation is on record. */
  ghost predicate MovedOnce(db: Db, d: Db, q: Request, from: Status, next: Execution) {
    && d.executions == db.executions[q.execution := next]
    && d.log == db.log + [Commit(q.execution, next.version, from, next.status)]
    && Recorded(db, d, q, Response(q.execution, next))
  }

  /** `next` is `row` one version on, with another status, result and grant and nothing else changed. */
  ghost predicate Advanced(row: Execution, next: Execution, to: Status, grant: Option<string>) {
    && next.session == row.session && next.profile == row.profile && next.goal == row.goal
    && next.version == row.version + 1 && next.status == to && next.grant == grant
  }

  /** Every answer of a request that finds its operation on record, or its execution missing. */
  ghost predicate Settled(db: Db, seen: Db, q: Request, d: Db, reply: Reply) {
    var key := (q.execution, q.payload.operation);
    && (q.execution !in seen.executions ==> d == db && reply == Refused(NotFound))
    && (q.execution in seen.executions && key in seen.operations ==>
          && d == db
          && reply == if seen.operations[key].kind == q.kind && seen.operations[key].payload == q.payload
                      then Done(seen.operations[key].response) else Refused(OperationConflict))
  }

  /** A request for a missing execution is refused, and one that is on record is answered from the record or refused. */
  lemma {:induction false} SettledExactly(db: Db, seen: Db, q: Request, env: Env)
    ensures var (d, reply) := Serve(db, seen, q, env); Settled(db, seen, q, d, reply)
  {
  }

  /** Why a write that raced another one is refused. */
  function RaceCode(db: Db, seen: Db, q: Request): Code
    requires q.execution in seen.executions
  {
    if q.execution !in db.executions || db.executions[q.execution].version != seen.executions[q.execution].version
       || db.executions[q.execution].status != seen.executions[q.execution].status
    then StaleVersion else OperationConflict
  }

  /** The row after a move, read from the row before it. */
  function NextRow(row: Execution, to: Status, result: map<string, Value>, grant: Option<string>): Execution {
    row.(status := to, version := row.version + 1, result := result, grant := if grant.Some? then grant else row.grant)
  }

  /** The common end of the handlers: one move that is on record, or the tables from before. */
  lemma {:induction false} MovedExactly(before: Db, work: Db, seen: Db, q: Request, to: Status, result: map<string, Value>, grant: Option<string>)
    requires Fresh(seen, q) && Legal(seen.executions[q.execution].profile, seen.executions[q.execution].status, to)
    ensures var row := seen.executions[q.execution];
            var (d, reply) := Moved(before, work, q, row, to, result, grant);
            if Unraced(work, seen, q) then
              var next := NextRow(work.executions[q.execution], to, result, grant);
              && MovedOnce(work, d, q, row.status, next) && reply == Done(Response(q.execution, next))
              && d == work.(executions := d.executions, log := d.log, operations := d.operations)
            else d == before && reply == Refused(RaceCode(work, seen, q))
  {
  }

  // ----- input

  ghost predicate InputAccepted(db: Db, seen: Db, q: Request) {
    Fresh(seen, q) && AwaitsUser(seen.executions[q.execution]) && Unraced(db, seen, q)
  }

  /** The actor of the grant that the execution holds, or the local user. */
  ghost predicate IsActor(seen: Db, row: Execution, actor: string) {
    match row.grant
    case None => actor == "local-user"
    case Some(g) => if g in seen.grants then actor == seen.grants[g].actor else actor == "local-user"
  }

  /**
    * User input moves a waiting action run back to planning and leaves one observation with the
    * text; it is accepted exactly on a fresh, unraced request, and otherwise writes nothing.
    */
  lemma {:induction false} InputExactly(db: Db, seen: Db, q: Request, env: Env)
    requires q.kind.Input?
    ensures var (d, reply) := Serve(db, seen, q, env);
            && (!InputAccepted(db, seen, q) ==> d == db)
            && (InputAccepted(db, seen, q) ==> q.execution in d.executions && reply == Done(Response(q.execution, d.executions[q.execution])))
            && (InputAccepted(db, seen, q) ==>
                  var row, next := db.executions[q.execution], d.executions[q.execution];
                  && Advanced(row, next, Planning, row.grant) && next.result == map["input_received" := Flag(true)]
                  && MovedOnce(db, d, q, NeedsInput, next)
                  && d.approvals == db.approvals && d.grants == db.grants
                  && |d.observations| == |db.observations| + 1 && d.observations[..|db.observations|] == db.observations
                  && var note := d.observations[|db.observations|];
                  && note.execution == q.execution && note.operation == q.payload.operation && note.input == q.payload.input
                  && IsActor(seen, seen.executions[q.execution], note.actor))
  {
  }

  /** The code of every refused input. */
  lemma {:induction false} InputRefusals(db: Db, seen: Db, q: Request, env: Env)
    requires q.kind.Input? && q.execution in seen.executions && (q.execution, q.payload.operation) !in seen.operations
    ensures var reply, row := Serve(db, seen, q, env).1, seen.executions[q.execution];
            && (row.version != q.payload.expected ==> reply == Refused(StaleVersion))
            && (row.version == q.payload.expected && !AwaitsUser(row) ==> reply == Refused(NotWaiting))
            && (row.version == q.payload.expected && AwaitsUser(row) && !Unraced(db, seen, q) ==> reply == Refused(RaceCode(db, seen, q)))
  {
  }

  // ----- cancellation

  /** The earlier result with the four fields that a cancellation sets; `more` are further fields it may set. */
  ghost predicate TellsCancelled(result: map<string, Value>, earlier: map<string, Value>, effects: Effects, more: set<string>) {
    var fields := {"cancelled", "confirmed_external_side_effects", "unknown_external_side_effects", "existing_external_actions_remain"};
    && result.Keys == earlier.Keys + fields + more
    && result["cancelled"] == Flag(true)
    && result["confirmed_external_side_effects"] == Count(effects.confirmed)
    && result["unknown_external_side_effects"] == Count(effects.unknown)
    && result["existing_external_actions_remain"] == Flag(effects.confirmed > 0)
    && forall k | k in earlier && k !in fields && k !in more :: result[k] == earlier[k]
  }

  ghost predicate CancelAccepted(db: Db, seen: Db, q: Request) {
    && Fresh(seen, q) && Unraced(db, seen, q)
    && Running(seen.executions[q.execution].profile, seen.executions[q.execution].status)
  }

  lemma {:induction false} RunningIsLive(p: Profile, s: Status)
    ensures Running(p, s) <==> Known(p, s) && !Terminal(p, s)
    ensures Ended(p, s) <==> Terminal(p, s)
    ensures Running(p, s) ==> Legal(p, s, Cancelled) && s != Cancelled
  {
    if Running(p, s) {
      assert Cancelled in Successors(p, s).value;
    }
  }

  lemma {:induction false} CancellationTells(row: Execution, effects: Effects)
    ensures TellsCancelled(Cancellation(row, effects), row.result, effects, {})
  {
  }

  /**
    * A cancellation ends any running execution of either profile, tells what it leaves behind, and is
    * accepted exactly on a fresh, unraced request; otherwise it writes nothing.
    */
  lemma {:induction false} CancelExactly(db: Db, seen: Db, q: Request, env: Env)
    requires q.kind.Cancel?
    ensures var (d, reply) := Serve(db, seen, q, env);
            && (!CancelAccepted(db, seen, q) ==> d == db)
            && (CancelAccepted(db, seen, q) ==> q.execution in d.executions && reply == Done(Response(q.execution, d.executions[q.execution])))
            && (CancelAccepted(db, seen, q) ==>
                  var row, next := db.executions[q.execution], d.executions[q.execution];
                  && Advanced(row, next, Cancelled, row.grant)
                  && TellsCancelled(next.result, seen.executions[q.execution].result, env.effects, {})
                  && MovedOnce(db, d, q, row.status, next)
                  && d.approvals == db.approvals && d.grants == db.grants && d.observations == db.observations)
  {
    if q.execution in seen.executions {
      var row := seen.executions[q.execution];
      RunningIsLive(row.profile, row.status);
      CancellationTells(row, env.effects);
    }
  }

  /** The code of every refused cancellation of an execution in a status its profile knows. */
  lemma {:induction false} CancelRefusals(db: Db, seen: Db, q: Request, env: Env)
    requires q.kind.Cancel? && q.execution in seen.executions && (q.execution, q.payload.operation) !in seen.operations
    ensures var reply, row := Serve(db, seen, q, env).1, seen.executions[q.execution];
            && (row.version != q.payload.expected ==> reply == Refused(StaleVersion))
            && (row.version == q.payload.expected && Ended(row.profile, row.status) ==> reply == Refused(AlreadyTerminal))
            && (row.version == q.payload.expected && Running(row.profile, row.status) && !Unraced(db, seen, q) ==>
                  reply == Refused(RaceCode(db, seen, q)))
  {
    RunningIsLive(seen.executions[q.execution].profile, seen.executions[q.execution].status);
  }

  // ----- approval

  /** The request is new to the tables it read, and they hold its execution and its approval. */
  predicate Asks(seen: Db, q: Request) {
    && (q.execution, q.payload.operation) !in seen.operations
    && q.execution in seen.executions && q.approval in seen.approvals
    && seen.approvals[q.approval].execution == q.execution
    && seen.approvals[q.approval].session == seen.executions[q.execution].session
  }

  /** The approval is still open when the request writes. */
  predicate StillPending(db: Db, q: Request) {
    q.approval in db.approvals && db.approvals[q.approval].decision == Pending
  }

  ghost predicate ApproveAccepted(db: Db, seen: Db, q: Request, env: Env) {
    && Asks(seen, q) && Fresh(seen, q) && AwaitsUser(seen.executions[q.execution])
    && seen.approvals[q.approval].decision == Pending && env.now < seen.approvals[q.approval].expires
    && Unraced(db, seen, q) && StillPending(db, q) && env.grantId !in db.grants
  }

  /** A grant for one use of the approved capability, for no longer than the approval and the limit allow. */
  ghost predicate Grants(g: Grant, a: Approval, row: Execution, env: Env) {
    && g.session == row.session && g.goal == row.goal && g.actor == a.actor
    && g.capabilities == [a.capability] && g.scope == a.scope && g.budget == 1
    && (forall c :: c in g.candidates <==> a.candidate == Some(c)) && |g.candidates| <= 1
    && g.expires <= a.expires && g.expires <= env.now + env.ttl
    && (g.expires == a.expires || g.expires == env.now + env.ttl)
  }

  /** The tables after an accepted approval. */
  ghost predicate ApprovedOnce(db: Db, seen: Db, q: Request, env: Env, d: Db)
    requires q.execution in db.executions && q.execution in seen.executions
    requires q.approval in db.approvals && q.approval in seen.approvals
  {
    && q.execution in d.executions && env.grantId in d.grants
    && var row, next := db.executions[q.execution], d.executions[q.execution];
    && Advanced(row, next, Planning, Some(env.grantId))
    && next.result == map["input_received" := Flag(true), "pending_approval_id" := Reference(q.approval), "user_rejected" := Flag(false)]
    && MovedOnce(db, d, q, NeedsInput, next)
    && d.approvals == db.approvals[q.approval := db.approvals[q.approval].(decision := Approved, grant := Some(env.grantId))]
    && d.grants == db.grants[env.grantId := d.grants[env.grantId]]
    && Grants(d.grants[env.grantId], seen.approvals[q.approval], seen.executions[q.execution], env)
    && d.observations == db.observations
  }

  /** The tables with the grant issued and the approval bound to it, before the execution moves. */
  function Granted(db: Db, q: Request, g: Grant, env: Env): Db
    requires q.approval in db.approvals
  {
    db.(grants := db.grants[env.grantId := g],
    approvals := db.approvals[q.approval := db.approvals[q.approval].(decision := Approved, grant := Some(env.grantId))])
  }

  lemma {:induction false} GrantIsMove(db: Db, q: Request, row: Execution, a: Approval, env: Env)
    requires a.decision == Pending
    ensures var result := map["input_received" := Flag(true), "pending_approval_id" := Reference(q.approval), "user_rejected" := Flag(false)];
            if env.grantId !in db.grants && StillPending(db, q)
            then ServeGrant(db, q, row, a, env) == Moved(db, Granted(db, q, GrantFor(a, row, env), env), q, row, Planning, result, Some(env.grantId))
            else ServeGrant(db, q, row, a, env).0 == db && ServeGrant(db, q, row, a, env).1.Refused?
  {
  }

  lemma {:induction false} GrantExactly(db: Db, seen: Db, q: Request, env: Env)
    requires q.kind.Approve? && Asks(seen, q) && Fresh(seen, q) && AwaitsUser(seen.executions[q.execution])
    requires seen.approvals[q.approval].decision == Pending
    ensures var (d, reply) := ServeGrant(db, q, seen.executions[q.execution], seen.approvals[q.approval], env);
            && (Unraced(db, seen, q) && StillPending(db, q) && env.grantId !in db.grants ==>
                  ApprovedOnce(db, seen, q, env, d) && reply == Done(Response(q.execution, d.executions[q.execution])))
            && (!(Unraced(db, seen, q) && StillPending(db, q) && env.grantId !in db.grants) ==> d == db && reply.Refused?)
  {
    var row, a := seen.executions[q.execution], seen.approvals[q.approval];
    GrantIsMove(db, q, row, a, env);
    if env.grantId !in db.grants && StillPending(db, q) {
      var result := map["input_received" := Flag(true), "pending_approval_id" := Reference(q.approval), "user_rejected" := Flag(false)];
      MovedExactly(db, Granted(db, q, GrantFor(a, row, env), env), seen, q, Planning, result, Some(env.grantId));
    }
  }

  /** An approve that reads an open approval in time: it grants, binds and moves all at once, or writes nothing. */
  lemma {:induction false} ApproveExactly(db: Db, seen: Db, q: Request, env: Env)
    requires q.kind.Approve? && Asks(seen, q)
    requires seen.approvals[q.approval].decision == Pending && env.now < seen.approvals[q.approval].expires
    ensures var (d, reply) := Serve(db, seen, q, env);
            && (ApproveAccepted(db, seen, q, env) ==>
                  ApprovedOnce(db, seen, q, env, d) && reply == Done(Response(q.execution, d.executions[q.execution])))
            && (!ApproveAccepted(db, seen, q, env) ==> d == db && reply.Refused?)
  {
    if Fresh(seen, q) && AwaitsUser(seen.executions[q.execution]) {
      GrantExactly(db, seen, q, env);
    }
  }

  /** An approve that reads a decided approval, or one that is out of time, moves no execution and grants nothing. */
  lemma {:induction false} DecidedApproveExactly(db: Db, seen: Db, q: Request, env: Env)
    requires q.kind.Approve? && Asks(seen, q)
    ensures var (d, reply) := Serve(db, seen, q, env);
            match seen.approvals[q.approval].decision
            case Approved => RecordsWhatItRead(db, seen, q, d, reply)
            case Rejected => d == db && reply == Refused(AlreadyRejected)
            case Expired => d == db && reply == Refused(ApprovalExpired)
            case Pending =>
              seen.approvals[q.approval].expires <= env.now ==>
                if StillPending(db, q)
                then
                  && d == db.(approvals := db.approvals[q.approval := db.approvals[q.approval].(decision := Expired)])
                  && reply == Refused(ApprovalExpired)
                else d == db && reply == Refused(Internal)
  {
  }

  /** The answer to a decision that was already made so: the row as read, put on record. */
  ghost predicate RecordsWhatItRead(db: Db, seen: Db, q: Request, d: Db, reply: Reply)
    requires q.execution in seen.executions
  {
    var key, response := (q.execution, q.payload.operation), Response(q.execution, seen.executions[q.execution]);
    if key in db.operations && !(db.operations[key].kind == q.kind && db.operations[key].payload == q.payload)
    then d == db && reply == Refused(OperationConflict)
    else Recorded(db, d, q, response) && d == db.(operations := d.operations) && reply == Done(response)
  }

  // ----- rejection

  ghost predicate RejectAccepted(db: Db, seen: Db, q: Request) {
    && Asks(seen, q) && Fresh(seen, q) && Unraced(db, seen, q)
    && Running(seen.executions[q.execution].profile, seen.executions[q.execution].status)
    && (seen.approvals[q.approval].decision == Expired || (seen.approvals[q.approval].decision == Pending && StillPending(db, q)))
  }

  lemma {:induction false} RejectionTells(q: Request, row: Execution, effects: Effects)
    ensures var result := Rejection(q, row, effects);
            && TellsCancelled(result, row.result, effects, {"user_rejected", "pending_approval_id"})
            && result["user_rejected"] == Flag(true) && result["pending_approval_id"] == Reference(q.approval)
  {
    CancellationTells(row, effects);
    TellsMore(Cancellation(row, effects), row.result, effects, Reference(q.approval));
  }

  lemma {:induction false} TellsMore(told: map<string, Value>, earlier: map<string, Value>, effects: Effects, approval: Value)
    requires TellsCancelled(told, earlier, effects, {})
    ensures TellsCancelled(told + map["user_rejected" := Flag(true), "pending_approval_id" := approval], earlier, effects,
                           {"user_rejected", "pending_approval_id"})
  {
  }

  /** The tables after an accepted rejection: an approval that was open is rejected, one that expired stays so. */
  ghost predicate RejectedOnce(db: Db, seen: Db, q: Request, env: Env, d: Db)
    requires RejectAccepted(db, seen, q)
  {
    && q.execution in d.executions
    && var row, next := db.executions[q.execution], d.executions[q.execution];
    && Advanced(row, next, Cancelled, row.grant)
    && TellsCancelled(next.result, seen.executions[q.execution].result, env.effects, {"user_rejected", "pending_approval_id"})
    && next.result["user_rejected"] == Flag(true) && next.result["pending_approval_id"] == Reference(q.approval)
    && MovedOnce(db, d, q, row.status, next)
    && d.approvals == (if seen.approvals[q.approval].decision == Pending
                       then db.approvals[q.approval := db.approvals[q.approval].(decision := Rejected)] else db.approvals)
    && d.grants == db.grants && d.observations == db.observations
  }

  /** The part of a rejection that moves the execution, once the approval is decided in `work`. */
  lemma {:induction false} RejectMoves(db: Db, work: Db, seen: Db, q: Request, env: Env)
    requires RejectAccepted(db, seen, q)
    requires work == if seen.approvals[q.approval].decision == Pending
                     then db.(approvals := db.approvals[q.approval := db.approvals[q.approval].(decision := Rejected)]) else db
    ensures var row := seen.executions[q.execution];
            var (d, reply) := Moved(db, work, q, row, Cancelled, Rejection(q, row, env.effects), None);
            RejectedOnce(db, seen, q, env, d) && reply == Done(Response(q.execution, d.executions[q.execution]))
  {
    var row := seen.executions[q.execution];
    var result := Rejection(q, row, env.effects);
    RunningIsLive(row.profile, row.status);
    RejectionTells(q, row, env.effects);
    MovedExactly(db, work, seen, q, Cancelled, result, None);
  }

  /** A rejection of an approval that is already decided. */
  lemma {:induction false} DecidedRejectExactly(db: Db, seen: Db, q: Request, env: Env)
    requires q.kind.Reject? && Asks(seen, q)
    ensures var (d, reply) := Serve(db, seen, q, env);
            && (seen.approvals[q.approval].decision == Rejected ==> RecordsWhatItRead(db, seen, q, d, reply))
            && (seen.approvals[q.approval].decision == Approved ==> d == db && reply == Refused(AlreadyApproved))
  {
  }

  /** A rejection cancels a running execution and decides its open approval, at once or not at all. */
  lemma {:induction false} RejectExactly(db: Db, seen: Db, q: Request, env: Env)
    requires q.kind.Reject? && Asks(seen, q)
    requires seen.approvals[q.approval].decision == Pending || seen.approvals[q.approval].decision == Expired
    ensures var (d, reply) := Serve(db, seen, q, env);
            && (RejectAccepted(db, seen, q) ==>
                  RejectedOnce(db, seen, q, env, d) && reply == Done(Response(q.execution, d.executions[q.execution])))
            && (!RejectAccepted(db, seen, q) ==> d == db && reply.Refused?)
  {
    if RejectAccepted(db, seen, q) {
      var row, a := seen.executions[q.execution], seen.approvals[q.approval];
      var work := if a.decision == Pending
      then db.(approvals := db.approvals[q.approval := db.approvals[q.approval].(decision := Rejected)]) else db;
      RejectIsMove(db, work, seen, q, env);
      RejectMoves(db, work, seen, q, env);
    } else {
      RejectRefused(db, seen, q, env);
    }
  }

  /** A rejection that reads a decision it may act on and a version it may move comes down to one move. */
  lemma {:induction false} RejectIsMove(db: Db, work: Db, seen: Db, q: Request, env: Env)
    requires q.kind.Reject? && Asks(seen, q) && Fresh(seen, q)
    requires Running(seen.executions[q.execution].profile, seen.executions[q.execution].status)
    requires seen.approvals[q.approval].decision == Expired || (seen.approvals[q.approval].decision == Pending && StillPending(db, q))
    requires work == if seen.approvals[q.approval].decision == Pending
                     then db.(approvals := db.approvals[q.approval := db.approvals[q.approval].(decision := Rejected)]) else db
    ensures var row := seen.executions[q.execution];
            Serve(db, seen, q, env) == Moved(db, work, q, row, Cancelled, Rejection(q, row, env.effects), None)
  {
    RunningIsLive(seen.executions[q.execution].profile, seen.executions[q.execution].status);
  }

  lemma {:induction false} RejectBlocked(db: Db, seen: Db, q: Request, env: Env)
    requires q.kind.Reject? && Asks(seen, q)
    requires seen.approvals[q.approval].decision == Pending || seen.approvals[q.approval].decision == Expired
    requires !Fresh(seen, q) || Ended(seen.executions[q.execution].profile, seen.executions[q.execution].status)
             || (seen.approvals[q.approval].decision == Pending && !StillPending(db, q))
    ensures var (d, reply) := Serve(db, seen, q, env); d == db && reply.Refused?
  {
    RunningIsLive(seen.executions[q.execution].profile, seen.executions[q.execution].status);
  }

  /** A status that the profile does not have cannot be left. */
  lemma {:induction false} RejectAstray(db: Db, seen: Db, q: Request, env: Env)
    requires q.kind.Reject? && Asks(seen, q) && !Known(seen.executions[q.execution].profile, seen.executions[q.execution].status)
    requires seen.approvals[q.approval].decision == Pending || seen.approvals[q.approval].decision == Expired
    ensures var (d, reply) := Serve(db, seen, q, env); d == db && reply.Refused?
  {
  }

  lemma {:induction false} RejectRefused(db: Db, seen: Db, q: Request, env: Env)
    requires q.kind.Reject? && Asks(seen, q) && !RejectAccepted(db, seen, q)
    requires seen.approvals[q.approval].decision == Pending || seen.approvals[q.approval].decision == Expired
    ensures var (d, reply) := Serve(db, seen, q, env); d == db && reply.Refused?
  {
    var row, a := seen.executions[q.execution], seen.approvals[q.approval];
    RunningIsLive(row.profile, row.status);
    if !Known(row.profile, row.status) {
      RejectAstray(db, seen, q, env);
    } else if !Fresh(seen, q) || Ended(row.profile, row.status) || (a.decision == Pending && !StillPending(db, q)) {
      RejectBlocked(db, seen, q, env);
    } else {
      var work := if a.decision == Pending
      then db.(approvals := db.approvals[q.approval := db.approvals[q.approval].(decision := Rejected)]) else db;
      RejectIsMove(db, work, seen, q, env);
      MovedExactly(db, work, seen, q, Cancelled, Rejection(q, row, env.effects), None);
    }
  }

  /** An approve or reject whose approval is missing, or belongs to another execution or session, is refused. */
  lemma {:induction false} ForeignApproval(db: Db, seen: Db, q: Request, env: Env)
    requires q.kind.Approve? || q.kind.Reject?
    requires (q.execution, q.payload.operation) !in seen.operations && !Asks(seen, q)
    ensures Serve(db, seen, q, env) == (db, Refused(NotFound))
  {
  }

  // ----- requests that nothing races

  /** An input or a cancellation that reads the tables it writes to: accepted exactly on what the caller can look up. */
  lemma {:induction false} CurrentMoveExactly(db: Db, q: Request, env: Env)
    requires q.execution in db.executions && (q.execution, q.payload.operation) !in db.operations
    ensures var row, reply := db.executions[q.execution], Serve(db, db, q, env).1;
            && (q.kind.Input? ==> (reply.Done? <==> row.version == q.payload.expected && AwaitsUser(row)))
            && (q.kind.Cancel? ==> (reply.Done? <==> row.version == q.payload.expected && Running(row.profile, row.status)))
  {
    if q.kind.Input? {
      InputExactly(db, db, q, env);
      InputRefusals(db, db, q, env);
    } else if q.kind.Cancel? {
      RunningIsLive(db.executions[q.execution].profile, db.executions[q.execution].status);
      CancelExactly(db, db, q, env);
    }
  }

  /** The same for an approval. */
  lemma {:induction false} CurrentApproveExactly(db: Db, q: Request, env: Env)
    requires q.kind.Approve? && Asks(db, q)
    ensures var row, a := db.executions[q.execution], db.approvals[q.approval];
            Serve(db, db, q, env).1.Done? <==>
            || a.decision == Approved
            || (&& a.decision == Pending && env.now < a.expires
                && row.version == q.payload.expected && AwaitsUser(row) && env.grantId !in db.grants)
  {
    var a := db.approvals[q.approval];
    if a.decision == Pending && env.now < a.expires {
      ApproveExactly(db, db, q, env);
    } else {
      DecidedApproveExactly(db, db, q, env);
    }
  }

  /** The same for a rejection. */
  lemma {:induction false} CurrentRejectExactly(db: Db, q: Request, env: Env)
    requires q.kind.Reject? && Asks(db, q)
    ensures var row, a := db.executions[q.execution], db.approvals[q.approval];
            Serve(db, db, q, env).1.Done? <==>
            || a.decision == Rejected
            || (a.decision != Approved && row.version == q.payload.expected && Running(row.profile, row.status))
  {
    var a := db.approvals[q.approval];
    if a.decision == Pending || a.decision == Expired {
      RejectExactly(db, db, q, env);
    } else {
      DecidedRejectExactly(db, db, q, env);
    }
  }
}
