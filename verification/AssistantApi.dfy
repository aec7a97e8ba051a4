/**
  * The handlers for user input, cancellation, approval and rejection. A handler reads its
  * rows at one moment (`seen`) and writes at a later one (`db`), and other requests and
  * workers may commit in between; its writes take effect together or not at all.
  */
module AssistantApi {
  import opened Outcome
  import opened AssistantState

  datatype Code =
    | NotFound | OperationConflict | StaleVersion | NotWaiting | AlreadyTerminal
    | AlreadyRejected | AlreadyApproved | ApprovalExpired | Internal

  datatype Reply = Done(response: Response) | Refused(code: Code)

  datatype Request = Request(kind: Kind, execution: string, approval: string, payload: Payload)

  datatype Effects = Effects(confirmed: nat, unknown: nat)

  /**
    * What a handler takes from outside: the clock, the longest grant lifetime, a new grant id and
    * the side effects counted for the execution.
    */
  datatype Env = Env(now: int, ttl: nat, grantId: string, effects: Effects)

  function Key(q: Request): (string, string) { (q.execution, q.payload.operation) }

  // ----- the repository, as functions of the tables

  /** `transition_execution`: compare and set on the version and status that `row` was read with. */
  function Transition(db: Db, id: string, row: Execution, expected: nat, to: Status,
                      result: Option<map<string, Value>>, grant: Option<string>): Result<Db, Code>
  {
    if row.version != expected then Failure(StaleVersion)
    else if !Legal(row.profile, row.status, to) then Failure(Internal)
    else if id !in db.executions || db.executions[id].version != expected || db.executions[id].status != row.status
    then Failure(StaleVersion)
    else
      var next := db.executions[id].(status := to, version := expected + 1,
                  result := if result.Some? then result.value else row.result,
                  grant := if grant.Some? then grant else db.executions[id].grant);
      Success(db.(executions := db.executions[id := next],
              log := db.log + [Commit(id, expected + 1, row.status, to)]))
  }

  /** `create_grant`; a repeated primary key is an integrity error. */
  function Issue(db: Db, id: string, g: Grant): Result<Db, Code> {
    if id in db.grants then Failure(Internal) else Success(db.(grants := db.grants[id := g]))
  }

  /**
    * `resolve_action_approval`: only a pending row is updated. `loaded` is the row that the session
    * holds; an update that matches nothing leaves it as it was loaded, so reading it again by its
    * key cannot show the wanted decision and the update is lost.
    */
  function Resolve(db: Db, id: string, loaded: Approval, to: Decision, grant: Option<string>): Result<Db, Code> {
    if loaded.decision == to then Success(db)
    else if id !in db.approvals then Failure(Internal)
    else if db.approvals[id].decision.Pending? then
      var next := db.approvals[id].(decision := to, grant := if grant.Some? then grant else db.approvals[id].grant);
      Success(db.(approvals := db.approvals[id := next]))
    else Failure(StaleVersion)
  }

  /** `record_client_operation`: one row per execution and client operation id. */
  function Record(db: Db, q: Request, response: Response): Result<Db, Code> {
    if Key(q) in db.operations then
      if db.operations[Key(q)].kind == q.kind && db.operations[Key(q)].payload == q.payload then Success(db)
      else Failure(OperationConflict)
    else
      Success(db.(operations := db.operations[Key(q) := Operation(q.kind, q.payload, response)]))
  }

  // ----- the handlers, as functions of the tables

  function Answered(before: Db, work: Db, q: Request, row: Execution): (Db, Reply) {
    var response := Response(q.execution, row);
    match Record(work, q, response)
    case Failure(code) => (before, Refused(code))
    case Success(done) => (done, Done(response))
  }

  /** The common end of every handler that moves the execution. */
  function Moved(before: Db, work: Db, q: Request, row: Execution, to: Status,
                 result: map<string, Value>, grant: Option<string>): (Db, Reply)
  {
    match Transition(work, q.execution, row, q.payload.expected, to, Some(result), grant)
    case Failure(code) => (before, Refused(code))
    case Success(next) =>
      if q.execution in next.executions then Answered(before, next, q, next.executions[q.execution])
      else (before, Refused(Internal))
  }

  function ActorOf(seen: Db, row: Execution): string {
    if row.grant.Some? && row.grant.value in seen.grants then seen.grants[row.grant.value].actor else "local-user"
  }

  function ServeInput(db: Db, seen: Db, q: Request, row: Execution): (Db, Reply) {
    if row.version != q.payload.expected then (db, Refused(StaleVersion))
    else if !(row.profile.ActionRun? && row.status.NeedsInput?) then (db, Refused(NotWaiting))
    else
      var note := Observation(q.execution, q.payload.operation, q.payload.input, ActorOf(seen, row));
      Moved(db, db.(observations := db.observations + [note]), q, row, Planning,
            map["input_received" := Flag(true)], None)
  }

  function Cancellation(row: Execution, effects: Effects): map<string, Value> {
    row.result + map[
      "cancelled" := Flag(true),
      "confirmed_external_side_effects" := Count(effects.confirmed),
      "unknown_external_side_effects" := Count(effects.unknown),
      "existing_external_actions_remain" := Flag(effects.confirmed > 0)]
  }

  function ServeCancel(db: Db, q: Request, row: Execution, env: Env): (Db, Reply) {
    if row.version != q.payload.expected then (db, Refused(StaleVersion))
    else if Terminal(row.profile, row.status) then (db, Refused(AlreadyTerminal))
    else Moved(db, db, q, row, Cancelled, Cancellation(row, env.effects), None)
  }

  function GrantFor(a: Approval, row: Execution, env: Env): Grant {
    Grant(row.session, a.actor, row.goal, [a.capability], a.scope,
          if a.candidate.Some? then [a.candidate.value] else [], 1,
          if a.expires <= env.now + env.ttl then a.expires else env.now + env.ttl)
  }

  /** The last part of `approve_assistant_action`: grant, approval and execution in one unit of work. */
  function ServeGrant(db: Db, q: Request, row: Execution, a: Approval, env: Env): (Db, Reply) {
    match Issue(db, env.grantId, GrantFor(a, row, env))
    case Failure(code) => (db, Refused(code))
    case Success(issued) =>
      match Resolve(issued, q.approval, a, Approved, Some(env.grantId))
      case Failure(code) => (db, Refused(code))
      case Success(resolved) =>
        Moved(db, resolved, q, row, Planning,
              map["input_received" := Flag(true), "pending_approval_id" := Reference(q.approval),
                  "user_rejected" := Flag(false)],
              Some(env.grantId))
  }

  function ServeApprove(db: Db, q: Request, row: Execution, a: Approval, env: Env): (Db, Reply) {
    match a.decision
    case Approved => Answered(db, db, q, row)
    case Rejected => (db, Refused(AlreadyRejected))
    case Expired => (db, Refused(ApprovalExpired))
    case Pending =>
      if a.expires <= env.now then
        match Resolve(db, q.approval, a, Expired, None)
        case Failure(_) => (db, Refused(Internal))
        case Success(resolved) => (resolved, Refused(ApprovalExpired))
      else if row.version != q.payload.expected then (db, Refused(StaleVersion))
      else if !(row.profile.ActionRun? && row.status.NeedsInput?) then (db, Refused(NotWaiting))
      else ServeGrant(db, q, row, a, env)
  }

  function Rejection(q: Request, row: Execution, effects: Effects): map<string, Value> {
    Cancellation(row, effects) + map["user_rejected" := Flag(true), "pending_approval_id" := Reference(q.approval)]
  }

  function ServeReject(db: Db, q: Request, row: Execution, a: Approval, env: Env): (Db, Reply) {
    if a.decision.Rejected? then Answered(db, db, q, row)
    else if a.decision.Approved? then (db, Refused(AlreadyApproved))
    else if row.version != q.payload.expected then (db, Refused(StaleVersion))
    else if Terminal(row.profile, row.status) then (db, Refused(AlreadyTerminal))
    else
      var resolved := if a.decision.Pending? then Resolve(db, q.approval, a, Rejected, None) else Success(db);
      match resolved
      case Failure(code) => (db, Refused(code))
      case Success(work) => Moved(db, work, q, row, Cancelled, Rejection(q, row, env.effects), None)
  }

  /** `_require_approval`. */
  predicate Owns(seen: Db, q: Request) {
    && q.execution in seen.executions && q.approval in seen.approvals
    && seen.approvals[q.approval].execution == q.execution
    && seen.approvals[q.approval].session == seen.executions[q.execution].session
  }

  /** `_operation_replay`, when the operation is on record. */
  function Replayed(op: Operation, q: Request): Reply {
    if op.kind == q.kind && op.payload == q.payload then Done(op.response) else Refused(OperationConflict)
  }

  /** One request: rows read from `seen`, written to `db`. */
  function Serve(db: Db, seen: Db, q: Request, env: Env): (Db, Reply) {
    if q.execution !in seen.executions then (db, Refused(NotFound))
    else if Key(q) in seen.operations then (db, Replayed(seen.operations[Key(q)], q))
    else
      var row := seen.executions[q.execution];
      match q.kind
      case Input => ServeInput(db, seen, q, row)
      case Cancel => ServeCancel(db, q, row, env)
      case Approve =>
        if !Owns(seen, q) then (db, Refused(NotFound)) else ServeApprove(db, q, row, seen.approvals[q.approval], env)
      case Reject =>
        if !Owns(seen, q) then (db, Refused(NotFound)) else ServeReject(db, q, row, seen.approvals[q.approval], env)
  }

  // ----- the same, step by step in place

  /** A database session: its writes stay private until they are committed. */
  class UnitOfWork {
    var work: Db

    constructor (db: Db)
      ensures work == db
    {
      work := db;
    }

    method TransitionExecution(id: string, row: Execution, expected: nat, to: Status,
                               result: map<string, Value>, grant: Option<string>) returns (r: Result<Execution, Code>)
      modifies this
      ensures var spec := Transition(old(work), id, row, expected, to, Some(result), grant);
              match spec
              case Failure(code) => r == Failure(code) && work == old(work)
              case Success(next) => work == next && id in next.executions && r == Success(next.executions[id])
    {
      if row.version != expected {
        return Failure(StaleVersion);
      }
      if !Legal(row.profile, row.status, to) {
        return Failure(Internal);
      }
      if id !in work.executions || work.executions[id].version != expected || work.executions[id].status != row.status {
        return Failure(StaleVersion);
      }
      var next := work.executions[id].(status := to, version := expected + 1, result := result);
      if grant.Some? {
        next := next.(grant := grant);
      }
      work := work.(executions := work.executions[id := next]);
      work := work.(log := work.log + [Commit(id, expected + 1, row.status, to)]);
      return Success(next);
    }

    method CreateGrant(id: string, g: Grant) returns (r: Result<string, Code>)
      modifies this
      ensures match Issue(old(work), id, g)
              case Failure(code) => r == Failure(code) && work == old(work)
              case Success(next) => r == Success(id) && work == next
    {
      if id in work.grants {
        return Failure(Internal);
      }
      work := work.(grants := work.grants[id := g]);
      return Success(id);
    }

    method ResolveApproval(id: string, loaded: Approval, to: Decision, grant: Option<string>)
      returns (r: Result<Option<string>, Code>)
      modifies this
      ensures match Resolve(old(work), id, loaded, to, grant)
              case Failure(code) => r == Failure(code) && work == old(work)
              case Success(next) =>
                work == next && r.Success? && (loaded.decision != to && grant.Some? ==> r.value == grant)
    {
      if loaded.decision == to {
        return Success(loaded.grant);
      }
      if id !in work.approvals {
        return Failure(Internal);
      }
      if work.approvals[id].decision.Pending? {
        var next := work.approvals[id].(decision := to);
        if grant.Some? {
          next := next.(grant := grant);
        }
        work := work.(approvals := work.approvals[id := next]);
        return Success(next.grant);
      }
      return Failure(StaleVersion);
    }

    method RecordOperation(q: Request, response: Response) returns (r: Result<Response, Code>)
      modifies this
      ensures match Record(old(work), q, response)
              case Failure(code) => r == Failure(code) && work == old(work)
              case Success(next) => r == Success(response) && work == next
    {
      if Key(q) in work.operations {
        var op := work.operations[Key(q)];
        if op.kind != q.kind || op.payload != q.payload {
          return Failure(OperationConflict);
        }
        return Success(response);
      }
      work := work.(operations := work.operations[Key(q) := Operation(q.kind, q.payload, response)]);
      return Success(response);
    }
  }

  class Api {
    /** The committed tables. */
    var db: Db

    /** `submit_assistant_input`. */
    method SubmitInput(seen: Db, q: Request, env: Env) returns (reply: Reply)
      requires q.kind.Input?
      modifies this
      ensures (db, reply) == Serve(old(db), seen, q, env)
    {
      if q.execution !in seen.executions {
        return Refused(NotFound);
      }
      if Key(q) in seen.operations {
        return Replayed(seen.operations[Key(q)], q);
      }
      var row := seen.executions[q.execution];
      if row.version != q.payload.expected {
        return Refused(StaleVersion);
      }
      if !(row.profile.ActionRun? && row.status.NeedsInput?) {
        return Refused(NotWaiting);
      }
      var session := new UnitOfWork(db);
      var note := Observation(q.execution, q.payload.operation, q.payload.input, ActorOf(seen, row));
      session.work := session.work.(observations := session.work.observations + [note]);
      reply := Move(session, q, row, Planning, map["input_received" := Flag(true)], None);
    }

    /** `cancel_assistant_execution`. */
    method CancelExecution(seen: Db, q: Request, env: Env) returns (reply: Reply)
      requires q.kind.Cancel?
      modifies this
      ensures (db, reply) == Serve(old(db), seen, q, env)
    {
      if q.execution !in seen.executions {
        return Refused(NotFound);
      }
      if Key(q) in seen.operations {
        return Replayed(seen.operations[Key(q)], q);
      }
      var row := seen.executions[q.execution];
      if row.version != q.payload.expected {
        return Refused(StaleVersion);
      }
      if Terminal(row.profile, row.status) {
        return Refused(AlreadyTerminal);
      }
      var session := new UnitOfWork(db);
      reply := Move(session, q, row, Cancelled, Cancellation(row, env.effects), None);
    }

    /** `approve_assistant_action`. */
    method ApproveAction(seen: Db, q: Request, env: Env) returns (reply: Reply)
      requires q.kind.Approve?
      modifies this
      ensures (db, reply) == Serve(old(db), seen, q, env)
    {
      if q.execution !in seen.executions {
        return Refused(NotFound);
      }
      if Key(q) in seen.operations {
        return Replayed(seen.operations[Key(q)], q);
      }
      if !Owns(seen, q) {
        return Refused(NotFound);
      }
      var row, a := seen.executions[q.execution], seen.approvals[q.approval];
      var session := new UnitOfWork(db);
      if a.decision.Approved? {
        reply := Answer(session, q, row);
        return;
      }
      if a.decision.Rejected? {
        return Refused(AlreadyRejected);
      }
      if a.expires <= env.now || a.decision.Expired? {
        if a.decision.Pending? {
          var r := session.ResolveApproval(q.approval, a, Expired, None);
          if r.Failure? {
            return Refused(Internal);
          }
          db := session.work;
        }
        return Refused(ApprovalExpired);
      }
      if row.version != q.payload.expected {
        return Refused(StaleVersion);
      }
      if !(row.profile.ActionRun? && row.status.NeedsInput?) {
        return Refused(NotWaiting);
      }
      reply := GrantAndMove(session, q, row, a, env);
    }

    /** The part of `approve_assistant_action` that writes. */
    method GrantAndMove(session: UnitOfWork, q: Request, row: Execution, a: Approval, env: Env) returns (reply: Reply)
      requires session.work == db && a.decision.Pending?
      modifies this, session
      ensures (db, reply) == ServeGrant(old(db), q, row, a, env)
    {
      var issued := session.CreateGrant(env.grantId, GrantFor(a, row, env));
      if issued.Failure? {
        return Refused(issued.error);
      }
      var bound := session.ResolveApproval(q.approval, a, Approved, Some(env.grantId));
      if bound.Failure? {
        return Refused(bound.error);
      }
      reply := Move(session, q, row, Planning,
                    map["input_received" := Flag(true), "pending_approval_id" := Reference(q.approval), "user_rejected" := Flag(false)],
                    Some(env.grantId));
    }

    /** `reject_assistant_action`. */
    method RejectAction(seen: Db, q: Request, env: Env) returns (reply: Reply)
      requires q.kind.Reject?
      modifies this
      ensures (db, reply) == Serve(old(db), seen, q, env)
    {
      if q.execution !in seen.executions {
        return Refused(NotFound);
      }
      if Key(q) in seen.operations {
        return Replayed(seen.operations[Key(q)], q);
      }
      if !Owns(seen, q) {
        return Refused(NotFound);
      }
      var row, a := seen.executions[q.execution], seen.approvals[q.approval];
      var session := new UnitOfWork(db);
      if a.decision.Rejected? {
        reply := Answer(session, q, row);
        return;
      }
      if a.decision.Approved? {
        return Refused(AlreadyApproved);
      }
      if row.version != q.payload.expected {
        return Refused(StaleVersion);
      }
      if Terminal(row.profile, row.status) {
        return Refused(AlreadyTerminal);
      }
      if a.decision.Pending? {
        var r := session.ResolveApproval(q.approval, a, Rejected, None);
        if r.Failure? {
          return Refused(r.error);
        }
      }
      reply := Move(session, q, row, Cancelled, Rejection(q, row, env.effects), None);
    }

    /** Transition, record the answer, commit; any failure leaves the committed tables alone. */
    method Move(session: UnitOfWork, q: Request, row: Execution, to: Status, result: map<string, Value>, grant: Option<string>)
      returns (reply: Reply)
      modifies this, session
      ensures (db, reply) == Moved(old(db), old(session.work), q, row, to, result, grant)
    {
      var updated := session.TransitionExecution(q.execution, row, q.payload.expected, to, result, grant);
      if updated.Failure? {
        return Refused(updated.error);
      }
      reply := Answer(session, q, updated.value);
    }

    method Answer(session: UnitOfWork, q: Request, row: Execution) returns (reply: Reply)
      modifies this, session
      ensures (db, reply) == Answered(old(db), old(session.work), q, row)
    {
      var recorded := session.RecordOperation(q, Response(q.execution, row));
      if recorded.Failure? {
        return Refused(recorded.error);
      }
      db := session.work;
      return Done(recorded.value);
    }
  }
}
