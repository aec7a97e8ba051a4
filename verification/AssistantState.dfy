/** The life cycle of assistant executions and the durable rows of the approval protocol. */
module AssistantState {
  import opened Outcome

  datatype Profile = FastTurn | ActionRun

  datatype Status =
    | Received | Contextualizing | Deciding | ExecutingReads | Responding | HandedOff
    | Queued | Planning | Executing | Observing | WaitingExternal | Reconciling | NeedsInput
    | Completed | Partial | Failed | Cancelled

  /** `FAST_TURN_TRANSITIONS` and `ACTION_RUN_TRANSITIONS`; `None` for a status the profile does not have. */
  function Successors(p: Profile, s: Status): Option<set<Status>> {
    match p
    case FastTurn => (
      match s
      case Received => Some({Contextualizing, Failed, Cancelled})
      case Contextualizing => Some({Deciding, Failed, Cancelled})
      case Deciding => Some({Responding, ExecutingReads, HandedOff, Failed, Cancelled})
      case ExecutingReads => Some({Responding, HandedOff, Failed, Cancelled})
      case Responding => Some({Completed, Failed, Cancelled})
      case HandedOff | Completed | Failed | Cancelled => Some({})
      case _ => None
    )
    case ActionRun => (
      match s
      case Queued => Some({Planning, Failed, Cancelled})
      case Planning => Some({Queued, Executing, NeedsInput, Failed, Cancelled})
      case Executing => Some({Observing, WaitingExternal, Reconciling, Failed, Cancelled})
      case Observing => Some({Queued, Planning, Completed, Partial, Failed, Cancelled})
      case WaitingExternal => Some({Observing, Reconciling, Failed, Cancelled})
      case Reconciling => Some({Observing, NeedsInput, Failed, Cancelled})
      case NeedsInput => Some({Planning, Failed, Cancelled})
      case Completed | Partial | Failed | Cancelled => Some({})
      case _ => None
    )
  }

  predicate Known(p: Profile, s: Status) { Successors(p, s).Some? }

  /** `transition_execution_status` accepts the pair; a status may always be kept. */
  predicate Legal(p: Profile, s: Status, t: Status) {
    Known(p, s) && Known(p, t) && (s == t || t in Successors(p, s).value)
  }

  predicate Terminal(p: Profile, s: Status) { Known(p, s) && Successors(p, s).value == {} }

  function Initial(p: Profile): Status { if p.FastTurn? then Received else Queued }

  /** A user can always cancel: every status that is not terminal leads to `Cancelled`. */
  lemma {:induction false} CancelAlwaysLegal(p: Profile, s: Status)
    requires Known(p, s)
    ensures Legal(p, s, Cancelled) <==> !Terminal(p, s) || s == Cancelled
  {
    if !Terminal(p, s) {
      assert Cancelled in Successors(p, s).value;
    }
  }

  /**
    * The gates of the two life cycles: a turn completes only after its response and a run only after an
    * observation; a run acts only on a plan, and once it waits for the user it can only plan again or end.
    */
  lemma {:induction false} GatesOfTheLifeCycle(s: Status, t: Status)
    requires s != t
    ensures Legal(FastTurn, s, t) && t == Completed ==> s == Responding
    ensures Legal(FastTurn, s, t) && t == HandedOff ==> s == Deciding || s == ExecutingReads
    ensures Legal(ActionRun, s, t) && t in {Completed, Partial} ==> s == Observing
    ensures Legal(ActionRun, s, t) && t == Executing ==> s == Planning
    ensures Legal(ActionRun, s, t) && t == Observing ==> s in {Executing, WaitingExternal, Reconciling}
    ensures Legal(ActionRun, s, t) && t == NeedsInput ==> s == Planning || s == Reconciling
    ensures Legal(ActionRun, NeedsInput, t) && t != NeedsInput ==> t in {Planning, Failed, Cancelled}
  {
  }

  // ----- rows

  datatype Value = Flag(on: bool) | Count(n: nat) | Reference(id: string) | Raw(json: string)

  /** The part of an execution row that the handlers read or write. */
  datatype Execution = Execution(session: string, profile: Profile, goal: string, status: Status, version: nat,
                                 grant: Option<string>, result: map<string, Value>)

  datatype Decision = Pending | Approved | Rejected | Expired

  datatype Approval = Approval(execution: string, session: string, actor: string, capability: string, scope: string,
                               candidate: Option<string>, expires: int, decision: Decision, grant: Option<string>)

  datatype Grant = Grant(session: string, actor: string, goal: string, capabilities: seq<string>, scope: string,
                         candidates: seq<string>, budget: nat, expires: int)

  datatype Kind = Input | Cancel | Approve | Reject

  /** The request body; the digest stored beside an operation covers the kind and this body, not the URL. */
  datatype Payload = Payload(operation: string, expected: nat, input: string)

  datatype Response = Response(execution: string, row: Execution)

  datatype Operation = Operation(kind: Kind, payload: Payload, response: Response)

  datatype Observation = Observation(execution: string, operation: string, input: string, actor: string)

  /** The event row of one transition: the version it produced and the status it left and entered. */
  datatype Commit = Commit(execution: string, version: nat, from: Status, to: Status)

  datatype Db = Db(
    executions: map<string, Execution>,
    approvals: map<string, Approval>,
    grants: map<string, Grant>,
    operations: map<(string, string), Operation>,
    observations: seq<Observation>,
    log: seq<Commit>)

  const Nothing := Db(map[], map[], map[], map[], [], [])
}
