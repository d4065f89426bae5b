/** The execution ledger as a value: one database snapshot, and what each committed
    transaction of core/ledger.py makes of it.

    A clock is a function from "the k-th time this operation reads the clock" to the reading, so
    nothing is assumed about how readings of one or of several operations relate. */
module Ledger {
  import opened Wrappers
  import opened Principals

  datatype State = CREATED | APPROVED | DISPATCHING | SUCCEEDED | FAILED | UNKNOWN
    | PERMANENTLY_UNRESOLVED | REVOKED | EXPIRED

  predicate Terminal(s: State) {
    s.SUCCEEDED? || s.FAILED? || s.PERMANENTLY_UNRESOLVED? || s.REVOKED? || s.EXPIRED?
  }

  /** The states `record_outcome` may write. */
  predicate IsOutcome(s: State) {
    s.SUCCEEDED? || s.FAILED? || s.UNKNOWN?
  }

  /** The states `reconcile` may write. */
  predicate IsResolution(s: State) {
    s.SUCCEEDED? || s.FAILED? || s.PERMANENTLY_UNRESOLVED?
  }

  predicate IsRevocable(s: State) {
    s.CREATED? || s.APPROVED?
  }

  datatype Kind = CreatedEvent | ApprovedEvent | ApproveRefused | ClaimRefused | LeaseClaimed
    | RevokedEvent | OutcomeEvent | ReconciledEvent | ReconcileRefused | RecoveredEvent

  /** Caller-supplied evidence: a mapping to text, or one that json.dumps cannot serialise. */
  datatype Evidence = Fields(fields: map<string, string>) | Unserializable

  datatype ClaimProblem = LeaseConsumed | WrongScope | ClockMovedBackwards(highWater: real, observedNow: real)
    | LeaseExpired

  /** What an event records besides the transition. */
  datatype Detail =
    | Creation(toolId: string, operation: string)
    | Approval(approverId: string, leaseId: string, expiresAt: real)
    | Refusal(reason: Error, principal: string)
    | ClaimRefusal(problem: ClaimProblem)
    | Claim(leaseId: string, dispatcherId: string)
    | Revocation(revokerId: string, why: string)
    | Report(fields: map<string, string>)
    | Interruption

  datatype Event = Event(sequence: nat, executionId: string, kind: Kind, fromState: Option<State>,
                         toState: Option<State>, detail: Detail, recordedAt: real)

  datatype Row = Row(runId: string, actorId: string, toolId: string, operation: string,
                     scopeDigest: string, state: State, leaseId: Option<string>, expiresAt: Option<real>,
                     approvedAt: Option<real>, dispatcherId: Option<string>, createdAt: real)

  /** `order` lists the execution ids in insertion order, the order in which rows are scanned. */
  datatype Ledger = Ledger(order: seq<string>, rows: map<string, Row>, events: seq<Event>,
                           highWater: Option<real>)

  const EMPTY := Ledger([], map[], [], None)

  type Clock = nat -> real

  datatype Error = BadPrincipal(reason: PrincipalError) | BadTtl | UnknownExecution | WrongState
    | ScopeMismatch | SelfApproval | SelfReconciliation | IllegalState | NotSerializable | IdCollision

  datatype Ttl = NotANumber | NonFinite | Finite(seconds: real)

  // ------------------------------------------------------------------ building blocks

  /** The high-water mark after one clock reading. */
  function Mark(highWater: Option<real>, now: real): Option<real> {
    if highWater.None? || now > highWater.value then Some(now) else highWater
  }

  function Observe(l: Ledger, now: real): Ledger {
    l.(highWater := Mark(l.highWater, now))
  }

  function Append(l: Ledger, id: string, kind: Kind, fromState: Option<State>, toState: Option<State>,
                  detail: Detail, now: real): Ledger {
    Observe(l, now).(events := l.events + [Event(|l.events| + 1, id, kind, fromState, toState, detail, now)])
  }

  /** A refusal: an event without a target state. */
  function Note(l: Ledger, id: string, kind: Kind, fromState: Option<State>, detail: Detail, now: real): Ledger {
    Append(l, id, kind, fromState, None, detail, now)
  }

  /** A transition: the row is rewritten and the event names the state it now has. */
  function Move(l: Ledger, id: string, row: Row, kind: Kind, fromState: State, detail: Detail, now: real): Ledger {
    Append(l.(rows := l.rows[id := row]), id, kind, Some(fromState), Some(row.state), detail, now)
  }

  function RowByLease(rows: map<string, Row>, order: seq<string>, lease: string): Option<string> {
    if order == [] then None
    else if order[0] in rows && rows[order[0]].leaseId == Some(lease) then Some(order[0])
    else RowByLease(rows, order[1..], lease)
  }

  // ------------------------------------------------------------------ transactions

  function Create(l: Ledger, u: Unicode, id: string, runId: string, actor: Argument, toolId: string,
                  operation: string, scope: string, clock: Clock): (Ledger, Result<string, Error>)
  {
    match NormalizePrincipal(u, actor)
    case Err(e) => (l, Err(BadPrincipal(e)))
    case Ok(actorId) =>
      if id in l.rows then (l, Err(IdCollision))
      else
        var row := Row(runId, actorId, toolId, operation, scope, CREATED, None, None, None, None, clock(0));
        (Append(l.(order := l.order + [id], rows := l.rows[id := row]), id, CreatedEvent, None, Some(CREATED),
                Creation(toolId, operation), clock(1)),
         Ok(id))
  }

  /** Which check of `approve` refuses, in the order in which they are made. */
  function ApprovalRefusal(row: Row, approverId: string, scope: string): Option<Error> {
    if row.state != CREATED then Some(WrongState)
    else if row.scopeDigest != scope then Some(ScopeMismatch)
    else if row.actorId == approverId then Some(SelfApproval)
    else None
  }

  /** The first transaction of `approve`; a refusal is recorded by RecordRefusal, in a second one. */
  function Approve(l: Ledger, u: Unicode, id: string, approver: Argument, scope: string, ttl: Ttl,
                   lease: string, clock: Clock): (Ledger, Result<string, Error>)
  {
    match NormalizePrincipal(u, approver)
    case Err(e) => (l, Err(BadPrincipal(e)))
    case Ok(approverId) =>
      if !ttl.Finite? || ttl.seconds <= 0.0 then (l, Err(BadTtl))
      else if id !in l.rows then (l, Err(UnknownExecution))
      else
        match ApprovalRefusal(l.rows[id], approverId, scope)
        case Some(e) => (l, Err(e))
        case None =>
          if RowByLease(l.rows, l.order, lease).Some? then (l, Err(IdCollision))
          else
            var expiresAt := clock(0) + ttl.seconds;
            var row := l.rows[id].(state := APPROVED, leaseId := Some(lease), expiresAt := Some(expiresAt),
                                   approvedAt := Some(clock(1)));
            (Move(l, id, row, ApprovedEvent, CREATED,
                  Approval(approverId, lease, expiresAt),
                  clock(2)),
             Ok(lease))
  }

  /** The second transaction of a refused `approve` or `reconcile`. By then the row may have moved on,
      so `fromState` is whatever the first transaction read. The event needs an existing execution. */
  function RecordRefusal(l: Ledger, id: string, kind: Kind, fromState: State, detail: Detail, now: real): Ledger
  {
    if id in l.rows && (kind.ApproveRefused? || kind.ReconcileRefused?)
    then Note(l, id, kind, Some(fromState), detail, now)
    else l
  }

  function ClaimLease(l: Ledger, dispatcher: string, lease: string, scope: string, clock: Clock)
    : (Ledger, Option<string>)
  {
    match RowByLease(l.rows, l.order, lease)
    case None => (l, None)
    case Some(id) =>
      if id !in l.rows then (l, None) else
      var row := l.rows[id];
      if row.state != APPROVED then
        (Note(l, id, ClaimRefused, Some(row.state),
              ClaimRefusal(LeaseConsumed), clock(0)), None)
      else if row.scopeDigest != scope then
        (Note(l, id, ClaimRefused, Some(row.state), ClaimRefusal(WrongScope), clock(0)), None)
      else ConsumeLease(l, id, dispatcher, lease, clock)
  }

  /** The time checks on an approved row with the right scope, and the conditional update. */
  function ConsumeLease(l: Ledger, id: string, dispatcher: string, lease: string, clock: Clock)
    : (Ledger, Option<string>)
    requires id in l.rows
  {
    var now := clock(0);
    var row := l.rows[id];
    var seen := Observe(l, now);
    if l.highWater.Some? && now < l.highWater.value then
      (Note(seen, id, ClaimRefused, Some(row.state),
            ClaimRefusal(ClockMovedBackwards(l.highWater.value, now)), clock(1)), None)
    else if row.expiresAt.Some? && now > row.expiresAt.value then
      (Move(seen, id, row.(state := EXPIRED), ClaimRefused, APPROVED,
            ClaimRefusal(LeaseExpired), clock(1)), None)
    else
      (Move(seen, id, row.(state := DISPATCHING, dispatcherId := Some(dispatcher)), LeaseClaimed, APPROVED,
            Claim(lease, dispatcher), clock(1)), Some(id))
  }

  function Revoke(l: Ledger, u: Unicode, id: string, revoker: Argument, reason: string, clock: Clock)
    : (Ledger, Result<bool, Error>)
  {
    match NormalizePrincipal(u, revoker)
    case Err(e) => (l, Err(BadPrincipal(e)))
    case Ok(revokerId) =>
      if id in l.rows && IsRevocable(l.rows[id].state) then
        // The event always says it left APPROVED, even when it left CREATED.
        (Move(l, id, l.rows[id].(state := REVOKED), RevokedEvent, APPROVED,
              Revocation(revokerId, reason), clock(0)), Ok(true))
      else (l, Ok(false))
  }

  function RecordOutcome(l: Ledger, id: string, state: State, evidence: Evidence, clock: Clock)
    : (Ledger, Result<(), Error>)
  {
    if !IsOutcome(state) then (l, Err(IllegalState))
    else if id !in l.rows then (l, Err(UnknownExecution))
    else if l.rows[id].state != DISPATCHING then (l, Err(WrongState))
    else if evidence.Unserializable? then (l, Err(NotSerializable))
    else (Move(l, id, l.rows[id].(state := state), OutcomeEvent, DISPATCHING, Report(evidence.fields), clock(0)),
          Ok(()))
  }

  /** The first transaction of `reconcile`. Evidence may overwrite the reconciler named in the event. */
  function Reconcile(l: Ledger, u: Unicode, id: string, newState: State, reconciler: Argument,
                     evidence: Evidence, clock: Clock): (Ledger, Result<(), Error>)
  {
    match NormalizePrincipal(u, reconciler)
    case Err(e) => (l, Err(BadPrincipal(e)))
    case Ok(reconcilerId) =>
      if !IsResolution(newState) then (l, Err(IllegalState))
      else if id !in l.rows then (l, Err(UnknownExecution))
      else if l.rows[id].state != UNKNOWN then (l, Err(WrongState))
      else if l.rows[id].actorId == reconcilerId then (l, Err(SelfReconciliation))
      else if evidence.Unserializable? then (l, Err(NotSerializable))
      else
        (Move(l, id, l.rows[id].(state := newState), ReconciledEvent, UNKNOWN,
              Report(map["reconciler_id" := reconcilerId] + evidence.fields), clock(0)), Ok(()))
  }

  predicate IsInterrupted(rows: map<string, Row>, id: string, dispatcher: string, all: bool) {
    id in rows && rows[id].state == DISPATCHING && (all || rows[id].dispatcherId == Some(dispatcher))
  }

  /** The ids selected by a recovery sweep, in scan order. */
  function Interrupted(rows: map<string, Row>, order: seq<string>, dispatcher: string, all: bool)
    : (ids: seq<string>)
    ensures forall id :: id in ids <==> id in order && IsInterrupted(rows, id, dispatcher, all)
  {
    if order == [] then []
    else
      (if IsInterrupted(rows, order[0], dispatcher, all) then [order[0]] else [])
      + Interrupted(rows, order[1..], dispatcher, all)
  }

  function RecoverOne(l: Ledger, id: string, now: real): Ledger {
    if id !in l.rows then l
    else Move(l, id, l.rows[id].(state := UNKNOWN), RecoveredEvent, DISPATCHING,
              Interruption, now)
  }

  function RecoverRows(l: Ledger, ids: seq<string>, clock: Clock): Ledger {
    if ids == [] then l
    else RecoverOne(RecoverRows(l, ids[..|ids| - 1], clock), ids[|ids| - 1], clock(|ids| - 1))
  }

  function RecoverInterrupted(l: Ledger, dispatcher: string, all: bool, clock: Clock): (Ledger, seq<string>) {
    var ids := Interrupted(l.rows, l.order, dispatcher, all);
    (RecoverRows(l, ids, clock), ids)
  }

  // ------------------------------------------------------------------ runs

  /** One committed transaction, with every argument its caller chose. */
  datatype Op =
    | CreateOp(newId: string, runId: string, actor: Argument, toolId: string, operation: string, scope: string)
    | ApproveOp(id: string, approver: Argument, scope: string, ttl: Ttl, lease: string)
    | RefusalOp(id: string, kind: Kind, fromState: State, detail: Detail)
    | ClaimOp(dispatcher: string, lease: string, scope: string)
    | RevokeOp(id: string, revoker: Argument, reason: string)
    | OutcomeOp(id: string, state: State, evidence: Evidence)
    | ReconcileOp(id: string, state: State, reconciler: Argument, evidence: Evidence)
    | RecoverOp(dispatcher: string, all: bool)

  function Apply(l: Ledger, u: Unicode, op: Op, clock: Clock): Ledger {
    match op
    case CreateOp(id, runId, actor, toolId, operation, scope) =>
      Create(l, u, id, runId, actor, toolId, operation, scope, clock).0
    case ApproveOp(id, approver, scope, ttl, lease) => Approve(l, u, id, approver, scope, ttl, lease, clock).0
    case RefusalOp(id, kind, fromState, detail) => RecordRefusal(l, id, kind, fromState, detail, clock(0))
    case ClaimOp(dispatcher, lease, scope) => ClaimLease(l, dispatcher, lease, scope, clock).0
    case RevokeOp(id, revoker, reason) => Revoke(l, u, id, revoker, reason, clock).0
    case OutcomeOp(id, state, evidence) => RecordOutcome(l, id, state, evidence, clock).0
    case ReconcileOp(id, state, reconciler, evidence) => Reconcile(l, u, id, state, reconciler, evidence, clock).0
    case RecoverOp(dispatcher, all) => RecoverInterrupted(l, dispatcher, all, clock).0
  }

  /** The ledger after a whole run: any transactions, in any order, with any clock behaviour. */
  ghost function Run(l: Ledger, u: Unicode, ops: seq<(Op, Clock)>): Ledger {
    if ops == [] then l
    else
      var last := ops[|ops| - 1];
      Apply(Run(l, u, ops[..|ops| - 1]), u, last.0, last.1)
  }
}
