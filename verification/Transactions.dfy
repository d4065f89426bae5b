/** What each transaction of the ledger does, on every ledger and every argument: when it succeeds, and then the
    one row and the one event it writes, with every state and every kind by its name. */
module Transactions {
  import opened Wrappers
  import opened Principals
  import opened Ledger
  import opened History
  import opened Evolution
  import E = ExecutionLedger

  // ------------------------------------------------------------------ one write

  /** The mark afterwards is the later of the mark and the reading. */
  predicate MarkIs(before: Option<real>, reading: real, after: Option<real>) {
    && after.Some? && reading <= after.value && (before.Some? ==> before.value <= after.value)
    && (after.value == reading || before == after)
  }

  /** One event was appended, under the next number; no row was touched. */
  predicate LoggedOnly(l: Ledger, m: Ledger, id: string, kind: Kind, fromState: Option<State>, toState: Option<State>,
                       detail: Detail, reading: real) {
    && m.order == l.order && m.rows == l.rows && MarkIs(l.highWater, reading, m.highWater)
    && m.events == l.events + [Event(|l.events| + 1, id, kind, fromState, toState, detail, reading)]
  }

  /** One row was written, and one event about it. */
  predicate Wrote(l: Ledger, m: Ledger, id: string, row: Row, kind: Kind, fromState: Option<State>, detail: Detail,
                  reading: real) {
    && m.order == l.order && m.rows == l.rows[id := row] && MarkIs(l.highWater, reading, m.highWater)
    && m.events == l.events + [Event(|l.events| + 1, id, kind, fromState, Some(row.state), detail, reading)]
  }

  // ------------------------------------------------------------------ create, approve

  /** `create` succeeds exactly for an acceptable actor and an unused id; the row is CREATED and has neither lease,
      expiry, approval nor dispatcher. */
  lemma {:induction false} CreatesExactlyWhen(l: Ledger, u: Unicode, id: string, runId: string, actor: Argument,
                                              toolId: string, operation: string, scope: string, clock: Clock)
    ensures var (m, reply) := Create(l, u, id, runId, actor, toolId, operation, scope, clock);
            var who := NormalizePrincipal(u, actor);
            && (reply.Ok? <==> who.Ok? && id !in l.rows)
            && (reply.Ok? ==>
                  && reply.value == id && m.order == l.order + [id]
                  && m.rows == l.rows[id := Row(runId, who.value, toolId, operation, scope, CREATED, None, None, None,
                                                None, clock(0))]
                  && MarkIs(l.highWater, clock(1), m.highWater)
                  && m.events == l.events + [Event(|l.events| + 1, id, CreatedEvent, None, Some(CREATED),
                                                   Creation(toolId, operation), clock(1))])
            && (reply.Err? ==> m == l)
  {
  }

  predicate LeaseIsUnused(l: Ledger, lease: string) {
    forall id | id in l.rows :: l.rows[id].leaseId != Some(lease)
  }

  /** `approve` succeeds exactly on a CREATED execution, by another principal than its actor, for the digest it was
      created with and a finite period above zero; the lease then expires that long after the first reading. */
  lemma {:induction false} ApprovesExactlyWhen(l: Ledger, u: Unicode, id: string, approver: Argument, scope: string,
                                               ttl: Ttl, lease: string, clock: Clock)
    requires Table(l) && LeaseIsUnused(l, lease)
    ensures var (m, reply) := Approve(l, u, id, approver, scope, ttl, lease, clock);
            var who := NormalizePrincipal(u, approver);
            && (reply.Ok? <==>
                  && who.Ok? && ttl.Finite? && 0.0 < ttl.seconds && id in l.rows && l.rows[id].state == CREATED
                  && l.rows[id].scopeDigest == scope && l.rows[id].actorId != who.value)
            && (reply.Ok? ==>
                  var expiry := clock(0) + ttl.seconds;
                  && reply.value == lease
                  && Wrote(l, m, id, l.rows[id].(state := APPROVED, leaseId := Some(lease), expiresAt := Some(expiry),
                                                 approvedAt := Some(clock(1))),
                           ApprovedEvent, Some(CREATED), Approval(who.value, lease, expiry), clock(2)))
            && (reply.Err? ==> m == l)
  {
    FindsTheLease(l.rows, l.order, lease);
  }

  /** What is said of a refused `approve`, in the order in which it is looked at. */
  lemma {:induction false} ApprovalRefusedBecause(l: Ledger, u: Unicode, id: string, approver: Argument, scope: string,
                                                  ttl: Ttl, lease: string, clock: Clock)
    requires Table(l) && LeaseIsUnused(l, lease) && NormalizePrincipal(u, approver).Ok? && id in l.rows
    requires ttl.Finite? && 0.0 < ttl.seconds
    ensures var reply := Approve(l, u, id, approver, scope, ttl, lease, clock).1;
            var row := l.rows[id];
            && (reply == Err(WrongState) <==> row.state != CREATED)
            && (reply == Err(ScopeMismatch) <==> row.state == CREATED && row.scopeDigest != scope)
            && (reply == Err(SelfApproval) <==>
                  row.state == CREATED && row.scopeDigest == scope
                  && row.actorId == NormalizePrincipal(u, approver).value)
  {
    FindsTheLease(l.rows, l.order, lease);
  }

  /** Every refusal for one of these three reasons is on the record, with the state it met, the reason and the
      principal refused, and changes nothing else; other errors leave no trace at all. */
  lemma {:induction false} RefusedApprovalIsLogged(l: Ledger, u: Unicode, id: string, approver: Argument, scope: string,
                                                   ttl: Ttl, lease: string, clock: Clock)
    requires Table(l) && LeaseIsUnused(l, lease)
    requires Approve(l, u, id, approver, scope, ttl, lease, clock).1.Err?
    ensures var reason := Approve(l, u, id, approver, scope, ttl, lease, clock).1.error;
            var m := E.AfterApproval(l, u, id, approver, scope, ttl, lease, clock);
            if reason == WrongState || reason == ScopeMismatch || reason == SelfApproval
            then id in l.rows && NormalizePrincipal(u, approver).Ok?
                 && LoggedOnly(l, m, id, ApproveRefused, Some(l.rows[id].state), None,
                               Refusal(reason, NormalizePrincipal(u, approver).value), clock(1))
            else m == l
  {
    ApprovesExactlyWhen(l, u, id, approver, scope, ttl, lease, clock);
  }

  // ------------------------------------------------------------------ claim

  /** What becomes of a claim on the lease of this execution. A lease that is not of an approved execution, or for
      another digest, or at a reading before the mark, is refused and the refusal logged; past the expiry the
      execution expires; otherwise it is dispatched. */
  lemma {:induction false} ClaimEndsExactly(l: Ledger, id: string, dispatcher: string, lease: string, scope: string,
                                            clock: Clock)
    requires Table(l) && id in l.rows && l.rows[id].leaseId == Some(lease)
    ensures var (m, reply) := ClaimLease(l, dispatcher, lease, scope, clock);
            var row, now := l.rows[id], clock(0);
            if row.state != APPROVED then
              reply == None
              && LoggedOnly(l, m, id, ClaimRefused, Some(row.state), None, ClaimRefusal(LeaseConsumed), now)
            else if row.scopeDigest != scope then
              reply == None
              && LoggedOnly(l, m, id, ClaimRefused, Some(APPROVED), None, ClaimRefusal(WrongScope), now)
            else
              var seen := Observe(l, now);
              && MarkIs(l.highWater, now, seen.highWater)
              && if l.highWater.Some? && now < l.highWater.value then
                   reply == None
                   && LoggedOnly(seen, m, id, ClaimRefused, Some(APPROVED), None,
                                 ClaimRefusal(ClockMovedBackwards(l.highWater.value, now)), clock(1))
                 else if row.expiresAt.Some? && row.expiresAt.value < now then
                   reply == None
                   && Wrote(seen, m, id, row.(state := EXPIRED), ClaimRefused, Some(APPROVED),
                            ClaimRefusal(LeaseExpired), clock(1))
                 else
                   reply == Some(id)
                   && Wrote(seen, m, id, row.(state := DISPATCHING, dispatcherId := Some(dispatcher)), LeaseClaimed,
                            Some(APPROVED), Claim(lease, dispatcher), clock(1))
  {
    LeaseFindsItsRow(l, id, lease);
  }

  /** A lease nobody was issued does nothing. */
  lemma {:induction false} UnknownLeaseDoesNothing(l: Ledger, dispatcher: string, lease: string, scope: string,
                                                   clock: Clock)
    requires Table(l) && LeaseIsUnused(l, lease)
    ensures ClaimLease(l, dispatcher, lease, scope, clock) == (l, None)
  {
    FindsTheLease(l.rows, l.order, lease);
  }

  // ------------------------------------------------------------------ revoke

  /** `revoke` succeeds exactly on an execution that is CREATED or APPROVED. The event says it left APPROVED. */
  lemma {:induction false} RevokesExactlyWhen(l: Ledger, u: Unicode, id: string, revoker: Argument, reason: string,
                                              clock: Clock)
    requires NormalizePrincipal(u, revoker).Ok?
    ensures var (m, reply) := Revoke(l, u, id, revoker, reason, clock);
            && reply.Ok?
            && (reply.value <==> id in l.rows && (l.rows[id].state == CREATED || l.rows[id].state == APPROVED))
            && (reply.value ==>
                  Wrote(l, m, id, l.rows[id].(state := REVOKED), RevokedEvent, Some(APPROVED),
                        Revocation(NormalizePrincipal(u, revoker).value, reason), clock(0)))
            && (!reply.value ==> m == l)
  {
  }

  /** In every reachable ledger an approved lease that somebody revokes, whoever that is, is never claimed again:
      the execution is REVOKED in every continuation. */
  lemma {:induction false} RevokedLeaseIsNeverClaimed(l: Ledger, u: Unicode, id: string, lease: string,
                                                      revoker: Argument, reason: string, clock: Clock,
                                                      ops: seq<(Op, Clock)>, dispatcher: string, scope: string,
                                                      claiming: Clock)
    requires Reachable(u, l) && id in l.rows && l.rows[id].state == APPROVED && l.rows[id].leaseId == Some(lease)
    requires NormalizePrincipal(u, revoker).Ok?
    ensures var (m, reply) := Revoke(l, u, id, revoker, reason, clock);
            var n := Run(m, u, ops);
            && reply == Ok(true) && id in n.rows && n.rows[id].state == REVOKED
            && ClaimLease(n, dispatcher, lease, scope, claiming).1 == None
  {
    RevokesExactlyWhen(l, u, id, revoker, reason, clock);
    RevocationIsFinal(l, u, id, revoker, reason, clock, ops, dispatcher, lease, scope, claiming);
    ReachableIsSound(u, l);
    RevokeKeepsSound(l, u, id, revoker, reason, clock);
    var m := Revoke(l, u, id, revoker, reason, clock).0;
    RunEvolves(m, u, ops);
    RevokedLeaseIsDead(m, Run(m, u, ops), id, lease, dispatcher, scope, claiming);
  }

  lemma {:induction false} RevokedLeaseIsDead(m: Ledger, n: Ledger, id: string, lease: string, dispatcher: string,
                                              scope: string, clock: Clock)
    requires Table(n) && id in m.rows && m.rows[id].leaseId == Some(lease) && m.rows[id].state == REVOKED
    requires id in n.rows && RowEvolves(m.rows[id], n.rows[id])
    ensures ClaimLease(n, dispatcher, lease, scope, clock).1 == None
  {
    ClaimEndsExactly(n, id, dispatcher, lease, scope, clock);
  }

  // ------------------------------------------------------------------ outcomes

  /** An outcome is recorded exactly on a DISPATCHING execution, as SUCCEEDED, FAILED or UNKNOWN, with evidence that
      serialises. */
  lemma {:induction false} OutcomeRecordedExactlyWhen(l: Ledger, id: string, state: State, evidence: Evidence,
                                                      clock: Clock)
    ensures var (m, reply) := RecordOutcome(l, id, state, evidence, clock);
            && (reply.Ok? <==>
                  && (state == SUCCEEDED || state == FAILED || state == UNKNOWN)
                  && id in l.rows && l.rows[id].state == DISPATCHING && evidence.Fields?)
            && (reply.Ok? ==>
                  Wrote(l, m, id, l.rows[id].(state := state), OutcomeEvent, Some(DISPATCHING), Report(evidence.fields),
                        clock(0)))
            && (reply.Err? ==> m == l)
  {
  }

  /** A reconciliation resolves exactly an UNKNOWN execution, to SUCCEEDED, FAILED or PERMANENTLY_UNRESOLVED, by
      another principal than its actor, with evidence that serialises. The evidence may overwrite the reconciler. */
  lemma {:induction false} ReconcilesExactlyWhen(l: Ledger, u: Unicode, id: string, state: State, reconciler: Argument,
                                                 evidence: Evidence, clock: Clock)
    ensures var (m, reply) := Reconcile(l, u, id, state, reconciler, evidence, clock);
            var who := NormalizePrincipal(u, reconciler);
            && (reply.Ok? <==>
                  && who.Ok? && (state == SUCCEEDED || state == FAILED || state == PERMANENTLY_UNRESOLVED)
                  && id in l.rows && l.rows[id].state == UNKNOWN && l.rows[id].actorId != who.value && evidence.Fields?)
            && (reply.Ok? ==>
                  Wrote(l, m, id, l.rows[id].(state := state), ReconciledEvent, Some(UNKNOWN),
                        Report(map["reconciler_id" := who.value] + evidence.fields), clock(0)))
            && (reply.Err? ==> m == l)
  {
  }

  /** A reconciliation refused for its state or its principal is on the record. */
  lemma {:induction false} RefusedReconciliationIsLogged(l: Ledger, u: Unicode, id: string, state: State,
                                                         reconciler: Argument, evidence: Evidence, clock: Clock)
    requires NormalizePrincipal(u, reconciler).Ok? && id in l.rows
    requires state == SUCCEEDED || state == FAILED || state == PERMANENTLY_UNRESOLVED
    ensures var reply := Reconcile(l, u, id, state, reconciler, evidence, clock).1;
            var m := E.AfterReconciliation(l, u, id, state, reconciler, evidence, clock);
            var who, row := NormalizePrincipal(u, reconciler).value, l.rows[id];
            && (row.state != UNKNOWN ==>
                  && reply == Err(WrongState)
                  && LoggedOnly(l, m, id, ReconcileRefused, Some(row.state), None, Refusal(WrongState, who), clock(0)))
            && (row.state == UNKNOWN && row.actorId == who ==>
                  && reply == Err(SelfReconciliation)
                  && LoggedOnly(l, m, id, ReconcileRefused, Some(UNKNOWN), None, Refusal(SelfReconciliation, who),
                                clock(0)))
  {
  }

  // ------------------------------------------------------------------ runs

  /** The steps of a run are these transactions. */
  lemma {:induction false} StepsAreTransactions(l: Ledger, u: Unicode, op: Op, clock: Clock)
    ensures op.CreateOp? ==>
              Apply(l, u, op, clock)
                == Create(l, u, op.newId, op.runId, op.actor, op.toolId, op.operation, op.scope, clock).0
    ensures op.ApproveOp? ==>
              Apply(l, u, op, clock) == Approve(l, u, op.id, op.approver, op.scope, op.ttl, op.lease, clock).0
    ensures op.RefusalOp? ==>
              Apply(l, u, op, clock) == RecordRefusal(l, op.id, op.kind, op.fromState, op.detail, clock(0))
    ensures op.ClaimOp? ==> Apply(l, u, op, clock) == ClaimLease(l, op.dispatcher, op.lease, op.scope, clock).0
    ensures op.RevokeOp? ==> Apply(l, u, op, clock) == Revoke(l, u, op.id, op.revoker, op.reason, clock).0
    ensures op.OutcomeOp? ==> Apply(l, u, op, clock) == RecordOutcome(l, op.id, op.state, op.evidence, clock).0
    ensures op.ReconcileOp? ==>
              Apply(l, u, op, clock) == Reconcile(l, u, op.id, op.state, op.reconciler, op.evidence, clock).0
    ensures op.RecoverOp? ==> Apply(l, u, op, clock) == RecoverInterrupted(l, op.dispatcher, op.all, clock).0
  {
  }

  // ------------------------------------------------------------------ recovery, and where it all ends

  /** A scoped sweep takes the DISPATCHING executions of this dispatcher, an unscoped one all of them; they become
      UNKNOWN, and nothing else in any row changes. */
  lemma {:induction false} RecoversExactly(l: Ledger, dispatcher: string, all: bool, clock: Clock, id: string)
    requires Table(l) && id in l.rows
    ensures var (m, ids) := RecoverInterrupted(l, dispatcher, all, clock);
            && (id in ids <==> l.rows[id].state == DISPATCHING && (all || l.rows[id].dispatcherId == Some(dispatcher)))
            && id in m.rows && m.rows[id] == if id in ids then l.rows[id].(state := UNKNOWN) else l.rows[id]
  {
    RecoveryIsExact(l, dispatcher, all, clock);
  }

  /** The states no transition leads out of are exactly the five terminal ones. */
  lemma {:induction false} TerminalExactlyWhen(s: State)
    ensures Terminal(s) <==> forall t :: !Edge(s, t)
    ensures Terminal(s)
       <==> s == SUCCEEDED || s == FAILED || s == PERMANENTLY_UNRESOLVED || s == REVOKED || s == EXPIRED
  {
    if s == CREATED { assert Edge(s, APPROVED); }
    if s == APPROVED { assert Edge(s, REVOKED); }
    if s == DISPATCHING { assert Edge(s, UNKNOWN); }
    if s == UNKNOWN { assert Edge(s, FAILED); }
  }
}
