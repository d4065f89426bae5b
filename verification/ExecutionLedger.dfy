/** The ledger as core/ledger.py runs it: one shared database whose tables are updated in place,
    and any number of ExecutionLedger instances over it, one for each dispatcher.

    Every method states its effect outright as the transaction of module Ledger it commits; a
    transaction that raises restores the tables it found. */
module ExecutionLedger {
  import opened Wrappers
  import opened Principals
  import L = Ledger
  import opened History
  import opened Evolution

  /** The tables: executions (with their scan order), events and clock_state. */
  class Database {
    var order: seq<string>
    var rows: map<string, L.Row>
    var events: seq<L.Event>
    var highWater: Option<real>

    constructor ()
      ensures State() == L.EMPTY
    {
      order, rows, events, highWater := [], map[], [], None;
    }

    function State(): L.Ledger
      reads this
    {
      L.Ledger(order, rows, events, highWater)
    }

    /** ROLLBACK to the state at BEGIN IMMEDIATE. */
    method Rollback(begun: L.Ledger)
      modifies this
      ensures State() == begun
    {
      order, rows, events, highWater := begun.order, begun.rows, begun.events, begun.highWater;
    }

    /** `_observe_clock`: returns the mark as it was, and raises it if the reading is ahead. */
    method ObserveClock(now: real) returns (previous: Option<real>)
      modifies this`highWater
      ensures previous == old(highWater)
      ensures State() == L.Observe(old(State()), now)
    {
      previous := highWater;
      if previous.None? || now > previous.value {
        highWater := Some(now);
      }
    }

    /** `_append_event`: observes the clock, then inserts; a detail that does not serialise raises
        after the clock was observed. */
    method AppendEvent(id: string, kind: L.Kind, fromState: Option<L.State>, toState: Option<L.State>,
                       detail: Option<L.Detail>, now: real) returns (inserted: bool)
      modifies this`highWater, this`events
      ensures inserted == detail.Some?
      ensures inserted ==> State() == L.Append(old(State()), id, kind, fromState, toState, detail.value, now)
      ensures !inserted ==> State() == L.Observe(old(State()), now)
    {
      var _ := ObserveClock(now);
      if detail.None? { return false; }
      events := events + [L.Event(|events| + 1, id, kind, fromState, toState, detail.value, now)];
      return true;
    }
  }

  lemma {:induction false} RecoverNext(l: L.Ledger, recovered: seq<string>, id: string, clock: L.Clock)
    ensures L.RecoverRows(l, recovered + [id], clock)
         == L.RecoverOne(L.RecoverRows(l, recovered, clock), id, clock(|recovered|))
  {
    assert (recovered + [id])[..|recovered|] == recovered;
  }

  function Rendered(evidence: L.Evidence): Option<L.Detail> {
    match evidence
    case Fields(fields) => Some(L.Report(fields))
    case Unserializable => None
  }

  class ExecutionLedger {
    const db: Database
    const dispatcherId: string
    const unicode: Unicode

    constructor (db: Database, dispatcherId: string, unicode: Unicode)
      ensures this.db == db && this.dispatcherId == dispatcherId && this.unicode == unicode
    {
      this.db, this.dispatcherId, this.unicode := db, dispatcherId, unicode;
    }

    method Create(runId: string, actor: Argument, toolId: string, operation: string, scope: string,
                  newId: string, clock: L.Clock) returns (reply: Result<string, L.Error>)
      modifies db
      ensures (db.State(), reply)
              == L.Create(old(db.State()), unicode, newId, runId, actor, toolId, operation, scope, clock)
    {
      var actorId := NormalizePrincipal(unicode, actor);
      if actorId.Err? { return Err(L.BadPrincipal(actorId.error)); }
      // BEGIN IMMEDIATE; the primary key refuses an id that is already there
      if newId in db.rows { return Err(L.IdCollision); }
      db.order := db.order + [newId];
      db.rows := db.rows[newId := L.Row(runId, actorId.value, toolId, operation, scope, L.CREATED,
                                        None, None, None, None, clock(0))];
      var _ := db.AppendEvent(newId, L.CreatedEvent, None, Some(L.CREATED),
                              Some(L.Creation(toolId, operation)), clock(1));
      return Ok(newId);
    }

    /** A refusal is recorded in a second transaction, with the state the first one read. */
    method RecordRefusal(id: string, kind: L.Kind, fromState: L.State, detail: L.Detail, now: real)
      requires kind.ApproveRefused? || kind.ReconcileRefused?
      modifies db
      ensures db.State() == L.RecordRefusal(old(db.State()), id, kind, fromState, detail, now)
    {
      if id in db.rows {
        var _ := db.AppendEvent(id, kind, Some(fromState), None, Some(detail), now);
      }
    }

    method Approve(id: string, approver: Argument, scope: string, ttl: L.Ttl, newLease: string,
                   clock: L.Clock) returns (reply: Result<string, L.Error>)
      modifies db
      ensures reply == L.Approve(old(db.State()), unicode, id, approver, scope, ttl, newLease, clock).1
      ensures db.State() == AfterApproval(old(db.State()), unicode, id, approver, scope, ttl, newLease, clock)
    {
      var approverId := NormalizePrincipal(unicode, approver);
      if approverId.Err? { return Err(L.BadPrincipal(approverId.error)); }
      if !ttl.Finite? || ttl.seconds <= 0.0 { return Err(L.BadTtl); }
      var expiresAt := clock(0) + ttl.seconds;
      // BEGIN IMMEDIATE
      if id !in db.rows { return Err(L.UnknownExecution); }
      var row := db.rows[id];
      var refusal := L.ApprovalRefusal(row, approverId.value, scope);
      if refusal.None? {
        if L.RowByLease(db.rows, db.order, newLease).Some? { return Err(L.IdCollision); }
        db.rows := db.rows[id := row.(state := L.APPROVED, leaseId := Some(newLease), expiresAt := Some(expiresAt),
                                      approvedAt := Some(clock(1)))];
        var _ := db.AppendEvent(id, L.ApprovedEvent, Some(L.CREATED), Some(L.APPROVED),
                                Some(L.Approval(approverId.value, newLease, expiresAt)), clock(2));
        return Ok(newLease);
      }
      RecordRefusal(id, L.ApproveRefused, row.state, L.Refusal(refusal.value, approverId.value), clock(1));
      return Err(refusal.value);
    }

    method ClaimLease(lease: string, scope: string, clock: L.Clock) returns (reply: Option<string>)
      modifies db
      ensures (db.State(), reply) == L.ClaimLease(old(db.State()), dispatcherId, lease, scope, clock)
    {
      // BEGIN IMMEDIATE
      var found := L.RowByLease(db.rows, db.order, lease);
      if found.None? || found.value !in db.rows { return None; }
      var id := found.value;
      var row := db.rows[id];
      if row.state != L.APPROVED {
        var _ := db.AppendEvent(id, L.ClaimRefused, Some(row.state), None,
                                Some(L.ClaimRefusal(L.LeaseConsumed)), clock(0));
        return None;
      }
      if row.scopeDigest != scope {
        var _ := db.AppendEvent(id, L.ClaimRefused, Some(row.state), None,
                                Some(L.ClaimRefusal(L.WrongScope)), clock(0));
        return None;
      }
      var now := clock(0);
      var highWater := db.ObserveClock(now);
      if highWater.Some? && now < highWater.value {
        var _ := db.AppendEvent(id, L.ClaimRefused, Some(row.state), None,
                                Some(L.ClaimRefusal(L.ClockMovedBackwards(highWater.value, now))), clock(1));
        return None;
      }
      if row.expiresAt.Some? && now > row.expiresAt.value {
        db.rows := db.rows[id := row.(state := L.EXPIRED)];
        var _ := db.AppendEvent(id, L.ClaimRefused, Some(L.APPROVED), Some(L.EXPIRED),
                                Some(L.ClaimRefusal(L.LeaseExpired)), clock(1));
        return None;
      }
      db.rows := db.rows[id := row.(state := L.DISPATCHING, dispatcherId := Some(dispatcherId))];
      var _ := db.AppendEvent(id, L.LeaseClaimed, Some(L.APPROVED), Some(L.DISPATCHING),
                              Some(L.Claim(lease, dispatcherId)), clock(1));
      return Some(id);
    }

    method Revoke(id: string, revoker: Argument, reason: string, clock: L.Clock)
      returns (reply: Result<bool, L.Error>)
      modifies db
      ensures (db.State(), reply) == L.Revoke(old(db.State()), unicode, id, revoker, reason, clock)
    {
      var revokerId := NormalizePrincipal(unicode, revoker);
      if revokerId.Err? { return Err(L.BadPrincipal(revokerId.error)); }
      if id in db.rows && L.IsRevocable(db.rows[id].state) {
        db.rows := db.rows[id := db.rows[id].(state := L.REVOKED)];
        var _ := db.AppendEvent(id, L.RevokedEvent, Some(L.APPROVED), Some(L.REVOKED),
                                Some(L.Revocation(revokerId.value, reason)), clock(0));
        return Ok(true);
      }
      return Ok(false);
    }

    /** Evidence that does not serialise raises after the row was updated and the clock observed:
        the rollback leaves rows, log and mark as they were. */
    method RecordOutcome(id: string, state: L.State, evidence: L.Evidence, clock: L.Clock)
      returns (reply: Result<(), L.Error>)
      modifies db
      ensures (db.State(), reply) == L.RecordOutcome(old(db.State()), id, state, evidence, clock)
      ensures reply.Err? ==> db.State() == old(db.State())
    {
      if !L.IsOutcome(state) { return Err(L.IllegalState); }
      if id !in db.rows { return Err(L.UnknownExecution); }
      if db.rows[id].state != L.DISPATCHING { return Err(L.WrongState); }
      var written := WriteState(id, L.OutcomeEvent, L.DISPATCHING, state, Rendered(evidence), clock(0));
      return if written then Ok(()) else Err(L.NotSerializable);
    }

    /** One UPDATE of the state, and its event; rolled back if the detail does not serialise. */
    method WriteState(id: string, kind: L.Kind, fromState: L.State, state: L.State, detail: Option<L.Detail>, now: real)
      returns (written: bool)
      requires id in db.rows
      modifies db
      ensures written == detail.Some?
      ensures db.State() == if written then L.Move(old(db.State()), id, old(db.rows)[id].(state := state), kind,
                                                   fromState, detail.value, now)
                            else old(db.State())
    {
      var begun := db.State();
      db.rows := db.rows[id := db.rows[id].(state := state)];
      written := db.AppendEvent(id, kind, Some(fromState), Some(state), detail, now);
      if !written { db.Rollback(begun); }
    }

    method Reconcile(id: string, newState: L.State, reconciler: Argument, evidence: L.Evidence, clock: L.Clock)
      returns (reply: Result<(), L.Error>)
      modifies db
      ensures reply == L.Reconcile(old(db.State()), unicode, id, newState, reconciler, evidence, clock).1
      ensures db.State() == AfterReconciliation(old(db.State()), unicode, id, newState, reconciler, evidence, clock)
    {
      var reconcilerId := NormalizePrincipal(unicode, reconciler);
      if reconcilerId.Err? { return Err(L.BadPrincipal(reconcilerId.error)); }
      if !L.IsResolution(newState) { return Err(L.IllegalState); }
      if id !in db.rows { return Err(L.UnknownExecution); }
      var row := db.rows[id];
      if row.state == L.UNKNOWN && row.actorId != reconcilerId.value {
        var detail := match evidence
          case Fields(fields) => Some(L.Report(map["reconciler_id" := reconcilerId.value] + fields))
          case Unserializable => None;
        var written := WriteState(id, L.ReconciledEvent, L.UNKNOWN, newState, detail, clock(0));
        return if written then Ok(()) else Err(L.NotSerializable);
      }
      var refusal := if row.state != L.UNKNOWN then L.WrongState else L.SelfReconciliation;
      RecordRefusal(id, L.ReconcileRefused, row.state, L.Refusal(refusal, reconcilerId.value), clock(0));
      return Err(refusal);
    }

    method RecoverRow(id: string, now: real)
      requires id in db.rows
      modifies db
      ensures db.State() == L.RecoverOne(old(db.State()), id, now) && db.rows.Keys == old(db.rows).Keys
    {
      var _ := WriteState(id, L.RecoveredEvent, L.DISPATCHING, L.UNKNOWN, Some(L.Interruption), now);
    }

    method RecoverInterrupted(all: bool, clock: L.Clock) returns (recovered: seq<string>)
      requires History.Table(db.State())
      modifies db
      ensures (db.State(), recovered) == L.RecoverInterrupted(old(db.State()), dispatcherId, all, clock)
    {
      var ids := L.Interrupted(db.rows, db.order, dispatcherId, all);
      SelectedExactly(db.State(), dispatcherId, all);
      ghost var before := db.State();
      recovered := [];
      while |recovered| < |ids|
        invariant |recovered| <= |ids| && recovered == ids[..|recovered|]
        invariant db.State() == L.RecoverRows(before, recovered, clock)
        invariant db.rows.Keys == before.rows.Keys
      {
        var id := ids[|recovered|];
        assert id in ids;
        RecoverNext(before, recovered, id, clock);
        RecoverRow(id, clock(|recovered|));
        recovered := recovered + [id];
      }
      assert recovered == ids;
    }
  }

  /** Both transactions of `approve`, run one after the other. */
  function AfterApproval(l: L.Ledger, u: Unicode, id: string, approver: Argument, scope: string, ttl: L.Ttl,
                         lease: string, clock: L.Clock): L.Ledger
  {
    var (m, reply) := L.Approve(l, u, id, approver, scope, ttl, lease, clock);
    if id in l.rows && reply.Err?
       && (reply.error.WrongState? || reply.error.ScopeMismatch? || reply.error.SelfApproval?)
    then L.RecordRefusal(m, id, L.ApproveRefused, l.rows[id].state,
                         L.Refusal(reply.error, NormalizePrincipal(u, approver).value), clock(1))
    else m
  }

  /** Both transactions of `reconcile`, run one after the other. */
  function AfterReconciliation(l: L.Ledger, u: Unicode, id: string, newState: L.State, reconciler: Argument,
                               evidence: L.Evidence, clock: L.Clock): L.Ledger
  {
    var (m, reply) := L.Reconcile(l, u, id, newState, reconciler, evidence, clock);
    if id in l.rows && reply.Err? && (reply.error.WrongState? || reply.error.SelfReconciliation?)
    then L.RecordRefusal(m, id, L.ReconcileRefused, l.rows[id].state,
                         L.Refusal(reply.error, NormalizePrincipal(u, reconciler).value), clock(0))
    else m
  }
}
