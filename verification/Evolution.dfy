/** Theorems over whole runs of the ledger: what no continuation can undo. */
module Evolution {
  import opened Wrappers
  import opened Principals
  import opened Ledger
  import opened History

  // ------------------------------------------------------------------ the log is a complete record

  /** In every reachable ledger the log alone gives each execution's state: the recorded target
      states form a path of the state graph that ends there, with at most four transitions after
      creation and at most one claim; a claimed execution was created, approved and claimed in
      that order. */
  lemma {:induction false} LogIsACompleteRecord(u: Unicode, ops: seq<(Op, Clock)>, id: string)
    requires StableOnAscii(u)
    requires id in Run(EMPTY, u, ops).rows
    ensures var l := Run(EMPTY, u, ops);
            var path := Trace(l.events, id);
            && LegalPath(path) && |path| <= 5 && path[|path| - 1] == l.rows[id].state
            && Count(l.events, id, LeaseClaimed) == (if Dispatched(l.rows[id].state) then 1 else 0)
            && (Dispatched(l.rows[id].state) ==> ClaimedInOrder(l.events, id))
  {
    RunIsSound(u, ops);
    var l := Run(EMPTY, u, ops);
    assert RowSound(l, id);
    PathFacts(Trace(l.events, id));
    ClaimCount(l, id);
    if Dispatched(l.rows[id].state) {
      ClaimFollowsApproval(l, id);
    }
  }

  /** The events of the three steps that lead to a dispatch, in order. */
  ghost predicate ClaimedInOrder(events: seq<Event>, id: string) {
    exists i, j, k | 0 <= i < j < k < |events| ::
      Has(events[i], id, CreatedEvent) && Has(events[j], id, ApprovedEvent) && Has(events[k], id, LeaseClaimed)
  }

  predicate Has(e: Event, id: string, kind: Kind) {
    e.executionId == id && e.kind == kind
  }

  lemma {:induction false} ClaimCount(l: Ledger, id: string)
    requires Sound(l) && id in l.rows
    ensures Count(l.events, id, LeaseClaimed) == if Dispatched(l.rows[id].state) then 1 else 0
  {
    assert RowSound(l, id);
    forall i | 0 <= i < |l.events| ensures EventShape(l.events[i]) {
      assert EventSound(l.rows, l.events[i]);
    }
    ClaimsAreDispatches(l.events, id);
    PathFacts(Trace(l.events, id));
  }

  lemma {:induction false} DispatchedPathStart(path: seq<State>)
    requires LegalPath(path) && Dispatched(path[|path| - 1])
    ensures |path| >= 3 && path[0] == CREATED && path[1] == APPROVED && path[2] == DISPATCHING
  {
    PathFacts(path);
    var n := |path|;
    assert n > 1 ==> Edge(path[0], path[1]);
    assert n > 2 ==> Edge(path[1], path[2]);
    assert n > 3 ==> Edge(path[2], path[3]);
  }

  lemma {:induction false} LocatedBefore(events: seq<Event>, id: string, i: nat, j: nat)
    requires i <= |events| && j <= |events| && |Trace(events[..i], id)| < |Trace(events[..j], id)|
    ensures i < j
  {
    if j <= i { TraceGrows(events, id, j, i); }
  }

  lemma {:induction false} ClaimFollowsApproval(l: Ledger, id: string)
    requires Sound(l) && id in l.rows && Dispatched(l.rows[id].state)
    ensures ClaimedInOrder(l.events, id)
  {
    assert RowSound(l, id);
    DispatchedPathStart(Trace(l.events, id));
    var i := Locate(l.events, id, 0);
    var j := Locate(l.events, id, 1);
    var k := Locate(l.events, id, 2);
    LocatedBefore(l.events, id, i, j);
    LocatedBefore(l.events, id, j, k);
    assert EventSound(l.rows, l.events[i]) && EventSound(l.rows, l.events[j]) && EventSound(l.rows, l.events[k]);
    assert Has(l.events[i], id, CreatedEvent) && Has(l.events[j], id, ApprovedEvent)
        && Has(l.events[k], id, LeaseClaimed);
  }

  // ------------------------------------------------------------------ what every step keeps

  function Rank(s: State): nat {
    match s
    case CREATED => 0
    case APPROVED => 1
    case DISPATCHING => 2
    case UNKNOWN => 3
    case _ => 4
  }

  /** A row keeps its intent for ever, its lease once issued and its dispatcher once claimed; its state
      only advances, and a row whose state has the same rank has not changed at all. */
  ghost predicate RowEvolves(r: Row, s: Row) {
    && s.runId == r.runId && s.actorId == r.actorId && s.toolId == r.toolId && s.operation == r.operation
    && s.scopeDigest == r.scopeDigest && s.createdAt == r.createdAt
    && (r.leaseId.Some? ==> s.leaseId == r.leaseId && s.expiresAt == r.expiresAt)
    && (r.dispatcherId.Some? ==> s.dispatcherId == r.dispatcherId)
    && (Dispatched(r.state) ==> Dispatched(s.state))
    && Rank(r.state) <= Rank(s.state)
    && (Rank(r.state) == Rank(s.state) ==> s == r)
  }

  ghost predicate MarkRises(a: Option<real>, b: Option<real>) {
    a.Some? ==> b.Some? && a.value <= b.value
  }

  ghost predicate Evolves(l: Ledger, m: Ledger) {
    && l.events <= m.events
    && MarkRises(l.highWater, m.highWater)
    && (forall id | id in l.rows :: id in m.rows && RowEvolves(l.rows[id], m.rows[id]))
  }

  lemma {:induction false} EvolvesTransitive(l: Ledger, m: Ledger, n: Ledger)
    requires Evolves(l, m) && Evolves(m, n)
    ensures Evolves(l, n)
  {
    forall id | id in l.rows ensures id in n.rows && RowEvolves(l.rows[id], n.rows[id]) {
      assert RowEvolves(l.rows[id], m.rows[id]) && RowEvolves(m.rows[id], n.rows[id]);
    }
  }

  lemma {:induction false} AppendEvolves(l: Ledger, id: string, kind: Kind, from: Option<State>, to: Option<State>,
                                         detail: Detail, now: real)
    ensures Evolves(l, Append(l, id, kind, from, to, detail, now))
  {
  }

  lemma {:induction false} RewriteEvolves(l: Ledger, id: string, row: Row)
    requires id in l.rows && RowEvolves(l.rows[id], row)
    ensures Evolves(l, l.(rows := l.rows[id := row]))
  {
  }

  lemma {:induction false} MoveEvolves(l: Ledger, id: string, row: Row, kind: Kind, from: State, detail: Detail,
                                       now: real)
    requires id in l.rows && RowEvolves(l.rows[id], row)
    ensures Evolves(l, Move(l, id, row, kind, from, detail, now))
  {
    var mid := l.(rows := l.rows[id := row]);
    RewriteEvolves(l, id, row);
    AppendEvolves(mid, id, kind, Some(from), Some(row.state), detail, now);
    EvolvesTransitive(l, mid, Move(l, id, row, kind, from, detail, now));
  }

  lemma {:induction false} ConsumeEvolves(l: Ledger, id: string, dispatcher: string, lease: string, clock: Clock)
    requires id in l.rows && l.rows[id].state == APPROVED && RowShape(l.rows[id])
    ensures Evolves(l, ConsumeLease(l, id, dispatcher, lease, clock).0)
  {
    var now, row, seen := clock(0), l.rows[id], Observe(l, clock(0));
    assert Evolves(l, seen);
    if l.highWater.Some? && now < l.highWater.value {
      AppendEvolves(seen, id, ClaimRefused, Some(APPROVED), None,
                    ClaimRefusal(ClockMovedBackwards(l.highWater.value, now)), clock(1));
    } else if row.expiresAt.Some? && now > row.expiresAt.value {
      MoveEvolves(seen, id, row.(state := EXPIRED), ClaimRefused, APPROVED, ClaimRefusal(LeaseExpired), clock(1));
    } else {
      MoveEvolves(seen, id, row.(state := DISPATCHING, dispatcherId := Some(dispatcher)), LeaseClaimed, APPROVED,
                  Claim(lease, dispatcher), clock(1));
    }
    EvolvesTransitive(l, seen, ConsumeLease(l, id, dispatcher, lease, clock).0);
  }

  lemma {:induction false} RecoverEvolves(l: Ledger, ids: seq<string>, clock: Clock)
    requires Distinct(ids)
    requires forall id | id in ids :: id in l.rows && l.rows[id].state == DISPATCHING
    ensures Evolves(l, RecoverRows(l, ids, clock))
  {
    if ids != [] {
      var shorter, id := ids[..|ids| - 1], ids[|ids| - 1];
      LastIsNew(ids);
      RecoverEvolves(l, shorter, clock);
      RecoverRewrites(l, shorter, clock);
      var mid := RecoverRows(l, shorter, clock);
      MoveEvolves(mid, id, mid.rows[id].(state := UNKNOWN), RecoveredEvent, DISPATCHING, Interruption,
                  clock(|ids| - 1));
      EvolvesTransitive(l, mid, RecoverRows(l, ids, clock));
    }
  }

  /** The part of soundness the single steps need. */
  ghost predicate Shaped(l: Ledger) {
    Table(l) && forall id | id in l.rows :: RowShape(l.rows[id])
  }

  lemma {:induction false} SoundIsShaped(l: Ledger)
    requires Sound(l)
    ensures Shaped(l)
  {
    assert forall id | id in l.rows :: RowSound(l, id);
  }

  lemma {:induction false} ApproveEvolves(l: Ledger, u: Unicode, id: string, approver: Argument, scope: string,
                                          ttl: Ttl, lease: string, clock: Clock)
    requires Shaped(l)
    ensures Evolves(l, Approve(l, u, id, approver, scope, ttl, lease, clock).0)
  {
    var (m, reply) := Approve(l, u, id, approver, scope, ttl, lease, clock);
    if reply.Ok? {
      assert RowShape(l.rows[id]);
      MoveEvolves(l, id, m.rows[id], ApprovedEvent, CREATED, m.events[|l.events|].detail, clock(2));
    }
  }

  lemma {:induction false} CreateEvolves(l: Ledger, u: Unicode, id: string, runId: string, actor: Argument,
                                         toolId: string, operation: string, scope: string, clock: Clock)
    ensures Evolves(l, Create(l, u, id, runId, actor, toolId, operation, scope, clock).0)
  {
  }

  lemma {:induction false} ClaimEvolves(l: Ledger, dispatcher: string, lease: string, scope: string, clock: Clock)
    requires Shaped(l)
    ensures Evolves(l, ClaimLease(l, dispatcher, lease, scope, clock).0)
  {
    var found := RowByLease(l.rows, l.order, lease);
    if found.Some? && found.value in l.rows {
      var id := found.value;
      assert RowShape(l.rows[id]);
      if l.rows[id].state == APPROVED && l.rows[id].scopeDigest == scope {
        ConsumeEvolves(l, id, dispatcher, lease, clock);
      }
    }
  }

  lemma {:induction false} SettleEvolves(l: Ledger, id: string, state: State, kind: Kind, from: State, detail: Detail,
                                         now: real)
    requires id in l.rows && Edge(l.rows[id].state, state) && state != APPROVED && state != DISPATCHING
    ensures Evolves(l, Move(l, id, l.rows[id].(state := state), kind, from, detail, now))
  {
    MoveEvolves(l, id, l.rows[id].(state := state), kind, from, detail, now);
  }

  lemma {:induction false} RevokeEvolves(l: Ledger, u: Unicode, id: string, revoker: Argument, reason: string,
                                         clock: Clock)
    ensures Evolves(l, Revoke(l, u, id, revoker, reason, clock).0)
  {
    var (m, reply) := Revoke(l, u, id, revoker, reason, clock);
    if reply == Ok(true) {
      SettleEvolves(l, id, REVOKED, RevokedEvent, APPROVED, m.events[|l.events|].detail, clock(0));
    }
  }

  lemma {:induction false} OutcomeEvolves(l: Ledger, id: string, state: State, evidence: Evidence, clock: Clock)
    ensures Evolves(l, RecordOutcome(l, id, state, evidence, clock).0)
  {
    var (m, reply) := RecordOutcome(l, id, state, evidence, clock);
    if reply.Ok? {
      SettleEvolves(l, id, state, OutcomeEvent, DISPATCHING, m.events[|l.events|].detail, clock(0));
    }
  }

  lemma {:induction false} ReconcileEvolves(l: Ledger, u: Unicode, id: string, state: State, reconciler: Argument,
                                            evidence: Evidence, clock: Clock)
    ensures Evolves(l, Reconcile(l, u, id, state, reconciler, evidence, clock).0)
  {
    var (m, reply) := Reconcile(l, u, id, state, reconciler, evidence, clock);
    if reply.Ok? {
      SettleEvolves(l, id, state, ReconciledEvent, UNKNOWN, m.events[|l.events|].detail, clock(0));
    }
  }

  lemma {:induction false} SweepEvolves(l: Ledger, dispatcher: string, all: bool, clock: Clock)
    requires Table(l)
    ensures Evolves(l, RecoverInterrupted(l, dispatcher, all, clock).0)
  {
    InterruptedIsDistinct(l.rows, l.order, dispatcher, all);
    RecoverEvolves(l, Interrupted(l.rows, l.order, dispatcher, all), clock);
  }

  lemma {:induction false} ApplyEvolves(l: Ledger, u: Unicode, op: Op, clock: Clock)
    requires Shaped(l)
    ensures Evolves(l, Apply(l, u, op, clock))
  {
    match op
    case CreateOp(id, runId, actor, toolId, operation, scope) =>
      CreateEvolves(l, u, id, runId, actor, toolId, operation, scope, clock);
    case ApproveOp(id, approver, scope, ttl, lease) => ApproveEvolves(l, u, id, approver, scope, ttl, lease, clock);
    case RefusalOp(id, kind, fromState, detail) =>
      AppendEvolves(l, id, kind, Some(fromState), None, detail, clock(0));
    case ClaimOp(dispatcher, lease, scope) => ClaimEvolves(l, dispatcher, lease, scope, clock);
    case RevokeOp(id, revoker, reason) => RevokeEvolves(l, u, id, revoker, reason, clock);
    case OutcomeOp(id, state, evidence) => OutcomeEvolves(l, id, state, evidence, clock);
    case ReconcileOp(id, state, reconciler, evidence) =>
      ReconcileEvolves(l, u, id, state, reconciler, evidence, clock);
    case RecoverOp(dispatcher, all) => SweepEvolves(l, dispatcher, all, clock);
  }

  /** Every continuation: the log is only appended to, the mark never falls, rows only advance. */
  lemma {:induction false} RunEvolves(l: Ledger, u: Unicode, ops: seq<(Op, Clock)>)
    requires StableOnAscii(u) && Sound(l)
    ensures Sound(Run(l, u, ops)) && Evolves(l, Run(l, u, ops))
  {
    if ops != [] {
      var shorter, last := ops[..|ops| - 1], ops[|ops| - 1];
      RunEvolves(l, u, shorter);
      var mid := Run(l, u, shorter);
      ApplyKeepsSound(mid, u, last.0, last.1);
      SoundIsShaped(mid);
      ApplyEvolves(mid, u, last.0, last.1);
      EvolvesTransitive(l, mid, Run(l, u, ops));
    }
  }

  /** A ledger some run of transactions leads to. */
  ghost predicate Reachable(u: Unicode, l: Ledger) {
    StableOnAscii(u) && exists ops :: l == Run(EMPTY, u, ops)
  }

  lemma {:induction false} ReachableIsSound(u: Unicode, l: Ledger)
    requires Reachable(u, l)
    ensures Sound(l)
  {
    var ops :| l == Run(EMPTY, u, ops);
    RunIsSound(u, ops);
  }

  lemma {:induction false} ReachableEvolves(u: Unicode, l: Ledger, ops: seq<(Op, Clock)>)
    requires Reachable(u, l)
    ensures Evolves(l, Run(l, u, ops))
  {
    ReachableIsSound(u, l);
    RunEvolves(l, u, ops);
  }

  /** Terminal states are absorbing: nothing in such a row ever changes again. */
  lemma {:induction false} TerminalIsAbsorbing(l: Ledger, u: Unicode, ops: seq<(Op, Clock)>, id: string)
    requires Reachable(u, l)
    requires id in l.rows && Terminal(l.rows[id].state)
    ensures id in Run(l, u, ops).rows && Run(l, u, ops).rows[id] == l.rows[id]
  {
    ReachableEvolves(u, l, ops);
    assert RowEvolves(l.rows[id], Run(l, u, ops).rows[id]);
  }

  // ------------------------------------------------------------------ leases

  lemma {:induction false} RevokedRow(l: Ledger, u: Unicode, id: string, revoker: Argument, reason: string,
                                      clock: Clock)
    requires Sound(l) && Revoke(l, u, id, revoker, reason, clock).1 == Ok(true)
    ensures var m := Revoke(l, u, id, revoker, reason, clock).0;
            Sound(m) && id in m.rows && m.rows[id].state == REVOKED
  {
    RevokeKeepsSound(l, u, id, revoker, reason, clock);
  }

  lemma {:induction false} RevokedStays(m: Ledger, u: Unicode, ops: seq<(Op, Clock)>, id: string)
    requires StableOnAscii(u) && Sound(m) && id in m.rows && m.rows[id].state == REVOKED
    ensures Table(Run(m, u, ops)) && id in Run(m, u, ops).rows && Run(m, u, ops).rows[id].state == REVOKED
  {
    RunEvolves(m, u, ops);
    assert RowEvolves(m.rows[id], Run(m, u, ops).rows[id]);
  }

  /** A revocation that succeeds is final: the execution stays REVOKED in every continuation, and no
      claim ever returns it. */
  lemma {:induction false} RevocationIsFinal(l: Ledger, u: Unicode, id: string, revoker: Argument, reason: string,
                                             clock: Clock, ops: seq<(Op, Clock)>, dispatcher: string, lease: string,
                                             scope: string, claiming: Clock)
    requires Reachable(u, l) && Revoke(l, u, id, revoker, reason, clock).1 == Ok(true)
    ensures var m := Run(Revoke(l, u, id, revoker, reason, clock).0, u, ops);
            && id in m.rows && m.rows[id].state == REVOKED
            && ClaimLease(m, dispatcher, lease, scope, claiming).1 != Some(id)
  {
    ReachableIsSound(u, l);
    RevokedRow(l, u, id, revoker, reason, clock);
    RevokedStays(Revoke(l, u, id, revoker, reason, clock).0, u, ops, id);
    ClaimSucceedsExactlyWhen(Run(Revoke(l, u, id, revoker, reason, clock).0, u, ops), id, dispatcher, lease, scope,
                             claiming);
  }

  lemma {:induction false} LeaseFindsItsRow(l: Ledger, id: string, lease: string)
    requires Table(l) && id in l.rows && l.rows[id].leaseId == Some(lease)
    ensures RowByLease(l.rows, l.order, lease) == Some(id)
  {
    FindsTheLease(l.rows, l.order, lease);
    assert Table(l);
  }

  /** Exactly when a claim succeeds: the lease is of an approved execution with the presented scope,
      and the reading lies between the mark and the expiry. */
  ghost predicate Claimable(l: Ledger, id: string, lease: string, scope: string, now: real) {
    && id in l.rows && l.rows[id].leaseId == Some(lease)
    && l.rows[id].state == APPROVED && l.rows[id].scopeDigest == scope
    && (l.highWater.Some? ==> l.highWater.value <= now)
    && (l.rows[id].expiresAt.Some? ==> now <= l.rows[id].expiresAt.value)
  }

  /** A successful claim moves only the row it names, and its reading is committed to the mark. */
  lemma {:induction false} ClaimSucceedsExactlyWhen(l: Ledger, id: string, dispatcher: string, lease: string,
                                                    scope: string, clock: Clock)
    requires Table(l)
    ensures var (m, reply) := ClaimLease(l, dispatcher, lease, scope, clock);
            && (reply == Some(id) <==> Claimable(l, id, lease, scope, clock(0)))
            && (reply == Some(id) ==>
                  && m.rows == l.rows[id := l.rows[id].(state := DISPATCHING, dispatcherId := Some(dispatcher))]
                  && m.order == l.order
                  && m.highWater.Some? && clock(0) <= m.highWater.value)
  {
    FindsTheLease(l.rows, l.order, lease);
    if id in l.rows && l.rows[id].leaseId == Some(lease) {
      LeaseFindsItsRow(l, id, lease);
    }
  }

  /** Once the mark or a reading in the log has passed a lease's expiry, no continuation whatever, under
      any clock behaviour, can claim it. Module Readings says what that leaves out. */
  lemma {:induction false} LapsedLeaseNeverRevives(l: Ledger, u: Unicode, ops: seq<(Op, Clock)>, id: string,
                                                   lease: string, dispatcher: string, scope: string, clock: Clock)
    requires Reachable(u, l)
    requires id in l.rows && l.rows[id].leaseId == Some(lease)
    requires ReadingsReached(l, l.rows[id].expiresAt)
    ensures ClaimLease(Run(l, u, ops), dispatcher, lease, scope, clock).1 == None
  {
    MarkBoundsReadings(u, l, l.rows[id].expiresAt);
    RunIsTable(u, l, ops);
    ReachableEvolves(u, l, ops);
    var m := Run(l, u, ops);
    assert RowEvolves(l.rows[id], m.rows[id]);
    var reply := ClaimLease(m, dispatcher, lease, scope, clock).1;
    if reply.Some? {
      ClaimSucceedsExactlyWhen(m, reply.value, dispatcher, lease, scope, clock);
    }
  }

  /** The mark, or a reading in the log, lies after the expiry. */
  ghost predicate ReadingsReached(l: Ledger, expiry: Option<real>) {
    expiry.Some?
    && (|| (l.highWater.Some? && expiry.value < l.highWater.value)
        || (exists i | 0 <= i < |l.events| :: expiry.value < l.events[i].recordedAt))
  }

  lemma {:induction false} MarkBoundsReadings(u: Unicode, l: Ledger, expiry: Option<real>)
    requires Reachable(u, l) && ReadingsReached(l, expiry)
    ensures l.highWater.Some? && expiry.value < l.highWater.value
  {
    ReachableIsSound(u, l);
    assert Clocked(l);
  }

  lemma {:induction false} RunIsTable(u: Unicode, l: Ledger, ops: seq<(Op, Clock)>)
    requires Reachable(u, l)
    ensures Table(l) && Table(Run(l, u, ops))
  {
    ReachableIsSound(u, l);
    RunEvolves(l, u, ops);
  }

  // ------------------------------------------------------------------ recovery

  /** A sweep reclassifies exactly the rows it selects, returns exactly their ids once each, and
      logs one event for each. */
  lemma {:induction false} RecoveryIsExact(l: Ledger, dispatcher: string, all: bool, clock: Clock)
    requires Table(l)
    ensures var (m, ids) := RecoverInterrupted(l, dispatcher, all, clock);
            && Distinct(ids) && (forall id :: id in ids <==> IsInterrupted(l.rows, id, dispatcher, all))
            && m.rows == Swept(l.rows, dispatcher, all)
            && m.order == l.order && LogsRecovered(l, m, ids)
  {
    var ids := Interrupted(l.rows, l.order, dispatcher, all);
    InterruptedIsDistinct(l.rows, l.order, dispatcher, all);
    SelectedExactly(l, dispatcher, all);
    RewrittenIsSwept(l.rows, ids, dispatcher, all);
    RecoverRewrites(l, ids, clock);
    RecoverLogs(l, ids, clock);
  }

  lemma {:induction false} SelectedExactly(l: Ledger, dispatcher: string, all: bool)
    requires Table(l)
    ensures forall id ::
              id in Interrupted(l.rows, l.order, dispatcher, all) <==> IsInterrupted(l.rows, id, dispatcher, all)
  {
  }

  lemma {:induction false} RewrittenIsSwept(rows: map<string, Row>, ids: seq<string>, dispatcher: string, all: bool)
    requires forall id :: id in ids <==> IsInterrupted(rows, id, dispatcher, all)
    ensures Rewritten(rows, ids) == Swept(rows, dispatcher, all)
  {
  }

  ghost function Swept(rows: map<string, Row>, dispatcher: string, all: bool): map<string, Row> {
    map id | id in rows ::
      if IsInterrupted(rows, id, dispatcher, all) then rows[id].(state := UNKNOWN) else rows[id]
  }

  /** The log grows by one recovery event for each id, in order. */
  ghost predicate LogsRecovered(l: Ledger, m: Ledger, ids: seq<string>) {
    && |m.events| == |l.events| + |ids| && l.events <= m.events
    && (forall k | 0 <= k < |ids| :: Has(m.events[|l.events| + k], ids[k], RecoveredEvent))
  }

  lemma {:induction false} OneMoreRecovered(l: Ledger, m: Ledger, ids: seq<string>, now: real)
    requires ids != [] && LogsRecovered(l, m, ids[..|ids| - 1]) && ids[|ids| - 1] in m.rows
    ensures LogsRecovered(l, RecoverOne(m, ids[|ids| - 1], now), ids)
  {
    var n := |ids| - 1;
    var after := RecoverOne(m, ids[n], now);
    assert |after.events| == |m.events| + 1 && m.events <= after.events;
    forall k | 0 <= k < |ids| ensures Has(after.events[|l.events| + k], ids[k], RecoveredEvent) {
      if k < n { assert ids[..n][k] == ids[k] && after.events[|l.events| + k] == m.events[|l.events| + k]; }
    }
  }

  lemma {:induction false} RecoverLogs(l: Ledger, ids: seq<string>, clock: Clock)
    requires forall id | id in ids :: id in l.rows
    ensures LogsRecovered(l, RecoverRows(l, ids, clock), ids)
  {
    if ids != [] {
      var shorter, id := ids[..|ids| - 1], ids[|ids| - 1];
      assert forall x | x in shorter :: x in ids;
      assert id in ids;
      RecoverLogs(l, shorter, clock);
      RecoverRewrites(l, shorter, clock);
      OneMoreRecovered(l, RecoverRows(l, shorter, clock), ids, clock(|ids| - 1));
    }
  }

  /** Another party's step: anything but settling `id`, or sweeping as `dispatcher` or as everybody. */
  predicate Foreign(op: Op, id: string, dispatcher: string) {
    match op
    case OutcomeOp(other, _, _) => other != id
    case RecoverOp(other, all) => other != dispatcher && !all
    case _ => true
  }

  lemma {:induction false} ApproveTouchesOnlyCreated(l: Ledger, u: Unicode, id: string, approver: Argument,
                                                     scope: string, ttl: Ttl, lease: string, clock: Clock,
                                                     other: string)
    requires other in l.rows && l.rows[other].state == DISPATCHING
    ensures var m := Approve(l, u, id, approver, scope, ttl, lease, clock).0;
            other in m.rows && m.rows[other] == l.rows[other]
  {
  }

  lemma {:induction false} ClaimTouchesOnlyApproved(l: Ledger, dispatcher: string, lease: string, scope: string,
                                                    clock: Clock, other: string)
    requires other in l.rows && l.rows[other].state == DISPATCHING
    ensures var m := ClaimLease(l, dispatcher, lease, scope, clock).0;
            other in m.rows && m.rows[other] == l.rows[other]
  {
  }

  lemma {:induction false} SweepTouchesOnlySelected(l: Ledger, dispatcher: string, clock: Clock, other: string)
    requires Table(l) && other in l.rows && l.rows[other].dispatcherId != Some(dispatcher)
    ensures var m := RecoverInterrupted(l, dispatcher, false, clock).0;
            other in m.rows && m.rows[other] == l.rows[other]
  {
    RecoveryIsExact(l, dispatcher, false, clock);
  }

  lemma {:induction false} SettlingTouchesOnlyItsRow(l: Ledger, u: Unicode, op: Op, clock: Clock, other: string)
    requires (op.OutcomeOp? && op.id != other) || op.ReconcileOp?
    requires other in l.rows && l.rows[other].state == DISPATCHING
    ensures other in Apply(l, u, op, clock).rows && Apply(l, u, op, clock).rows[other] == l.rows[other]
  {
  }

  lemma {:induction false} EarlyStepKeepsRow(l: Ledger, u: Unicode, op: Op, clock: Clock, other: string)
    requires op.CreateOp? || op.RefusalOp? || op.RevokeOp?
    requires other in l.rows && l.rows[other].state == DISPATCHING
    ensures other in Apply(l, u, op, clock).rows && Apply(l, u, op, clock).rows[other] == l.rows[other]
  {
  }

  lemma {:induction false} ForeignStepKeepsRow(l: Ledger, u: Unicode, op: Op, clock: Clock, id: string,
                                               dispatcher: string)
    requires Table(l) && id in l.rows && Foreign(op, id, dispatcher)
    requires l.rows[id].state == DISPATCHING && l.rows[id].dispatcherId == Some(dispatcher)
    ensures id in Apply(l, u, op, clock).rows && Apply(l, u, op, clock).rows[id] == l.rows[id]
  {
    match op
    case RecoverOp(other, all) => SweepTouchesOnlySelected(l, other, clock, id);
    case ClaimOp(d, lease, scope) => ClaimTouchesOnlyApproved(l, d, lease, scope, clock, id);
    case ApproveOp(other, approver, scope, ttl, lease) =>
      ApproveTouchesOnlyCreated(l, u, other, approver, scope, ttl, lease, clock, id);
    case OutcomeOp(_, _, _) => SettlingTouchesOnlyItsRow(l, u, op, clock, id);
    case ReconcileOp(_, _, _, _) => SettlingTouchesOnlyItsRow(l, u, op, clock, id);
    case _ => EarlyStepKeepsRow(l, u, op, clock, id);
  }

  lemma {:induction false} ForeignRunKeepsRow(l: Ledger, u: Unicode, ops: seq<(Op, Clock)>, id: string,
                                              dispatcher: string)
    requires StableOnAscii(u) && Sound(l) && id in l.rows
    requires forall k | 0 <= k < |ops| :: Foreign(ops[k].0, id, dispatcher)
    requires l.rows[id].state == DISPATCHING && l.rows[id].dispatcherId == Some(dispatcher)
    ensures id in Run(l, u, ops).rows && Run(l, u, ops).rows[id] == l.rows[id]
  {
    if ops != [] {
      var shorter, last := ops[..|ops| - 1], ops[|ops| - 1];
      ForeignRunKeepsRow(l, u, shorter, id, dispatcher);
      RunEvolves(l, u, shorter);
      ForeignStepKeepsRow(Run(l, u, shorter), u, last.0, last.1, id, dispatcher);
    }
  }

  /** After a successful claim by `dispatcher`, no interleaving of other parties' steps moves the row,
      so the claimant's own outcome is still accepted. */
  lemma {:induction false} RecoveryIsolation(l: Ledger, u: Unicode, dispatcher: string, lease: string, scope: string,
                                             clock: Clock, ops: seq<(Op, Clock)>, state: State,
                                             fields: map<string, string>, later: Clock)
    requires Reachable(u, l) && IsOutcome(state)
    requires ClaimLease(l, dispatcher, lease, scope, clock).1.Some?
    requires forall k | 0 <= k < |ops| ::
               Foreign(ops[k].0, ClaimLease(l, dispatcher, lease, scope, clock).1.value, dispatcher)
    ensures var (m, reply) := ClaimLease(l, dispatcher, lease, scope, clock);
            var n := Run(m, u, ops);
            && reply.value in n.rows && n.rows[reply.value] == m.rows[reply.value]
            && RecordOutcome(n, reply.value, state, Fields(fields), later).1 == Ok(())
  {
    var (m, reply) := ClaimLease(l, dispatcher, lease, scope, clock);
    ReachableIsSound(u, l);
    ClaimSucceedsExactlyWhen(l, reply.value, dispatcher, lease, scope, clock);
    ClaimKeepsSound(l, dispatcher, lease, scope, clock);
    ForeignRunKeepsRow(m, u, ops, reply.value, dispatcher);
  }

  // ------------------------------------------------------------------ separation of duty

  /** The principal each execution was reconciled by, replayed from the run. The event may not say:
      evidence can overwrite the field. */
  ghost function Reconcilers(l: Ledger, u: Unicode, ops: seq<(Op, Clock)>): map<string, string> {
    if ops == [] then map[]
    else
      var shorter, last := ops[..|ops| - 1], ops[|ops| - 1];
      var before := Reconcilers(l, u, shorter);
      if last.0.ReconcileOp?
         && Reconcile(Run(l, u, shorter), u, last.0.id, last.0.state, last.0.reconciler, last.0.evidence, last.1).1.Ok?
      then before[last.0.id := NormalizePrincipal(u, last.0.reconciler).value]
      else before
  }

  /** In every reachable ledger each approval names a principal other than the actor, and each
      resolved execution was reconciled by a principal other than its actor. */
  lemma {:induction false} DutiesStaySeparate(u: Unicode, ops: seq<(Op, Clock)>)
    requires StableOnAscii(u)
    ensures var l := Run(EMPTY, u, ops);
            && (forall i | 0 <= i < |l.events| && l.events[i].kind.ApprovedEvent? ::
                  l.events[i].executionId in l.rows
                  && NamesAnother(l.events[i].detail, l.rows[l.events[i].executionId].actorId))
            && ReconciledByAnother(l.rows, Reconcilers(EMPTY, u, ops))
            && ReconciledIsKnown(l.events, Reconcilers(EMPTY, u, ops))
  {
    RunIsSound(u, ops);
    var l := Run(EMPTY, u, ops);
    forall i | 0 <= i < |l.events| && l.events[i].kind.ApprovedEvent?
      ensures l.events[i].executionId in l.rows
              && NamesAnother(l.events[i].detail, l.rows[l.events[i].executionId].actorId)
    {
      assert EventSound(l.rows, l.events[i]);
    }
    ReconcilersStaySeparate(u, ops);
  }

  ghost predicate ReconciledByAnother(rows: map<string, Row>, who: map<string, string>) {
    forall id | id in who :: id in rows && IsPrincipal(who[id]) && who[id] != rows[id].actorId
  }

  ghost predicate ReconciledIsKnown(events: seq<Event>, who: map<string, string>) {
    forall i | 0 <= i < |events| && events[i].kind.ReconciledEvent? :: events[i].executionId in who
  }

  lemma {:induction false} ReconcilersStaySeparate(u: Unicode, ops: seq<(Op, Clock)>)
    requires StableOnAscii(u)
    ensures ReconciledByAnother(Run(EMPTY, u, ops).rows, Reconcilers(EMPTY, u, ops))
    ensures ReconciledIsKnown(Run(EMPTY, u, ops).events, Reconcilers(EMPTY, u, ops))
  {
    if ops != [] {
      var shorter, last := ops[..|ops| - 1], ops[|ops| - 1];
      ReconcilersStaySeparate(u, shorter);
      var before, after := Run(EMPTY, u, shorter), Run(EMPTY, u, ops);
      StepIsTracked(u, shorter, last.0, last.1);
      if last.0.ReconcileOp? && Reconciles(before, u, last.0, last.1) {
        NormalizeIsIdempotent(u, last.0.reconciler);
      }
    }
  }

  predicate Reconciles(l: Ledger, u: Unicode, op: Op, clock: Clock) {
    op.ReconcileOp? && Reconcile(l, u, op.id, op.state, op.reconciler, op.evidence, clock).1.Ok?
  }

  /** What the next step of a run does to actors and to the reconciliations in the log. */
  lemma {:induction false} StepIsTracked(u: Unicode, ops: seq<(Op, Clock)>, op: Op, clock: Clock)
    requires StableOnAscii(u)
    ensures var l, m := Run(EMPTY, u, ops), Apply(Run(EMPTY, u, ops), u, op, clock);
            && l.events <= m.events
            && (forall id | id in l.rows :: id in m.rows && m.rows[id].actorId == l.rows[id].actorId)
            && (forall i | |l.events| <= i < |m.events| && m.events[i].kind.ReconciledEvent? ::
                  Reconciles(l, u, op, clock) && m.events[i].executionId == op.id)
  {
    RunIsSound(u, ops);
    var l := Run(EMPTY, u, ops);
    SoundIsShaped(l);
    ApplyEvolves(l, u, op, clock);
    forall id | id in l.rows
      ensures id in Apply(l, u, op, clock).rows && Apply(l, u, op, clock).rows[id].actorId == l.rows[id].actorId
    {
      assert RowEvolves(l.rows[id], Apply(l, u, op, clock).rows[id]);
    }
    OnlyReconcileLogsReconciled(l, u, op, clock);
  }

  lemma {:induction false} OnlyReconcileLogsReconciled(l: Ledger, u: Unicode, op: Op, clock: Clock)
    requires Table(l)
    ensures var m := Apply(l, u, op, clock);
            forall i | |l.events| <= i < |m.events| && m.events[i].kind.ReconciledEvent? ::
              Reconciles(l, u, op, clock) && m.events[i].executionId == op.id
  {
    if op.RecoverOp? {
      RecoveryIsExact(l, op.dispatcher, op.all, clock);
      var (m, ids) := RecoverInterrupted(l, op.dispatcher, op.all, clock);
      forall i | |l.events| <= i < |m.events| ensures m.events[i].kind.RecoveredEvent? {
        assert Has(m.events[|l.events| + (i - |l.events|)], ids[i - |l.events|], RecoveredEvent);
      }
    } else {
      OneEventAtMost(l, u, op, clock);
    }
  }

  lemma {:induction false} OneEventAtMost(l: Ledger, u: Unicode, op: Op, clock: Clock)
    requires !op.RecoverOp?
    ensures var m := Apply(l, u, op, clock);
            && |m.events| <= |l.events| + 1
            && (|m.events| > |l.events| && m.events[|l.events|].kind.ReconciledEvent? ==>
                  Reconciles(l, u, op, clock) && m.events[|l.events|].executionId == op.id)
  {
  }

  /** Self-approval and self-reconciliation are refused under every spelling of the actor, and a
      refused request changes nothing; recording the refusal changes no row. */
  lemma {:induction false} EverySpellingIsRefused(l: Ledger, u: Unicode, id: string, who: Argument, scope: string,
                                                  ttl: Ttl, lease: string, state: State, evidence: Evidence,
                                                  clock: Clock, kind: Kind, from: State, detail: Detail)
    requires id in l.rows && NormalizePrincipal(u, who) == Ok(l.rows[id].actorId)
    ensures Approve(l, u, id, who, scope, ttl, lease, clock).1.Err?
    ensures Approve(l, u, id, who, scope, ttl, lease, clock).0 == l
    ensures Reconcile(l, u, id, state, who, evidence, clock).1.Err?
    ensures Reconcile(l, u, id, state, who, evidence, clock).0 == l
    ensures RecordRefusal(l, id, kind, from, detail, clock(0)).rows == l.rows
  {
  }
}
