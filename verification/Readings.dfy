/** Which committed clock readings the mark bounds, and what can still be claimed after them.

    A row commits two readings that nothing observes: `created_at` and `approved_at` are read in the
    INSERT and in the UPDATE themselves, before the event of the same transaction reads the clock again
    and observes that. If the clock goes back in between, the row holds a reading the mark never saw. */
module Readings {
  import opened Wrappers
  import opened Principals
  import opened Ledger
  import opened History
  import opened Evolution

  /** The mark is at or past this reading. */
  predicate Bounds(l: Ledger, reading: real) {
    l.highWater.Some? && reading <= l.highWater.value
  }

  predicate RowBounded(l: Ledger, row: Row) {
    Bounds(l, row.createdAt) && (row.approvedAt.Some? ==> Bounds(l, row.approvedAt.value))
  }

  predicate RowsBounded(l: Ledger) {
    forall id | id in l.rows :: RowBounded(l, l.rows[id])
  }

  predicate EventsBounded(l: Ledger) {
    forall i | 0 <= i < |l.events| :: Bounds(l, l.events[i].recordedAt)
  }

  /** Whether this step reads the clock for a row and keeps the reading. */
  predicate Stamps(l: Ledger, u: Unicode, op: Op, clock: Clock) {
    match op
    case CreateOp(id, runId, actor, toolId, operation, scope) =>
      Create(l, u, id, runId, actor, toolId, operation, scope, clock).1.Ok?
    case ApproveOp(id, approver, scope, ttl, lease) => Approve(l, u, id, approver, scope, ttl, lease, clock).1.Ok?
    case _ => false
  }

  /** The clock did not go back between the reading for the row and the one for the event, or the mark
      had already passed the former. */
  predicate StampInOrder(l: Ledger, op: Op, clock: Clock) {
    match op
    case CreateOp(_, _, _, _, _, _) => clock(0) <= clock(1) || Bounds(l, clock(0))
    case ApproveOp(_, _, _, _, _) => clock(1) <= clock(2) || Bounds(l, clock(1))
    case _ => true
  }

  // ------------------------------------------------------------------ one step

  /** After `create` the mark bounds the new row's `created_at` exactly if the stamp was in order. */
  lemma {:induction false} CreatedAtBoundedExactlyWhen(l: Ledger, u: Unicode, id: string, runId: string,
                                                       actor: Argument, toolId: string, operation: string,
                                                       scope: string, clock: Clock)
    requires Create(l, u, id, runId, actor, toolId, operation, scope, clock).1.Ok?
    ensures var m := Create(l, u, id, runId, actor, toolId, operation, scope, clock).0;
            && id in m.rows && m.rows[id].createdAt == clock(0)
            && (Bounds(m, m.rows[id].createdAt) <==> clock(0) <= clock(1) || Bounds(l, clock(0)))
  {
  }

  /** After `approve` the mark bounds the row's `approved_at` exactly if the stamp was in order. */
  lemma {:induction false} ApprovedAtBoundedExactlyWhen(l: Ledger, u: Unicode, id: string, approver: Argument,
                                                        scope: string, ttl: Ttl, lease: string, clock: Clock)
    requires Approve(l, u, id, approver, scope, ttl, lease, clock).1.Ok?
    ensures var m := Approve(l, u, id, approver, scope, ttl, lease, clock).0;
            && id in m.rows && m.rows[id].approvedAt == Some(clock(1))
            && (Bounds(m, clock(1)) <==> clock(1) <= clock(2) || Bounds(l, clock(1)))
  {
  }

  /** No other step changes a row's readings, or issues a lease. */
  ghost predicate StampsKept(l: Ledger, m: Ledger) {
    && (forall id | id in l.rows :: id in m.rows && m.rows[id].createdAt == l.rows[id].createdAt
                                    && m.rows[id].approvedAt == l.rows[id].approvedAt
                                    && m.rows[id].leaseId == l.rows[id].leaseId)
    && (forall id | id in m.rows :: id in l.rows)
  }

  lemma {:induction false} ClaimKeepsStamps(l: Ledger, dispatcher: string, lease: string, scope: string, clock: Clock)
    ensures StampsKept(l, ClaimLease(l, dispatcher, lease, scope, clock).0)
  {
    var found := RowByLease(l.rows, l.order, lease);
    if found.Some? && found.value in l.rows { ConsumeKeepsStamps(l, found.value, dispatcher, lease, clock); }
  }

  lemma {:induction false} ConsumeKeepsStamps(l: Ledger, id: string, dispatcher: string, lease: string, clock: Clock)
    requires id in l.rows
    ensures StampsKept(l, ConsumeLease(l, id, dispatcher, lease, clock).0)
  {
  }

  lemma {:induction false} RevokeKeepsStamps(l: Ledger, u: Unicode, id: string, revoker: Argument, reason: string,
                                             clock: Clock)
    ensures StampsKept(l, Revoke(l, u, id, revoker, reason, clock).0)
  {
  }

  lemma {:induction false} OutcomeKeepsStamps(l: Ledger, id: string, state: State, evidence: Evidence, clock: Clock)
    ensures StampsKept(l, RecordOutcome(l, id, state, evidence, clock).0)
  {
  }

  lemma {:induction false} ReconcileKeepsStamps(l: Ledger, u: Unicode, id: string, state: State, reconciler: Argument,
                                                evidence: Evidence, clock: Clock)
    ensures StampsKept(l, Reconcile(l, u, id, state, reconciler, evidence, clock).0)
  {
  }

  lemma {:induction false} RefusedApproval(l: Ledger, u: Unicode, id: string, approver: Argument, scope: string,
                                           ttl: Ttl, lease: string, clock: Clock)
    requires Approve(l, u, id, approver, scope, ttl, lease, clock).1.Err?
    ensures Approve(l, u, id, approver, scope, ttl, lease, clock).0 == l
  {
  }

  lemma {:induction false} OthersKeepStamps(l: Ledger, u: Unicode, op: Op, clock: Clock)
    requires Table(l) && !Stamps(l, u, op, clock)
    ensures StampsKept(l, Apply(l, u, op, clock))
  {
    match op
    case CreateOp(_, _, _, _, _, _) =>
    case ApproveOp(id, approver, scope, ttl, lease) => RefusedApproval(l, u, id, approver, scope, ttl, lease, clock);
    case RefusalOp(id, kind, fromState, detail) =>
    case ClaimOp(dispatcher, lease, scope) => ClaimKeepsStamps(l, dispatcher, lease, scope, clock);
    case RevokeOp(id, revoker, reason) => RevokeKeepsStamps(l, u, id, revoker, reason, clock);
    case OutcomeOp(id, state, evidence) => OutcomeKeepsStamps(l, id, state, evidence, clock);
    case ReconcileOp(id, state, reconciler, evidence) =>
      ReconcileKeepsStamps(l, u, id, state, reconciler, evidence, clock);
    case RecoverOp(dispatcher, all) => RecoveryIsExact(l, dispatcher, all, clock);
  }

  lemma {:induction false} KeptStampsStayBounded(l: Ledger, m: Ledger)
    requires StampsKept(l, m) && MarkRises(l.highWater, m.highWater) && RowsBounded(l)
    ensures RowsBounded(m)
  {
    forall id | id in m.rows ensures RowBounded(m, m.rows[id]) { assert RowBounded(l, l.rows[id]); }
  }

  /** From a ledger whose rows are bounded, a step leads to one exactly if it keeps no reading, or one
      that was in order. */
  lemma {:induction false} StepBoundedExactlyWhen(l: Ledger, u: Unicode, op: Op, clock: Clock)
    requires Shaped(l) && RowsBounded(l)
    ensures RowsBounded(Apply(l, u, op, clock)) <==> (Stamps(l, u, op, clock) ==> StampInOrder(l, op, clock))
  {
    ApplyEvolves(l, u, op, clock);
    if !Stamps(l, u, op, clock) {
      OthersKeepStamps(l, u, op, clock);
      KeptStampsStayBounded(l, Apply(l, u, op, clock));
    } else if op.CreateOp? {
      CreateBounded(l, u, op, clock);
    } else {
      ApproveBounded(l, u, op, clock);
    }
  }

  lemma {:induction false} CreateBounded(l: Ledger, u: Unicode, op: Op, clock: Clock)
    requires op.CreateOp? && RowsBounded(l) && Stamps(l, u, op, clock)
    ensures RowsBounded(Apply(l, u, op, clock)) <==> StampInOrder(l, op, clock)
  {
    var m := Apply(l, u, op, clock);
    CreatedAtBoundedExactlyWhen(l, u, op.newId, op.runId, op.actor, op.toolId, op.operation, op.scope, clock);
    if StampInOrder(l, op, clock) {
      forall id | id in m.rows ensures RowBounded(m, m.rows[id]) {
        if id != op.newId { assert m.rows[id] == l.rows[id] && RowBounded(l, l.rows[id]); }
      }
    }
    if RowsBounded(m) { assert RowBounded(m, m.rows[op.newId]); }
  }

  lemma {:induction false} ApproveBounded(l: Ledger, u: Unicode, op: Op, clock: Clock)
    requires op.ApproveOp? && RowsBounded(l) && Stamps(l, u, op, clock)
    ensures RowsBounded(Apply(l, u, op, clock)) <==> StampInOrder(l, op, clock)
  {
    var m := Apply(l, u, op, clock);
    ApprovedAtBoundedExactlyWhen(l, u, op.id, op.approver, op.scope, op.ttl, op.lease, clock);
    if StampInOrder(l, op, clock) {
      forall id | id in m.rows ensures RowBounded(m, m.rows[id]) {
        assert RowBounded(l, l.rows[id]);
      }
    }
    if RowsBounded(m) { assert RowBounded(m, m.rows[op.id]); }
  }

  // ------------------------------------------------------------------ runs

  /** Every step of the run that keeps a reading for a row keeps one that was in order. */
  ghost predicate AllStampsInOrder(u: Unicode, ops: seq<(Op, Clock)>) {
    forall k | 0 <= k < |ops| :: StepInOrder(u, ops, k)
  }

  ghost predicate StepInOrder(u: Unicode, ops: seq<(Op, Clock)>, k: nat)
    requires k < |ops|
  {
    var l := Run(EMPTY, u, ops[..k]);
    Stamps(l, u, ops[k].0, ops[k].1) ==> StampInOrder(l, ops[k].0, ops[k].1)
  }

  /** The rows are bounded after every step of the run. */
  ghost predicate AlwaysBounded(u: Unicode, ops: seq<(Op, Clock)>) {
    forall k | 0 <= k <= |ops| :: RowsBounded(Run(EMPTY, u, ops[..k]))
  }

  lemma {:induction false} ShorterInOrder(u: Unicode, ops: seq<(Op, Clock)>)
    requires ops != []
    ensures var n := |ops| - 1;
            AllStampsInOrder(u, ops) <==> AllStampsInOrder(u, ops[..n]) && StepInOrder(u, ops, n)
  {
    var n := |ops| - 1;
    forall k | 0 <= k < n ensures StepInOrder(u, ops[..n], k) <==> StepInOrder(u, ops, k) {
      assert ops[..n][..k] == ops[..k] && ops[..n][k] == ops[k];
    }
  }

  lemma {:induction false} ShorterBounded(u: Unicode, ops: seq<(Op, Clock)>)
    requires ops != []
    ensures AlwaysBounded(u, ops) <==> AlwaysBounded(u, ops[..|ops| - 1]) && RowsBounded(Run(EMPTY, u, ops))
  {
    var n := |ops| - 1;
    assert ops[..|ops|] == ops;
    forall k | 0 <= k <= n ensures ops[..n][..k] == ops[..k] {}
    if AlwaysBounded(u, ops) {
      forall k | 0 <= k <= n ensures RowsBounded(Run(EMPTY, u, ops[..n][..k])) {
        assert RowsBounded(Run(EMPTY, u, ops[..k]));
      }
      assert RowsBounded(Run(EMPTY, u, ops[..|ops|]));
    }
    if AlwaysBounded(u, ops[..n]) && RowsBounded(Run(EMPTY, u, ops)) {
      forall k | 0 <= k <= |ops| ensures RowsBounded(Run(EMPTY, u, ops[..k])) {
        if k <= n { assert RowsBounded(Run(EMPTY, u, ops[..n][..k])); }
      }
    }
  }

  /** The mark bounds `created_at` and `approved_at` of every row at every moment of a run exactly if
      every step that keeps one of them kept it in order. */
  lemma {:induction false} RowsBoundedExactlyWhen(u: Unicode, ops: seq<(Op, Clock)>)
    requires StableOnAscii(u)
    ensures AlwaysBounded(u, ops) <==> AllStampsInOrder(u, ops)
  {
    if ops == [] {
      assert forall k | 0 <= k <= |ops| :: Run(EMPTY, u, ops[..k]) == EMPTY;
    } else {
      var n := |ops| - 1;
      RowsBoundedExactlyWhen(u, ops[..n]);
      ShorterInOrder(u, ops);
      ShorterBounded(u, ops);
      if AlwaysBounded(u, ops[..n]) {
        var before := Run(EMPTY, u, ops[..n]);
        assert ops[..n][..n] == ops[..n];
        assert RowsBounded(before);
        RunIsSound(u, ops[..n]);
        SoundIsShaped(before);
        StepBoundedExactlyWhen(before, u, ops[n].0, ops[n].1);
      }
    }
  }

  /** The readings in the log are bounded without any condition. */
  lemma {:induction false} EventsAreBounded(u: Unicode, ops: seq<(Op, Clock)>)
    requires StableOnAscii(u)
    ensures EventsBounded(Run(EMPTY, u, ops))
  {
    RunIsSound(u, ops);
    assert Clocked(Run(EMPTY, u, ops));
  }

  // ------------------------------------------------------------------ what can still be claimed

  /** A reading the ledger holds: in the mark, in the log or in a row. */
  ghost predicate Committed(l: Ledger, reading: real) {
    || l.highWater == Some(reading)
    || (exists i | 0 <= i < |l.events| :: l.events[i].recordedAt == reading)
    || (exists id | id in l.rows :: l.rows[id].createdAt == reading || l.rows[id].approvedAt == Some(reading))
  }

  /** If every stamp of the run was in order, no reading the ledger holds is past the mark: once any of
      them has passed a lease's expiry, no continuation whatever, under any clock behaviour, claims it. */
  lemma {:induction false} NoReadingRevives(u: Unicode, ops: seq<(Op, Clock)>, reading: real, id: string, lease: string,
                                            more: seq<(Op, Clock)>, dispatcher: string, scope: string, clock: Clock)
    requires StableOnAscii(u) && AllStampsInOrder(u, ops)
    requires Committed(Run(EMPTY, u, ops), reading)
    requires var l := Run(EMPTY, u, ops);
             id in l.rows && l.rows[id].leaseId == Some(lease) && l.rows[id].expiresAt.Some?
             && l.rows[id].expiresAt.value < reading
    ensures ClaimLease(Run(Run(EMPTY, u, ops), u, more), dispatcher, lease, scope, clock).1 == None
  {
    var l := Run(EMPTY, u, ops);
    RowsBoundedExactlyWhen(u, ops);
    assert ops[..|ops|] == ops;
    assert RowsBounded(l);
    EventsAreBounded(u, ops);
    CommittedIsBounded(l, reading);
    LapsedLeaseNeverRevives(l, u, more, id, lease, dispatcher, scope, clock);
  }

  lemma {:induction false} CommittedIsBounded(l: Ledger, reading: real)
    requires RowsBounded(l) && EventsBounded(l) && Committed(l, reading)
    ensures Bounds(l, reading)
  {
    if id :| id in l.rows && (l.rows[id].createdAt == reading || l.rows[id].approvedAt == Some(reading)) {
      assert RowBounded(l, l.rows[id]);
    }
  }

  /** Some continuation claims this lease under some clock. */
  ghost predicate CanBeClaimed(l: Ledger, u: Unicode, lease: string, scope: string) {
    exists more: seq<(Op, Clock)>, dispatcher: string, clock: Clock ::
      ClaimLease(Run(l, u, more), dispatcher, lease, scope, clock).1.Some?
  }

  function Still(reading: real): Clock {
    _ => reading
  }

  /** Of an approved execution, the lease can be claimed by some continuation exactly as long as the mark
      has not passed its expiry. Nothing else the ledger holds, and no reading of a row, decides it. */
  lemma {:induction false} OnlyTheMarkDecides(l: Ledger, u: Unicode, id: string, lease: string)
    requires Reachable(u, l) && id in l.rows && l.rows[id].state == APPROVED && l.rows[id].leaseId == Some(lease)
    ensures l.rows[id].expiresAt.Some?
    ensures CanBeClaimed(l, u, lease, l.rows[id].scopeDigest)
       <==> !(l.highWater.Some? && l.rows[id].expiresAt.value < l.highWater.value)
  {
    ReachableIsSound(u, l);
    assert RowSound(l, id);
    var expiry, scope := l.rows[id].expiresAt.value, l.rows[id].scopeDigest;
    if l.highWater.Some? && expiry < l.highWater.value {
      forall more: seq<(Op, Clock)>, dispatcher: string, clock: Clock
        ensures ClaimLease(Run(l, u, more), dispatcher, lease, scope, clock).1 == None
      {
        LapsedLeaseNeverRevives(l, u, more, id, lease, dispatcher, scope, clock);
      }
    } else {
      ClaimSucceedsExactlyWhen(l, id, "", lease, scope, Still(expiry));
      assert Run(l, u, []) == l;
      assert ClaimLease(Run(l, u, []), "", lease, scope, Still(expiry)).1.Some?;
    }
  }

  // ------------------------------------------------------------------ a reading that the mark never saw

  /** The k-th reading of an operation. */
  function Reading(first: real, second: real, third: real): Clock {
    k => if k == 0 then first else if k == 1 then second else third
  }

  /** A is created and approved at 5 for five seconds; then B is created while the clock reads 100 for the
      row and 6 for the event. */
  function LostReading(): seq<(Op, Clock)> {
    [(CreateOp("A", "run", Text("actor"), "tool", "call", "scope"), Still(5.0)),
     (ApproveOp("A", Text("approver"), "scope", Finite(5.0), "lease"), Still(5.0)),
     (CreateOp("B", "run", Text("actor"), "tool", "call", "scope"), Reading(100.0, 6.0, 6.0))]
  }

  lemma {:induction false} RunOfThree(u: Unicode, ops: seq<(Op, Clock)>)
    requires |ops| == 3
    ensures Run(EMPTY, u, ops)
         == Apply(Apply(Apply(EMPTY, u, ops[0].0, ops[0].1), u, ops[1].0, ops[1].1), u, ops[2].0, ops[2].1)
  {
    assert ops[..2][..1] == ops[..1] && ops[..1][..0] == [];
    assert Run(EMPTY, u, ops[..1]) == Apply(EMPTY, u, ops[0].0, ops[0].1);
    assert Run(EMPTY, u, ops[..2]) == Apply(Run(EMPTY, u, ops[..1]), u, ops[1].0, ops[1].1);
  }

  lemma {:induction false} ThePrincipals(u: Unicode)
    requires StableOnAscii(u)
    ensures NormalizePrincipal(u, Text("actor")) == Ok("actor")
            && NormalizePrincipal(u, Text("approver")) == Ok("approver")
    ensures "actor" != "approver"
  {
    CanonicalSpellingIsKept(u, "actor");
    CanonicalSpellingIsKept(u, "approver");
    assert |"actor"| != |"approver"|;
  }

  lemma {:induction false} AfterFirst(u: Unicode)
    requires StableOnAscii(u)
    ensures var l := Apply(EMPTY, u, LostReading()[0].0, LostReading()[0].1);
            && l.order == ["A"] && "A" in l.rows && l.highWater == Some(5.0)
            && l.rows["A"] == Row("run", "actor", "tool", "call", "scope", CREATED, None, None, None, None, 5.0)
  {
    ThePrincipals(u);
  }

  lemma {:induction false} AfterSecond(u: Unicode, l: Ledger)
    requires StableOnAscii(u) && l.order == ["A"] && "A" in l.rows && l.highWater == Some(5.0)
    requires l.rows["A"] == Row("run", "actor", "tool", "call", "scope", CREATED, None, None, None, None, 5.0)
    requires "B" !in l.rows
    ensures var m := Apply(l, u, LostReading()[1].0, LostReading()[1].1);
            && m.order == ["A"] && "A" in m.rows && "B" !in m.rows && m.highWater == Some(5.0)
            && m.rows["A"] == l.rows["A"].(state := APPROVED, leaseId := Some("lease"), expiresAt := Some(10.0),
                                           approvedAt := Some(5.0))
  {
    ThePrincipals(u);
    FindsTheLease(l.rows, l.order, "lease");
    assert "A" != "B";
  }

  lemma {:induction false} AfterThird(u: Unicode, l: Ledger)
    requires StableOnAscii(u) && l.order == ["A"] && "A" in l.rows && "B" !in l.rows && l.highWater == Some(5.0)
    ensures var m := Apply(l, u, LostReading()[2].0, LostReading()[2].1);
            && m.rows.Keys == l.rows.Keys + {"B"} && m.rows["A"] == l.rows["A"]
            && m.rows["B"].createdAt == 100.0 && m.highWater == Some(6.0)
  {
    ThePrincipals(u);
    assert "A" != "B";
  }

  lemma {:induction false} TheLostLedger(u: Unicode)
    requires StableOnAscii(u)
    ensures var l := Run(EMPTY, u, LostReading());
            && Sound(l) && "A" in l.rows && "B" in l.rows && l.highWater == Some(6.0)
            && l.rows["A"].state == APPROVED && l.rows["A"].scopeDigest == "scope"
            && l.rows["A"].leaseId == Some("lease") && l.rows["A"].expiresAt == Some(10.0)
            && l.rows["B"].createdAt == 100.0
  {
    var ops := LostReading();
    RunOfThree(u, ops);
    RunIsSound(u, ops);
    AfterFirst(u);
    var created := Apply(EMPTY, u, ops[0].0, ops[0].1);
    assert "B" !in created.rows by { assert created.rows.Keys == {"A"} && "A" != "B"; }
    AfterSecond(u, created);
    AfterThird(u, Apply(created, u, ops[1].0, ops[1].1));
  }

  /** The row of B then holds a reading past A's expiry, and A's lease is still claimed. */
  lemma {:induction false} UnobservedReadingIsIgnored(u: Unicode, dispatcher: string)
    requires StableOnAscii(u)
    ensures var l := Run(EMPTY, u, LostReading());
            && "A" in l.rows && l.rows["A"].leaseId == Some("lease") && l.rows["A"].expiresAt == Some(10.0)
            && "B" in l.rows && l.rows["B"].createdAt == 100.0 && Committed(l, 100.0)
            && l.highWater == Some(6.0)
            && ClaimLease(l, dispatcher, "lease", "scope", Still(7.0)).1 == Some("A")
  {
    TheLostLedger(u);
    ClaimSucceedsExactlyWhen(Run(EMPTY, u, LostReading()), "A", dispatcher, "lease", "scope", Still(7.0));
  }
}
