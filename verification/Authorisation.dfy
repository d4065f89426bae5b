/** What the digest carries from the approval to the call: over every run of any number of crashing clients,
    what is called is what was approved. */
module Authorisation {
  import opened Wrappers
  import opened Principals
  import opened Canonical
  import opened CanonicalTheorems
  import opened Binding
  import opened BindingTheorems
  import opened Scope
  import opened ScopeTheorems
  import opened Protocol
  import opened AtMostOnce
  import opened Clients
  import opened ClientTheorems
  import L = Ledger
  import History
  import Evolution
  import Readings

  // ------------------------------------------------------------------ what a step does to the ledger

  /** The transaction a step runs, if it runs one. */
  function LedgerOp(s: Sys, step: Step): Option<L.Op> {
    match step
    case Transact(op) => Some(op)
    case Claim(w, lease, scope) =>
      if At(s, w) && s.workers[w].pc.Idle? then Some(L.ClaimOp(s.workers[w].dispatcher, lease, scope)) else None
    case Record(w, evidence) =>
      if At(s, w) && s.workers[w].pc.Returned?
      then Some(L.OutcomeOp(s.workers[w].pc.id, s.workers[w].pc.verdict, evidence))
      else None
    case Resolve(w, reconciler, evidence) =>
      if At(s, w) && s.workers[w].pc.Decided?
      then Some(L.ReconcileOp(s.workers[w].pc.id, s.workers[w].pc.verdict, reconciler, evidence))
      else None
    case _ => None
  }

  lemma {:induction false} NextLedger(s: Sys, u: Unicode, step: Step, clock: L.Clock)
    ensures Next(s, u, step, clock).ledger
         == match LedgerOp(s, step) case None => s.ledger case Some(op) => L.Apply(s.ledger, u, op, clock)
  {
  }

  // ------------------------------------------------------------------ every lease was issued by an approval

  /** The j-th step of the run approved this execution under this digest. */
  ghost predicate ApprovesAt(u: Unicode, steps: seq<(Step, L.Clock)>, j: nat, id: string, scope: string) {
    && j < |steps| && steps[j].0.Transact? && steps[j].0.op.ApproveOp?
    && steps[j].0.op.id == id && steps[j].0.op.scope == scope
    && Readings.Stamps(Reach(u, steps[..j]).ledger, u, steps[j].0.op, steps[j].1)
  }

  ghost predicate WasApproved(u: Unicode, steps: seq<(Step, L.Clock)>, id: string, scope: string) {
    exists j: nat :: ApprovesAt(u, steps, j, id, scope)
  }

  ghost predicate LeasesWereIssued(u: Unicode, steps: seq<(Step, L.Clock)>) {
    var l := Reach(u, steps).ledger;
    forall id | id in l.rows && l.rows[id].leaseId.Some? :: WasApproved(u, steps, id, l.rows[id].scopeDigest)
  }

  lemma {:induction false} ApprovalStays(u: Unicode, shorter: seq<(Step, L.Clock)>, steps: seq<(Step, L.Clock)>, j: nat,
                                         id: string, scope: string)
    requires shorter <= steps && ApprovesAt(u, shorter, j, id, scope)
    ensures ApprovesAt(u, steps, j, id, scope)
  {
    assert steps[..j] == shorter[..j] && steps[j] == shorter[j];
  }

  /** Only an accepted approval gives a row its lease, and only if it named the row's digest. */
  lemma {:induction false} LeaseComesFromApproval(l: L.Ledger, u: Unicode, op: L.Op, clock: L.Clock, id: string)
    requires Evolution.Shaped(l) && id in L.Apply(l, u, op, clock).rows
    requires L.Apply(l, u, op, clock).rows[id].leaseId.Some? && !(id in l.rows && l.rows[id].leaseId.Some?)
    ensures op.ApproveOp? && op.id == id && Readings.Stamps(l, u, op, clock)
    ensures op.scope == L.Apply(l, u, op, clock).rows[id].scopeDigest
  {
    if !Readings.Stamps(l, u, op, clock) {
      Readings.OthersKeepStamps(l, u, op, clock);
      assert false;
    }
  }

  lemma {:induction false} RowsKeepDigests(l: L.Ledger, u: Unicode, op: L.Op, clock: L.Clock, id: string)
    requires Evolution.Shaped(l) && id in l.rows
    ensures id in L.Apply(l, u, op, clock).rows
    ensures L.Apply(l, u, op, clock).rows[id].scopeDigest == l.rows[id].scopeDigest
  {
    Evolution.ApplyEvolves(l, u, op, clock);
    assert Evolution.RowEvolves(l.rows[id], L.Apply(l, u, op, clock).rows[id]);
  }

  /** Of a row that had its lease before the step. */
  lemma {:induction false} LeaseWasIssuedBefore(u: Unicode, shorter: seq<(Step, L.Clock)>, steps: seq<(Step, L.Clock)>,
                                                id: string, scope: string)
    requires shorter <= steps && WasApproved(u, shorter, id, scope)
    ensures WasApproved(u, steps, id, scope)
  {
    var j: nat :| ApprovesAt(u, shorter, j, id, scope);
    ApprovalStays(u, shorter, steps, j, id, scope);
  }

  /** What a step does to one row: its digest stays, and if it has a lease now and had none, the step approved it. */
  lemma {:induction false} StepOnRow(s: Sys, u: Unicode, step: Step, clock: L.Clock, id: string)
    requires Evolution.Shaped(s.ledger) && id in Next(s, u, step, clock).ledger.rows
    requires Next(s, u, step, clock).ledger.rows[id].leaseId.Some?
    ensures var row := Next(s, u, step, clock).ledger.rows[id];
            if id in s.ledger.rows && s.ledger.rows[id].leaseId.Some?
            then row.scopeDigest == s.ledger.rows[id].scopeDigest
            else step.Transact? && step.op.ApproveOp? && step.op.id == id && step.op.scope == row.scopeDigest
                 && Readings.Stamps(s.ledger, u, step.op, clock)
  {
    NextLedger(s, u, step, clock);
    var op := LedgerOp(s, step);
    if id in s.ledger.rows && s.ledger.rows[id].leaseId.Some? {
      if op.Some? { RowsKeepDigests(s.ledger, u, op.value, clock, id); }
    } else {
      LeaseComesFromApproval(s.ledger, u, op.value, clock, id);
    }
  }

  lemma {:induction false} StepIssues(u: Unicode, steps: seq<(Step, L.Clock)>, id: string)
    requires StableOnAscii(u) && steps != [] && LeasesWereIssued(u, steps[..|steps| - 1])
    requires id in Reach(u, steps).ledger.rows && Reach(u, steps).ledger.rows[id].leaseId.Some?
    ensures WasApproved(u, steps, id, Reach(u, steps).ledger.rows[id].scopeDigest)
  {
    var n := |steps| - 1;
    var shorter, last := steps[..n], steps[n];
    var before := Reach(u, shorter);
    ReachIsSafe(u, shorter);
    Evolution.SoundIsShaped(before.ledger);
    StepOnRow(before, u, last.0, last.1, id);
    if id in before.ledger.rows && before.ledger.rows[id].leaseId.Some? {
      LeaseWasIssuedBefore(u, shorter, steps, id, before.ledger.rows[id].scopeDigest);
    } else {
      assert ApprovesAt(u, steps, n, id, Reach(u, steps).ledger.rows[id].scopeDigest);
    }
  }

  lemma {:induction false} LeasesComeFromApprovals(u: Unicode, steps: seq<(Step, L.Clock)>)
    requires StableOnAscii(u)
    ensures LeasesWereIssued(u, steps)
  {
    if steps != [] {
      LeasesComeFromApprovals(u, steps[..|steps| - 1]);
      var l := Reach(u, steps).ledger;
      forall id | id in l.rows && l.rows[id].leaseId.Some? ensures WasApproved(u, steps, id, l.rows[id].scopeDigest) {
        StepIssues(u, steps, id);
      }
    }
  }

  // ------------------------------------------------------------------ every call was approved

  /** The i-th step of the run made the k-th call. */
  ghost predicate CallsAt(u: Unicode, steps: seq<(Step, L.Clock)>, i: nat, k: nat) {
    && i < |steps| && steps[i].0.Invoke?
    && |Reach(u, steps[..i]).calls| == k && |Reach(u, steps[..i + 1]).calls| == k + 1
  }

  lemma {:induction false} CallsGrow(s: Sys, u: Unicode, step: Step, clock: L.Clock)
    ensures var t := Next(s, u, step, clock);
            && s.calls <= t.calls && |t.calls| <= |s.calls| + 1
            && (|t.calls| > |s.calls| ==>
                  && step.Invoke? && At(s, step.w) && s.workers[step.w].pc.Claimed?
                  && t.calls[|s.calls|].id == s.workers[step.w].pc.id
                  && t.calls[|s.calls|].scope == s.workers[step.w].pc.scope)
  {
  }

  lemma {:induction false} CallStays(u: Unicode, steps: seq<(Step, L.Clock)>, i: nat, k: nat)
    requires steps != [] && CallsAt(u, steps[..|steps| - 1], i, k)
    ensures CallsAt(u, steps, i, k)
  {
    var shorter := steps[..|steps| - 1];
    assert shorter[..i] == steps[..i] && shorter[..i + 1] == steps[..i + 1] && shorter[i] == steps[i];
  }

  /** Over every run: each external call was made by a step of the run, and an earlier step of it had approved that
      very execution under the very digest the call was made with. */
  lemma {:induction false} EveryCallWasApproved(u: Unicode, steps: seq<(Step, L.Clock)>, k: nat)
    returns (j: nat, i: nat)
    requires StableOnAscii(u) && k < |Reach(u, steps).calls|
    ensures j < i && CallsAt(u, steps, i, k)
    ensures ApprovesAt(u, steps, j, Reach(u, steps).calls[k].id, Reach(u, steps).calls[k].scope)
  {
    var n := |steps| - 1;
    var shorter, last := steps[..n], steps[n];
    var before := Reach(u, shorter);
    CallsGrow(before, u, last.0, last.1);
    if k < |before.calls| {
      j, i := EveryCallWasApproved(u, shorter, k);
      CallStays(u, steps, i, k);
      ApprovalStays(u, shorter, steps, j, before.calls[k].id, before.calls[k].scope);
    } else {
      i := n;
      assert steps[..n + 1] == steps;
      j := HeldWasApproved(u, shorter, last.0.w);
      ApprovalStays(u, shorter, steps, j, Reach(u, steps).calls[k].id, Reach(u, steps).calls[k].scope);
    }
  }

  /** What a worker has claimed was approved. */
  lemma {:induction false} HeldWasApproved(u: Unicode, steps: seq<(Step, L.Clock)>, w: nat) returns (j: nat)
    requires StableOnAscii(u) && At(Reach(u, steps), w) && Reach(u, steps).workers[w].pc.Claimed?
    ensures var pc := Reach(u, steps).workers[w].pc; ApprovesAt(u, steps, j, pc.id, pc.scope)
  {
    var s := Reach(u, steps);
    var pc := s.workers[w].pc;
    ReachIsSafe(u, steps);
    LeasesComeFromApprovals(u, steps);
    Evolution.SoundIsShaped(s.ledger);
    assert Granted(s.ledger, pc.id, pc.scope);
    assert History.RowShape(s.ledger.rows[pc.id]);
    assert WasApproved(u, steps, pc.id, s.ledger.rows[pc.id].scopeDigest);
    j :| ApprovesAt(u, steps, j, pc.id, pc.scope);
  }

  /** Every external call made under a charge's digest was approved, earlier in the run, for that execution; and
      whatever charge the approver saw, in whatever setting: it was the same charge in the same setting. */
  lemma {:induction false} EveryChargeWasApproved(env: Interpreter, u: Unicode, steps: seq<(Step, L.Clock)>, k: nat,
                                                  h: Setting, made: ChargeIntent, g: Setting, seen: ChargeIntent)
    returns (j: nat, i: nat)
    requires StableOnAscii(u) && k < |Reach(u, steps).calls|
    requires Faithful(env) && PrintsAscii(env.sha) && ChargesApart(env, g, seen, h, made)
    requires ContextPrints(env.p, g.context) && ContextPrints(env.p, h.context)
    requires DigestIn(env, g, seen).Ok? && DigestIn(env, h, made) == Ok(Reach(u, steps).calls[k].scope)
    ensures j < i && CallsAt(u, steps, i, k)
    ensures ApprovesAt(u, steps, j, Reach(u, steps).calls[k].id, Reach(u, steps).calls[k].scope)
    ensures steps[j].0.op.scope == DigestIn(env, g, seen).value
       <==> SameCharge(env.p, seen, made) && SameSetting(env.p, g, h)
  {
    j, i := EveryCallWasApproved(u, steps, k);
    ChargeDigestIsComplete(env, g, seen, h, made);
  }

  /** The same of the calls of guarded tools. */
  lemma {:induction false} EveryToolCallWasApproved(env: Interpreter, u: Unicode, steps: seq<(Step, L.Clock)>, k: nat,
                                                    h: GuardContext, made: ToolCall, g: GuardContext, seen: ToolCall)
    returns (j: nat, i: nat)
    requires StableOnAscii(u) && k < |Reach(u, steps).calls|
    requires Faithful(env) && PrintsAscii(env.sha)
    requires Digestible(env, ToolCallScope(g, seen)) && Digestible(env, ToolCallScope(h, made))
    requires NoCollision(env.sha, ScopeTexts(env, ToolCallScope(g, seen)) + ScopeTexts(env, ToolCallScope(h, made)))
    requires ToolDigest(env, h, made) == Reach(u, steps).calls[k].scope
    ensures j < i && CallsAt(u, steps, i, k)
    ensures ApprovesAt(u, steps, j, Reach(u, steps).calls[k].id, Reach(u, steps).calls[k].scope)
    ensures steps[j].0.op.scope == ToolDigest(env, g, seen)
       <==> SameToolCall(env.p, seen, made) && SameGuard(env.p, g, h)
  {
    j, i := EveryCallWasApproved(u, steps, k);
    ToolDigestIsComplete(env, g, seen, h, made);
  }

  // ------------------------------------------------------------------ a scope bound again before the claim

  /** An approved lease presented with the scope as it resolves now, all else in order: the claim is granted exactly
      if every resource still resolves to what was approved; otherwise it is refused and no row changes. */
  lemma {:induction false} ReboundClaim(env: Interpreter, world: World, s: ExecutionScope, l: L.Ledger, id: string,
                                        lease: string, dispatcher: string, clock: L.Clock)
    requires Rebound(world, s).Ok?
    requires Faithful(env) && PrintsAscii(env.sha) && Digestible(env, s) && Digestible(env, Rebound(world, s).value)
    requires NoCollision(env.sha, ScopeTexts(env, s) + ScopeTexts(env, Rebound(world, s).value))
    requires History.Table(l) && Evolution.Claimable(l, id, lease, ScopeDigest(env, s).value, clock(0))
    ensures var now := Rebound(world, s).value;
            var (m, reply) := L.ClaimLease(l, dispatcher, lease, ScopeDigest(env, now).value, clock);
            && (reply == Some(id) <==> ResourcesAgree(env.p, now.resources, s.resources))
            && (reply != Some(id) ==> reply == None && m.rows == l.rows)
  {
    var digest := ScopeDigest(env, Rebound(world, s).value).value;
    RebindDetectsChange(env, world, s);
    Evolution.ClaimSucceedsExactlyWhen(l, id, dispatcher, lease, digest, clock);
    Evolution.LeaseFindsItsRow(l, id, lease);
  }
}
