/** The clients' methods are runs of the transition system: each is its worker's steps in order, from any
    system with that worker idle, and whatever the other parties do in between. */
module Interleaving {
  import opened Wrappers
  import opened Principals
  import opened Protocol
  import opened Clients
  import E = ExecutionLedger
  import L = Ledger

  // ------------------------------------------------------------------ other parties

  ghost function After(s: Sys, u: Unicode, steps: seq<(Step, L.Clock)>): Sys {
    if steps == [] then s
    else
      var last := steps[|steps| - 1];
      Next(After(s, u, steps[..|steps| - 1]), u, last.0, last.1)
  }

  /** A step of this worker, or its crash. */
  predicate IsOf(step: Step, w: nat) {
    !step.Transact? && step.w == w
  }

  ghost predicate Others(steps: seq<(Step, L.Clock)>, w: nat) {
    forall k | 0 <= k < |steps| :: !IsOf(steps[k].0, w)
  }

  lemma {:induction false} OtherStepLeavesWorker(s: Sys, u: Unicode, step: Step, clock: L.Clock, w: nat)
    requires At(s, w) && !IsOf(step, w)
    ensures At(Next(s, u, step, clock), w) && Next(s, u, step, clock).workers[w] == s.workers[w]
  {
  }

  lemma {:induction false} OthersLeaveWorker(s: Sys, u: Unicode, steps: seq<(Step, L.Clock)>, w: nat)
    requires At(s, w) && Others(steps, w)
    ensures At(After(s, u, steps), w) && After(s, u, steps).workers[w] == s.workers[w]
  {
    if steps != [] {
      var shorter, last := steps[..|steps| - 1], steps[|steps| - 1];
      forall k | 0 <= k < |shorter| ensures !IsOf(shorter[k].0, w) { assert shorter[k] == steps[k]; }
      OthersLeaveWorker(s, u, shorter, w);
      OtherStepLeavesWorker(After(s, u, shorter), u, last.0, last.1, w);
    }
  }

  lemma {:induction false} AfterAppends(s: Sys, u: Unicode, steps: seq<(Step, L.Clock)>, more: seq<(Step, L.Clock)>)
    ensures After(s, u, steps + more) == After(After(s, u, steps), u, more)
  {
    if more == [] {
      assert steps + more == steps;
    } else {
      var n := |more| - 1;
      AfterAppends(s, u, steps, more[..n]);
      assert (steps + more)[..|steps + more| - 1] == steps + more[..n];
    }
  }

  lemma {:induction false} AfterOne(s: Sys, u: Unicode, step: Step, clock: L.Clock)
    ensures After(s, u, [(step, clock)]) == Next(s, u, step, clock)
  {
    assert [(step, clock)][..0] == [];
    assert After(s, u, []) == s;
  }

  /** A continuation of a run from the start is a run from the start. */
  lemma {:induction false} ReachContinues(u: Unicode, steps: seq<(Step, L.Clock)>, more: seq<(Step, L.Clock)>)
    ensures After(Reach(u, steps), u, more) == Reach(u, steps + more)
  {
    if more == [] {
      assert steps + more == steps;
    } else {
      var n := |more| - 1;
      ReachContinues(u, steps, more[..n]);
      assert (steps + more)[..|steps + more| - 1] == steps + more[..n];
    }
  }

  // ------------------------------------------------------------------ dispatch

  /** The choices of one dispatch by one worker. */
  datatype Dispatching = Dispatching(w: nat, lease: string, scope: string, reply: Reply, charged: nat,
                                     evidence: L.Evidence, claiming: L.Clock, invoking: L.Clock, recording: L.Clock)

  function ClaimOf(d: Dispatching): seq<(Step, L.Clock)> {
    [(Claim(d.w, d.lease, d.scope), d.claiming)]
  }

  function InvokeOf(d: Dispatching): seq<(Step, L.Clock)> {
    [(Invoke(d.w, d.reply, d.charged), d.invoking)]
  }

  function RecordOf(d: Dispatching): seq<(Step, L.Clock)> {
    [(Record(d.w, d.evidence), d.recording)]
  }

  /** Claim, call and record, with what others do in between. */
  function DispatchSteps(d: Dispatching, between: seq<(Step, L.Clock)>, later: seq<(Step, L.Clock)>)
    : seq<(Step, L.Clock)>
  {
    ClaimOf(d) + between + InvokeOf(d) + later + RecordOf(d)
  }

  lemma {:induction false} ClaimStep(s: Sys, u: Unicode, d: Dispatching)
    requires At(s, d.w) && s.workers[d.w].pc.Idle?
    ensures var (claimed, id) := L.ClaimLease(s.ledger, s.workers[d.w].dispatcher, d.lease, d.scope, d.claiming);
            Next(s, u, Claim(d.w, d.lease, d.scope), d.claiming)
              == if id.None? then s.(ledger := claimed)
                 else Goto(s.(ledger := claimed), d.w, Claimed(id.value, d.scope))
  {
  }

  lemma {:induction false} IdleSteps(s: Sys, u: Unicode, d: Dispatching)
    requires At(s, d.w) && s.workers[d.w].pc.Idle?
    ensures Next(s, u, Invoke(d.w, d.reply, d.charged), d.invoking) == s
    ensures Next(s, u, Record(d.w, d.evidence), d.recording) == s
  {
  }

  lemma {:induction false} InvokeStep(s: Sys, u: Unicode, d: Dispatching, id: string)
    requires At(s, d.w) && s.workers[d.w].pc == Claimed(id, d.scope)
    ensures var t := Next(s, u, Invoke(d.w, d.reply, d.charged), d.invoking);
            && t.ledger == s.ledger && t.calls == s.calls + [Call(id, d.scope, |s.ledger.events|)]
            && At(t, d.w)
            && t.workers[d.w] == s.workers[d.w].(pc := Returned(id, Verdict(s.workers[d.w].client, d.reply)))
  {
  }

  lemma {:induction false} RecordStep(s: Sys, u: Unicode, d: Dispatching, id: string, verdict: L.State)
    requires At(s, d.w) && s.workers[d.w].pc == Returned(id, verdict)
    ensures var t := Next(s, u, Record(d.w, d.evidence), d.recording);
            && t.ledger == L.RecordOutcome(s.ledger, id, verdict, d.evidence, d.recording).0 && t.calls == s.calls
            && At(t, d.w) && t.workers[d.w] == s.workers[d.w].(pc := Idle)
  {
  }

  /** The states a dispatch passes through. */
  ghost function Passed(s: Sys, u: Unicode, d: Dispatching, between: seq<(Step, L.Clock)>, later: seq<(Step, L.Clock)>)
    : (Sys, Sys, Sys, Sys, Sys)
  {
    var claimed := Next(s, u, Claim(d.w, d.lease, d.scope), d.claiming);
    var calling := After(claimed, u, between);
    var called := Next(calling, u, Invoke(d.w, d.reply, d.charged), d.invoking);
    var recording := After(called, u, later);
    (claimed, calling, called, recording, Next(recording, u, Record(d.w, d.evidence), d.recording))
  }

  lemma {:induction false} PassedIsARun(s: Sys, u: Unicode, d: Dispatching, between: seq<(Step, L.Clock)>,
                                        later: seq<(Step, L.Clock)>)
    ensures After(s, u, DispatchSteps(d, between, later)) == Passed(s, u, d, between, later).4
  {
    AfterOne(s, u, Claim(d.w, d.lease, d.scope), d.claiming);
    AfterAppends(s, u, ClaimOf(d), between);
    var calling := After(s, u, ClaimOf(d) + between);
    AfterAppends(s, u, ClaimOf(d) + between, InvokeOf(d));
    AfterOne(calling, u, Invoke(d.w, d.reply, d.charged), d.invoking);
    AfterAppends(s, u, ClaimOf(d) + between + InvokeOf(d), later);
    var recording := After(s, u, ClaimOf(d) + between + InvokeOf(d) + later);
    AfterAppends(s, u, ClaimOf(d) + between + InvokeOf(d) + later, RecordOf(d));
    AfterOne(recording, u, Record(d.w, d.evidence), d.recording);
  }

  /** A dispatch among any number of other parties, whatever they do between its three steps: the claim decides;
      if it is refused the worker does nothing more, and if it is granted there is one call, made under the
      claimed digest, and one outcome, recorded in the ledger as it then is. The worker is idle again. */
  lemma {:induction false} DispatchAmongOthers(s: Sys, u: Unicode, d: Dispatching, between: seq<(Step, L.Clock)>,
                                               later: seq<(Step, L.Clock)>)
    requires At(s, d.w) && s.workers[d.w].pc.Idle? && Others(between, d.w) && Others(later, d.w)
    ensures var (granted, id) := L.ClaimLease(s.ledger, s.workers[d.w].dispatcher, d.lease, d.scope, d.claiming);
            var (claimed, calling, called, recording, done) := Passed(s, u, d, between, later);
            && done == After(s, u, DispatchSteps(d, between, later))
            && claimed.ledger == granted && claimed.calls == s.calls
            && (id.None? ==> called == calling && done == recording)
            && (id.Some? ==>
                  && called.ledger == calling.ledger
                  && called.calls == calling.calls + [Call(id.value, d.scope, |calling.ledger.events|)]
                  && done.ledger == L.RecordOutcome(recording.ledger, id.value,
                                                    Verdict(s.workers[d.w].client, d.reply), d.evidence, d.recording).0
                  && done.calls == recording.calls)
            && At(done, d.w) && done.workers[d.w] == s.workers[d.w]
  {
    PassedIsARun(s, u, d, between, later);
    var (granted, id) := L.ClaimLease(s.ledger, s.workers[d.w].dispatcher, d.lease, d.scope, d.claiming);
    var (claimed, calling, called, recording, done) := Passed(s, u, d, between, later);
    ClaimStep(s, u, d);
    OthersLeaveWorker(claimed, u, between, d.w);
    if id.None? {
      IdleSteps(calling, u, d);
      OthersLeaveWorker(called, u, later, d.w);
      IdleSteps(recording, u, d);
    } else {
      InvokeStep(calling, u, d, id.value);
      OthersLeaveWorker(called, u, later, d.w);
      RecordStep(recording, u, d, id.value, Verdict(s.workers[d.w].client, d.reply));
    }
  }

  ghost predicate SameCall(c: ExternalCall, d: Call, scope: string) {
    d == Call(c.id, scope, c.logLength)
  }

  /** What the methods of PaymentGuard and ToolGuard leave is what the three steps leave, in any system. */
  lemma {:induction false} DispatchIsARun(s: Sys, u: Unicode, d: Dispatching, charge: Option<ChargeIntent>)
    requires At(s, d.w) && s.workers[d.w].pc.Idle?
    ensures var run := After(s, u, DispatchSteps(d, [], []));
            var (after, calls) := Dispatched(s.ledger, [], s.workers[d.w].dispatcher, s.workers[d.w].client, d.lease,
                                             d.scope, charge, d.reply, d.evidence, d.claiming, d.recording);
            && run.ledger == after && s.calls <= run.calls && |run.calls| == |s.calls| + |calls|
            && forall i | 0 <= i < |calls| :: SameCall(calls[i], run.calls[|s.calls| + i], d.scope)
  {
    DispatchAmongOthers(s, u, d, [], []);
    var (claimed, calling, called, recording, done) := Passed(s, u, d, [], []);
    assert calling == claimed && recording == called;
  }

  // ------------------------------------------------------------------ reconciliation

  /** The choices of one reconciliation by one worker. */
  datatype Reconciling = Reconciling(w: nat, id: string, probe: Probe, reconciler: Argument, evidence: L.Evidence,
                                     reading: L.Clock, asking: L.Clock, resolving: L.Clock)

  ghost function Reconciled(s: Sys, u: Unicode, d: Reconciling, between: seq<(Step, L.Clock)>,
                            later: seq<(Step, L.Clock)>): (Sys, Sys, Sys, Sys, Sys)
  {
    var read := Next(s, u, Read(d.w, d.id), d.reading);
    var asking := After(read, u, between);
    var asked := Next(asking, u, Ask(d.w, d.probe), d.asking);
    var resolving := After(asked, u, later);
    (read, asking, asked, resolving, Next(resolving, u, Resolve(d.w, d.reconciler, d.evidence), d.resolving))
  }

  lemma {:induction false} ReadStep(s: Sys, u: Unicode, d: Reconciling)
    requires At(s, d.w) && s.workers[d.w].pc.Idle? && d.id in s.ledger.rows && s.ledger.rows[d.id].state == L.UNKNOWN
    ensures Next(s, u, Read(d.w, d.id), d.reading) == Goto(s, d.w, Reading(d.id))
  {
  }

  lemma {:induction false} AskStep(s: Sys, u: Unicode, d: Reconciling)
    requires At(s, d.w) && s.workers[d.w].pc == Reading(d.id)
    ensures Next(s, u, Ask(d.w, d.probe), d.asking) == Goto(s, d.w, Decided(d.id, Resolution(d.probe)))
  {
  }

  lemma {:induction false} ResolveStep(s: Sys, u: Unicode, d: Reconciling)
    requires At(s, d.w) && s.workers[d.w].pc == Decided(d.id, Resolution(d.probe))
    ensures var t := Next(s, u, Resolve(d.w, d.reconciler, d.evidence), d.resolving);
            && t.ledger == L.Reconcile(s.ledger, u, d.id, Resolution(d.probe), d.reconciler, d.evidence, d.resolving).0
            && t.calls == s.calls && At(t, d.w) && t.workers[d.w] == s.workers[d.w].(pc := Idle)
  {
  }

  /** A reconciliation among others: it resolves the execution, in the ledger as it then is, to what its probe
      established, and calls nothing. */
  lemma {:induction false} ReconcileAmongOthers(s: Sys, u: Unicode, d: Reconciling, between: seq<(Step, L.Clock)>,
                                                later: seq<(Step, L.Clock)>)
    requires At(s, d.w) && s.workers[d.w].pc.Idle? && Others(between, d.w) && Others(later, d.w)
    requires d.id in s.ledger.rows && s.ledger.rows[d.id].state == L.UNKNOWN
    ensures var (read, asking, asked, resolving, done) := Reconciled(s, u, d, between, later);
            && read.ledger == s.ledger && asked.ledger == asking.ledger && asked.calls == asking.calls
            && done.ledger
               == L.Reconcile(resolving.ledger, u, d.id, Resolution(d.probe), d.reconciler, d.evidence, d.resolving).0
            && done.calls == resolving.calls && At(done, d.w) && done.workers[d.w] == s.workers[d.w]
  {
    var (read, asking, asked, resolving, done) := Reconciled(s, u, d, between, later);
    ReadStep(s, u, d);
    OthersLeaveWorker(read, u, between, d.w);
    AskStep(asking, u, d);
    OthersLeaveWorker(asked, u, later, d.w);
    ResolveStep(resolving, u, d);
  }

  /** The second transaction of a refused reconciliation, as anybody's. */
  function RefusalOf(l: L.Ledger, u: Unicode, d: Reconciling, why: L.Error): Step
    requires d.id in l.rows && NormalizePrincipal(u, d.reconciler).Ok?
  {
    Transact(L.RefusalOp(d.id, L.ReconcileRefused, l.rows[d.id].state,
                         L.Refusal(why, NormalizePrincipal(u, d.reconciler).value)))
  }

  /** What the methods of PaymentGuard and Verifier leave is what the three steps leave, in any system; and where
      the reconciliation is refused, one more transaction that logs the refusal. */
  lemma {:induction false} ReconcileIsARun(s: Sys, u: Unicode, d: Reconciling)
    requires At(s, d.w) && s.workers[d.w].pc.Idle?
    requires d.id in s.ledger.rows && s.ledger.rows[d.id].state == L.UNKNOWN
    ensures var done := Reconciled(s, u, d, [], []).4;
            var state := Resolution(d.probe);
            var (after, reply) := L.Reconcile(s.ledger, u, d.id, state, d.reconciler, d.evidence, d.resolving);
            var left := E.AfterReconciliation(s.ledger, u, d.id, state, d.reconciler, d.evidence, d.resolving);
            && done.ledger == after && done.calls == s.calls
            && (if reply.Err? && reply.error.SelfReconciliation?
                then NormalizePrincipal(u, d.reconciler).Ok?
                     && Next(done, u, RefusalOf(s.ledger, u, d, reply.error), d.resolving).ledger == left
                else done.ledger == left)
  {
    ReconcileAmongOthers(s, u, d, [], []);
    var (read, asking, asked, resolving, done) := Reconciled(s, u, d, [], []);
    assert asking == read && resolving == asked;
  }
}
