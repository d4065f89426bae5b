/** How a dispatch and a reconciliation end, with every state by its name: what the processor or the tool answered
    is what the row says, whatever other parties do in between, and what the row says is what was charged. */
module Outcomes {
  import opened Wrappers
  import opened Principals
  import opened Protocol
  import opened AtMostOnce
  import opened Settlement
  import opened Interleaving
  import opened Authorisation
  import opened Evolution
  import opened Clients
  import H = History
  import L = Ledger

  // ------------------------------------------------------------------ steps of other parties

  /** None of these steps settles the execution, or sweeps as this dispatcher or as everybody. */
  ghost predicate LeavesAlone(s: Sys, u: Unicode, steps: seq<(Step, L.Clock)>, id: string, dispatcher: string) {
    forall k | 0 <= k < |steps| ::
      var op := LedgerOp(After(s, u, steps[..k]), steps[k].0);
      op.Some? ==> Foreign(op.value, id, dispatcher)
  }

  /** None of these steps reconciles the execution. */
  ghost predicate LeavesUnresolved(s: Sys, u: Unicode, steps: seq<(Step, L.Clock)>, id: string) {
    forall k | 0 <= k < |steps| ::
      var op := LedgerOp(After(s, u, steps[..k]), steps[k].0);
      op.Some? && op.value.ReconcileOp? ==> op.value.id != id
  }

  lemma {:induction false} StepEvolves(s: Sys, u: Unicode, step: Step, clock: L.Clock)
    requires StableOnAscii(u) && H.Sound(s.ledger)
    ensures H.Sound(Next(s, u, step, clock).ledger) && Evolves(s.ledger, Next(s, u, step, clock).ledger)
  {
    NextLedger(s, u, step, clock);
    var op := LedgerOp(s, step);
    if op.Some? {
      H.ApplyKeepsSound(s.ledger, u, op.value, clock);
      SoundIsShaped(s.ledger);
      ApplyEvolves(s.ledger, u, op.value, clock);
    } else {
      EvolvesReflexive(s.ledger);
    }
  }

  lemma {:induction false} StepsEvolve(s: Sys, u: Unicode, steps: seq<(Step, L.Clock)>)
    requires StableOnAscii(u) && H.Sound(s.ledger)
    ensures H.Sound(After(s, u, steps).ledger) && Evolves(s.ledger, After(s, u, steps).ledger)
  {
    if steps == [] {
      EvolvesReflexive(s.ledger);
    } else {
      var n := |steps| - 1;
      StepsEvolve(s, u, steps[..n]);
      var mid := After(s, u, steps[..n]);
      StepEvolves(mid, u, steps[n].0, steps[n].1);
      EvolvesTransitive(s.ledger, mid.ledger, After(s, u, steps).ledger);
    }
  }

  predicate IsDispatching(l: L.Ledger, id: string, dispatcher: string) {
    id in l.rows && l.rows[id].state == L.DISPATCHING && l.rows[id].dispatcherId == Some(dispatcher)
  }

  lemma {:induction false} LeavesAloneSoFar(s: Sys, u: Unicode, steps: seq<(Step, L.Clock)>, id: string,
                                            dispatcher: string, n: nat)
    requires n <= |steps| && LeavesAlone(s, u, steps, id, dispatcher)
    ensures LeavesAlone(s, u, steps[..n], id, dispatcher)
  {
    var shorter := steps[..n];
    forall k | 0 <= k < n
      ensures var op := LedgerOp(After(s, u, shorter[..k]), shorter[k].0);
              op.Some? ==> Foreign(op.value, id, dispatcher)
    {
      assert shorter[..k] == steps[..k] && shorter[k] == steps[k];
    }
  }

  /** One step that leaves the execution alone. */
  lemma {:induction false} LeftAloneByOne(s: Sys, u: Unicode, step: Step, clock: L.Clock, id: string,
                                          dispatcher: string)
    requires H.Sound(s.ledger) && IsDispatching(s.ledger, id, dispatcher)
    requires LedgerOp(s, step).Some? ==> Foreign(LedgerOp(s, step).value, id, dispatcher)
    ensures IsDispatching(Next(s, u, step, clock).ledger, id, dispatcher)
  {
    NextLedger(s, u, step, clock);
    if LedgerOp(s, step).Some? { ForeignStepKeepsRow(s.ledger, u, LedgerOp(s, step).value, clock, id, dispatcher); }
  }

  lemma {:induction false} LeftAlone(s: Sys, u: Unicode, steps: seq<(Step, L.Clock)>, id: string, dispatcher: string)
    requires StableOnAscii(u) && H.Sound(s.ledger) && IsDispatching(s.ledger, id, dispatcher)
    requires LeavesAlone(s, u, steps, id, dispatcher)
    ensures IsDispatching(After(s, u, steps).ledger, id, dispatcher)
  {
    if steps != [] {
      var n := |steps| - 1;
      LeavesAloneSoFar(s, u, steps, id, dispatcher, n);
      LeftAlone(s, u, steps[..n], id, dispatcher);
      StepsEvolve(s, u, steps[..n]);
      LeftAloneByOne(After(s, u, steps[..n]), u, steps[n].0, steps[n].1, id, dispatcher);
    }
  }

  predicate IsUnknown(l: L.Ledger, id: string) {
    id in l.rows && l.rows[id].state == L.UNKNOWN
  }

  lemma {:induction false} ApprovalLeavesUnknown(l: L.Ledger, u: Unicode, op: L.Op, clock: L.Clock, id: string)
    requires IsUnknown(l, id) && op.ApproveOp?
    ensures id in L.Apply(l, u, op, clock).rows && L.Apply(l, u, op, clock).rows[id] == l.rows[id]
  {
  }

  lemma {:induction false} ClaimLeavesUnknown(l: L.Ledger, u: Unicode, op: L.Op, clock: L.Clock, id: string)
    requires IsUnknown(l, id) && op.ClaimOp?
    ensures id in L.Apply(l, u, op, clock).rows && L.Apply(l, u, op, clock).rows[id] == l.rows[id]
  {
  }

  lemma {:induction false} EarlyStepLeavesUnknown(l: L.Ledger, u: Unicode, op: L.Op, clock: L.Clock, id: string)
    requires IsUnknown(l, id) && (op.CreateOp? || op.RefusalOp? || op.RevokeOp?)
    ensures id in L.Apply(l, u, op, clock).rows && L.Apply(l, u, op, clock).rows[id] == l.rows[id]
  {
  }

  lemma {:induction false} SettlingLeavesUnknown(l: L.Ledger, u: Unicode, op: L.Op, clock: L.Clock, id: string)
    requires IsUnknown(l, id) && (op.OutcomeOp? || (op.ReconcileOp? && op.id != id))
    ensures id in L.Apply(l, u, op, clock).rows && L.Apply(l, u, op, clock).rows[id] == l.rows[id]
  {
  }

  /** Only a reconciliation moves an UNKNOWN row. */
  lemma {:induction false} UnknownStays(l: L.Ledger, u: Unicode, op: L.Op, clock: L.Clock, id: string)
    requires H.Table(l) && IsUnknown(l, id) && (op.ReconcileOp? ==> op.id != id)
    ensures id in L.Apply(l, u, op, clock).rows && L.Apply(l, u, op, clock).rows[id] == l.rows[id]
  {
    match op
    case RecoverOp(dispatcher, all) => RecoveryIsExact(l, dispatcher, all, clock);
    case ApproveOp(_, _, _, _, _) => ApprovalLeavesUnknown(l, u, op, clock, id);
    case ClaimOp(_, _, _) => ClaimLeavesUnknown(l, u, op, clock, id);
    case OutcomeOp(_, _, _) => SettlingLeavesUnknown(l, u, op, clock, id);
    case ReconcileOp(_, _, _, _) => SettlingLeavesUnknown(l, u, op, clock, id);
    case _ => EarlyStepLeavesUnknown(l, u, op, clock, id);
  }

  lemma {:induction false} LeavesUnresolvedSoFar(s: Sys, u: Unicode, steps: seq<(Step, L.Clock)>, id: string, n: nat)
    requires n <= |steps| && LeavesUnresolved(s, u, steps, id)
    ensures LeavesUnresolved(s, u, steps[..n], id)
  {
    var shorter := steps[..n];
    forall k | 0 <= k < n
      ensures var op := LedgerOp(After(s, u, shorter[..k]), shorter[k].0);
              op.Some? && op.value.ReconcileOp? ==> op.value.id != id
    {
      assert shorter[..k] == steps[..k] && shorter[k] == steps[k];
    }
  }

  /** One step that does not reconcile the execution. */
  lemma {:induction false} LeftUnresolvedByOne(s: Sys, u: Unicode, step: Step, clock: L.Clock, id: string)
    requires H.Sound(s.ledger) && IsUnknown(s.ledger, id)
    requires var op := LedgerOp(s, step); op.Some? && op.value.ReconcileOp? ==> op.value.id != id
    ensures var t := Next(s, u, step, clock);
            IsUnknown(t.ledger, id) && t.ledger.rows[id] == s.ledger.rows[id]
  {
    NextLedger(s, u, step, clock);
    if LedgerOp(s, step).Some? { UnknownStays(s.ledger, u, LedgerOp(s, step).value, clock, id); }
  }

  lemma {:induction false} LeftUnresolved(s: Sys, u: Unicode, steps: seq<(Step, L.Clock)>, id: string)
    requires StableOnAscii(u) && H.Sound(s.ledger) && IsUnknown(s.ledger, id) && LeavesUnresolved(s, u, steps, id)
    ensures IsUnknown(After(s, u, steps).ledger, id)
    ensures After(s, u, steps).ledger.rows[id] == s.ledger.rows[id]
  {
    if steps != [] {
      var n := |steps| - 1;
      LeavesUnresolvedSoFar(s, u, steps, id, n);
      LeftUnresolved(s, u, steps[..n], id);
      StepsEvolve(s, u, steps[..n]);
      LeftUnresolvedByOne(After(s, u, steps[..n]), u, steps[n].0, steps[n].1, id);
    }
  }

  // ------------------------------------------------------------------ how a dispatch ends

  /** What a dispatch that was granted leaves in its row. */
  predicate EndsAsAnswered(client: Client, reply: Reply, evidence: L.Evidence, state: L.State) {
    if evidence.Unserializable? then state == L.DISPATCHING
    else if client == PaymentClient then
      && (state == L.SUCCEEDED <==> reply == Succeeded)
      && (state == L.FAILED <==> reply == Declined)
      && (state == L.UNKNOWN <==> reply == Raised)
    else
      && (state == L.SUCCEEDED <==> reply != Raised)
      && (state == L.UNKNOWN <==> reply == Raised)
  }

  lemma {:induction false} RecordedAsAnswered(l: L.Ledger, id: string, dispatcher: string, client: Client, reply: Reply,
                                              evidence: L.Evidence, clock: L.Clock)
    requires IsDispatching(l, id, dispatcher)
    ensures var m := L.RecordOutcome(l, id, Verdict(client, reply), evidence, clock).0;
            id in m.rows && EndsAsAnswered(client, reply, evidence, m.rows[id].state)
  {
  }

  /** The row of a granted claim, once the dispatch is over and nobody settled or swept it in between. With evidence
      that serialises, a charge is SUCCEEDED exactly if the processor said so, FAILED exactly if it declined, and
      UNKNOWN exactly if the call raised; a tool's call is SUCCEEDED exactly if it did not raise, and else UNKNOWN.
      Evidence that does not serialise leaves the execution DISPATCHING. */
  lemma {:induction false} DispatchEndsAsAnswered(s: Sys, u: Unicode, d: Dispatching, between: seq<(Step, L.Clock)>,
                                                  later: seq<(Step, L.Clock)>, id: string)
    requires StableOnAscii(u) && H.Sound(s.ledger)
    requires At(s, d.w) && s.workers[d.w].pc.Idle? && Others(between, d.w) && Others(later, d.w)
    requires L.ClaimLease(s.ledger, s.workers[d.w].dispatcher, d.lease, d.scope, d.claiming).1 == Some(id)
    requires var (claimed, calling, called, recording, done) := Passed(s, u, d, between, later);
             && LeavesAlone(claimed, u, between, id, s.workers[d.w].dispatcher)
             && LeavesAlone(called, u, later, id, s.workers[d.w].dispatcher)
    ensures var done := After(s, u, DispatchSteps(d, between, later)).ledger;
            id in done.rows && EndsAsAnswered(s.workers[d.w].client, d.reply, d.evidence, done.rows[id].state)
  {
    var dispatcher := s.workers[d.w].dispatcher;
    var (claimed, calling, called, recording, done) := Passed(s, u, d, between, later);
    DispatchAmongOthers(s, u, d, between, later);
    ClaimSucceedsExactlyWhen(s.ledger, id, dispatcher, d.lease, d.scope, d.claiming);
    StepEvolves(s, u, Claim(d.w, d.lease, d.scope), d.claiming);
    LeftAlone(claimed, u, between, id, dispatcher);
    StepsEvolve(claimed, u, between);
    LeftAlone(called, u, later, id, dispatcher);
    RecordedAsAnswered(recording.ledger, id, dispatcher, s.workers[d.w].client, d.reply, d.evidence, d.recording);
  }

  /** The same of what `PaymentGuard.dispatch` and the wrapper of a guarded tool leave by themselves; and there is
      one call more, for that execution, made after the claim was logged. */
  lemma {:induction false} DispatchedAsAnswered(l: L.Ledger, calls: seq<ExternalCall>, dispatcher: string,
                                                client: Client, lease: string, scope: string,
                                                charge: Option<ChargeIntent>, reply: Reply, evidence: L.Evidence,
                                                claiming: L.Clock, recording: L.Clock, id: string)
    requires H.Table(l) && L.ClaimLease(l, dispatcher, lease, scope, claiming).1 == Some(id)
    ensures var (m, made) := Dispatched(l, calls, dispatcher, client, lease, scope, charge, reply, evidence, claiming,
                                        recording);
            && id in m.rows && EndsAsAnswered(client, reply, evidence, m.rows[id].state)
            && made == calls + [ExternalCall(id, charge, |l.events| + 1)]
            && |m.events| == |l.events| + if evidence.Unserializable? then 1 else 2
  {
    ClaimSucceedsExactlyWhen(l, id, dispatcher, lease, scope, claiming);
    LeaseFindsItsRow(l, id, lease);
    var claimed := L.ClaimLease(l, dispatcher, lease, scope, claiming).0;
    RecordedAsAnswered(claimed, id, dispatcher, client, reply, evidence, recording);
  }

  // ------------------------------------------------------------------ how a reconciliation ends

  /** What a probe establishes. */
  predicate EndsAsProbed(probe: Probe, state: L.State) {
    && (state == L.SUCCEEDED <==>
          probe == LookedUp(true)
          || (probe.Observed? && exists k | 0 <= k < |probe.checks| :: probe.checks[k] == Present))
    && (state == L.FAILED <==>
          probe == LookedUp(false)
          || (&& probe.Observed? && (exists k | 0 <= k < |probe.checks| :: probe.checks[k] == Absent)
              && forall k | 0 <= k < |probe.checks| :: probe.checks[k] != Present))
    && (state == L.PERMANENTLY_UNRESOLVED <==>
          probe == NoLookup || probe == LookupRaised
          || (probe.Observed? && forall k | 0 <= k < |probe.checks| :: probe.checks[k] == NoAnswer))
  }

  lemma {:induction false} ResolutionIsAsProbed(probe: Probe)
    ensures EndsAsProbed(probe, Resolution(probe))
  {
    if probe.Observed? {
      var checks := probe.checks;
      assert Present in checks <==> exists k | 0 <= k < |checks| :: checks[k] == Present;
      assert Absent in checks <==> exists k | 0 <= k < |checks| :: checks[k] == Absent;
    }
  }

  /** Another principal than the actor of this execution. */
  predicate MayReconcile(l: L.Ledger, u: Unicode, id: string, who: Argument) {
    id in l.rows && NormalizePrincipal(u, who).Ok? && NormalizePrincipal(u, who).value != l.rows[id].actorId
  }

  lemma {:induction false} ResolvedAsProbed(l: L.Ledger, u: Unicode, id: string, probe: Probe, reconciler: Argument,
                                            evidence: L.Evidence, clock: L.Clock)
    requires IsUnknown(l, id)
    ensures var m := L.Reconcile(l, u, id, Resolution(probe), reconciler, evidence, clock).0;
            && id in m.rows
            && (if MayReconcile(l, u, id, reconciler) && evidence.Fields? then EndsAsProbed(probe, m.rows[id].state)
                else m == l)
  {
    ResolutionIsAsProbed(probe);
  }

  /** The row of a reconciled execution that nobody else reconciled in between: by another principal than its actor
      and with evidence that serialises it is SUCCEEDED exactly if the lookup found the charge or a check saw the
      effect, FAILED exactly if the lookup found none or a check missed it and none saw it, and
      PERMANENTLY_UNRESOLVED exactly if nobody could tell. Otherwise it stays UNKNOWN. */
  lemma {:induction false} ReconciliationEndsAsProbed(s: Sys, u: Unicode, d: Reconciling, between: seq<(Step, L.Clock)>,
                                                      later: seq<(Step, L.Clock)>)
    requires StableOnAscii(u) && H.Sound(s.ledger) && IsUnknown(s.ledger, d.id)
    requires At(s, d.w) && s.workers[d.w].pc.Idle? && Others(between, d.w) && Others(later, d.w)
    requires var (read, asking, asked, resolving, done) := Reconciled(s, u, d, between, later);
             LeavesUnresolved(read, u, between, d.id) && LeavesUnresolved(asked, u, later, d.id)
    ensures var done := Reconciled(s, u, d, between, later).4.ledger;
            && d.id in done.rows
            && (if MayReconcile(s.ledger, u, d.id, d.reconciler) && d.evidence.Fields?
                then EndsAsProbed(d.probe, done.rows[d.id].state)
                else done.rows[d.id].state == L.UNKNOWN)
  {
    var (read, asking, asked, resolving, done) := Reconciled(s, u, d, between, later);
    ReconcileAmongOthers(s, u, d, between, later);
    LeftUnresolved(read, u, between, d.id);
    StepsEvolve(read, u, between);
    LeftUnresolved(asked, u, later, d.id);
    ResolvedAsProbed(resolving.ledger, u, d.id, d.probe, d.reconciler, d.evidence, d.resolving);
  }

  // ------------------------------------------------------------------ what was charged

  predicate IsAnswered(s: Sys, id: string) {
    id in s.ledger.rows && (s.ledger.rows[id].state == L.SUCCEEDED || s.ledger.rows[id].state == L.FAILED)
  }

  lemma {:induction false} HonestSoFar(u: Unicode, steps: seq<(Step, L.Clock)>, more: seq<(Step, L.Clock)>)
    requires HonestRun(u, steps + more)
    ensures HonestRun(u, steps)
  {
    if more == [] {
      assert steps + more == steps;
    } else {
      var n := |more| - 1;
      assert (steps + more)[..|steps + more| - 1] == steps + more[..n];
      HonestSoFar(u, steps, more[..n]);
    }
  }

  lemma {:induction false} AnswerStays(s: Sys, t: Sys, id: string)
    requires Evolves(s.ledger, t.ledger) && IsAnswered(s, id)
    ensures IsAnswered(t, id) && t.ledger.rows[id] == s.ledger.rows[id]
  {
    assert RowEvolves(s.ledger.rows[id], t.ledger.rows[id]);
  }

  /** Once an honest run has recorded an answer, the row keeps it, and it is what was charged. */
  lemma {:induction false} AnswerTellsTheTruth(u: Unicode, steps: seq<(Step, L.Clock)>, more: seq<(Step, L.Clock)>,
                                               id: string)
    requires StableOnAscii(u) && HonestRun(u, steps + more) && IsAnswered(Reach(u, steps), id)
    ensures var s, t := Reach(u, steps), Reach(u, steps + more);
            && IsAnswered(t, id) && t.ledger.rows[id] == s.ledger.rows[id]
            && (t.ledger.rows[id].state == L.SUCCEEDED <==> Charged(t, id) == 1)
            && (t.ledger.rows[id].state == L.FAILED <==> Charged(t, id) == 0)
  {
    ReachIsSafe(u, steps);
    ReachContinues(u, steps, more);
    StepsEvolve(Reach(u, steps), u, more);
    AnswerStays(Reach(u, steps), Reach(u, steps + more), id);
    SettledStatesTellTheTruth(u, steps + more, id);
  }

  function Calling(w: nat, reply: Reply, charged: nat, clock: L.Clock): seq<(Step, L.Clock)> {
    [(Invoke(w, reply, charged), clock)]
  }

  function Recording(w: nat, evidence: L.Evidence, clock: L.Clock): seq<(Step, L.Clock)> {
    [(Record(w, evidence), clock)]
  }

  lemma {:induction false} OneMoreStep(u: Unicode, steps: seq<(Step, L.Clock)>, step: Step, clock: L.Clock)
    ensures Reach(u, steps + [(step, clock)]) == Next(Reach(u, steps), u, step, clock)
  {
    assert (steps + [(step, clock)])[..|steps|] == steps;
  }

  /** The worker that called still holds the answer when it comes to record it. */
  lemma {:induction false} AnswerIsHeld(u: Unicode, before: seq<(Step, L.Clock)>, w: nat, id: string, reply: Reply,
                                        charged: nat, calling: L.Clock, middle: seq<(Step, L.Clock)>)
    requires At(Reach(u, before), w) && Reach(u, before).workers[w].pc.Claimed?
             && Reach(u, before).workers[w].pc.id == id
    requires Others(middle, w)
    ensures var s := Reach(u, before + Calling(w, reply, charged, calling) + middle);
            && At(s, w)
            && s.workers[w].pc == Returned(id, Verdict(Reach(u, before).workers[w].client, reply))
  {
    OneMoreStep(u, before, Invoke(w, reply, charged), calling);
    var called := before + Calling(w, reply, charged, calling);
    ReachContinues(u, called, middle);
    OthersLeaveWorker(Reach(u, called), u, middle, w);
  }

  /** The answer of a call that did not raise, recorded. */
  lemma {:induction false} AnswerIsRecorded(u: Unicode, steps: seq<(Step, L.Clock)>, w: nat, id: string, client: Client,
                                            reply: Reply, evidence: L.Evidence, clock: L.Clock)
    requires StableOnAscii(u) && HonestRun(u, steps) && reply != Raised && evidence.Fields?
    requires At(Reach(u, steps), w) && Reach(u, steps).workers[w].pc == Returned(id, Verdict(client, reply))
    ensures var t := Reach(u, steps + Recording(w, evidence, clock));
            IsAnswered(t, id)
            && (t.ledger.rows[id].state == L.SUCCEEDED <==> client == ToolClient || reply == Succeeded)
  {
    var s := Reach(u, steps);
    HonestRunIsTruthful(u, steps);
    assert PcTruthful(s.ledger.rows, s.workers[w].pc, Charged(s, Subject(s.workers[w].pc)));
    OneMoreStep(u, steps, Record(w, evidence), clock);
  }

  /** The converse of settlement: in every honest run, from the moment the answer of a call that did not raise is
      recorded, and whatever follows, SUCCEEDED means exactly that there was one charge and FAILED exactly that there
      was none, and one of the two it is. */
  lemma {:induction false} RecordedAnswerTellsTheTruth(u: Unicode, before: seq<(Step, L.Clock)>, w: nat, id: string,
                                                       reply: Reply, charged: nat, calling: L.Clock,
                                                       middle: seq<(Step, L.Clock)>, evidence: L.Evidence,
                                                       recording: L.Clock, rest: seq<(Step, L.Clock)>)
    requires StableOnAscii(u) && Others(middle, w) && reply != Raised && evidence.Fields?
    requires At(Reach(u, before), w) && Reach(u, before).workers[w].pc.Claimed?
             && Reach(u, before).workers[w].pc.id == id
    requires HonestRun(u, before + Calling(w, reply, charged, calling) + middle + Recording(w, evidence, recording)
                       + rest)
    ensures var t := Reach(u, before + Calling(w, reply, charged, calling) + middle
                           + Recording(w, evidence, recording) + rest);
            && id in t.ledger.rows
            && (t.ledger.rows[id].state == L.SUCCEEDED || t.ledger.rows[id].state == L.FAILED)
            && (t.ledger.rows[id].state == L.SUCCEEDED <==> Charged(t, id) == 1)
            && (t.ledger.rows[id].state == L.FAILED <==> Charged(t, id) == 0)
            && (t.ledger.rows[id].state == L.SUCCEEDED <==>
                  Reach(u, before).workers[w].client == ToolClient || reply == Succeeded)
  {
    var called := before + Calling(w, reply, charged, calling) + middle;
    var recorded := called + Recording(w, evidence, recording);
    HonestSoFar(u, recorded, rest);
    HonestSoFar(u, called, Recording(w, evidence, recording));
    AnswerIsHeld(u, before, w, id, reply, charged, calling, middle);
    AnswerIsRecorded(u, called, w, id, Reach(u, before).workers[w].client, reply, evidence, recording);
    AnswerTellsTheTruth(u, recorded, rest, id);
  }
}
