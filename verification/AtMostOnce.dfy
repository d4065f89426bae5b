/** Invariant 3A over every run: at most one external call per execution, and only after it was
    created, approved and claimed under the digest the call is made with. Nothing is assumed about
    the other parties: they may run any transaction, with any arguments, at any moment. */
module AtMostOnce {
  import opened Wrappers
  import opened Principals
  import opened Ledger
  import opened History
  import opened Evolution
  import opened Protocol

  /** The workers between the claim of `id` and its call. */
  ghost function Pending(s: Sys, id: string): set<nat> {
    set w | w in s.workers && s.workers[w].pc.Claimed? && s.workers[w].pc.id == id
  }

  function Calls(calls: seq<Call>, id: string): nat {
    if calls == [] then 0
    else Calls(calls[..|calls| - 1], id) + (if calls[|calls| - 1].id == id then 1 else 0)
  }

  /** The budget: calls made and calls about to be made never exceed the claims in the log. */
  ghost predicate Budget(s: Sys) {
    forall id :: Calls(s.calls, id) + |Pending(s, id)| <= Count(s.ledger.events, id, LeaseClaimed)
  }

  ghost predicate HeldProperly(s: Sys) {
    forall w | w in s.workers && s.workers[w].pc.Claimed? ::
      Granted(s.ledger, s.workers[w].pc.id, s.workers[w].pc.scope)
  }

  /** The execution was dispatched under this digest. */
  ghost predicate Granted(l: Ledger, id: string, scope: string) {
    id in l.rows && Dispatched(l.rows[id].state) && l.rows[id].scopeDigest == scope
  }

  ghost predicate CallsAuthorised(s: Sys) {
    forall k | 0 <= k < |s.calls| :: Authorised(s.ledger, s.calls[k])
  }

  /** Before the call, the log already showed this execution created, approved and claimed, and its
      row carries the digest of the call. */
  ghost predicate Authorised(l: Ledger, c: Call) {
    && c.logLength <= |l.events|
    && Granted(l, c.id, c.scope)
    && ClaimedInOrder(l.events[..c.logLength], c.id)
  }

  ghost predicate Safe(s: Sys) {
    Sound(s.ledger) && Budget(s) && HeldProperly(s) && CallsAuthorised(s)
  }

  // ------------------------------------------------------------------ the log only grows

  lemma {:induction false} CountGrows(events: seq<Event>, more: seq<Event>, id: string, kind: Kind)
    requires events <= more
    ensures Count(events, id, kind) <= Count(more, id, kind)
    decreases |more|
  {
    if |events| < |more| {
      CountGrows(events, more[..|more| - 1], id, kind);
    } else {
      assert events == more;
    }
  }

  lemma {:induction false} GrantedStays(l: Ledger, m: Ledger, id: string, scope: string)
    requires Evolves(l, m) && Granted(l, id, scope)
    ensures Granted(m, id, scope)
  {
    assert RowEvolves(l.rows[id], m.rows[id]);
  }

  lemma {:induction false} AuthorisedStays(l: Ledger, m: Ledger, c: Call)
    requires Evolves(l, m) && Authorised(l, c)
    ensures Authorised(m, c)
  {
    GrantedStays(l, m, c.id, c.scope);
    assert m.events[..c.logLength] == l.events[..c.logLength];
  }

  /** A ledger that evolved, with the same calls and no new holders, is still safe. */
  lemma {:induction false} LedgerStepKeepsSafe(s: Sys, t: Sys)
    requires Safe(s) && Sound(t.ledger) && Evolves(s.ledger, t.ledger) && t.calls == s.calls
    requires NoNewHolders(s, t)
    ensures Safe(t)
  {
    forall id ensures Calls(t.calls, id) + |Pending(t, id)| <= Count(t.ledger.events, id, LeaseClaimed) {
      CountGrows(s.ledger.events, t.ledger.events, id, LeaseClaimed);
      FewerPending(s, t, id);
    }
    forall w | w in t.workers && t.workers[w].pc.Claimed?
      ensures Granted(t.ledger, t.workers[w].pc.id, t.workers[w].pc.scope)
    {
      GrantedStays(s.ledger, t.ledger, s.workers[w].pc.id, s.workers[w].pc.scope);
    }
    CallsStayAuthorised(s, t);
  }

  lemma {:induction false} CallsStayAuthorised(s: Sys, t: Sys)
    requires CallsAuthorised(s) && Evolves(s.ledger, t.ledger) && t.calls == s.calls
    ensures CallsAuthorised(t)
  {
    forall k | 0 <= k < |t.calls| ensures Authorised(t.ledger, t.calls[k]) {
      AuthorisedStays(s.ledger, t.ledger, s.calls[k]);
    }
  }

  lemma {:induction false} SubsetIsSmaller(a: set<nat>, b: set<nat>)
    requires a <= b
    ensures |a| <= |b|
  {
    if a != {} {
      var x :| x in a;
      SubsetIsSmaller(a - {x}, b - {x});
    }
  }

  lemma {:induction false} FewerPending(s: Sys, t: Sys, id: string)
    requires NoNewHolders(s, t)
    ensures |Pending(t, id)| <= |Pending(s, id)|
  {
    SubsetIsSmaller(Pending(t, id), Pending(s, id));
  }

  lemma {:induction false} UnclaimedCount(l: Ledger, id: string)
    requires Sound(l) && (id in l.rows ==> !Dispatched(l.rows[id].state))
    ensures Count(l.events, id, LeaseClaimed) == 0
  {
    if id in l.rows {
      ClaimCount(l, id);
    } else {
      forall i | 0 <= i < |l.events| ensures EventShape(l.events[i]) {
        assert EventSound(l.rows, l.events[i]);
      }
      ClaimsAreDispatches(l.events, id);
      assert Trace(l.events, id) == [];
    }
  }

  // ------------------------------------------------------------------ the two steps that matter

  lemma {:induction false} ClaimKeepsSafe(s: Sys, u: Unicode, w: nat, lease: string, scope: string, clock: Clock)
    requires Safe(s)
    ensures Safe(Next(s, u, Step.Claim(w, lease, scope), clock))
  {
    var t := Next(s, u, Step.Claim(w, lease, scope), clock);
    if At(s, w) && s.workers[w].pc.Idle? {
      var (m, reply) := ClaimLease(s.ledger, s.workers[w].dispatcher, lease, scope, clock);
      ClaimKeepsSound(s.ledger, s.workers[w].dispatcher, lease, scope, clock);
      SoundIsShaped(s.ledger);
      ClaimEvolves(s.ledger, s.workers[w].dispatcher, lease, scope, clock);
      if reply.None? {
        LedgerStepKeepsSafe(s, t);
      } else {
        ClaimSucceedsExactlyWhen(s.ledger, reply.value, s.workers[w].dispatcher, lease, scope, clock);
        LedgerStepKeepsSafe(s, s.(ledger := m));
        NewHolderFitsBudget(s, m, w, reply.value, scope);
      }
    }
  }

  lemma {:induction false} NewHolderFitsBudget(s: Sys, m: Ledger, w: nat, id: string, scope: string)
    requires Safe(s) && Safe(s.(ledger := m)) && At(s, w) && s.workers[w].pc.Idle?
    requires id in s.ledger.rows && s.ledger.rows[id].state == APPROVED && Granted(m, id, scope)
    ensures Safe(Goto(s.(ledger := m), w, Claimed(id, scope)))
  {
    UnclaimedCount(s.ledger, id);
    ClaimCount(m, id);
    assert Calls(s.calls, id) + |Pending(s, id)| == 0;
    BudgetWithHolder(s.(ledger := m), w, id, scope);
  }

  lemma {:induction false} BudgetWithHolder(s: Sys, w: nat, id: string, scope: string)
    requires Budget(s) && At(s, w) && s.workers[w].pc.Idle?
    requires Calls(s.calls, id) == 0 && Pending(s, id) == {} && Count(s.ledger.events, id, LeaseClaimed) == 1
    ensures Budget(Goto(s, w, Claimed(id, scope)))
  {
    var t := Goto(s, w, Claimed(id, scope));
    forall other ensures Calls(t.calls, other) + |Pending(t, other)| <= Count(t.ledger.events, other, LeaseClaimed) {
      if other == id {
        assert Pending(t, id) == {w};
      } else {
        assert Pending(t, other) == Pending(s, other);
      }
    }
  }

  lemma {:induction false} InvokeKeepsSafe(s: Sys, u: Unicode, w: nat, reply: Reply, charged: nat, clock: Clock)
    requires Safe(s)
    ensures Safe(Next(s, u, Invoke(w, reply, charged), clock))
  {
    if At(s, w) && s.workers[w].pc.Claimed? {
      var t := Next(s, u, Invoke(w, reply, charged), clock);
      var Claimed(id, scope) := s.workers[w].pc;
      BudgetAfterCall(s, t, w);
      assert Granted(s.ledger, id, scope);
      CallIsAuthorised(s.ledger, id, scope);
      NewCallKeepsAuthorised(s, t, Call(id, scope, |s.ledger.events|));
    }
  }

  lemma {:induction false} BudgetAfterCall(s: Sys, t: Sys, w: nat)
    requires Budget(s) && At(s, w) && s.workers[w].pc.Claimed? && t.ledger == s.ledger
    requires |t.calls| == |s.calls| + 1 && t.calls[..|s.calls|] == s.calls
             && t.calls[|s.calls|].id == s.workers[w].pc.id
    requires t.workers.Keys == s.workers.Keys && !t.workers[w].pc.Claimed?
    requires forall v | v in s.workers && v != w :: t.workers[v] == s.workers[v]
    ensures Budget(t)
  {
    var id := s.workers[w].pc.id;
    forall other ensures Calls(t.calls, other) + |Pending(t, other)| <= Count(t.ledger.events, other, LeaseClaimed) {
      if other == id {
        assert Pending(t, id) == Pending(s, id) - {w} && w in Pending(s, id);
      } else {
        assert Pending(t, other) == Pending(s, other);
      }
    }
  }

  lemma {:induction false} CallIsAuthorised(l: Ledger, id: string, scope: string)
    requires Sound(l) && Granted(l, id, scope)
    ensures Authorised(l, Call(id, scope, |l.events|))
  {
    ClaimFollowsApproval(l, id);
    assert l.events[..|l.events|] == l.events;
  }

  lemma {:induction false} NewCallKeepsAuthorised(s: Sys, t: Sys, c: Call)
    requires CallsAuthorised(s) && t.ledger == s.ledger && t.calls == s.calls + [c] && Authorised(s.ledger, c)
    ensures CallsAuthorised(t)
  {
    forall k | 0 <= k < |t.calls| ensures Authorised(t.ledger, t.calls[k]) {
      if k < |s.calls| { assert Authorised(s.ledger, s.calls[k]); }
    }
  }

  /** No worker between claim and call that was not one before. */
  ghost predicate NoNewHolders(s: Sys, t: Sys) {
    forall w | w in t.workers && t.workers[w].pc.Claimed? :: w in s.workers && s.workers[w].pc == t.workers[w].pc
  }

  lemma {:induction false} RecordKeepsSafe(s: Sys, u: Unicode, w: nat, evidence: Evidence, clock: Clock)
    requires StableOnAscii(u) && Safe(s)
    ensures Safe(Next(s, u, Record(w, evidence), clock))
  {
    if At(s, w) && s.workers[w].pc.Returned? {
      var t := Next(s, u, Record(w, evidence), clock);
      OpKeepsSafe(s, t, u, OutcomeOp(s.workers[w].pc.id, s.workers[w].pc.verdict, evidence), clock);
    }
  }

  lemma {:induction false} ResolveKeepsSafe(s: Sys, u: Unicode, w: nat, reconciler: Argument, evidence: Evidence,
                                            clock: Clock)
    requires StableOnAscii(u) && Safe(s)
    ensures Safe(Next(s, u, Resolve(w, reconciler, evidence), clock))
  {
    if At(s, w) && s.workers[w].pc.Decided? {
      var t := Next(s, u, Resolve(w, reconciler, evidence), clock);
      OpKeepsSafe(s, t, u, ReconcileOp(s.workers[w].pc.id, s.workers[w].pc.verdict, reconciler, evidence), clock);
    }
  }

  lemma {:induction false} NextKeepsSafe(s: Sys, u: Unicode, step: Step, clock: Clock)
    requires StableOnAscii(u) && Safe(s)
    ensures Safe(Next(s, u, step, clock))
  {
    match step
    case Claim(w, lease, scope) => ClaimKeepsSafe(s, u, w, lease, scope, clock);
    case Invoke(w, reply, charged) => InvokeKeepsSafe(s, u, w, reply, charged, clock);
    case Transact(op) => OpKeepsSafe(s, Next(s, u, step, clock), u, op, clock);
    case Record(w, evidence) => RecordKeepsSafe(s, u, w, evidence, clock);
    case Resolve(w, reconciler, evidence) => ResolveKeepsSafe(s, u, w, reconciler, evidence, clock);
    case _ => SilentStepKeepsSafe(s, u, step, clock);
  }

  /** The steps that touch neither the ledger nor the world. */
  lemma {:induction false} SilentStepKeepsSafe(s: Sys, u: Unicode, step: Step, clock: Clock)
    requires Safe(s) && (step.Start? || step.Read? || step.Ask? || step.Crash?)
    ensures Safe(Next(s, u, step, clock))
  {
    SilentStep(s, u, step, clock);
    SameLedger(s, Next(s, u, step, clock));
  }

  lemma {:induction false} SilentStep(s: Sys, u: Unicode, step: Step, clock: Clock)
    requires step.Start? || step.Read? || step.Ask? || step.Crash?
    ensures var t := Next(s, u, step, clock);
            t.ledger == s.ledger && t.calls == s.calls && t.charges == s.charges && NoNewHolders(s, t)
  {
  }

  lemma {:induction false} SameLedger(s: Sys, t: Sys)
    requires Safe(s) && t.ledger == s.ledger && t.calls == s.calls
    requires NoNewHolders(s, t)
    ensures Safe(t)
  {
    EvolvesReflexive(s.ledger);
    LedgerStepKeepsSafe(s, t);
  }

  lemma {:induction false} EvolvesReflexive(l: Ledger)
    ensures Evolves(l, l)
  {
  }

  lemma {:induction false} OpKeepsSafe(s: Sys, t: Sys, u: Unicode, op: Op, clock: Clock)
    requires StableOnAscii(u) && Safe(s)
    requires t.ledger == Apply(s.ledger, u, op, clock) && t.calls == s.calls
    requires NoNewHolders(s, t)
    ensures Safe(t)
  {
    ApplyKeepsSound(s.ledger, u, op, clock);
    SoundIsShaped(s.ledger);
    ApplyEvolves(s.ledger, u, op, clock);
    LedgerStepKeepsSafe(s, t);
  }

  lemma {:induction false} ReachIsSafe(u: Unicode, steps: seq<(Step, Clock)>)
    requires StableOnAscii(u)
    ensures Safe(Reach(u, steps))
  {
    if steps == [] {
      forall id ensures Pending(START, id) == {} {}
    } else {
      ReachIsSafe(u, steps[..|steps| - 1]);
      var last := steps[|steps| - 1];
      NextKeepsSafe(Reach(u, steps[..|steps| - 1]), u, last.0, last.1);
    }
  }

  /** At most one dispatch per execution, over every run: the calls made plus the calls some worker is
      about to make never exceed the claims in the log, which never exceed one. */
  lemma {:induction false} AtMostOneDispatch(u: Unicode, steps: seq<(Step, Clock)>, id: string)
    requires StableOnAscii(u)
    ensures var s := Reach(u, steps);
            Calls(s.calls, id) + |Pending(s, id)| <= Count(s.ledger.events, id, LeaseClaimed) <= 1
  {
    ReachIsSafe(u, steps);
    var s := Reach(u, steps);
    if id in s.ledger.rows { ClaimCount(s.ledger, id); } else { UnclaimedCount(s.ledger, id); }
  }

  /** Every call follows the creation, the approval and the claim of its execution in the log, and is
      made under the digest that execution was created, approved and claimed with. */
  lemma {:induction false} EveryCallWasAuthorised(u: Unicode, steps: seq<(Step, Clock)>, k: nat)
    requires StableOnAscii(u) && k < |Reach(u, steps).calls|
    ensures var s := Reach(u, steps); Authorised(s.ledger, s.calls[k])
  {
    ReachIsSafe(u, steps);
  }
}
