/** Settled states tell the truth about the world: if the processor and the lookups are honest, the
    postconditions sound, and recovery runs only once the claiming worker is gone, then SUCCEEDED
    means exactly one charge and FAILED means none, whoever recorded it. */
module Settlement {
  import opened Wrappers
  import opened Principals
  import opened Ledger
  import opened History
  import opened Evolution
  import opened Protocol
  import opened AtMostOnce

  // ------------------------------------------------------------------ honesty

  /** The call did what its reply says; a lost reply may hide one charge or none. */
  predicate HonestCall(client: Client, reply: Reply, charged: nat) {
    match reply
    case Succeeded => charged == 1
    case Declined => charged == if client.PaymentClient? then 0 else 1
    case Raised => charged <= 1
  }

  predicate SoundCheck(check: Check, charged: nat) {
    match check
    case Present => charged > 0
    case Absent => charged == 0
    case NoAnswer => true
  }

  /** The processor's lookup and every postcondition report the world as it is. */
  predicate HonestProbe(probe: Probe, charged: nat) {
    match probe
    case NoLookup => true
    case LookupRaised => true
    case LookedUp(succeeded) => succeeded <==> charged > 0
    case Observed(checks) => forall k | 0 <= k < |checks| :: SoundCheck(checks[k], charged)
  }

  predicate Holds(pc: Pc, id: string) {
    (pc.Claimed? || pc.Returned?) && pc.id == id
  }

  ghost predicate Held(s: Sys, id: string) {
    exists w | w in s.workers :: Holds(s.workers[w].pc, id)
  }

  /** What the environment promises about one step. Outcomes and reconciliations are recorded only
      by the clients of the protocol; recovery does not sweep up a live worker's execution. */
  ghost predicate Honest(s: Sys, step: Step) {
    match step
    case Transact(op) =>
      && !op.OutcomeOp? && !op.ReconcileOp?
      && (op.RecoverOp? ==>
            forall id | IsInterrupted(s.ledger.rows, id, op.dispatcher, op.all) :: !Held(s, id))
    case Invoke(w, reply, charged) => At(s, w) ==> HonestCall(s.workers[w].client, reply, charged)
    case Ask(w, probe) =>
      At(s, w) && s.workers[w].pc.Reading? ==> HonestProbe(probe, Charged(s, s.workers[w].pc.id))
    case _ => true
  }

  ghost predicate HonestRun(u: Unicode, steps: seq<(Step, Clock)>) {
    steps == []
    || (&& HonestRun(u, steps[..|steps| - 1])
        && Honest(Reach(u, steps[..|steps| - 1]), steps[|steps| - 1].0))
  }

  // ------------------------------------------------------------------ the invariant

  /** What a recorded or pending verdict says about the number of charges. */
  predicate Settles(verdict: State, charged: nat) {
    && charged <= 1
    && (verdict.SUCCEEDED? ==> charged == 1)
    && (verdict.FAILED? ==> charged == 0)
    && (!Dispatched(verdict) ==> charged == 0)
  }

  /** The worker's program counter agrees with the ledger and the world. */
  predicate PcTruthful(rows: map<string, Row>, pc: Pc, charged: nat) {
    match pc
    case Idle => true
    case Claimed(id, _) => id in rows && rows[id].state.DISPATCHING? && charged == 0
    case Returned(id, verdict) =>
      id in rows && rows[id].state.DISPATCHING? && IsOutcome(verdict) && Settles(verdict, charged)
    case Reading(id) => id in rows && Dispatched(rows[id].state) && !rows[id].state.DISPATCHING?
    case Decided(id, verdict) =>
      && id in rows && Dispatched(rows[id].state) && !rows[id].state.DISPATCHING?
      && IsResolution(verdict) && Settles(verdict, charged)
  }

  function Subject(pc: Pc): string {
    match pc
    case Idle => ""
    case Claimed(id, _) => id
    case Returned(id, _) => id
    case Reading(id) => id
    case Decided(id, _) => id
  }

  ghost predicate RowsTruthful(s: Sys) {
    && (forall id | id in s.ledger.rows :: Settles(s.ledger.rows[id].state, Charged(s, id)))
    && (forall id | id !in s.ledger.rows :: Charged(s, id) == 0)
  }

  ghost predicate WorkersTruthful(s: Sys) {
    forall w | w in s.workers ::
      PcTruthful(s.ledger.rows, s.workers[w].pc, Charged(s, Subject(s.workers[w].pc)))
  }

  ghost predicate OneHolder(s: Sys) {
    forall v, w, id | v in s.workers && w in s.workers && Holds(s.workers[v].pc, id) && Holds(s.workers[w].pc, id) ::
      v == w
  }

  ghost predicate Truthful(s: Sys) {
    RowsTruthful(s) && WorkersTruthful(s) && OneHolder(s)
  }

  // ------------------------------------------------------------------ what anybody's transaction may do

  lemma {:induction false} CreateAddsNoVerdict(l: Ledger, u: Unicode, op: Op, clock: Clock)
    requires op.CreateOp? || op.RefusalOp? || op.RevokeOp?
    ensures NoNewVerdict(l.rows, Apply(l, u, op, clock).rows)
  {
  }

  lemma {:induction false} ApproveAddsNoVerdict(l: Ledger, u: Unicode, op: Op, clock: Clock)
    requires op.ApproveOp?
    ensures NoNewVerdict(l.rows, Apply(l, u, op, clock).rows)
  {
  }

  lemma {:induction false} ClaimAddsNoVerdict(l: Ledger, u: Unicode, dispatcher: string, lease: string, scope: string,
                                              clock: Clock)
    ensures NoNewVerdict(l.rows, ClaimLease(l, dispatcher, lease, scope, clock).0.rows)
  {
  }

  /** Verdicts are not invented, and a new row is a created one. */
  ghost predicate NoNewVerdict(before: map<string, Row>, after: map<string, Row>) {
    forall id | id in after ::
      if id in before then after[id].state == before[id].state || !IsResolution(after[id].state)
      else after[id].state.CREATED?
  }

  lemma {:induction false} OpAddsNoVerdict(l: Ledger, u: Unicode, op: Op, clock: Clock)
    requires Table(l) && !op.OutcomeOp? && !op.ReconcileOp?
    ensures NoNewVerdict(l.rows, Apply(l, u, op, clock).rows)
  {
    match op
    case RecoverOp(dispatcher, all) => RecoveryIsExact(l, dispatcher, all, clock);
    case ClaimOp(dispatcher, lease, scope) => ClaimAddsNoVerdict(l, u, dispatcher, lease, scope, clock);
    case ApproveOp(_, _, _, _, _) => ApproveAddsNoVerdict(l, u, op, clock);
    case _ => CreateAddsNoVerdict(l, u, op, clock);
  }

  lemma {:induction false} OpKeepsDispatching(l: Ledger, u: Unicode, op: Op, clock: Clock, id: string)
    requires Table(l) && id in l.rows && l.rows[id].state == DISPATCHING
    requires !op.OutcomeOp? && !op.ReconcileOp?
    requires op.RecoverOp? ==> !IsInterrupted(l.rows, id, op.dispatcher, op.all)
    ensures id in Apply(l, u, op, clock).rows && Apply(l, u, op, clock).rows[id].state == DISPATCHING
  {
    match op
    case RecoverOp(dispatcher, all) => RecoveryIsExact(l, dispatcher, all, clock);
    case ClaimOp(d, lease, scope) => ClaimTouchesOnlyApproved(l, d, lease, scope, clock, id);
    case ApproveOp(other, approver, scope, ttl, lease) =>
      ApproveTouchesOnlyCreated(l, u, other, approver, scope, ttl, lease, clock, id);
    case _ =>
  }

  // ------------------------------------------------------------------ steps of the ledger alone

  /** The ledger moved to `m`; nobody's program counter or charge changed. */
  lemma {:induction false} LedgerStepKeepsTruth(s: Sys, m: Ledger)
    requires Truthful(s) && Evolves(s.ledger, m) && NoNewVerdict(s.ledger.rows, m.rows)
    requires forall w | w in s.workers && (s.workers[w].pc.Claimed? || s.workers[w].pc.Returned?) ::
               s.workers[w].pc.id in m.rows && m.rows[s.workers[w].pc.id].state == DISPATCHING
    ensures Truthful(s.(ledger := m))
  {
    var t := s.(ledger := m);
    forall id | id in t.ledger.rows ensures Settles(t.ledger.rows[id].state, Charged(t, id)) {
      if id in s.ledger.rows {
        assert RowEvolves(s.ledger.rows[id], m.rows[id]);
        assert Settles(s.ledger.rows[id].state, Charged(s, id));
      } else {
        assert Charged(s, id) == 0;
      }
    }
    forall w | w in t.workers
      ensures PcTruthful(t.ledger.rows, t.workers[w].pc, Charged(t, Subject(t.workers[w].pc)))
    {
      PcStays(s.ledger, m, s.workers[w].pc, Charged(s, Subject(s.workers[w].pc)));
    }
  }

  lemma {:induction false} PcStays(l: Ledger, m: Ledger, pc: Pc, charged: nat)
    requires PcTruthful(l.rows, pc, charged) && Evolves(l, m)
    requires pc.Claimed? || pc.Returned? ==> pc.id in m.rows && m.rows[pc.id].state == DISPATCHING
    ensures PcTruthful(m.rows, pc, charged)
  {
    if !pc.Idle? {
      assert RowEvolves(l.rows[pc.id], m.rows[pc.id]);
    }
  }

  lemma {:induction false} TransactKeepsTruth(s: Sys, u: Unicode, op: Op, clock: Clock)
    requires Sound(s.ledger) && Truthful(s) && Honest(s, Transact(op))
    ensures Truthful(Next(s, u, Transact(op), clock))
  {
    var m := Apply(s.ledger, u, op, clock);
    SoundIsShaped(s.ledger);
    ApplyEvolves(s.ledger, u, op, clock);
    OpAddsNoVerdict(s.ledger, u, op, clock);
    forall w | w in s.workers && (s.workers[w].pc.Claimed? || s.workers[w].pc.Returned?)
      ensures s.workers[w].pc.id in m.rows && m.rows[s.workers[w].pc.id].state == DISPATCHING
    {
      var id := s.workers[w].pc.id;
      assert PcTruthful(s.ledger.rows, s.workers[w].pc, Charged(s, Subject(s.workers[w].pc)));
      assert Holds(s.workers[w].pc, id);
      OpKeepsDispatching(s.ledger, u, op, clock, id);
    }
    LedgerStepKeepsTruth(s, m);
  }

  // ------------------------------------------------------------------ the workers' steps

  /** One worker moved to a program counter that is itself truthful and holds nothing anew. */
  lemma {:induction false} GotoKeepsTruth(s: Sys, w: nat, pc: Pc)
    requires Truthful(s) && At(s, w)
    requires PcTruthful(s.ledger.rows, pc, Charged(s, Subject(pc)))
    requires forall id | Holds(pc, id) :: Holds(s.workers[w].pc, id) || !Held(s, id)
    ensures Truthful(Goto(s, w, pc))
  {
    var t := Goto(s, w, pc);
    forall v | v in t.workers
      ensures PcTruthful(t.ledger.rows, t.workers[v].pc, Charged(t, Subject(t.workers[v].pc)))
    {
      if v != w { assert t.workers[v] == s.workers[v]; }
    }
    forall v, x, id | v in t.workers && x in t.workers && Holds(t.workers[v].pc, id) && Holds(t.workers[x].pc, id)
      ensures v == x
    {
      if v != w { assert Holds(s.workers[v].pc, id); }
      if x != w { assert Holds(s.workers[x].pc, id); }
    }
  }

  lemma {:induction false} OnlyDispatchingIsHeld(s: Sys, id: string)
    requires WorkersTruthful(s) && (id in s.ledger.rows ==> s.ledger.rows[id].state != DISPATCHING)
    ensures !Held(s, id)
  {
    forall v | v in s.workers ensures !Holds(s.workers[v].pc, id) {
      assert PcTruthful(s.ledger.rows, s.workers[v].pc, Charged(s, Subject(s.workers[v].pc)));
    }
  }

  lemma {:induction false} ClaimKeepsTruth(s: Sys, u: Unicode, w: nat, lease: string, scope: string, clock: Clock)
    requires Sound(s.ledger) && Truthful(s)
    ensures Truthful(Next(s, u, Step.Claim(w, lease, scope), clock))
  {
    if At(s, w) && s.workers[w].pc.Idle? {
      var d := s.workers[w].dispatcher;
      var (m, reply) := ClaimLease(s.ledger, d, lease, scope, clock);
      TransactKeepsTruth(s, u, ClaimOp(d, lease, scope), clock);
      ClaimShape(s, u, w, lease, scope, clock);
      if reply.Some? {
        GrantedRow(s.ledger, d, lease, scope, clock);
        HolderOfApproved(s, m, w, reply.value, scope);
      }
    }
  }

  lemma {:induction false} ClaimShape(s: Sys, u: Unicode, w: nat, lease: string, scope: string, clock: Clock)
    requires At(s, w) && s.workers[w].pc.Idle?
    ensures var d := s.workers[w].dispatcher;
            var (m, reply) := ClaimLease(s.ledger, d, lease, scope, clock);
            && Next(s, u, Transact(ClaimOp(d, lease, scope)), clock) == s.(ledger := m)
            && Next(s, u, Step.Claim(w, lease, scope), clock)
               == if reply.None? then s.(ledger := m) else Goto(s.(ledger := m), w, Claimed(reply.value, scope))
  {
  }

  lemma {:induction false} GrantedRow(l: Ledger, dispatcher: string, lease: string, scope: string, clock: Clock)
    requires Table(l) && ClaimLease(l, dispatcher, lease, scope, clock).1.Some?
    ensures var (m, reply) := ClaimLease(l, dispatcher, lease, scope, clock);
            && reply.value in l.rows && l.rows[reply.value].state == APPROVED
            && reply.value in m.rows && m.rows[reply.value].state == DISPATCHING
  {
    var id := ClaimLease(l, dispatcher, lease, scope, clock).1.value;
    ClaimSucceedsExactlyWhen(l, id, dispatcher, lease, scope, clock);
  }

  lemma {:induction false} HolderOfApproved(s: Sys, m: Ledger, w: nat, id: string, scope: string)
    requires Truthful(s) && Truthful(s.(ledger := m)) && At(s, w)
    requires id in s.ledger.rows && s.ledger.rows[id].state == APPROVED
    requires id in m.rows && m.rows[id].state == DISPATCHING
    ensures Truthful(Goto(s.(ledger := m), w, Claimed(id, scope)))
  {
    assert Settles(s.ledger.rows[id].state, Charged(s, id));
    OnlyDispatchingIsHeld(s, id);
    assert !Held(s.(ledger := m), id);
    GotoKeepsTruth(s.(ledger := m), w, Claimed(id, scope));
  }

  lemma {:induction false} InvokeKeepsTruth(s: Sys, u: Unicode, w: nat, reply: Reply, charged: nat, clock: Clock)
    requires Truthful(s) && Honest(s, Invoke(w, reply, charged))
    ensures Truthful(Next(s, u, Invoke(w, reply, charged), clock))
  {
    if At(s, w) && s.workers[w].pc.Claimed? {
      var id := s.workers[w].pc.id;
      var verdict := Verdict(s.workers[w].client, reply);
      var t := Next(s, u, Invoke(w, reply, charged), clock);
      assert PcTruthful(s.ledger.rows, s.workers[w].pc, Charged(s, id));
      assert Settles(verdict, charged);
      ChargeReaches(s, t, w, id, verdict, charged);
    }
  }

  /** Charging an execution only its caller holds leaves every other statement about it vacuous. */
  lemma {:induction false} ChargeReaches(s: Sys, t: Sys, w: nat, id: string, verdict: State, charged: nat)
    requires Truthful(s) && At(s, w) && s.workers[w].pc.Claimed? && s.workers[w].pc.id == id
    requires IsOutcome(verdict) && Settles(verdict, charged)
    requires t.ledger == s.ledger && t.workers == Goto(s, w, Returned(id, verdict)).workers
    requires t.charges == s.charges[id := charged]
    ensures Truthful(t)
  {
    assert Holds(s.workers[w].pc, id);
    assert PcTruthful(s.ledger.rows, s.workers[w].pc, Charged(s, Subject(s.workers[w].pc)));
    forall other ensures other != id ==> Charged(t, other) == Charged(s, other) {}
    forall other | other in t.ledger.rows ensures Settles(t.ledger.rows[other].state, Charged(t, other)) {
      assert Settles(s.ledger.rows[other].state, Charged(s, other));
    }
    forall v | v in t.workers
      ensures PcTruthful(t.ledger.rows, t.workers[v].pc, Charged(t, Subject(t.workers[v].pc)))
    {
      if v != w {
        assert t.workers[v] == s.workers[v];
        var pc := s.workers[v].pc;
        assert PcTruthful(s.ledger.rows, pc, Charged(s, Subject(pc)));
        assert Holds(pc, id) ==> v == w;
      }
    }
    forall v, x, other
      | v in t.workers && x in t.workers && Holds(t.workers[v].pc, other) && Holds(t.workers[x].pc, other)
      ensures v == x
    {
      assert Holds(s.workers[v].pc, other) && Holds(s.workers[x].pc, other);
    }
  }

  /** An accepted outcome or reconciliation rewrites one state, and the ledger evolves. */
  ghost predicate Rewrites(l: Ledger, m: Ledger, id: string, verdict: State) {
    Evolves(l, m) && id in l.rows && m.rows == l.rows[id := l.rows[id].(state := verdict)]
  }

  lemma {:induction false} OutcomeRewrites(l: Ledger, id: string, verdict: State, evidence: Evidence, clock: Clock)
    ensures var (m, reply) := RecordOutcome(l, id, verdict, evidence, clock);
            if reply.Ok? then Rewrites(l, m, id, verdict) else m == l
  {
    OutcomeEvolves(l, id, verdict, evidence, clock);
  }

  lemma {:induction false} ReconcileRewrites(l: Ledger, u: Unicode, id: string, verdict: State, reconciler: Argument,
                                             evidence: Evidence, clock: Clock)
    ensures var (m, reply) := Reconcile(l, u, id, verdict, reconciler, evidence, clock);
            if reply.Ok? then Rewrites(l, m, id, verdict) && l.rows[id].state == UNKNOWN else m == l
  {
    ReconcileEvolves(l, u, id, verdict, reconciler, evidence, clock);
  }

  lemma {:induction false} RecordKeepsTruth(s: Sys, u: Unicode, w: nat, evidence: Evidence, clock: Clock)
    requires Truthful(s)
    ensures Truthful(Next(s, u, Record(w, evidence), clock))
  {
    if At(s, w) && s.workers[w].pc.Returned? {
      var Returned(id, verdict) := s.workers[w].pc;
      assert PcTruthful(s.ledger.rows, s.workers[w].pc, Charged(s, Subject(s.workers[w].pc)));
      GotoKeepsTruth(s, w, Idle);
      OutcomeRewrites(s.ledger, id, verdict, evidence, clock);
      ReleasedIsFree(s, w, id);
      var (m, reply) := RecordOutcome(s.ledger, id, verdict, evidence, clock);
      if reply.Ok? { VerdictKeepsTruth(Goto(s, w, Idle), m, id, verdict); }
    }
  }

  lemma {:induction false} ReleasedIsFree(s: Sys, w: nat, id: string)
    requires OneHolder(s) && At(s, w) && Holds(s.workers[w].pc, id)
    ensures !Held(Goto(s, w, Idle), id)
  {
  }

  /** Writing a verdict that agrees with the world on a row nobody holds. */
  lemma {:induction false} VerdictKeepsTruth(s: Sys, m: Ledger, id: string, verdict: State)
    requires Truthful(s) && Rewrites(s.ledger, m, id, verdict)
    requires Settles(verdict, Charged(s, id)) && !Held(s, id)
    ensures Truthful(s.(ledger := m))
  {
    var t := s.(ledger := m);
    forall other | other in t.ledger.rows ensures Settles(t.ledger.rows[other].state, Charged(t, other)) {
      if other != id { assert Settles(s.ledger.rows[other].state, Charged(s, other)); }
    }
    forall w | w in t.workers
      ensures PcTruthful(t.ledger.rows, t.workers[w].pc, Charged(t, Subject(t.workers[w].pc)))
    {
      var pc := s.workers[w].pc;
      assert PcTruthful(s.ledger.rows, pc, Charged(s, Subject(pc)));
      assert !Holds(pc, id);
      PcStays(s.ledger, m, pc, Charged(s, Subject(pc)));
    }
  }

  lemma {:induction false} ResolveKeepsTruth(s: Sys, u: Unicode, w: nat, reconciler: Argument, evidence: Evidence,
                                             clock: Clock)
    requires Truthful(s)
    ensures Truthful(Next(s, u, Resolve(w, reconciler, evidence), clock))
  {
    if At(s, w) && s.workers[w].pc.Decided? {
      var Decided(id, verdict) := s.workers[w].pc;
      assert PcTruthful(s.ledger.rows, s.workers[w].pc, Charged(s, Subject(s.workers[w].pc)));
      GotoKeepsTruth(s, w, Idle);
      var mid := Goto(s, w, Idle);
      ReconcileRewrites(s.ledger, u, id, verdict, reconciler, evidence, clock);
      OnlyDispatchingIsHeld(mid, id);
      var (m, reply) := Reconcile(s.ledger, u, id, verdict, reconciler, evidence, clock);
      if reply.Ok? { VerdictKeepsTruth(mid, m, id, verdict); }
    }
  }

  /** A sound list of checks decides only what is so: whichever check answers, they agree. */
  lemma {:induction false} VerifyIsSound(checks: seq<Check>, charged: nat)
    requires forall k | 0 <= k < |checks| :: SoundCheck(checks[k], charged)
    ensures SoundCheck(Verify(checks), charged)
    ensures Verify(checks) == NoAnswer <==> forall k | 0 <= k < |checks| :: checks[k] == NoAnswer
  {
  }

  lemma {:induction false} AskKeepsTruth(s: Sys, u: Unicode, w: nat, probe: Probe, clock: Clock)
    requires Truthful(s) && Honest(s, Ask(w, probe))
    ensures Truthful(Next(s, u, Ask(w, probe), clock))
  {
    if At(s, w) && s.workers[w].pc.Reading? {
      var id := s.workers[w].pc.id;
      assert PcTruthful(s.ledger.rows, s.workers[w].pc, Charged(s, Subject(s.workers[w].pc)));
      assert Settles(s.ledger.rows[id].state, Charged(s, id));
      if probe.Observed? { VerifyIsSound(probe.checks, Charged(s, id)); }
      GotoKeepsTruth(s, w, Decided(id, Resolution(probe)));
    }
  }

  /** Nothing happened but that workers left, or came idle. */
  ghost predicate OnlyChurn(s: Sys, t: Sys) {
    && t.ledger == s.ledger && t.charges == s.charges
    && forall v | v in t.workers :: t.workers[v].pc.Idle? || (v in s.workers && t.workers[v] == s.workers[v])
  }

  lemma {:induction false} StartIsChurn(s: Sys, u: Unicode, w: nat, dispatcher: string, client: Client, clock: Clock)
    ensures OnlyChurn(s, Next(s, u, Start(w, dispatcher, client), clock))
  {
  }

  lemma {:induction false} CrashIsChurn(s: Sys, u: Unicode, w: nat, clock: Clock)
    ensures OnlyChurn(s, Next(s, u, Crash(w), clock))
  {
  }

  lemma {:induction false} ChurnKeepsWorkers(s: Sys, t: Sys)
    requires WorkersTruthful(s) && OnlyChurn(s, t)
    ensures WorkersTruthful(t)
  {
    forall v | v in t.workers
      ensures PcTruthful(t.ledger.rows, t.workers[v].pc, Charged(t, Subject(t.workers[v].pc)))
    {
      if !t.workers[v].pc.Idle? {
        assert PcTruthful(s.ledger.rows, s.workers[v].pc, Charged(s, Subject(s.workers[v].pc)));
      }
    }
  }

  lemma {:induction false} ChurnKeepsHolders(s: Sys, t: Sys)
    requires OneHolder(s) && OnlyChurn(s, t)
    ensures OneHolder(t)
  {
    forall v, x, id | v in t.workers && x in t.workers && Holds(t.workers[v].pc, id) && Holds(t.workers[x].pc, id)
      ensures v == x
    {
      assert Holds(s.workers[v].pc, id) && Holds(s.workers[x].pc, id);
    }
  }

  lemma {:induction false} ChurnKeepsTruth(s: Sys, t: Sys)
    requires Truthful(s) && OnlyChurn(s, t)
    ensures Truthful(t)
  {
    ChurnKeepsWorkers(s, t);
    ChurnKeepsHolders(s, t);
  }

  lemma {:induction false} NextKeepsTruth(s: Sys, u: Unicode, step: Step, clock: Clock)
    requires Sound(s.ledger) && Truthful(s) && Honest(s, step)
    ensures Truthful(Next(s, u, step, clock))
  {
    match step
    case Transact(op) => TransactKeepsTruth(s, u, op, clock);
    case Claim(w, lease, scope) => ClaimKeepsTruth(s, u, w, lease, scope, clock);
    case Invoke(w, reply, charged) => InvokeKeepsTruth(s, u, w, reply, charged, clock);
    case Record(w, evidence) => RecordKeepsTruth(s, u, w, evidence, clock);
    case Read(w, id) =>
      if Next(s, u, step, clock) != s { GotoKeepsTruth(s, w, Reading(id)); }
    case Ask(w, probe) => AskKeepsTruth(s, u, w, probe, clock);
    case Resolve(w, reconciler, evidence) => ResolveKeepsTruth(s, u, w, reconciler, evidence, clock);
    case Start(w, dispatcher, client) =>
      StartIsChurn(s, u, w, dispatcher, client, clock);
      ChurnKeepsTruth(s, Next(s, u, step, clock));
    case Crash(w) =>
      CrashIsChurn(s, u, w, clock);
      ChurnKeepsTruth(s, Next(s, u, step, clock));
  }

  lemma {:induction false} HonestRunIsTruthful(u: Unicode, steps: seq<(Step, Clock)>)
    requires StableOnAscii(u) && HonestRun(u, steps)
    ensures Truthful(Reach(u, steps))
  {
    if steps != [] {
      var shorter, last := steps[..|steps| - 1], steps[|steps| - 1];
      HonestRunIsTruthful(u, shorter);
      ReachIsSafe(u, shorter);
      NextKeepsTruth(Reach(u, shorter), u, last.0, last.1);
    }
  }

  /** The main theorem: at every moment of every honest run, SUCCEEDED means exactly one charge,
      FAILED and every undispatched state mean none, and nothing was ever charged twice. */
  lemma {:induction false} SettledStatesTellTheTruth(u: Unicode, steps: seq<(Step, Clock)>, id: string)
    requires StableOnAscii(u) && HonestRun(u, steps) && id in Reach(u, steps).ledger.rows
    ensures var s := Reach(u, steps);
            && Charged(s, id) <= 1
            && (s.ledger.rows[id].state == SUCCEEDED ==> Charged(s, id) == 1)
            && (s.ledger.rows[id].state == FAILED ==> Charged(s, id) == 0)
            && (!Dispatched(s.ledger.rows[id].state) ==> Charged(s, id) == 0)
  {
    HonestRunIsTruthful(u, steps);
    var s := Reach(u, steps);
    assert Settles(s.ledger.rows[id].state, Charged(s, id));
  }

  /** Verifier.retry_is_safe: with sound checks, permission to retry an execution that nobody is
      dispatching means it was not charged. */
  lemma {:induction false} RetryIsSafeOnlyWhenAbsent(checks: seq<Check>, charged: nat)
    requires forall k | 0 <= k < |checks| :: SoundCheck(checks[k], charged)
    requires Verify(checks) == Absent
    ensures charged == 0
  {
    VerifyIsSound(checks, charged);
  }
}
