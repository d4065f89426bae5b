/** What the README measures on nine scenarios, for every fault sequence, every number of attempts
    and every combination of processor capabilities. */
module ArmTheorems {
  import opened Wrappers
  import opened PaymentWorld
  import opened Arms

  /** The arms that find out what happened before they try again. */
  predicate FindsOut(arm: Arm) {
    arm.D? || arm.E? || arm.F?
  }

  /** The channel such an arm asks is open: F observes the world, D and E ask the processor. */
  predicate CanFindOut(arm: Arm, w: World) {
    arm.F? || w.supportsLookup
  }

  /** Nothing charged so far, nothing decided, the lease (if any) at hand. */
  predicate Clean(arm: Arm, p: Progress) {
    p.world.charges == [] && p.result.finalState.Unset? && (UsesLease(arm) ==> p.lease)
  }

  ghost predicate AllFor(charges: seq<Charge>, intentId: string, amount: int) {
    forall k | 0 <= k < |charges| :: charges[k].intentId == intentId && charges[k].amount == amount
  }

  // ------------------------------------------------------------------ safety

  /** What one charge does to a world without charges. */
  lemma {:induction false} ChargeFromEmpty(w: World, intentId: string, amount: int, fault: Fault, key: Option<string>)
    requires w.charges == []
    ensures var (v, response) := ChargeOnce(w, intentId, amount, fault, key);
            && v == w.(charges := v.charges, nextId := v.nextId)
            && (if BeforeEffect(fault) || fault.ProcessorError? then v == w
                else v.nextId == w.nextId + 1 && v.charges == [Charge(w.nextId + 1, intentId, amount, key)])
            && (response.Interrupted? <==> Interrupting(fault))
            && (response.Interrupted? ==> response.fault == fault)
            && (response.Declined? <==> fault.ProcessorError?)
  {
  }

  /** After an interruption with at most this one charge in the world: an arm that finds out retries
      exactly when it can tell that nothing happened. */
  lemma {:induction false} InterruptionFromClean(arm: Arm, p: Progress, fault: Fault, intentId: string, attempt: nat)
    requires FindsOut(arm) && p.result.finalState.Unset?
    requires p.world.charges == [] || (|p.world.charges| == 1 && p.world.charges[0].intentId == intentId)
    ensures var (q, again) := OnInterrupted(arm, p, fault, intentId, attempt);
            && q.world == p.world
            && (again <==> CanFindOut(arm, p.world) && p.world.charges == [])
            && (again ==> q.result.finalState.Unset? && (UsesLease(arm) ==> q.lease))
            && (!again ==> q.result.finalState == if CanFindOut(arm, p.world) then Succeeded else PermanentlyUnresolved)
  {
    assert p.world.charges != [] ==> p.world.charges[1..] == [];
    assert OfIntent(p.world.charges, intentId) == p.world.charges;
  }

  /** One attempt from a clean state either leaves a clean state to retry from, or ends the run. */
  lemma {:induction false} AttemptFromClean(arm: Arm, sc: Scenario, intent: Intent, p: Progress, attempt: nat)
    requires FindsOut(arm) && Clean(arm, p)
    ensures var (q, again) := Attempt(arm, sc, intent, p, attempt);
            && q.world.supportsLookup == p.world.supportsLookup
            && (again ==> Clean(arm, q) && BeforeEffect(FaultFor(sc, attempt)) && CanFindOut(arm, p.world))
            && (!again ==> Ended(arm, intent, Requested(sc, intent).amount, q))
  {
    var requested := Requested(sc, intent);
    if !(BindsScope(arm) && requested != intent) {
      DispatchFromClean(arm, FaultFor(sc, attempt), intent, requested.amount, p, attempt);
    }
  }

  lemma {:induction false} DispatchFromClean(arm: Arm, fault: Fault, intent: Intent, amount: int, p: Progress,
                                             attempt: nat)
    requires FindsOut(arm) && Clean(arm, p) && (BindsScope(arm) ==> amount == intent.amount)
    ensures var (q, again) := Dispatch(arm, fault, intent, amount, p, attempt);
            && q.world.supportsLookup == p.world.supportsLookup
            && (again ==> Clean(arm, q) && BeforeEffect(fault) && CanFindOut(arm, p.world))
            && (!again ==> Ended(arm, intent, amount, q))
  {
    ChargeFromEmpty(p.world, intent.intentId, amount, fault, KeyOf(arm, intent));
    var (w, response) := ChargeOnce(p.world, intent.intentId, amount, fault, KeyOf(arm, intent));
    if response.Interrupted? {
      InterruptionFromClean(arm,
                            Progress(w, p.lease && !UsesLease(arm),
                                     Log(Sent(p.result, amount == intent.amount), InterruptedAt(fault, attempt))),
                            fault, intent.intentId, attempt);
    }
  }

  /** How a run of such an arm may end. */
  ghost predicate Ended(arm: Arm, intent: Intent, amount: int, q: Progress) {
    && |q.world.charges| <= 1
    && AllFor(q.world.charges, intent.intentId, amount)
    && (CanFindOut(arm, q.world) ==> (q.result.finalState.Succeeded? <==> |q.world.charges| == 1))
    && (BindsScope(arm) ==> AllFor(q.world.charges, intent.intentId, intent.amount))
    && !q.result.finalState.Unset?
  }

  lemma {:induction false} LoopFromClean(arm: Arm, sc: Scenario, intent: Intent, p: Progress, attempt: nat)
    requires FindsOut(arm) && Clean(arm, p)
    ensures var q := Loop(arm, sc, intent, p, attempt);
            q.world.supportsLookup == p.world.supportsLookup && Ended(arm, intent, Requested(sc, intent).amount, q)
    decreases sc.attempts - attempt
  {
    if attempt < sc.attempts {
      AttemptFromClean(arm, sc, intent, p, attempt);
      var (q, again) := Attempt(arm, sc, intent, p, attempt);
      if again { LoopFromClean(arm, sc, intent, q, attempt + 1); }
    }
  }

  /** D, E and F charge at most once, and only for this intent; E and F never charge an amount other
      than the approved one; and whenever the arm can find out (always for F, with a working lookup
      for D and E) SUCCEEDED is reported exactly when there is one charge. */
  lemma {:induction false} FindingOutIsSafe(arm: Arm, sc: Scenario, intent: Intent)
    requires FindsOut(arm)
    ensures var q := RunArm(arm, sc, intent, Fresh(sc));
            && |q.world.charges| <= 1
            && AllFor(q.world.charges, intent.intentId, Requested(sc, intent).amount)
            && (arm.E? || arm.F? ==> AllFor(q.world.charges, intent.intentId, intent.amount))
            && (arm.F? || sc.supportsLookup ==> (q.result.finalState.Succeeded? <==> |q.world.charges| == 1))
  {
    LoopFromClean(arm, sc, intent, Progress(Fresh(sc), true, NO_RESULT), 0);
  }

  /** C spends its lease on the first attempt, whatever comes of it: what it charges and how it ends
      is decided there, and work that never happened is lost. */
  lemma {:induction false} LeaseAloneIsSafe(sc: Scenario, intent: Intent)
    ensures var q, first := RunArm(C, sc, intent, Fresh(sc)), FaultFor(sc, 0);
            && |q.world.charges|
               == (if sc.attempts <= 0 || BeforeEffect(first) || first.ProcessorError? then 0 else 1)
            && q.result.finalState
               == (if sc.attempts <= 0 then Exhausted
                   else if first.ProcessorError? then Failed
                   else if !Interrupting(first) then Succeeded
                   else if sc.attempts == 1 then Exhausted
                   else BlockedLease)
  {
    var p := Progress(Fresh(sc), true, NO_RESULT);
    if sc.attempts > 0 {
      var (q, again) := Attempt(C, sc, intent, p, 0);
      if again {
        assert Loop(C, sc, intent, p, 0) == Loop(C, sc, intent, q, 1);
        if sc.attempts > 1 {
          assert !Attempt(C, sc, intent, q, 1).1;
        }
      }
    }
  }

  // ------------------------------------------------------------------ arm A

  /** The first attempt whose result the caller sees, or the number of attempts. */
  function FirstClear(sc: Scenario, attempt: nat): (k: nat)
    ensures attempt <= k && (k < sc.attempts ==> !Interrupting(FaultFor(sc, k)))
    ensures forall i | attempt <= i < k :: i < sc.attempts && Interrupting(FaultFor(sc, i))
    decreases sc.attempts - attempt
  {
    if attempt < sc.attempts && Interrupting(FaultFor(sc, attempt)) then FirstClear(sc, attempt + 1) else attempt
  }

  function AfterEffects(sc: Scenario, from: nat, to: nat): nat
    decreases to - from
  {
    if from >= to then 0 else (if AfterEffect(FaultFor(sc, from)) then 1 else 0) + AfterEffects(sc, from + 1, to)
  }

  function ACharges(sc: Scenario, attempt: nat): nat {
    var k := FirstClear(sc, attempt);
    AfterEffects(sc, attempt, k) + (if k < sc.attempts && !FaultFor(sc, k).ProcessorError? then 1 else 0)
  }

  lemma {:induction false} ALoop(sc: Scenario, intent: Intent, p: Progress, attempt: nat)
    ensures |Loop(A, sc, intent, p, attempt).world.charges| == |p.world.charges| + ACharges(sc, attempt)
    decreases sc.attempts - attempt
  {
    if attempt < sc.attempts {
      var (q, again) := Attempt(A, sc, intent, p, attempt);
      if again {
        assert Interrupting(FaultFor(sc, attempt));
        ALoop(sc, intent, q, attempt + 1);
        assert FirstClear(sc, attempt) == FirstClear(sc, attempt + 1);
      } else {
        assert FirstClear(sc, attempt) == attempt;
      }
    }
  }

  /** How often arm A charges, from any world: once for every after-effect fault before the first
      attempt it can see, and once more if there is such an attempt and the processor accepts it. */
  lemma {:induction false} RetryingChargesExactly(sc: Scenario, intent: Intent, world: World)
    ensures |RunArm(A, sc, intent, world).world.charges| == |world.charges| + ACharges(sc, 0)
  {
    ALoop(sc, intent, Progress(world, true, NO_RESULT), 0);
  }

  // ------------------------------------------------------------------ simulations

  lemma {:induction false} BLoop(sc: Scenario, intent: Intent, p: Progress, attempt: nat)
    requires Requested(sc, intent) == intent
    ensures Loop(B, sc, intent, p, attempt) == Loop(A, sc, intent, p, attempt)
    decreases sc.attempts - attempt
  {
    if attempt < sc.attempts {
      assert Attempt(B, sc, intent, p, attempt) == Attempt(A, sc, intent, p, attempt);
      var (q, again) := Attempt(A, sc, intent, p, attempt);
      if again { BLoop(sc, intent, q, attempt + 1); }
    }
  }

  /** Scope binding alone: B is A on the approved call, and charges nothing on any other. */
  lemma {:induction false} ScopeBindingOnlyBlocks(sc: Scenario, intent: Intent, world: World)
    ensures if Requested(sc, intent) == intent
            then RunArm(B, sc, intent, world) == RunArm(A, sc, intent, world)
            else && RunArm(B, sc, intent, world).world == world
                 && (sc.attempts > 0 ==> RunArm(B, sc, intent, world).result.finalState == BlockedScope)
  {
    if Requested(sc, intent) == intent {
      BLoop(sc, intent, Progress(world, true, NO_RESULT), 0);
    }
  }

  /** A lookup and a look at the world agree on whether the effect is there. */
  lemma {:induction false} LookupSeesTheWorld(w: World, intentId: string)
    requires w.supportsLookup
    ensures Lookup(w, intentId).Found? <==> ChargeCount(w, intentId) > 0
    ensures !Lookup(w, intentId).Unavailable?
  {
  }

  lemma {:induction false} EFStep(sc: Scenario, intent: Intent, p: Progress, q: Progress, attempt: nat)
    requires p.world == q.world && p.lease == q.lease && p.world.supportsLookup
    requires p.result.finalState == q.result.finalState
    ensures var ((p', e), (q', f)) := (Attempt(E, sc, intent, p, attempt), Attempt(F, sc, intent, q, attempt));
            && e == f && p'.world == q'.world && p'.world.supportsLookup
            && p'.lease == q'.lease && p'.result.finalState == q'.result.finalState
  {
    var (world, response) := ChargeOnce(p.world, intent.intentId, Requested(sc, intent).amount,
                                        FaultFor(sc, attempt), KeyOf(E, intent));
    LookupSeesTheWorld(world, intent.intentId);
  }

  lemma {:induction false} EFLoop(sc: Scenario, intent: Intent, p: Progress, q: Progress, attempt: nat)
    requires p.world == q.world && p.lease == q.lease && p.world.supportsLookup
    requires p.result.finalState == q.result.finalState
    ensures var (p', q') := (Loop(E, sc, intent, p, attempt), Loop(F, sc, intent, q, attempt));
            p'.world == q'.world && p'.result.finalState == q'.result.finalState
    decreases sc.attempts - attempt
  {
    if attempt < sc.attempts {
      EFStep(sc, intent, p, q, attempt);
      var ((p', e), (q', f)) := (Attempt(E, sc, intent, p, attempt), Attempt(F, sc, intent, q, attempt));
      if e { EFLoop(sc, intent, p', q', attempt + 1); }
    }
  }

  /** While the lookup works, asking and observing are the same: E and F end in the same state with
      the same charges, from any world. */
  lemma {:induction false} AskingEqualsObserving(sc: Scenario, intent: Intent, world: World)
    requires world.supportsLookup
    ensures RunArm(E, sc, intent, world).world == RunArm(F, sc, intent, world).world
    ensures RunArm(E, sc, intent, world).result.finalState == RunArm(F, sc, intent, world).result.finalState
  {
    var p := Progress(world, true, NO_RESULT);
    EFLoop(sc, intent, p, p, 0);
  }

  /** The same charges but for the idempotency key. */
  ghost predicate SameAmounts(a: seq<Charge>, b: seq<Charge>) {
    && |a| == |b|
    && forall k | 0 <= k < |a| :: a[k] == b[k].(key := a[k].key)
  }

  ghost predicate SameButKeys(p: Progress, q: Progress) {
    && SameAmounts(p.world.charges, q.world.charges)
    && p.world == q.world.(charges := p.world.charges)
    && p.result.finalState == q.result.finalState
  }

  lemma {:induction false} DEStep(sc: Scenario, intent: Intent, p: Progress, q: Progress, attempt: nat)
    requires Requested(sc, intent) == intent
    requires Clean(D, p) && Clean(E, q) && SameButKeys(p, q)
    ensures var ((p', d), (q', e)) := (Attempt(D, sc, intent, p, attempt), Attempt(E, sc, intent, q, attempt));
            d == e && SameButKeys(p', q')
  {
    var fault := FaultFor(sc, attempt);
    ChargeFromEmpty(p.world, intent.intentId, intent.amount, fault, KeyOf(D, intent));
    ChargeFromEmpty(q.world, intent.intentId, intent.amount, fault, KeyOf(E, intent));
    if Interrupting(fault) {
      var v := ChargeOnce(p.world, intent.intentId, intent.amount, fault, KeyOf(D, intent)).0;
      var w := ChargeOnce(q.world, intent.intentId, intent.amount, fault, KeyOf(E, intent)).0;
      var r := Log(Sent(p.result, true), InterruptedAt(fault, attempt));
      var s := Log(Sent(q.result, true), InterruptedAt(fault, attempt));
      InterruptionFromClean(D, Progress(v, p.lease, r), fault, intent.intentId, attempt);
      InterruptionFromClean(E, Progress(w, false, s), fault, intent.intentId, attempt);
    }
  }

  lemma {:induction false} DELoop(sc: Scenario, intent: Intent, p: Progress, q: Progress, attempt: nat)
    requires Requested(sc, intent) == intent
    requires Clean(D, p) && Clean(E, q) && SameButKeys(p, q)
    ensures SameButKeys(Loop(D, sc, intent, p, attempt), Loop(E, sc, intent, q, attempt))
    decreases sc.attempts - attempt
  {
    if attempt < sc.attempts {
      DEStep(sc, intent, p, q, attempt);
      AttemptFromClean(D, sc, intent, p, attempt);
      AttemptFromClean(E, sc, intent, q, attempt);
      var ((p', d), (q', e)) := (Attempt(D, sc, intent, p, attempt), Attempt(E, sc, intent, q, attempt));
      if d { DELoop(sc, intent, p', q', attempt + 1); }
    }
  }

  /** On the approved call the lease and the scope check add nothing to D: D and E end in the same
      state with the same charges up to the key, even when the processor deduplicates by it. */
  lemma {:induction false} NoSynergy(sc: Scenario, intent: Intent)
    requires Requested(sc, intent) == intent
    ensures SameButKeys(RunArm(D, sc, intent, Fresh(sc)), RunArm(E, sc, intent, Fresh(sc)))
  {
    var p := Progress(Fresh(sc), true, NO_RESULT);
    DELoop(sc, intent, p, p, 0);
  }
}
