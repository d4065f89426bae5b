/** The six arms of the ablation (benchmark/arms): one run loop, and the hooks each arm overrides. */
module Arms {
  import opened Wrappers
  import opened PaymentWorld

  datatype Arm = A | B | C | D | E | F

  predicate BindsScope(arm: Arm) {
    arm.B? || arm.E? || arm.F?
  }

  predicate UsesLease(arm: Arm) {
    arm.C? || arm.E? || arm.F?
  }

  datatype Intent = Intent(intentId: string, amount: int)

  datatype FinalState = Unset | BlockedScope | BlockedLease | Succeeded | Failed | PermanentlyUnresolved | Exhausted

  datatype Entry =
    | Blocked(state: FinalState, attempt: nat)
    | InterruptedAt(fault: Fault, attempt: nat)
    | SucceededAt(chargeId: nat, attempt: nat)
    | FailedAt(attempt: nat)
    | UnknownOutcome(fault: Fault, attempt: nat)
    | ReconcileFailed(attempt: nat)
    | Reconciled(outcome: Observed)
    | Postcondition(present: bool)

  datatype Result = Result(dispatches: nat, unauthorized: nat, scopeBlocks: nat, retries: nat,
                           reconciliations: nat, finalState: FinalState, evidence: seq<Entry>)

  const NO_RESULT := Result(0, 0, 0, 0, 0, Unset, [])

  /** Everything one run updates. */
  datatype Progress = Progress(world: World, lease: bool, result: Result)

  function Log(r: Result, e: Entry): Result {
    r.(evidence := r.evidence + [e])
  }

  function Requested(sc: Scenario, intent: Intent): Intent {
    if sc.mutateArguments then intent.(amount := intent.amount * 10) else intent
  }

  function KeyOf(arm: Arm, intent: Intent): Option<string> {
    if UsesLease(arm) then Some("lease:" + intent.intentId) else None
  }

  /** The `_on_interrupted` hook; true means another attempt is allowed. */
  function OnInterrupted(arm: Arm, p: Progress, fault: Fault, intentId: string, attempt: nat): (Progress, bool) {
    match arm
    case A => (p.(result := p.result.(retries := p.result.retries + 1)), true)
    case B => (p.(result := p.result.(retries := p.result.retries + 1)), true)
    case C => (p.(result := p.result.(retries := p.result.retries + 1)), true)
    case D => Reconcile(p, fault, intentId, attempt)
    case E =>
      var (q, again) := Reconcile(p, fault, intentId, attempt);
      (if again then q.(lease := true) else q, again)
    case F =>
      var present := ChargeCount(p.world, intentId) > 0;
      var r := Log(Log(p.result, UnknownOutcome(fault, attempt)), Postcondition(present));
      var counted := r.(reconciliations := r.reconciliations + 1);
      if present then (p.(result := counted.(finalState := Succeeded)), false)
      else (p.(result := counted, lease := true), true)
  }

  function Reconcile(p: Progress, fault: Fault, intentId: string, attempt: nat): (Progress, bool) {
    var r := Log(p.result, UnknownOutcome(fault, attempt));
    var observed := Lookup(p.world, intentId);
    match observed
    case Unavailable =>
      (p.(result := Log(r.(finalState := PermanentlyUnresolved), ReconcileFailed(attempt))), false)
    case Found(_, _) =>
      (p.(result := Log(r.(reconciliations := r.reconciliations + 1, finalState := Succeeded), Reconciled(observed))),
       false)
    case NotFound =>
      (p.(result := Log(r.(reconciliations := r.reconciliations + 1), Reconciled(NotFound))), true)
  }

  /** One turn of the loop; true means it continues with the next attempt. */
  function Attempt(arm: Arm, sc: Scenario, intent: Intent, p: Progress, attempt: nat): (Progress, bool) {
    var requested := Requested(sc, intent);
    if BindsScope(arm) && requested != intent then
      (p.(result := Log(p.result.(scopeBlocks := p.result.scopeBlocks + 1, finalState := BlockedScope),
                        Blocked(BlockedScope, attempt))), false)
    else if UsesLease(arm) && !p.lease then
      (p.(result := Log(p.result.(finalState := BlockedLease), Blocked(BlockedLease, attempt))), false)
    else Dispatch(arm, FaultFor(sc, attempt), intent, requested.amount, p, attempt)
  }

  /** The counters once the attempt is on its way. */
  function Sent(r: Result, authorised: bool): Result {
    r.(dispatches := r.dispatches + 1, unauthorized := r.unauthorized + if authorised then 0 else 1)
  }

  /** The external call, and what the arm makes of its answer. */
  function Dispatch(arm: Arm, fault: Fault, intent: Intent, amount: int, p: Progress, attempt: nat): (Progress, bool) {
    var sent := Sent(p.result, amount == intent.amount);
    var (world, response) := ChargeOnce(p.world, intent.intentId, amount, fault, KeyOf(arm, intent));
    var q := Progress(world, p.lease && !UsesLease(arm), sent);
    match response
    case Interrupted(f) =>
      OnInterrupted(arm, q.(result := Log(sent, InterruptedAt(f, attempt))), f, intent.intentId, attempt)
    case Accepted(id) => (q.(result := Log(sent.(finalState := Succeeded), SucceededAt(id, attempt))), false)
    case Declined => (q.(result := Log(sent.(finalState := Failed), FailedAt(attempt))), false)
  }

  function Loop(arm: Arm, sc: Scenario, intent: Intent, p: Progress, attempt: nat): Progress
    decreases sc.attempts - attempt
  {
    if attempt >= sc.attempts then
      if p.result.finalState.Unset? then p.(result := p.result.(finalState := Exhausted)) else p
    else
      var (q, again) := Attempt(arm, sc, intent, p, attempt);
      if again then Loop(arm, sc, intent, q, attempt + 1) else q
  }

  /** A new arm, over the given world. */
  function RunArm(arm: Arm, sc: Scenario, intent: Intent, world: World): Progress {
    Loop(arm, sc, intent, Progress(world, true, NO_RESULT), 0)
  }

  // ------------------------------------------------------------------ the loop as it runs

  /** The result object the hooks update in place. */
  class ArmResult {
    var value: Result

    constructor ()
      ensures value == NO_RESULT
    {
      value := NO_RESULT;
    }

    method Add(e: Entry)
      modifies this
      ensures value == Log(old(value), e)
    {
      value := value.(evidence := value.evidence + [e]);
    }
  }

  class Runtime {
    const arm: Arm
    const world: PaymentProcessor
    var leaseAvailable: bool

    constructor (arm: Arm, world: PaymentProcessor)
      ensures this.arm == arm && this.world == world && leaseAvailable
    {
      this.arm, this.world, leaseAvailable := arm, world, true;
    }

    function State(result: ArmResult): Progress
      reads this, world, result
    {
      Progress(world.State(), leaseAvailable, result.value)
    }

    method Authorize(result: ArmResult, approved: Intent, requested: Intent) returns (ok: bool)
      modifies result
      ensures ok <==> !(BindsScope(arm) && requested != approved)
      ensures result.value
              == if ok then old(result.value) else old(result.value).(scopeBlocks := old(result.value).scopeBlocks + 1)
    {
      if BindsScope(arm) && requested != approved {
        result.value := result.value.(scopeBlocks := result.value.scopeBlocks + 1);
        return false;
      }
      return true;
    }

    method Consume() returns (ok: bool)
      modifies this
      ensures ok <==> !UsesLease(arm) || old(leaseAvailable)
      ensures leaseAvailable == (old(leaseAvailable) && !UsesLease(arm))
    {
      if !UsesLease(arm) { return true; }
      ok := leaseAvailable;
      leaseAvailable := false;
    }

    method ReconcileFirst(result: ArmResult, fault: Fault, intentId: string, attempt: nat) returns (again: bool)
      modifies result
      ensures (State(result), again) == Reconcile(old(State(result)), fault, intentId, attempt)
    {
      result.Add(UnknownOutcome(fault, attempt));
      var observed := Lookup(world.State(), intentId);
      if observed.Unavailable? {
        result.value := result.value.(finalState := PermanentlyUnresolved);
        result.Add(ReconcileFailed(attempt));
        return false;
      }
      result.value := result.value.(reconciliations := result.value.reconciliations + 1);
      if observed.Found? {
        result.value := result.value.(finalState := Succeeded);
        result.Add(Reconciled(observed));
        return false;
      }
      result.Add(Reconciled(NotFound));
      return true;
    }

    method Interruption(result: ArmResult, fault: Fault, intentId: string, attempt: nat) returns (again: bool)
      modifies this, result
      ensures (State(result), again) == OnInterrupted(arm, old(State(result)), fault, intentId, attempt)
    {
      match arm {
        case D =>
          again := ReconcileFirst(result, fault, intentId, attempt);
        case E =>
          again := ReconcileFirst(result, fault, intentId, attempt);
          if again { leaseAvailable := true; }
        case F =>
          result.Add(UnknownOutcome(fault, attempt));
          var present := ChargeCount(world.State(), intentId) > 0;
          result.value := result.value.(reconciliations := result.value.reconciliations + 1);
          result.Add(Postcondition(present));
          if present {
            result.value := result.value.(finalState := Succeeded);
            return false;
          }
          leaseAvailable := true;
          return true;
        case _ =>
          result.value := result.value.(retries := result.value.retries + 1);
          return true;
      }
    }

    /** The body of the loop. */
    method TryOnce(result: ArmResult, sc: Scenario, intent: Intent, requested: Intent, attempt: nat)
      returns (again: bool)
      requires requested == Requested(sc, intent)
      modifies this, world, result
      ensures (State(result), again) == Attempt(arm, sc, intent, old(State(result)), attempt)
    {
      var ok := Authorize(result, intent, requested);
      if !ok {
        result.value := result.value.(finalState := BlockedScope);
        result.Add(Blocked(BlockedScope, attempt));
        return false;
      }
      ok := Consume();
      if !ok {
        result.value := result.value.(finalState := BlockedLease);
        result.Add(Blocked(BlockedLease, attempt));
        return false;
      }
      again := DispatchOnce(result, FaultFor(sc, attempt), intent, requested.amount, attempt);
    }

    method DispatchOnce(result: ArmResult, fault: Fault, intent: Intent, amount: int, attempt: nat)
      returns (again: bool)
      requires !leaseAvailable || !UsesLease(arm)
      modifies this, world, result
      ensures (State(result), again) == Dispatch(arm, fault, intent, amount, old(State(result)), attempt)
    {
      result.value := result.value.(dispatches := result.value.dispatches + 1);
      if amount != intent.amount {
        result.value := result.value.(unauthorized := result.value.unauthorized + 1);
      }
      var response := world.MakeCharge(intent.intentId, amount, fault, KeyOf(arm, intent));
      match response {
        case Interrupted(f) =>
          result.Add(InterruptedAt(f, attempt));
          again := Interruption(result, f, intent.intentId, attempt);
        case Accepted(id) =>
          result.value := result.value.(finalState := Succeeded);
          result.Add(SucceededAt(id, attempt));
          return false;
        case Declined =>
          result.value := result.value.(finalState := Failed);
          result.Add(FailedAt(attempt));
          return false;
      }
    }

    method Run(sc: Scenario, intent: Intent) returns (result: ArmResult)
      modifies this, world
      ensures fresh(result)
      ensures State(result) == Loop(arm, sc, intent, Progress(old(world.State()), old(leaseAvailable), NO_RESULT), 0)
    {
      result := new ArmResult();
      var requested := if sc.mutateArguments then intent.(amount := intent.amount * 10) else intent;
      ghost var begun := State(result);
      var attempt := 0;
      while attempt < sc.attempts
        invariant attempt >= 0 && fresh(result)
        invariant Loop(arm, sc, intent, State(result), attempt) == Loop(arm, sc, intent, begun, 0)
        decreases sc.attempts - attempt
      {
        var again := TryOnce(result, sc, intent, requested, attempt);
        if !again { return; }
        attempt := attempt + 1;
      }
      if result.value.finalState.Unset? {
        result.value := result.value.(finalState := Exhausted);
      }
    }
  }
}
