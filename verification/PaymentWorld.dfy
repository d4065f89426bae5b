/** The payment world of the ablation (benchmark/harness/world.py): ground truth about charges, and
    the faults that keep a caller from seeing it. */
module PaymentWorld {
  import opened Wrappers

  datatype Fault = NoFault | TimeoutAfterEffect | TimeoutBeforeEffect | CrashAfterEffect | CrashBeforeEffect
    | ProcessorError | ReconcileUnavailable

  predicate BeforeEffect(f: Fault) {
    f.TimeoutBeforeEffect? || f.CrashBeforeEffect?
  }

  predicate AfterEffect(f: Fault) {
    f.TimeoutAfterEffect? || f.CrashAfterEffect?
  }

  /** The faults that cost the caller its view of the attempt. */
  predicate Interrupting(f: Fault) {
    BeforeEffect(f) || AfterEffect(f)
  }

  /** Charge number n is the one with the id ch_n. */
  datatype Charge = Charge(chargeId: nat, intentId: string, amount: int, key: Option<string>)

  datatype World = World(charges: seq<Charge>, nextId: nat, supportsIdempotency: bool, supportsLookup: bool)

  datatype Response = Interrupted(fault: Fault) | Declined | Accepted(chargeId: nat)

  datatype Observed = Unavailable | NotFound | Found(chargeId: nat, count: nat)

  datatype Scenario = Scenario(name: string, faults: seq<Fault>, attempts: int, mutateArguments: bool,
                               supportsIdempotency: bool, supportsLookup: bool)

  /** The fault list is one per attempt; its last entry stands for all later ones. */
  function FaultFor(sc: Scenario, attempt: nat): Fault {
    if sc.faults == [] then NoFault
    else if attempt < |sc.faults| then sc.faults[attempt]
    else sc.faults[|sc.faults| - 1]
  }

  function WithKey(charges: seq<Charge>, key: string): Option<Charge> {
    if charges == [] then None
    else if charges[0].key == Some(key) then Some(charges[0])
    else WithKey(charges[1..], key)
  }

  function OfIntent(charges: seq<Charge>, intentId: string): seq<Charge> {
    if charges == [] then []
    else (if charges[0].intentId == intentId then [charges[0]] else []) + OfIntent(charges[1..], intentId)
  }

  function ChargeOnce(w: World, intentId: string, amount: int, fault: Fault, key: Option<string>): (World, Response) {
    if BeforeEffect(fault) then (w, Interrupted(fault))
    else if fault.ProcessorError? then (w, Declined)
    else
      var existing := if w.supportsIdempotency && key.Some? then WithKey(w.charges, key.value) else None;
      if existing.Some? then (w, if AfterEffect(fault) then Interrupted(fault) else Accepted(existing.value.chargeId))
      else
        var id := w.nextId + 1;
        (w.(charges := w.charges + [Charge(id, intentId, amount, key)], nextId := id),
         if AfterEffect(fault) then Interrupted(fault) else Accepted(id))
  }

  function Lookup(w: World, intentId: string): Observed {
    if !w.supportsLookup then Unavailable
    else
      var matches := OfIntent(w.charges, intentId);
      if matches == [] then NotFound else Found(matches[0].chargeId, |matches|)
  }

  function ChargeCount(w: World, intentId: string): nat {
    |OfIntent(w.charges, intentId)|
  }

  /** The world every arm is started in for a scenario. */
  function Fresh(sc: Scenario): World {
    World([], 0, sc.supportsIdempotency, sc.supportsLookup)
  }

  class PaymentProcessor {
    var charges: seq<Charge>
    var nextId: nat
    const supportsIdempotency: bool
    const supportsLookup: bool

    constructor (supportsIdempotency: bool, supportsLookup: bool)
      ensures State() == World([], 0, supportsIdempotency, supportsLookup)
    {
      this.supportsIdempotency, this.supportsLookup := supportsIdempotency, supportsLookup;
      charges, nextId := [], 0;
    }

    function State(): World
      reads this
    {
      World(charges, nextId, supportsIdempotency, supportsLookup)
    }

    /** A charge the processor performed is appended even when its caller never learns of it. */
    method MakeCharge(intentId: string, amount: int, fault: Fault, key: Option<string>) returns (response: Response)
      modifies this
      ensures (State(), response) == ChargeOnce(old(State()), intentId, amount, fault, key)
    {
      if BeforeEffect(fault) { return Interrupted(fault); }
      if fault.ProcessorError? { return Declined; }
      if supportsIdempotency && key.Some? {
        var existing := WithKey(charges, key.value);
        if existing.Some? {
          if AfterEffect(fault) { return Interrupted(fault); }
          return Accepted(existing.value.chargeId);
        }
      }
      nextId := nextId + 1;
      charges := charges + [Charge(nextId, intentId, amount, key)];
      if AfterEffect(fault) { return Interrupted(fault); }
      return Accepted(nextId);
    }
  }
}
