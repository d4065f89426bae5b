/** The clients of the ledger as objects: PaymentGuard (profiles/ap2/payment_guard.py), ToolGuard
    (adapters/guarded_tool.py) and Verifier (core/verification.py).

    Their methods run the steps of module Protocol in order, one after the other; what the outside
    world answers, and whether access control permits a step, are parameters. */
module Clients {
  import opened Wrappers
  import opened Principals
  import opened Json
  import opened Canonical
  import opened Binding
  import opened Scope
  import opened Protocol
  import E = ExecutionLedger
  import L = Ledger

  // ------------------------------------------------------------------ what is charged

  datatype ChargeIntent = ChargeIntent(runId: string, actorId: string, payeeId: string, amount: int, currency: string)

  const PAYMENT_FIELDS := ["code_revision", "tool_version", "execution_identity"]

  function ChargeScope(intent: ChargeIntent, policy: Option<PolicyBinding>, context: seq<Entry>): ExecutionScope {
    ExecutionScope(intent.runId, intent.actorId, "payments", "charge",
                   [Entry("amount", Int(intent.amount)), Entry("currency", Str(intent.currency))],
                   [ResourceIdentity("payee", intent.payeeId, intent.payeeId, "")],
                   policy, context, PAYMENT_FIELDS, [])
  }

  /** An opaque resource needs an identifier. */
  function ChargeDigest(env: Interpreter, intent: ChargeIntent, policy: Option<PolicyBinding>, context: seq<Entry>)
    : Result<string, ScopeError>
  {
    if intent.payeeId == "" then Err(Unresolvable) else ScopeDigest(env, ChargeScope(intent, policy, context))
  }

  /** One call that left the process: for which execution, and how long the committed log was then. */
  datatype ExternalCall = ExternalCall(id: string, charge: Option<ChargeIntent>, logLength: nat)

  /** The calls made under a claim, and how many others were made. */
  class External {
    var calls: seq<ExternalCall>
    var unclaimed: nat

    constructor ()
      ensures calls == [] && unclaimed == 0
    {
      calls, unclaimed := [], 0;
    }

    /** Once made, a call is not undone, however it ends. */
    method Call(c: ExternalCall)
      modifies this`calls
      ensures calls == old(calls) + [c]
    {
      calls := calls + [c];
    }

    /** A call that needs no approval. */
    method Pass()
      modifies this`unclaimed
      ensures unclaimed == old(unclaimed) + 1
    {
      unclaimed := unclaimed + 1;
    }
  }

  // ------------------------------------------------------------------ claim, call and record

  /** What a dispatch with nobody in between leaves: the ledger, and the calls made. */
  function Dispatched(l: L.Ledger, calls: seq<ExternalCall>, dispatcher: string, client: Client, lease: string,
                      scope: string, charge: Option<ChargeIntent>, reply: Reply, evidence: L.Evidence,
                      claiming: L.Clock, recording: L.Clock)
    : (L.Ledger, seq<ExternalCall>)
  {
    var (claimed, id) := L.ClaimLease(l, dispatcher, lease, scope, claiming);
    if id.None? then (claimed, calls)
    else (L.RecordOutcome(claimed, id.value, Verdict(client, reply), evidence, recording).0,
          calls + [ExternalCall(id.value, charge, |claimed.events|)])
  }

  lemma {:induction false} GrantedIsDispatching(l: L.Ledger, dispatcher: string, lease: string, scope: string,
                                                clock: L.Clock)
    requires L.ClaimLease(l, dispatcher, lease, scope, clock).1.Some?
    ensures var (m, id) := L.ClaimLease(l, dispatcher, lease, scope, clock);
            id.value in m.rows && m.rows[id.value].state == L.DISPATCHING
  {
  }

  datatype ClientError = Forbidden | Unbindable(scope: ScopeError) | Refused | Uncertain(id: string)
    | Rejected(why: L.Error) | AwaitingApproval(id: string) | ToolRaised

  // ------------------------------------------------------------------ the payment vertical

  class PaymentGuard {
    const ledger: E.ExecutionLedger
    const env: Interpreter
    const policy: Option<PolicyBinding>
    const context: seq<Entry>
    const processor: External

    constructor (ledger: E.ExecutionLedger, env: Interpreter, policy: Option<PolicyBinding>, context: seq<Entry>,
                 processor: External)
      ensures this.ledger == ledger && this.env == env && this.policy == policy && this.context == context
              && this.processor == processor
    {
      this.ledger, this.env, this.policy, this.context, this.processor := ledger, env, policy, context, processor;
    }

    function DigestFor(intent: ChargeIntent): Result<string, ScopeError> {
      ChargeDigest(env, intent, policy, context)
    }

    method Propose(intent: ChargeIntent, permitted: bool, newId: string, clock: L.Clock)
      returns (r: Result<string, ClientError>)
      modifies ledger.db
      ensures !permitted ==> r == Err(Forbidden) && ledger.db.State() == old(ledger.db.State())
      ensures permitted && DigestFor(intent).Err? ==>
                r == Err(Unbindable(DigestFor(intent).error)) && ledger.db.State() == old(ledger.db.State())
      ensures permitted && DigestFor(intent).Ok? ==>
                var (after, reply) := L.Create(old(ledger.db.State()), ledger.unicode, newId, intent.runId,
                                               Text(intent.actorId),
                                               "payments", "charge", DigestFor(intent).value, clock);
                ledger.db.State() == after && r == if reply.Ok? then Ok(reply.value) else Err(Rejected(reply.error))
    {
      if !permitted { return Err(Forbidden); }
      var digest := DigestFor(intent);
      if digest.Err? { return Err(Unbindable(digest.error)); }
      var created := ledger.Create(intent.runId, Text(intent.actorId), "payments", "charge", digest.value, newId,
                                   clock);
      return if created.Ok? then Ok(created.value) else Err(Rejected(created.error));
    }

    method Approve(id: string, intent: ChargeIntent, approver: Argument, permitted: bool, ttl: L.Ttl, newLease: string,
                   clock: L.Clock)
      returns (r: Result<string, ClientError>)
      modifies ledger.db
      ensures !permitted ==> r == Err(Forbidden) && ledger.db.State() == old(ledger.db.State())
      ensures permitted && DigestFor(intent).Err? ==>
                r == Err(Unbindable(DigestFor(intent).error)) && ledger.db.State() == old(ledger.db.State())
      ensures permitted && DigestFor(intent).Ok? ==>
                var reply := L.Approve(old(ledger.db.State()), ledger.unicode, id, approver, DigestFor(intent).value,
                                       ttl, newLease, clock).1;
                && ledger.db.State()
                     == E.AfterApproval(old(ledger.db.State()), ledger.unicode, id, approver, DigestFor(intent).value,
                                        ttl, newLease, clock)
                && r == if reply.Ok? then Ok(reply.value) else Err(Rejected(reply.error))
    {
      if !permitted { return Err(Forbidden); }
      var digest := DigestFor(intent);
      if digest.Err? { return Err(Unbindable(digest.error)); }
      var lease := ledger.Approve(id, approver, digest.value, ttl, newLease, clock);
      return if lease.Ok? then Ok(lease.value) else Err(Rejected(lease.error));
    }

    /** Claim the lease, then charge. The digest is computed now, from the intent at hand. */
    method Dispatch(lease: string, intent: ChargeIntent, permitted: bool, reply: Reply, evidence: L.Evidence,
                    claiming: L.Clock, recording: L.Clock) returns (r: Result<string, ClientError>)
      modifies ledger.db, processor`calls
      ensures !permitted ==>
                r == Err(Forbidden) && ledger.db.State() == old(ledger.db.State())
                && processor.calls == old(processor.calls)
      ensures permitted && DigestFor(intent).Err? ==>
                r == Err(Unbindable(DigestFor(intent).error)) && ledger.db.State() == old(ledger.db.State())
                && processor.calls == old(processor.calls)
      ensures permitted && DigestFor(intent).Ok? ==>
                (ledger.db.State(), processor.calls)
                  == Dispatched(old(ledger.db.State()), old(processor.calls), ledger.dispatcherId, PaymentClient, lease,
                                DigestFor(intent).value, Some(intent), reply, evidence, claiming, recording)
      ensures permitted && DigestFor(intent).Ok? ==>
                var id := L.ClaimLease(old(ledger.db.State()), ledger.dispatcherId, lease, DigestFor(intent).value,
                                       claiming).1;
                r == if id.None? then Err(Refused)
                     else if evidence.Unserializable? then Err(Rejected(L.NotSerializable))
                     else if reply.Raised? then Err(Uncertain(id.value))
                     else Ok(id.value)
    {
      if !permitted { return Err(Forbidden); }
      var digest := DigestFor(intent);
      if digest.Err? { return Err(Unbindable(digest.error)); }
      var claimed := ledger.ClaimLease(lease, digest.value, claiming);
      if claimed.None? { return Err(Refused); }
      GrantedIsDispatching(old(ledger.db.State()), ledger.dispatcherId, lease, digest.value, claiming);
      var id := claimed.value;
      processor.Call(ExternalCall(id, Some(intent), |ledger.db.events|));
      var state := match reply case Raised => L.UNKNOWN case Succeeded => L.SUCCEEDED case Declined => L.FAILED;
      var recorded := ledger.RecordOutcome(id, state, evidence, recording);
      if recorded.Err? { return Err(Rejected(recorded.error)); }
      return if reply.Raised? then Err(Uncertain(id)) else Ok(id);
    }

    /** Ask the processor, then record a final state. */
    method Reconcile(id: string, reconciler: Argument, permitted: bool, probe: Probe, evidence: L.Evidence,
                     clock: L.Clock)
      returns (r: Result<L.State, ClientError>)
      requires !probe.Observed?
      modifies ledger.db
      ensures !permitted || id !in old(ledger.db.State()).rows || old(ledger.db.State()).rows[id].state != L.UNKNOWN ==>
                r == Err(if permitted then Refused else Forbidden) && ledger.db.State() == old(ledger.db.State())
      ensures permitted && id in old(ledger.db.State()).rows && old(ledger.db.State()).rows[id].state == L.UNKNOWN ==>
                var reply := L.Reconcile(old(ledger.db.State()), ledger.unicode, id, Resolution(probe), reconciler,
                                         evidence, clock).1;
                && ledger.db.State()
                     == E.AfterReconciliation(old(ledger.db.State()), ledger.unicode, id, Resolution(probe), reconciler,
                                              evidence, clock)
                && r == if reply.Ok? then Ok(Resolution(probe)) else Err(Rejected(reply.error))
    {
      if !permitted { return Err(Forbidden); }
      if id !in ledger.db.rows || ledger.db.rows[id].state != L.UNKNOWN { return Err(Refused); }
      var newState := match probe
        case LookedUp(succeeded) => if succeeded then L.SUCCEEDED else L.FAILED
        case _ => L.PERMANENTLY_UNRESOLVED;
      var settled := ledger.Reconcile(id, newState, reconciler, evidence, clock);
      return if settled.Ok? then Ok(newState) else Err(Rejected(settled.error));
    }
  }

  // ------------------------------------------------------------------ a guarded tool

  datatype GuardContext = GuardContext(runId: string, actorId: string, policy: PolicyBinding, context: seq<Entry>,
                                       fields: seq<string>)

  /** The lease keyword is taken out of the call before the rest is bound. */
  const LEASE_KEYWORD := "_lease"

  function WithoutLease(kwargs: seq<Entry>): seq<Entry> {
    if kwargs == [] then []
    else if kwargs[0].key == LEASE_KEYWORD then WithoutLease(kwargs[1..])
    else [kwargs[0]] + WithoutLease(kwargs[1..])
  }

  function LeaseOf(kwargs: seq<Entry>): Value {
    match Lookup(kwargs, LEASE_KEYWORD)
    case Some(v) => v
    case None => Null
  }

  function ToolScope(g: GuardContext, toolId: string, operation: string, args: seq<Value>, kwargs: seq<Entry>)
    : ExecutionScope
  {
    ExecutionScope(g.runId, g.actorId, toolId, operation, [Entry("args", List(args)), Entry("kwargs", Dict(kwargs))],
                   [], Some(g.policy), g.context, g.fields, [])
  }

  class ToolGuard {
    const ledger: E.ExecutionLedger
    const env: Interpreter
    const context: GuardContext
    const tool: External

    constructor (ledger: E.ExecutionLedger, env: Interpreter, context: GuardContext, tool: External)
      ensures this.ledger == ledger && this.env == env && this.context == context && this.tool == tool
    {
      this.ledger, this.env, this.context, this.tool := ledger, env, context, tool;
    }

    function DigestFor(toolId: string, operation: string, args: seq<Value>, kwargs: seq<Entry>)
      : Result<string, ScopeError>
    {
      ScopeDigest(env, ToolScope(context, toolId, operation, args, WithoutLease(kwargs)))
    }

    /** The wrapper's path with a lease. */
    method ClaimAndRun(lease: string, digest: string, raises: bool, evidence: L.Evidence, claiming: L.Clock,
                       recording: L.Clock)
      returns (r: Result<string, ClientError>)
      modifies ledger.db, tool`calls
      ensures (ledger.db.State(), tool.calls)
                == Dispatched(old(ledger.db.State()), old(tool.calls), ledger.dispatcherId, ToolClient, lease, digest,
                              None, if raises then Raised else Succeeded, evidence, claiming, recording)
      ensures var id := L.ClaimLease(old(ledger.db.State()), ledger.dispatcherId, lease, digest, claiming).1;
              r == if id.None? then Err(Refused)
                   else if evidence.Unserializable? then Err(Rejected(L.NotSerializable))
                   else if raises then Err(Uncertain(id.value))
                   else Ok(id.value)
    {
      var claimed := ledger.ClaimLease(lease, digest, claiming);
      if claimed.None? { return Err(Refused); }
      GrantedIsDispatching(old(ledger.db.State()), ledger.dispatcherId, lease, digest, claiming);
      var id := claimed.value;
      tool.Call(ExternalCall(id, None, |ledger.db.events|));
      var recorded := ledger.RecordOutcome(id, if raises then L.UNKNOWN else L.SUCCEEDED, evidence, recording);
      if recorded.Err? { return Err(Rejected(recorded.error)); }
      return if raises then Err(Uncertain(id)) else Ok(id);
    }

    /** Nothing was changed and nothing was called. */
    twostate predicate Untouched()
      reads ledger.db, tool
    {
      ledger.db.State() == old(ledger.db.State()) && tool.calls == old(tool.calls)
      && tool.unclaimed == old(tool.unclaimed)
    }

    /** The wrapper. A call that cannot be bound is refused, also where no approval is needed; a tool that
        needs none is then just called, and nothing is recorded. Otherwise a call without a lease is held
        and nothing runs; with one, the digest is that of the call as made. A lease that is no text is no
        lease: those issued are 32 hexadecimal digits. The answer names the execution, if there is one. */
    method Guarded(toolId: string, operation: string, consequential: bool, args: seq<Value>, kwargs: seq<Entry>,
                   permitted: bool, newId: string, raises: bool, evidence: L.Evidence, claiming: L.Clock,
                   recording: L.Clock) returns (r: Result<Option<string>, ClientError>)
      modifies ledger.db, tool
      ensures DigestFor(toolId, operation, args, kwargs).Err? ==>
                r == Err(Unbindable(DigestFor(toolId, operation, args, kwargs).error)) && Untouched()
      ensures DigestFor(toolId, operation, args, kwargs).Ok? && !consequential ==>
                && ledger.db.State() == old(ledger.db.State()) && tool.calls == old(tool.calls)
                && tool.unclaimed == old(tool.unclaimed) + 1 && r == if raises then Err(ToolRaised) else Ok(None)
      ensures consequential ==> tool.unclaimed == old(tool.unclaimed)
      ensures DigestFor(toolId, operation, args, kwargs).Ok? && consequential
              && (!permitted || !(LeaseOf(kwargs).Null? || LeaseOf(kwargs).Str?)) ==>
                r == Err(if permitted then Refused else Forbidden) && Untouched()
      ensures DigestFor(toolId, operation, args, kwargs).Ok? && consequential && permitted && LeaseOf(kwargs).Null? ==>
                var (after, reply) := L.Create(old(ledger.db.State()), ledger.unicode, newId, context.runId,
                                               Text(context.actorId), toolId, operation,
                                               DigestFor(toolId, operation, args, kwargs).value, claiming);
                && ledger.db.State() == after && tool.calls == old(tool.calls)
                && r == Err(if reply.Ok? then AwaitingApproval(reply.value) else Rejected(reply.error))
      ensures DigestFor(toolId, operation, args, kwargs).Ok? && consequential && permitted && LeaseOf(kwargs).Str? ==>
                && (ledger.db.State(), tool.calls)
                     == Dispatched(old(ledger.db.State()), old(tool.calls), ledger.dispatcherId, ToolClient,
                                   LeaseOf(kwargs).s, DigestFor(toolId, operation, args, kwargs).value, None,
                                   if raises then Raised else Succeeded, evidence, claiming, recording)
                && var id := L.ClaimLease(old(ledger.db.State()), ledger.dispatcherId, LeaseOf(kwargs).s,
                                          DigestFor(toolId, operation, args, kwargs).value, claiming).1;
                   r == if id.None? then Err(Refused)
                        else if evidence.Unserializable? then Err(Rejected(L.NotSerializable))
                        else if raises then Err(Uncertain(id.value))
                        else Ok(id)
    {
      var lease := LeaseOf(kwargs);
      var digest := DigestFor(toolId, operation, args, kwargs);
      if digest.Err? { return Err(Unbindable(digest.error)); }
      if !consequential {
        tool.Pass();
        return if raises then Err(ToolRaised) else Ok(None);
      }
      if !permitted { return Err(Forbidden); }
      if lease.Null? {
        var created := ledger.Create(context.runId, Text(context.actorId), toolId, operation, digest.value, newId,
                                     claiming);
        return if created.Ok? then Err(AwaitingApproval(created.value)) else Err(Rejected(created.error));
      }
      if !lease.Str? { return Err(Refused); }
      var ran := ClaimAndRun(lease.s, digest.value, raises, evidence, claiming, recording);
      return if ran.Ok? then Ok(Some(ran.value)) else Err(ran.error);
    }
  }

  // ------------------------------------------------------------------ verification

  class Verifier {
    const ledger: E.ExecutionLedger

    constructor (ledger: E.ExecutionLedger)
      ensures this.ledger == ledger
    {
      this.ledger := ledger;
    }

    /** Every check is made; a satisfied one decides, else an unsatisfied one, else nothing does. */
    method VerifyChecks(checks: seq<Check>) returns (r: Check)
      ensures r == Verify(checks)
    {
      var satisfied, unsatisfied := false, false;
      for i := 0 to |checks|
        invariant satisfied <==> Present in checks[..i]
        invariant unsatisfied <==> Absent in checks[..i]
      {
        assert checks[..i + 1] == checks[..i] + [checks[i]];
        if checks[i].Present? {
          satisfied := true;
        } else if checks[i].Absent? {
          unsatisfied := true;
        }
      }
      assert checks[..|checks|] == checks;
      return if satisfied then Present else if unsatisfied then Absent else NoAnswer;
    }

    method Settle(id: string, checks: seq<Check>, reconciler: Argument, evidence: L.Evidence, clock: L.Clock)
      returns (r: Result<L.State, ClientError>)
      modifies ledger.db
      ensures id !in old(ledger.db.State()).rows || old(ledger.db.State()).rows[id].state != L.UNKNOWN ==>
                r == Err(Refused) && ledger.db.State() == old(ledger.db.State())
      ensures id in old(ledger.db.State()).rows && old(ledger.db.State()).rows[id].state == L.UNKNOWN ==>
                var reply := L.Reconcile(old(ledger.db.State()), ledger.unicode, id, Resolution(Observed(checks)),
                                         reconciler, evidence, clock).1;
                && ledger.db.State()
                     == E.AfterReconciliation(old(ledger.db.State()), ledger.unicode, id, Resolution(Observed(checks)),
                                              reconciler, evidence, clock)
                && r == if reply.Ok? then Ok(Resolution(Observed(checks))) else Err(Rejected(reply.error))
    {
      if id !in ledger.db.rows || ledger.db.rows[id].state != L.UNKNOWN { return Err(Refused); }
      var seen := VerifyChecks(checks);
      var newState := match seen
        case Present => L.SUCCEEDED
        case Absent => L.FAILED
        case NoAnswer => L.PERMANENTLY_UNRESOLVED;
      var settled := ledger.Reconcile(id, newState, reconciler, evidence, clock);
      return if settled.Ok? then Ok(newState) else Err(Rejected(settled.error));
    }

    method RetryIsSafe(checks: seq<Check>) returns (safe: bool)
      ensures safe <==> Absent in checks && Present !in checks
    {
      var seen := VerifyChecks(checks);
      return seen.Absent?;
    }
  }
}
