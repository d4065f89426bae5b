/** Any number of clients of one ledger, each able to crash anywhere: the transition system behind
    PaymentGuard (profiles/ap2/payment_guard.py), ToolGuard (adapters/guarded_tool.py) and
    Verifier.settle (core/verification.py).

    Every step is one ledger transaction or one external call. A step carries all the choices its
    party makes, so a run is a sequence of steps and a claim about every run is a claim about every
    sequence. */
module Protocol {
  import opened Wrappers
  import opened Principals
  import opened Ledger

  /** A payment client reads the processor's answer; a tool client takes any return as success. */
  datatype Client = PaymentClient | ToolClient

  /** How the external call ended, as its caller sees it. */
  datatype Reply = Succeeded | Declined | Raised

  function Verdict(client: Client, reply: Reply): State {
    match reply
    case Succeeded => SUCCEEDED
    case Declined => if client.PaymentClient? then FAILED else SUCCEEDED
    case Raised => UNKNOWN
  }

  /** One postcondition check: true, false, or no answer (None, or it raised). */
  datatype Check = Present | Absent | NoAnswer

  /** Verifier.verify: one satisfied check decides; else one unsatisfied check; else nothing does. */
  function Verify(checks: seq<Check>): Check {
    if Present in checks then Present else if Absent in checks then Absent else NoAnswer
  }

  /** What a reconciling client learned: by asking the processor, or by observing the world. */
  datatype Probe = NoLookup | LookupRaised | LookedUp(succeeded: bool) | Observed(checks: seq<Check>)

  function Resolution(probe: Probe): State {
    match probe
    case NoLookup => PERMANENTLY_UNRESOLVED
    case LookupRaised => PERMANENTLY_UNRESOLVED
    case LookedUp(succeeded) => if succeeded then SUCCEEDED else FAILED
    case Observed(checks) =>
      match Verify(checks)
      case Present => SUCCEEDED
      case Absent => FAILED
      case NoAnswer => PERMANENTLY_UNRESOLVED
  }

  /** Where a worker is between its atomic steps. */
  datatype Pc =
    | Idle
    | Claimed(id: string, scope: string)     // the claim is committed, the call not yet made
    | Returned(id: string, verdict: State)   // the call is over, its outcome not yet recorded
    | Reading(id: string)                    // a reconciler that read UNKNOWN
    | Decided(id: string, verdict: State)    // a reconciler that has its answer

  datatype Worker = Worker(dispatcher: string, client: Client, pc: Pc)

  /** One external call: for which execution, under which digest, and how long the log was then. */
  datatype Call = Call(id: string, scope: string, logLength: nat)

  datatype Sys = Sys(ledger: Ledger, workers: map<nat, Worker>, calls: seq<Call>, charges: map<string, nat>)

  const START := Sys(EMPTY, map[], [], map[])

  datatype Step =
    | Transact(op: Op)                                         // anybody, anything: also misuse
    | Start(w: nat, dispatcher: string, client: Client)
    | Claim(w: nat, lease: string, scope: string)
    | Invoke(w: nat, reply: Reply, charged: nat)               // `charged`: what it did to the world
    | Record(w: nat, evidence: Evidence)
    | Read(w: nat, id: string)
    | Ask(w: nat, probe: Probe)
    | Resolve(w: nat, reconciler: Argument, evidence: Evidence)
    | Crash(w: nat)

  predicate At(s: Sys, w: nat) {
    w in s.workers
  }

  function Goto(s: Sys, w: nat, pc: Pc): Sys
    requires At(s, w)
  {
    s.(workers := s.workers[w := s.workers[w].(pc := pc)])
  }

  function Charged(s: Sys, id: string): nat {
    if id in s.charges then s.charges[id] else 0
  }

  /** A step that is not enabled does nothing. */
  function Next(s: Sys, u: Unicode, step: Step, clock: Clock): Sys {
    match step
    case Transact(op) => s.(ledger := Apply(s.ledger, u, op, clock))
    case Start(w, dispatcher, client) =>
      if At(s, w) then s else s.(workers := s.workers[w := Worker(dispatcher, client, Idle)])
    case Claim(w, lease, scope) =>
      if !At(s, w) || !s.workers[w].pc.Idle? then s
      else
        var (l, reply) := ClaimLease(s.ledger, s.workers[w].dispatcher, lease, scope, clock);
        if reply.None? then s.(ledger := l) else Goto(s.(ledger := l), w, Claimed(reply.value, scope))
    case Invoke(w, reply, charged) =>
      if !At(s, w) || !s.workers[w].pc.Claimed? then s
      else
        var Claimed(id, scope) := s.workers[w].pc;
        Goto(s, w, Returned(id, Verdict(s.workers[w].client, reply)))
          .(calls := s.calls + [Call(id, scope, |s.ledger.events|)],
            charges := s.charges[id := Charged(s, id) + charged])
    case Record(w, evidence) =>
      if !At(s, w) || !s.workers[w].pc.Returned? then s
      else
        var Returned(id, verdict) := s.workers[w].pc;
        Goto(s, w, Idle).(ledger := RecordOutcome(s.ledger, id, verdict, evidence, clock).0)
    case Read(w, id) =>
      if !At(s, w) || !s.workers[w].pc.Idle? || id !in s.ledger.rows || s.ledger.rows[id].state != UNKNOWN then s
      else Goto(s, w, Reading(id))
    case Ask(w, probe) =>
      if !At(s, w) || !s.workers[w].pc.Reading? then s
      else Goto(s, w, Decided(s.workers[w].pc.id, Resolution(probe)))
    case Resolve(w, reconciler, evidence) =>
      if !At(s, w) || !s.workers[w].pc.Decided? then s
      else
        var Decided(id, verdict) := s.workers[w].pc;
        Goto(s, w, Idle).(ledger := Reconcile(s.ledger, u, id, verdict, reconciler, evidence, clock).0)
    case Crash(w) =>
      s.(workers := s.workers - {w})
  }

  ghost function Reach(u: Unicode, steps: seq<(Step, Clock)>): Sys {
    if steps == [] then START
    else
      var last := steps[|steps| - 1];
      Next(Reach(u, steps[..|steps| - 1]), u, last.0, last.1)
  }
}
