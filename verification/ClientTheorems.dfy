/** What an approval permits: only the very charge it was given for is ever dispatched under it. */
module ClientTheorems {
  import opened Wrappers
  import opened Principals
  import opened Json
  import opened Canonical
  import opened CanonicalTheorems
  import opened Binding
  import opened BindingTheorems
  import opened Scope
  import opened ScopeTheorems
  import opened Clients
  import L = Ledger
  import History
  import Evolution

  /** The same run, actor, payee, amount and currency, up to NFC. */
  predicate SameCharge(p: Platform, i: ChargeIntent, j: ChargeIntent) {
    && SameText(p, i.runId, j.runId) && SameText(p, i.actorId, j.actorId) && SameText(p, i.payeeId, j.payeeId)
    && i.amount == j.amount && SameText(p, i.currency, j.currency)
  }

  function ChargeArguments(i: ChargeIntent): seq<Entry> {
    [Entry("amount", Int(i.amount)), Entry("currency", Str(i.currency))]
  }

  lemma {:induction false} NamesApart(p: Platform)
    requires AsciiStays(p)
    ensures p.nfc("amount") != p.nfc("currency")
  {
    assert IsAscii("amount") && IsAscii("currency");
    assert |"amount"| == 6 && |"currency"| == 8;
  }

  lemma {:induction false} AmountAgrees(env: Interpreter, i: ChargeIntent, j: ChargeIntent)
    requires AsciiStays(env.p)
    ensures HasAgreeing(env, [], ChargeArguments(i)[0], [], ChargeArguments(j)) <==> i.amount == j.amount
  {
    var x, b := ChargeArguments(i)[0], ChargeArguments(j);
    NamesApart(env.p);
    if HasAgreeing(env, [], x, [], b) {
      var k :| 0 <= k < |b| && ArgumentAgrees(env, [], x, [], b[k]);
      assert k == 0;
    }
    if i.amount == j.amount { assert ArgumentAgrees(env, [], x, [], b[0]); }
  }

  lemma {:induction false} CurrencyAgrees(env: Interpreter, i: ChargeIntent, j: ChargeIntent)
    requires AsciiStays(env.p) && |i.currency| <= MAX_STRING && |j.currency| <= MAX_STRING
    ensures HasAgreeing(env, [], ChargeArguments(i)[1], [], ChargeArguments(j))
       <==> SameText(env.p, i.currency, j.currency)
  {
    var x, b := ChargeArguments(i)[1], ChargeArguments(j);
    NamesApart(env.p);
    TextSame(env.p, i.currency, j.currency);
    if HasAgreeing(env, [], x, [], b) {
      var k :| 0 <= k < |b| && ArgumentAgrees(env, [], x, [], b[k]);
      assert k == 1;
    }
    if SameText(env.p, i.currency, j.currency) { assert ArgumentAgrees(env, [], x, [], b[1]); }
  }

  lemma {:induction false} ArgumentsOfCharges(env: Interpreter, i: ChargeIntent, j: ChargeIntent)
    requires AsciiStays(env.p) && |i.currency| <= MAX_STRING && |j.currency| <= MAX_STRING
    ensures ArgumentsAgree(env, [], ChargeArguments(i), [], ChargeArguments(j))
       <==> i.amount == j.amount && SameText(env.p, i.currency, j.currency)
  {
    var a, b := ChargeArguments(i), ChargeArguments(j);
    AmountAgrees(env, i, j);
    CurrencyAgrees(env, i, j);
    forall k | 0 <= k < |b| ensures HasSpelling(env.p, a, b[k].key) { assert a[k].key == b[k].key; }
    if i.amount == j.amount && SameText(env.p, i.currency, j.currency) {
      forall k | 0 <= k < |a| ensures HasAgreeing(env, [], a[k], [], b) { assert k == 0 || k == 1; }
    }
  }

  lemma {:induction false} CurrencyFits(env: Interpreter, i: ChargeIntent)
    requires DigestOf(env, [], ChargeArguments(i)).Ok?
    ensures |i.currency| <= MAX_STRING
  {
    var applied := Arguments(env, [], ChargeArguments(i)).value;
    ArgumentsPointwise(env, [], ChargeArguments(i));
    assert AppliedTo(env, [], ChargeArguments(i)[1], applied[1]);
    BoundParts(env.p, applied, []);
    EntriesPointwise(env.p, applied, 2);
    assert EntryBecomes(env.p, applied[1], NormalizeEntries(env.p, applied, 2).value[1], 2);
  }

  lemma {:induction false} PayeesAgree(p: Platform, x: string, y: string)
    ensures ResourcesAgree(p, [ResourceIdentity("payee", x, x, "")], [ResourceIdentity("payee", y, y, "")])
       <==> SameText(p, x, y)
  {
    var a, b := [ResourceIdentity("payee", x, x, "")], [ResourceIdentity("payee", y, y, "")];
    if ResourcesAgree(p, a, b) { assert ResourceAgrees(p, a[0], b[0]); }
  }

  lemma {:induction false} ArgumentsPrint(p: Platform, i: ChargeIntent)
    ensures FloatsPrint(p, Dict(ChargeArguments(i)))
  {
    var a := ChargeArguments(i);
    forall k | 0 <= k < |a| ensures FloatsPrint(p, a[k].value) { assert a[k].value.Int? || a[k].value.Str?; }
  }

  /** A guard computes every digest from its own policy and context. */
  datatype Setting = Setting(policy: Option<PolicyBinding>, context: seq<Entry>)

  function DigestIn(env: Interpreter, g: Setting, i: ChargeIntent): Result<string, ScopeError> {
    ChargeDigest(env, i, g.policy, g.context)
  }

  /** The two contexts hold, under this name, the same canonical value. */
  ghost predicate SameUnder(p: Platform, a: seq<Entry>, b: seq<Entry>, name: string) {
    match (Lookup(a, name), Lookup(b, name))
    case (Some(v), Some(w)) => Same(NormalOf(p, v), NormalOf(p, w))
    case _ => false
  }

  /** The same policy up to NFC, and the same code revision, tool version and execution identity. */
  ghost predicate SameSetting(p: Platform, g: Setting, h: Setting) {
    && PolicyAgrees(p, g.policy, h.policy) && SameUnder(p, g.context, h.context, "code_revision")
    && SameUnder(p, g.context, h.context, "tool_version") && SameUnder(p, g.context, h.context, "execution_identity")
  }

  lemma {:induction false} FieldsApart(p: Platform)
    requires AsciiStays(p)
    ensures p.nfc("code_revision") == "code_revision" && p.nfc("tool_version") == "tool_version"
    ensures p.nfc("execution_identity") == "execution_identity"
    ensures |"code_revision"| == 13 && |"tool_version"| == 12 && |"execution_identity"| == 18
  {
    assert IsAscii("code_revision") && IsAscii("tool_version") && IsAscii("execution_identity");
  }

  /** Of three fields whose names stay apart, each is compared with its namesake. */
  lemma {:induction false} NamesakesAgree(p: Platform, fields: seq<string>, a: seq<Entry>, b: seq<Entry>)
    requires |fields| == 3 && forall i, j | 0 <= i < j < 3 :: p.nfc(fields[i]) != p.nfc(fields[j])
    ensures ContextsAgree(p, fields, a, fields, b)
       <==> SameUnder(p, a, b, fields[0]) && SameUnder(p, a, b, fields[1]) && SameUnder(p, a, b, fields[2])
  {
    forall i | 0 <= i < 3 ensures FieldKept(p, fields[i], a, fields, b) <==> SameUnder(p, a, b, fields[i]) {
      if SameUnder(p, a, b, fields[i]) { assert FieldAgrees(p, fields[i], a, fields[i], b); }
    }
    forall j | 0 <= j < 3 ensures FieldNamed(p, fields, fields[j]) { assert p.nfc(fields[j]) == p.nfc(fields[j]); }
  }

  lemma {:induction false} PaymentContextsAgree(p: Platform, a: seq<Entry>, b: seq<Entry>)
    requires AsciiStays(p)
    ensures ContextsAgree(p, PAYMENT_FIELDS, a, PAYMENT_FIELDS, b)
       <==> SameUnder(p, a, b, "code_revision") && SameUnder(p, a, b, "tool_version")
            && SameUnder(p, a, b, "execution_identity")
  {
    FieldsApart(p);
    NamesakesAgree(p, PAYMENT_FIELDS, a, b);
  }

  /** A charge without a payee, or in a context that lacks one of the three, has no digest: it can be neither
      proposed nor approved nor dispatched. */
  lemma {:induction false} BareChargeHasNoDigest(env: Interpreter, g: Setting, i: ChargeIntent)
    requires i.payeeId == "" || Lookup(g.context, "code_revision").None? || Lookup(g.context, "tool_version").None?
             || Lookup(g.context, "execution_identity").None?
    ensures DigestIn(env, g, i).Err?
  {
    var fields := PAYMENT_FIELDS;
    assert fields[0] == "code_revision" && fields[1] == "tool_version" && fields[2] == "execution_identity";
  }

  ghost predicate ChargesApart(env: Interpreter, g: Setting, i: ChargeIntent, h: Setting, j: ChargeIntent) {
    NoCollision(env.sha, ScopeTexts(env, ChargeScope(i, g.policy, g.context))
                + ScopeTexts(env, ChargeScope(j, h.policy, h.context)))
  }

  lemma {:induction false} ChargeDigestible(env: Interpreter, g: Setting, i: ChargeIntent)
    requires DigestIn(env, g, i).Ok? && ContextPrints(env.p, g.context)
    ensures Digestible(env, ChargeScope(i, g.policy, g.context)) && |i.currency| <= MAX_STRING
    ensures DigestIn(env, g, i) == ScopeDigest(env, ChargeScope(i, g.policy, g.context))
  {
    ArgumentsPrint(env.p, i);
    CurrencyFits(env, i);
  }

  /** Two intents, each digested under its guard's policy and context, have one digest exactly when they
      are the same charge, under the same policy and in the same bound context. */
  lemma {:induction false} ChargeDigestIsComplete(env: Interpreter, g: Setting, i: ChargeIntent, h: Setting,
                                                  j: ChargeIntent)
    requires Faithful(env) && PrintsAscii(env.sha) && ChargesApart(env, g, i, h, j)
    requires ContextPrints(env.p, g.context) && ContextPrints(env.p, h.context)
    requires DigestIn(env, g, i).Ok? && DigestIn(env, h, j).Ok?
    ensures DigestIn(env, g, i) == DigestIn(env, h, j) <==> SameCharge(env.p, i, j) && SameSetting(env.p, g, h)
  {
    ChargeDigestible(env, g, i);
    ChargeDigestible(env, h, j);
    ScopeDigestIsComplete(env, ChargeScope(i, g.policy, g.context), ChargeScope(j, h.policy, h.context));
    PolicyAgreesWithItself(env.p, []);
    ArgumentsOfCharges(env, i, j);
    PayeesAgree(env.p, i.payeeId, j.payeeId);
    PaymentContextsAgree(env.p, g.context, h.context);
  }

  /** What a charge is bound to: a scope has its digest exactly if it is that of a charge by the payments tool, in the
      same run, by the same actor, of this amount in this currency, to this one payee, under the same policy, and with
      the same three values of context. */
  lemma {:induction false} ChargeIsBoundAs(env: Interpreter, g: Setting, i: ChargeIntent, t: ExecutionScope)
    requires Faithful(env) && PrintsAscii(env.sha) && Digestible(env, t)
    requires NoCollision(env.sha, ScopeTexts(env, ChargeScope(i, g.policy, g.context)) + ScopeTexts(env, t))
    requires ContextPrints(env.p, g.context) && DigestIn(env, g, i).Ok?
    ensures DigestIn(env, g, i) == ScopeDigest(env, t) <==>
            && SameText(env.p, i.runId, t.runId) && SameText(env.p, i.actorId, t.actorId)
            && SameText(env.p, "payments", t.toolId) && SameText(env.p, "charge", t.operation)
            && PoliciesAgree(env.p, [], t.rules)
            && ArgumentsAgree(env, [], [Entry("amount", Int(i.amount)), Entry("currency", Str(i.currency))], t.rules,
                              t.arguments)
            && ResourcesAgree(env.p, [ResourceIdentity("payee", i.payeeId, i.payeeId, "")], t.resources)
            && PolicyAgrees(env.p, g.policy, t.policy)
            && ContextsAgree(env.p, ["code_revision", "tool_version", "execution_identity"], g.context, t.fields,
                             t.context)
  {
    ChargeDigestible(env, g, i);
    ScopeDigestIsComplete(env, ChargeScope(i, g.policy, g.context), t);
  }

  // ------------------------------------------------------------------ the call of a guarded tool

  /** The lease is the keyword argument `_lease`; every other keyword argument is bound. */
  lemma {:induction false} LeaseIsTakenOut(kwargs: seq<Entry>, key: string)
    ensures Lookup(WithoutLease(kwargs), key) == if key == "_lease" then None else Lookup(kwargs, key)
    ensures LeaseOf(kwargs) == if Lookup(kwargs, "_lease").Some? then Lookup(kwargs, "_lease").value else Null
  {
    if kwargs != [] { LeaseIsTakenOut(kwargs[1..], key); }
  }

  /** One call of a guarded tool, as the wrapper binds it. */
  datatype ToolCall = ToolCall(toolId: string, operation: string, args: seq<Value>, kwargs: seq<Entry>)

  function ToolArguments(call: ToolCall): seq<Entry> {
    [Entry("args", List(call.args)), Entry("kwargs", Dict(WithoutLease(call.kwargs)))]
  }

  function ToolCallScope(g: GuardContext, call: ToolCall): ExecutionScope {
    ToolScope(g, call.toolId, call.operation, call.args, WithoutLease(call.kwargs))
  }

  /** The same tool and operation, the same positional arguments in order, and the same keyword arguments
      in any order, the lease keyword apart: as canonical values. */
  ghost predicate SameToolCall(p: Platform, a: ToolCall, b: ToolCall) {
    && SameText(p, a.toolId, b.toolId) && SameText(p, a.operation, b.operation)
    && Same(NormalOf(p, List(a.args)), NormalOf(p, List(b.args)))
    && Same(NormalOf(p, Dict(WithoutLease(a.kwargs))), NormalOf(p, Dict(WithoutLease(b.kwargs))))
  }

  /** The same run, actor and policy, and the same allow-listed context. */
  ghost predicate SameGuard(p: Platform, g: GuardContext, h: GuardContext) {
    && SameText(p, g.runId, h.runId) && SameText(p, g.actorId, h.actorId)
    && PolicyAgrees(p, Some(g.policy), Some(h.policy)) && ContextsAgree(p, g.fields, g.context, h.fields, h.context)
  }

  lemma {:induction false} ToolNamesApart(p: Platform)
    requires AsciiStays(p)
    ensures p.nfc("args") != p.nfc("kwargs")
  {
    assert IsAscii("args") && IsAscii("kwargs");
    assert |"args"| == 4 && |"kwargs"| == 6;
  }

  lemma {:induction false} ToolArgumentAgrees(env: Interpreter, a: ToolCall, b: ToolCall, i: nat)
    requires AsciiStays(env.p) && i < 2
    ensures HasAgreeing(env, [], ToolArguments(a)[i], [], ToolArguments(b))
       <==> FieldSame(env.p, ToolArguments(a), ToolArguments(b), i)
  {
    var x, ys := ToolArguments(a)[i], ToolArguments(b);
    ToolNamesApart(env.p);
    assert ArgumentAgrees(env, [], x, [], ys[i]) <==> FieldSame(env.p, ToolArguments(a), ys, i);
    if HasAgreeing(env, [], x, [], ys) {
      var k :| 0 <= k < |ys| && ArgumentAgrees(env, [], x, [], ys[k]);
      assert k == i;
    }
  }

  lemma {:induction false} ToolArgumentsAgree(env: Interpreter, a: ToolCall, b: ToolCall)
    requires AsciiStays(env.p)
    ensures ArgumentsAgree(env, [], ToolArguments(a), [], ToolArguments(b))
       <==> Same(NormalOf(env.p, List(a.args)), NormalOf(env.p, List(b.args)))
            && Same(NormalOf(env.p, Dict(WithoutLease(a.kwargs))), NormalOf(env.p, Dict(WithoutLease(b.kwargs))))
  {
    var xs, ys := ToolArguments(a), ToolArguments(b);
    ToolArgumentAgrees(env, a, b, 0);
    ToolArgumentAgrees(env, a, b, 1);
    PairsAgree(env, xs, ys);
  }

  lemma {:induction false} PairsAgree(env: Interpreter, xs: seq<Entry>, ys: seq<Entry>)
    requires |xs| == |ys| == 2 && xs[0].key == ys[0].key && xs[1].key == ys[1].key
    requires HasAgreeing(env, [], xs[0], [], ys) <==> FieldSame(env.p, xs, ys, 0)
    requires HasAgreeing(env, [], xs[1], [], ys) <==> FieldSame(env.p, xs, ys, 1)
    ensures ArgumentsAgree(env, [], xs, [], ys) <==> FieldSame(env.p, xs, ys, 0) && FieldSame(env.p, xs, ys, 1)
  {
    assert HasSpelling(env.p, xs, ys[0].key) by { assert env.p.nfc(xs[0].key) == env.p.nfc(ys[0].key); }
    assert HasSpelling(env.p, xs, ys[1].key) by { assert env.p.nfc(xs[1].key) == env.p.nfc(ys[1].key); }
  }

  function ToolDigest(env: Interpreter, g: GuardContext, call: ToolCall): string
    requires ScopeDigest(env, ToolCallScope(g, call)).Ok?
  {
    ScopeDigest(env, ToolCallScope(g, call)).value
  }

  lemma {:induction false} NoResources(p: Platform)
    ensures ResourcesAgree(p, [], [])
  {
  }

  /** Two calls of guarded tools that digest have one digest exactly when they are the same call of the
      same tool, in the same run, by the same actor, under the same policy, in the same bound context. */
  lemma {:induction false} ToolDigestIsComplete(env: Interpreter, g: GuardContext, a: ToolCall, h: GuardContext,
                                                b: ToolCall)
    requires Faithful(env) && PrintsAscii(env.sha)
    requires Digestible(env, ToolCallScope(g, a)) && Digestible(env, ToolCallScope(h, b))
    requires NoCollision(env.sha, ScopeTexts(env, ToolCallScope(g, a)) + ScopeTexts(env, ToolCallScope(h, b)))
    ensures ScopeDigest(env, ToolCallScope(g, a)) == ScopeDigest(env, ToolCallScope(h, b))
       <==> SameToolCall(env.p, a, b) && SameGuard(env.p, g, h)
  {
    ScopeDigestIsComplete(env, ToolCallScope(g, a), ToolCallScope(h, b));
    PolicyAgreesWithItself(env.p, []);
    ToolArgumentsAgree(env, a, b);
    NoResources(env.p);
  }

  /** What a tool's call is bound to: a scope has its digest exactly if it is of that tool and operation, in the same
      run, by the same actor, without resources, and its arguments are the positional ones under `args` and the others
      under `kwargs`, under the same policy and allow-listed context. */
  lemma {:induction false} ToolCallIsBoundAs(env: Interpreter, g: GuardContext, call: ToolCall, t: ExecutionScope)
    requires Faithful(env) && PrintsAscii(env.sha)
    requires Digestible(env, ToolCallScope(g, call)) && Digestible(env, t)
    requires NoCollision(env.sha, ScopeTexts(env, ToolCallScope(g, call)) + ScopeTexts(env, t))
    ensures ScopeDigest(env, ToolCallScope(g, call)) == ScopeDigest(env, t) <==>
            && SameText(env.p, g.runId, t.runId) && SameText(env.p, g.actorId, t.actorId)
            && SameText(env.p, call.toolId, t.toolId) && SameText(env.p, call.operation, t.operation)
            && PoliciesAgree(env.p, [], t.rules)
            && ArgumentsAgree(env, [], [Entry("args", List(call.args)),
                                        Entry("kwargs", Dict(WithoutLease(call.kwargs)))], t.rules, t.arguments)
            && t.resources == [] && PolicyAgrees(env.p, Some(g.policy), t.policy)
            && ContextsAgree(env.p, g.fields, g.context, t.fields, t.context)
  {
    ScopeDigestIsComplete(env, ToolCallScope(g, call), t);
    assert ResourcesAgree(env.p, [], t.resources) <==> t.resources == [];
  }

  // ------------------------------------------------------------------ over every run

  /** The ledger after an approval under this digest and any run whatever. */
  ghost function Later(u: Unicode, l: L.Ledger, id: string, approver: Argument, digest: string, ttl: L.Ttl,
                       lease: string, approving: L.Clock, ops: seq<(L.Op, L.Clock)>): L.Ledger
  {
    L.Run(L.Approve(l, u, id, approver, digest, ttl, lease, approving).0, u, ops)
  }

  /** A claim on a lease, after any run whatever since the lease was issued, is a claim of the execution it
      was issued for, under the digest that was approved, and within the TTL it was approved for. */
  lemma {:induction false} ClaimIsOfTheApproved(u: Unicode, l: L.Ledger, id: string, approver: Argument,
                                                approved: string, ttl: L.Ttl, lease: string, approving: L.Clock,
                                                ops: seq<(L.Op, L.Clock)>, dispatcher: string, presented: string,
                                                claiming: L.Clock)
    requires Evolution.Reachable(u, l) && ttl.Finite?
             && L.Approve(l, u, id, approver, approved, ttl, lease, approving).1.Ok?
    requires var now := Later(u, l, id, approver, approved, ttl, lease, approving, ops);
             L.ClaimLease(now, dispatcher, lease, presented, claiming).1.Some?
    ensures var now := Later(u, l, id, approver, approved, ttl, lease, approving, ops);
            L.ClaimLease(now, dispatcher, lease, presented, claiming).1 == Some(id)
    ensures presented == approved && claiming(0) <= approving(0) + ttl.seconds
  {
    var after := L.Approve(l, u, id, approver, approved, ttl, lease, approving).0;
    Evolution.ReachableIsSound(u, l);
    History.ApplyKeepsSound(l, u, L.ApproveOp(id, approver, approved, ttl, lease), approving);
    assert L.Apply(l, u, L.ApproveOp(id, approver, approved, ttl, lease), approving) == after;
    Evolution.RunEvolves(after, u, ops);
    ApprovedRow(u, l, id, approver, approved, ttl, lease, approving);
    ClaimNamesTheRow(L.Run(after, u, ops), id, lease, dispatcher, presented, claiming, after.rows[id]);
  }

  lemma {:induction false} ApprovedRow(u: Unicode, l: L.Ledger, id: string, approver: Argument, approved: string,
                                       ttl: L.Ttl, lease: string, approving: L.Clock)
    requires L.Approve(l, u, id, approver, approved, ttl, lease, approving).1.Ok?
    ensures var after := L.Approve(l, u, id, approver, approved, ttl, lease, approving).0;
            && ttl.Finite? && id in after.rows && after.rows[id].leaseId == Some(lease)
            && after.rows[id].scopeDigest == approved
            && after.rows[id].expiresAt == Some(approving(0) + ttl.seconds)
  {
  }

  lemma {:induction false} ClaimNamesTheRow(m: L.Ledger, id: string, lease: string, dispatcher: string,
                                            presented: string, claiming: L.Clock, issued: L.Row)
    requires History.Sound(m) && id in m.rows && Evolution.RowEvolves(issued, m.rows[id])
             && issued.leaseId == Some(lease)
    requires L.ClaimLease(m, dispatcher, lease, presented, claiming).1.Some?
    ensures L.ClaimLease(m, dispatcher, lease, presented, claiming).1 == Some(id) && presented == issued.scopeDigest
    ensures issued.expiresAt.Some? ==> claiming(0) <= issued.expiresAt.value
  {
    var claimed := L.ClaimLease(m, dispatcher, lease, presented, claiming).1.value;
    Evolution.ClaimSucceedsExactlyWhen(m, claimed, dispatcher, lease, presented, claiming);
    assert History.Table(m);
    assert m.rows[claimed].leaseId == m.rows[id].leaseId;
  }

  /** Whatever happens between approval and dispatch, and whichever guards make them: a charge that leaves
      under an approval's lease is the charge that was approved, under the policy and in the context it was
      approved under, and the call is made for the execution it was approved for. */
  lemma {:induction false} OnlyTheApprovedChargeIsDispatched(env: Interpreter, g: Setting, approved: ChargeIntent,
                                                             h: Setting, presented: ChargeIntent, u: Unicode,
                                                             l: L.Ledger, id: string, approver: Argument, ttl: L.Ttl,
                                                             lease: string, approving: L.Clock,
                                                             ops: seq<(L.Op, L.Clock)>, dispatcher: string,
                                                             claiming: L.Clock)
    requires Faithful(env) && PrintsAscii(env.sha) && ChargesApart(env, g, approved, h, presented)
    requires ContextPrints(env.p, g.context) && ContextPrints(env.p, h.context)
    requires DigestIn(env, g, approved).Ok? && DigestIn(env, h, presented).Ok?
    requires Evolution.Reachable(u, l) && ttl.Finite?
    requires L.Approve(l, u, id, approver, DigestIn(env, g, approved).value, ttl, lease, approving).1.Ok?
    requires var now := Later(u, l, id, approver, DigestIn(env, g, approved).value, ttl, lease, approving, ops);
             L.ClaimLease(now, dispatcher, lease, DigestIn(env, h, presented).value, claiming).1.Some?
    ensures SameCharge(env.p, approved, presented) && SameSetting(env.p, g, h)
    ensures var now := Later(u, l, id, approver, DigestIn(env, g, approved).value, ttl, lease, approving, ops);
            L.ClaimLease(now, dispatcher, lease, DigestIn(env, h, presented).value, claiming).1 == Some(id)
  {
    ClaimIsOfTheApproved(u, l, id, approver, DigestIn(env, g, approved).value, ttl, lease, approving, ops,
                         dispatcher, DigestIn(env, h, presented).value, claiming);
    ChargeDigestIsComplete(env, g, approved, h, presented);
  }

  /** A claim on an approval's lease is refused, whatever happened since, if the code revision, the tool version or the
      execution identity is another than at the approval. */
  lemma {:induction false} OtherSettingIsRefused(env: Interpreter, g: Setting, approved: ChargeIntent, h: Setting,
                                                 presented: ChargeIntent, u: Unicode, l: L.Ledger, id: string,
                                                 approver: Argument, ttl: L.Ttl, lease: string, approving: L.Clock,
                                                 ops: seq<(L.Op, L.Clock)>, dispatcher: string, claiming: L.Clock,
                                                 name: string)
    requires Faithful(env) && PrintsAscii(env.sha) && ChargesApart(env, g, approved, h, presented)
    requires ContextPrints(env.p, g.context) && ContextPrints(env.p, h.context)
    requires DigestIn(env, g, approved).Ok? && DigestIn(env, h, presented).Ok?
    requires Evolution.Reachable(u, l) && ttl.Finite?
    requires L.Approve(l, u, id, approver, DigestIn(env, g, approved).value, ttl, lease, approving).1.Ok?
    requires name == "code_revision" || name == "tool_version" || name == "execution_identity"
    requires !SameUnder(env.p, g.context, h.context, name)
    ensures var now := Later(u, l, id, approver, DigestIn(env, g, approved).value, ttl, lease, approving, ops);
            L.ClaimLease(now, dispatcher, lease, DigestIn(env, h, presented).value, claiming).1 == None
  {
    var now := Later(u, l, id, approver, DigestIn(env, g, approved).value, ttl, lease, approving, ops);
    if L.ClaimLease(now, dispatcher, lease, DigestIn(env, h, presented).value, claiming).1.Some? {
      OnlyTheApprovedChargeIsDispatched(env, g, approved, h, presented, u, l, id, approver, ttl, lease, approving, ops,
                                        dispatcher, claiming);
      assert false;
    }
  }

  /** The same of a guarded tool: what runs under an approval's lease is the call that was approved, by
      the same actor in the same run, under the same policy and in the same bound context. */
  lemma {:induction false} OnlyTheApprovedCallRuns(env: Interpreter, g: GuardContext, approved: ToolCall,
                                                   h: GuardContext, presented: ToolCall, u: Unicode, l: L.Ledger,
                                                   id: string, approver: Argument, ttl: L.Ttl, lease: string,
                                                   approving: L.Clock, ops: seq<(L.Op, L.Clock)>, dispatcher: string,
                                                   claiming: L.Clock)
    requires Faithful(env) && PrintsAscii(env.sha)
    requires Digestible(env, ToolCallScope(g, approved)) && Digestible(env, ToolCallScope(h, presented))
    requires NoCollision(env.sha, ScopeTexts(env, ToolCallScope(g, approved))
                         + ScopeTexts(env, ToolCallScope(h, presented)))
    requires Evolution.Reachable(u, l) && ttl.Finite?
    requires L.Approve(l, u, id, approver, ToolDigest(env, g, approved), ttl, lease, approving).1.Ok?
    requires var now := Later(u, l, id, approver, ToolDigest(env, g, approved), ttl, lease, approving, ops);
             L.ClaimLease(now, dispatcher, lease, ToolDigest(env, h, presented), claiming).1.Some?
    ensures SameToolCall(env.p, approved, presented) && SameGuard(env.p, g, h)
    ensures var now := Later(u, l, id, approver, ToolDigest(env, g, approved), ttl, lease, approving, ops);
            L.ClaimLease(now, dispatcher, lease, ToolDigest(env, h, presented), claiming).1 == Some(id)
  {
    ClaimIsOfTheApproved(u, l, id, approver, ToolDigest(env, g, approved), ttl, lease, approving, ops, dispatcher,
                         ToolDigest(env, h, presented), claiming);
    ToolDigestIsComplete(env, g, approved, h, presented);
  }
}
