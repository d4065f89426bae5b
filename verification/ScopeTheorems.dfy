/** The scope digest is a complete invariant of "the same call". */
module ScopeTheorems {
  import opened Wrappers
  import opened Json
  import opened JsonRoundTrip
  import opened Sorting
  import opened Canonical
  import opened CanonicalTheorems
  import opened Binding
  import opened BindingTheorems
  import opened Scope

  /** Digests are ASCII text, as SHA-256 in hexadecimal is. */
  ghost predicate PrintsAscii(sha: Sha) {
    forall t :: IsAscii(sha(t))
  }

  // ------------------------------------------------------------------ when two scopes agree

  predicate SameText(p: Platform, a: string, b: string) {
    p.nfc(a) == p.nfc(b)
  }

  predicate ResourceAgrees(p: Platform, r: ResourceIdentity, q: ResourceIdentity) {
    && SameText(p, r.kind, q.kind) && SameText(p, r.requested, q.requested)
    && SameText(p, r.locator, q.locator) && SameText(p, r.fingerprint, q.fingerprint)
  }

  predicate ResourcesAgree(p: Platform, a: seq<ResourceIdentity>, b: seq<ResourceIdentity>) {
    |a| == |b| && forall i | 0 <= i < |a| :: ResourceAgrees(p, a[i], b[i])
  }

  predicate PolicyAgrees(p: Platform, a: Option<PolicyBinding>, b: Option<PolicyBinding>) {
    match (a, b)
    case (None, None) => true
    case (Some(x), Some(y)) =>
      SameText(p, x.policyId, y.policyId) && SameText(p, x.version, y.version)
      && SameText(p, x.contentDigest, y.contentDigest)
    case _ => false
  }

  /** The context at one allowed field, in two scopes. */
  ghost predicate FieldAgrees(p: Platform, f: string, a: seq<Entry>, g: string, b: seq<Entry>) {
    && p.nfc(f) == p.nfc(g)
    && match (Lookup(a, f), Lookup(b, g))
       case (Some(v), Some(w)) => Same(NormalOf(p, v), NormalOf(p, w))
       case _ => false
  }

  ghost predicate FieldKept(p: Platform, f: string, a: seq<Entry>, fieldsB: seq<string>, b: seq<Entry>) {
    exists j | 0 <= j < |fieldsB| :: FieldAgrees(p, f, a, fieldsB[j], b)
  }

  ghost predicate FieldNamed(p: Platform, fields: seq<string>, g: string) {
    exists i | 0 <= i < |fields| :: p.nfc(fields[i]) == p.nfc(g)
  }

  /** The two contexts agree on what is allow-listed; nothing else is looked at. */
  ghost predicate ContextsAgree(p: Platform, fieldsA: seq<string>, a: seq<Entry>, fieldsB: seq<string>, b: seq<Entry>) {
    && (forall i | 0 <= i < |fieldsA| :: FieldKept(p, fieldsA[i], a, fieldsB, b))
    && (forall j | 0 <= j < |fieldsB| :: FieldNamed(p, fieldsA, fieldsB[j]))
  }

  ghost predicate ScopesAgree(env: Interpreter, s: ExecutionScope, t: ExecutionScope) {
    && SameText(env.p, s.runId, t.runId) && SameText(env.p, s.actorId, t.actorId)
    && SameText(env.p, s.toolId, t.toolId) && SameText(env.p, s.operation, t.operation)
    && PoliciesAgree(env.p, s.rules, t.rules) && ArgumentsAgree(env, s.rules, s.arguments, t.rules, t.arguments)
    && ResourcesAgree(env.p, s.resources, t.resources)
    && PolicyAgrees(env.p, s.policy, t.policy)
    && ContextsAgree(env.p, s.fields, s.context, t.fields, t.context)
  }

  // ------------------------------------------------------------------ leaves

  lemma {:induction false} TextSame(p: Platform, a: string, b: string)
    requires |a| <= MAX_STRING && |b| <= MAX_STRING
    ensures Same(NormalOf(p, Str(a)), NormalOf(p, Str(b))) <==> SameText(p, a, b)
  {
  }

  ghost predicate FieldSame(p: Platform, a: seq<Entry>, b: seq<Entry>, i: nat)
    requires i < |a| && i < |b|
  {
    Same(NormalOf(p, a[i].value), NormalOf(p, b[i].value))
  }

  ghost predicate FieldsAccepted(p: Platform, fields: seq<Entry>, depth: nat) {
    forall i | 0 <= i < |fields| :: Normalize(p, fields[i].value, depth).Ok?
  }

  lemma {:induction false} RecordAccepted(p: Platform, fields: seq<Entry>, depth: nat)
    requires Normalize(p, Dict(fields), depth).Ok?
    ensures FieldsAccepted(p, fields, depth + 1)
  {
    EntriesPointwise(p, fields, depth + 1);
    forall i | 0 <= i < |fields| ensures Normalize(p, fields[i].value, depth + 1).Ok? {
      assert EntryBecomes(p, fields[i], NormalizeEntries(p, fields, depth + 1).value[i], depth + 1);
    }
  }

  lemma {:induction false} TextFieldSame(p: Platform, a: seq<Entry>, b: seq<Entry>, depth: nat, i: nat)
    requires i < |a| && i < |b| && a[i].value.Str? && b[i].value.Str?
    requires Normalize(p, a[i].value, depth).Ok? && Normalize(p, b[i].value, depth).Ok?
    ensures FieldSame(p, a, b, i) <==> SameText(p, a[i].value.s, b[i].value.s)
  {
    TextSame(p, a[i].value.s, b[i].value.s);
  }

  predicate IsRecord(fields: seq<Entry>, names: seq<string>) {
    |fields| == |names| && forall i | 0 <= i < |names| :: fields[i].key == names[i]
  }

  /** A record of texts. */
  predicate TextsAre(fields: seq<Entry>, names: seq<string>, texts: seq<string>) {
    && |fields| == |texts| && IsRecord(fields, names)
    && forall i | 0 <= i < |texts| :: fields[i].value == Str(texts[i])
  }

  predicate SameTexts(p: Platform, a: seq<string>, b: seq<string>) {
    |a| == |b| && forall i | 0 <= i < |a| :: SameText(p, a[i], b[i])
  }

  lemma {:induction false} TextRecordsSame(p: Platform, names: seq<string>, a: seq<Entry>, s: seq<string>,
                                           b: seq<Entry>, t: seq<string>, depth: nat)
    requires Normalize(p, Dict(a), depth).Ok? && Normalize(p, Dict(b), depth).Ok?
    requires TextsAre(a, names, s) && TextsAre(b, names, t)
    ensures Same(NormalOf(p, Dict(a)), NormalOf(p, Dict(b))) <==> SameTexts(p, s, t)
  {
    RecordReduces(p, names, a, b, depth);
    forall i | 0 <= i < |a|
      ensures Same(NormalOf(p, a[i].value), NormalOf(p, b[i].value)) <==> SameText(p, s[i], t[i])
    {
      TextFieldSame(p, a, b, depth + 1, i);
      assert FieldSame(p, a, b, i) <==> SameText(p, s[i], t[i]);
    }
  }

  const RESOURCE_FIELDS := ["kind", "requested", "locator", "fingerprint"]

  function ResourceTexts(r: ResourceIdentity): seq<string> {
    [r.kind, r.requested, r.locator, r.fingerprint]
  }

  lemma {:induction false} ResourceIsTexts(r: ResourceIdentity)
    ensures ResourceValue(r).Dict? && TextsAre(ResourceValue(r).entries, RESOURCE_FIELDS, ResourceTexts(r))
  {
  }

  lemma {:induction false} ResourceTextsSame(p: Platform, r: ResourceIdentity, q: ResourceIdentity)
    ensures SameTexts(p, ResourceTexts(r), ResourceTexts(q)) <==> ResourceAgrees(p, r, q)
  {
    var a, b := ResourceTexts(r), ResourceTexts(q);
    if SameTexts(p, a, b) {
      assert SameText(p, a[0], b[0]) && SameText(p, a[1], b[1]) && SameText(p, a[2], b[2]) && SameText(p, a[3], b[3]);
    }
  }

  lemma {:induction false} ResourceSame(p: Platform, r: ResourceIdentity, q: ResourceIdentity, depth: nat)
    requires Normalize(p, ResourceValue(r), depth).Ok? && Normalize(p, ResourceValue(q), depth).Ok?
    ensures Same(NormalOf(p, ResourceValue(r)), NormalOf(p, ResourceValue(q))) <==> ResourceAgrees(p, r, q)
  {
    ResourceIsTexts(r);
    ResourceIsTexts(q);
    TextRecordsSame(p, RESOURCE_FIELDS, ResourceValue(r).entries, ResourceTexts(r), ResourceValue(q).entries,
                    ResourceTexts(q), depth);
    ResourceTextsSame(p, r, q);
  }

  lemma {:induction false} EachResourceSame(p: Platform, a: seq<ResourceIdentity>, xs: seq<Value>,
                                            b: seq<ResourceIdentity>, ys: seq<Value>, depth: nat)
    requires |a| == |xs| && |b| == |ys| && AllAccepted(p, xs, depth) && AllAccepted(p, ys, depth)
    requires forall i | 0 <= i < |a| :: xs[i] == ResourceValue(a[i])
    requires forall i | 0 <= i < |b| :: ys[i] == ResourceValue(b[i])
    ensures AllSame(p, xs, ys) <==> ResourcesAgree(p, a, b)
  {
    if |a| == |b| {
      forall i | 0 <= i < |a| ensures Same(NormalOf(p, xs[i]), NormalOf(p, ys[i])) <==> ResourceAgrees(p, a[i], b[i]) {
        assert Normalize(p, xs[i], depth).Ok? && Normalize(p, ys[i], depth).Ok?;
        ResourceSame(p, a[i], b[i], depth);
      }
    }
  }

  lemma {:induction false} ResourcesSame(p: Platform, a: seq<ResourceIdentity>, b: seq<ResourceIdentity>, depth: nat)
    requires Normalize(p, List(ResourceValues(a)), depth).Ok? && Normalize(p, List(ResourceValues(b)), depth).Ok?
    ensures Same(NormalOf(p, List(ResourceValues(a))), NormalOf(p, List(ResourceValues(b))))
       <==> ResourcesAgree(p, a, b)
  {
    ListsSame(p, ResourceValues(a), ResourceValues(b), depth);
    EachResourceSame(p, a, ResourceValues(a), b, ResourceValues(b), depth + 1);
  }

  const POLICY_FIELDS := ["policy_id", "version", "content_digest"]

  function PolicyTexts(b: PolicyBinding): seq<string> {
    [b.policyId, b.version, b.contentDigest]
  }

  lemma {:induction false} PolicyIsTexts(b: PolicyBinding)
    ensures PolicyValue(Some(b)).Dict? && TextsAre(PolicyValue(Some(b)).entries, POLICY_FIELDS, PolicyTexts(b))
  {
  }

  lemma {:induction false} PolicyTextsSame(p: Platform, x: PolicyBinding, y: PolicyBinding)
    ensures SameTexts(p, PolicyTexts(x), PolicyTexts(y)) <==> PolicyAgrees(p, Some(x), Some(y))
  {
    var a, b := PolicyTexts(x), PolicyTexts(y);
    if SameTexts(p, a, b) {
      assert SameText(p, a[0], b[0]) && SameText(p, a[1], b[1]) && SameText(p, a[2], b[2]);
    }
  }

  lemma {:induction false} NormalKeepsKind(p: Platform, v: Value, depth: nat)
    requires Normalize(p, v, depth).Ok?
    ensures NormalOf(p, v).Null? <==> v.Null?
  {
    DepthOnlyBounds(p, v, depth, 0);
  }

  lemma {:induction false} PolicySame(p: Platform, a: Option<PolicyBinding>, b: Option<PolicyBinding>, depth: nat)
    requires Normalize(p, PolicyValue(a), depth).Ok? && Normalize(p, PolicyValue(b), depth).Ok?
    ensures Same(NormalOf(p, PolicyValue(a)), NormalOf(p, PolicyValue(b))) <==> PolicyAgrees(p, a, b)
  {
    if a.Some? && b.Some? {
      PolicyIsTexts(a.value);
      PolicyIsTexts(b.value);
      TextRecordsSame(p, POLICY_FIELDS, PolicyValue(a).entries, PolicyTexts(a.value), PolicyValue(b).entries,
                      PolicyTexts(b.value), depth);
      PolicyTextsSame(p, a.value, b.value);
    } else {
      PoliciesMissing(p, a, b, depth);
    }
  }

  lemma {:induction false} PoliciesMissing(p: Platform, a: Option<PolicyBinding>, b: Option<PolicyBinding>, depth: nat)
    requires Normalize(p, PolicyValue(a), depth).Ok? && Normalize(p, PolicyValue(b), depth).Ok? && (a.None? || b.None?)
    ensures Same(NormalOf(p, PolicyValue(a)), NormalOf(p, PolicyValue(b))) <==> PolicyAgrees(p, a, b)
  {
    NormalKeepsKind(p, PolicyValue(a), depth);
    NormalKeepsKind(p, PolicyValue(b), depth);
    NullIsAlone(NormalOf(p, PolicyValue(a)), NormalOf(p, PolicyValue(b)));
  }

  lemma {:induction false} NullIsAlone(v: Value, w: Value)
    requires v.Null? || w.Null?
    ensures Same(v, w) <==> v.Null? && w.Null?
  {
  }

  // ------------------------------------------------------------------ the context

  lemma {:induction false} AssignHolds(entries: seq<Entry>, e: Entry, key: string)
    ensures Lookup(Assign(entries, e), key) == if key == e.key then Some(e.value) else Lookup(entries, key)
  {
    if entries != [] && entries[0].key != e.key { AssignHolds(entries[1..], e, key); }
  }

  lemma {:induction false} AssignKeepsDistinct(entries: seq<Entry>, e: Entry)
    requires DistinctKeys(entries)
    ensures DistinctKeys(Assign(entries, e))
  {
    if entries != [] && entries[0].key != e.key {
      var rest := Assign(entries[1..], e);
      AssignKeepsDistinct(entries[1..], e);
      HasKeyFinds(rest, entries[0].key);
      AssignHolds(entries[1..], e, entries[0].key);
      HasKeyFinds(entries[1..], entries[0].key);
      assert !HasKey(rest, entries[0].key);
    }
  }

  /** A dict comprehension over distinct values per name: one entry for every name, with its value. */
  lemma {:induction false} SelectedEntries(fields: seq<string>, context: seq<Entry>)
    requires AllPresent(fields, context)
    ensures DistinctKeys(DictOf(Pairs(fields, context)))
    ensures forall key ::
              Lookup(DictOf(Pairs(fields, context)), key) == if key in fields then Lookup(context, key) else None
    decreases fields
  {
    if fields != [] {
      var n := |fields| - 1;
      var shorter := fields[..n];
      assert AllPresent(shorter, context);
      SelectedEntries(shorter, context);
      assert Pairs(fields, context)[..n] == Pairs(shorter, context);
      assert fields == shorter + [fields[n]];
      var done, last := DictOf(Pairs(shorter, context)), Pairs(fields, context)[n];
      AssignKeepsDistinct(done, last);
      forall key
        ensures Lookup(DictOf(Pairs(fields, context)), key) == if key in fields then Lookup(context, key) else None
      {
        AssignHolds(done, last, key);
      }
    }
  }

  ghost predicate Selects(selected: seq<Entry>, fields: seq<string>, context: seq<Entry>) {
    && DistinctKeys(selected)
    && forall key :: Lookup(selected, key) == if key in fields then Lookup(context, key) else None
  }

  lemma {:induction false} FieldCounterpart(p: Platform, f: string, sa: seq<Entry>, fa: seq<string>, a: seq<Entry>,
                                            i: nat, sb: seq<Entry>, fb: seq<string>, b: seq<Entry>)
    requires Selects(sa, fa, a) && Selects(sb, fb, b) && i < |sa| && sa[i].key == f && f in fa && AllPresent(fb, b)
    ensures HasCounterpart(p, sa[i], sb) <==> FieldKept(p, f, a, fb, b)
  {
    LookupAt(sa, i);
    assert Lookup(sa, f) == Lookup(a, f);
    if HasCounterpart(p, sa[i], sb) {
      var j :| 0 <= j < |sb| && Corresponds(p, sa[i], sb[j]);
      LookupAt(sb, j);
      assert sb[j].key in fb;
      var k :| 0 <= k < |fb| && fb[k] == sb[j].key;
      assert FieldAgrees(p, f, a, fb[k], b);
    }
    if FieldKept(p, f, a, fb, b) {
      var k :| 0 <= k < |fb| && FieldAgrees(p, f, a, fb[k], b);
      assert Lookup(sb, fb[k]) == Lookup(b, fb[k]);
      LookupFinds(sb, fb[k]);
      var j :| 0 <= j < |sb| && sb[j] == Entry(fb[k], Lookup(b, fb[k]).value);
      assert Corresponds(p, sa[i], sb[j]);
    }
  }

  lemma {:induction false} SelectedAt(selected: seq<Entry>, fields: seq<string>, context: seq<Entry>, i: nat)
    returns (k: nat)
    requires Selects(selected, fields, context) && i < |selected|
    ensures k < |fields| && fields[k] == selected[i].key
  {
    LookupAt(selected, i);
    assert selected[i].key in fields;
    k :| 0 <= k < |fields| && fields[k] == selected[i].key;
  }

  lemma {:induction false} FieldSelected(selected: seq<Entry>, fields: seq<string>, context: seq<Entry>, k: nat)
    returns (i: nat)
    requires Selects(selected, fields, context) && AllPresent(fields, context) && k < |fields|
    ensures i < |selected| && selected[i].key == fields[k]
  {
    assert Lookup(selected, fields[k]) == Lookup(context, fields[k]);
    LookupFinds(selected, fields[k]);
    i :| 0 <= i < |selected| && selected[i] == Entry(fields[k], Lookup(context, fields[k]).value);
  }

  lemma {:induction false} SpelledExactlyWhenNamed(p: Platform, sa: seq<Entry>, fa: seq<string>, a: seq<Entry>,
                                                   g: string)
    requires Selects(sa, fa, a) && AllPresent(fa, a)
    ensures HasSpelling(p, sa, g) <==> FieldNamed(p, fa, g)
  {
    if HasSpelling(p, sa, g) {
      var i :| 0 <= i < |sa| && p.nfc(sa[i].key) == p.nfc(g);
      var k := SelectedAt(sa, fa, a, i);
    }
    if FieldNamed(p, fa, g) {
      var k :| 0 <= k < |fa| && p.nfc(fa[k]) == p.nfc(g);
      var i := FieldSelected(sa, fa, a, k);
    }
  }

  lemma {:induction false} SelectedCorrespond(p: Platform, sa: seq<Entry>, fa: seq<string>, a: seq<Entry>,
                                              sb: seq<Entry>, fb: seq<string>, b: seq<Entry>)
    requires Selects(sa, fa, a) && Selects(sb, fb, b) && AllPresent(fa, a) && AllPresent(fb, b)
    ensures EntriesCorrespond(p, sa, sb) <==> ContextsAgree(p, fa, a, fb, b)
  {
    if EntriesCorrespond(p, sa, sb) {
      forall k | 0 <= k < |fa| ensures FieldKept(p, fa[k], a, fb, b) {
        var i := FieldSelected(sa, fa, a, k);
        FieldCounterpart(p, fa[k], sa, fa, a, i, sb, fb, b);
      }
      forall k | 0 <= k < |fb| ensures FieldNamed(p, fa, fb[k]) {
        var j := FieldSelected(sb, fb, b, k);
        SpelledExactlyWhenNamed(p, sa, fa, a, sb[j].key);
      }
    }
    if ContextsAgree(p, fa, a, fb, b) {
      forall i | 0 <= i < |sa| ensures HasCounterpart(p, sa[i], sb) {
        var k := SelectedAt(sa, fa, a, i);
        FieldCounterpart(p, fa[k], sa, fa, a, i, sb, fb, b);
      }
      forall j | 0 <= j < |sb| ensures HasSpelling(p, sa, sb[j].key) {
        var k := SelectedAt(sb, fb, b, j);
        SpelledExactlyWhenNamed(p, sa, fa, a, fb[k]);
      }
    }
  }

  ghost predicate ContextPrints(p: Platform, context: seq<Entry>) {
    forall i | 0 <= i < |context| :: FloatsPrint(p, context[i].value)
  }

  lemma {:induction false} SelectedPrints(p: Platform, selected: seq<Entry>, fields: seq<string>, context: seq<Entry>)
    requires Selects(selected, fields, context) && ContextPrints(p, context)
    ensures FloatsPrint(p, Dict(selected))
  {
    forall i | 0 <= i < |selected| ensures FloatsPrint(p, selected[i].value) {
      LookupAt(selected, i);
      LookupFinds(context, selected[i].key);
    }
  }

  function ContextText(p: Platform, fields: seq<string>, context: seq<Entry>): string {
    if !AllPresent(fields, context) then ""
    else match Dumps(p, Dict(DictOf(Pairs(fields, context)))) case Ok(t) => t case Err(_) => ""
  }

  /** Two context digests agree exactly when the allow-listed contexts do. */
  lemma {:induction false} ContextIsComplete(env: Interpreter, fa: seq<string>, a: seq<Entry>, fb: seq<string>,
                                             b: seq<Entry>)
    requires ContextPrints(env.p, a) && ContextPrints(env.p, b)
    requires ContextDigest(env, fa, a).Ok? && ContextDigest(env, fb, b).Ok?
    requires NoCollision(env.sha, {ContextText(env.p, fa, a), ContextText(env.p, fb, b)})
    ensures ContextDigest(env, fa, a) == ContextDigest(env, fb, b) <==> ContextsAgree(env.p, fa, a, fb, b)
  {
    var sa, sb := DictOf(Pairs(fa, a)), DictOf(Pairs(fb, b));
    SelectedEntries(fa, a);
    SelectedEntries(fb, b);
    SelectedPrints(env.p, sa, fa, a);
    SelectedPrints(env.p, sb, fb, b);
    OneTextPerValue(env.p, Dict(sa), Dict(sb));
    DictsCorrespond(env.p, sa, sb, 0);
    SelectedCorrespond(env.p, sa, fa, a, sb, fb, b);
  }

  // ------------------------------------------------------------------ the theorem

  ghost predicate Digestible(env: Interpreter, s: ExecutionScope) {
    && FloatsPrint(env.p, Dict(s.arguments)) && ContextPrints(env.p, s.context)
    && ScopeDigest(env, s).Ok?
  }

  function ScopeText(env: Interpreter, s: ExecutionScope): string {
    match DigestOf(env, s.rules, s.arguments)
    case Err(_) => ""
    case Ok(arguments) =>
      match ContextDigest(env, s.fields, s.context)
      case Err(_) => ""
      case Ok(context) => match Dumps(env.p, Dict(ScopeFields(s, arguments, context))) case Ok(t) => t case Err(_) => ""
  }

  /** Every text hashed on the way to a scope's digest. */
  function ScopeTexts(env: Interpreter, s: ExecutionScope): set<string> {
    HashedTexts(env, s.rules, s.arguments) + {ContextText(env.p, s.fields, s.context)} + {ScopeText(env, s)}
  }

  lemma {:induction false} FieldsPrint(p: Platform, s: ExecutionScope, arguments: string, context: string)
    ensures FloatsPrint(p, Dict(ScopeFields(s, arguments, context)))
  {
    var fields := ScopeFields(s, arguments, context);
    var resources := ResourceValues(s.resources);
    forall i | 0 <= i < |resources| ensures FloatsPrint(p, resources[i]) { ResourcePrints(p, s.resources[i]); }
    assert FloatsPrint(p, List(resources));
    PolicyPrints(p, s.policy);
    forall i | 0 <= i < |fields| ensures FloatsPrint(p, fields[i].value) {
      assert fields[i].value.Str? || fields[i].value == List(resources) || fields[i].value == PolicyValue(s.policy);
    }
  }

  lemma {:induction false} ResourcePrints(p: Platform, r: ResourceIdentity)
    ensures FloatsPrint(p, ResourceValue(r))
  {
    var fields := ResourceValue(r).entries;
    forall i | 0 <= i < |fields| ensures FloatsPrint(p, fields[i].value) { assert fields[i].value.Str?; }
  }

  lemma {:induction false} PolicyPrints(p: Platform, policy: Option<PolicyBinding>)
    ensures FloatsPrint(p, PolicyValue(policy))
  {
    if policy.Some? {
      var fields := PolicyValue(policy).entries;
      forall i | 0 <= i < |fields| ensures FloatsPrint(p, fields[i].value) { assert fields[i].value.Str?; }
    }
  }

  lemma {:induction false} RecordReduces(p: Platform, names: seq<string>, a: seq<Entry>, b: seq<Entry>, depth: nat)
    requires IsRecord(a, names) && IsRecord(b, names)
    requires Normalize(p, Dict(a), depth).Ok? && Normalize(p, Dict(b), depth).Ok?
    ensures FieldsAccepted(p, a, depth + 1) && FieldsAccepted(p, b, depth + 1)
    ensures Same(NormalOf(p, Dict(a)), NormalOf(p, Dict(b))) <==> SameFields(p, a, b)
  {
    RecordsSame(p, a, b, depth);
    RecordAccepted(p, a, depth);
    RecordAccepted(p, b, depth);
  }

  const SCOPE_FIELDS := ["run_id", "actor_id", "tool_id", "operation", "arguments", "resources", "policy", "context"]

  /** The eight fields of the digested record, one by one. */
  predicate IsScopeRecord(a: seq<Entry>, s: ExecutionScope, arguments: string, context: string) {
    && |a| == 8 && IsRecord(a, SCOPE_FIELDS)
    && a[0].value == Str(s.runId) && a[1].value == Str(s.actorId) && a[2].value == Str(s.toolId)
    && a[3].value == Str(s.operation)
    && a[4].value == Str(arguments) && a[5].value == List(ResourceValues(s.resources))
    && a[6].value == PolicyValue(s.policy) && a[7].value == Str(context)
  }

  ghost predicate AllEight(p: Platform, a: seq<Entry>, b: seq<Entry>)
    requires |a| == |b| == 8
  {
    && FieldSame(p, a, b, 0) && FieldSame(p, a, b, 1) && FieldSame(p, a, b, 2) && FieldSame(p, a, b, 3)
    && FieldSame(p, a, b, 4) && FieldSame(p, a, b, 5) && FieldSame(p, a, b, 6) && FieldSame(p, a, b, 7)
  }

  lemma {:induction false} FieldOfEight(p: Platform, a: seq<Entry>, b: seq<Entry>, i: nat)
    requires |a| == |b| == 8 && AllEight(p, a, b) && i < 8
    ensures FieldSame(p, a, b, i)
  {
  }

  lemma {:induction false} EightFields(p: Platform, a: seq<Entry>, b: seq<Entry>)
    requires |a| == |b| == 8
    ensures SameFields(p, a, b) <==> AllEight(p, a, b)
  {
    if AllEight(p, a, b) {
      forall i | 0 <= i < |a| ensures Same(NormalOf(p, a[i].value), NormalOf(p, b[i].value)) {
        FieldOfEight(p, a, b, i);
      }
    }
  }

  lemma {:induction false} RecordFields(p: Platform, a: seq<Entry>, s: ExecutionScope, argsS: string, contextS: string,
                                        b: seq<Entry>, t: ExecutionScope, argsT: string, contextT: string)
    requires IsScopeRecord(a, s, argsS, contextS) && IsScopeRecord(b, t, argsT, contextT)
    requires FieldsAccepted(p, a, 1) && FieldsAccepted(p, b, 1)
    ensures FieldSame(p, a, b, 0) <==> SameText(p, s.runId, t.runId)
    ensures FieldSame(p, a, b, 1) <==> SameText(p, s.actorId, t.actorId)
    ensures FieldSame(p, a, b, 2) <==> SameText(p, s.toolId, t.toolId)
    ensures FieldSame(p, a, b, 3) <==> SameText(p, s.operation, t.operation)
    ensures FieldSame(p, a, b, 4) <==> SameText(p, argsS, argsT)
    ensures FieldSame(p, a, b, 7) <==> SameText(p, contextS, contextT)
  {
    TextFieldSame(p, a, b, 1, 0);
    TextFieldSame(p, a, b, 1, 1);
    TextFieldSame(p, a, b, 1, 2);
    TextFieldSame(p, a, b, 1, 3);
    TextFieldSame(p, a, b, 1, 4);
    TextFieldSame(p, a, b, 1, 7);
  }

  lemma {:induction false} StructuredFields(p: Platform, a: seq<Entry>, s: ExecutionScope, b: seq<Entry>,
                                            t: ExecutionScope)
    requires |a| == |b| == 8 && FieldsAccepted(p, a, 1) && FieldsAccepted(p, b, 1)
    requires a[5].value == List(ResourceValues(s.resources)) && a[6].value == PolicyValue(s.policy)
    requires b[5].value == List(ResourceValues(t.resources)) && b[6].value == PolicyValue(t.policy)
    ensures FieldSame(p, a, b, 5) <==> ResourcesAgree(p, s.resources, t.resources)
    ensures FieldSame(p, a, b, 6) <==> PolicyAgrees(p, s.policy, t.policy)
  {
    assert Normalize(p, a[5].value, 1).Ok? && Normalize(p, b[5].value, 1).Ok?;
    assert Normalize(p, a[6].value, 1).Ok? && Normalize(p, b[6].value, 1).Ok?;
    ResourcesSame(p, s.resources, t.resources, 1);
    PolicySame(p, s.policy, t.policy, 1);
  }

  ghost predicate RecordsAgree(p: Platform, s: ExecutionScope, argsS: string, contextS: string,
                               t: ExecutionScope, argsT: string, contextT: string) {
    && SameText(p, s.runId, t.runId) && SameText(p, s.actorId, t.actorId)
    && SameText(p, s.toolId, t.toolId) && SameText(p, s.operation, t.operation)
    && SameText(p, argsS, argsT) && ResourcesAgree(p, s.resources, t.resources)
    && PolicyAgrees(p, s.policy, t.policy) && SameText(p, contextS, contextT)
  }

  lemma {:induction false} FieldsAgree(p: Platform, a: seq<Entry>, s: ExecutionScope, argsS: string, contextS: string,
                                       b: seq<Entry>, t: ExecutionScope, argsT: string, contextT: string)
    requires IsScopeRecord(a, s, argsS, contextS) && IsScopeRecord(b, t, argsT, contextT)
    requires FieldsAccepted(p, a, 1) && FieldsAccepted(p, b, 1)
    ensures SameFields(p, a, b) <==> RecordsAgree(p, s, argsS, contextS, t, argsT, contextT)
  {
    EightFields(p, a, b);
    RecordFields(p, a, s, argsS, contextS, b, t, argsT, contextT);
    StructuredFields(p, a, s, b, t);
  }

  lemma {:induction false} AcceptedFieldsAgree(p: Platform, a: seq<Entry>, s: ExecutionScope, argsS: string,
                                               contextS: string, b: seq<Entry>, t: ExecutionScope, argsT: string,
                                               contextT: string)
    requires IsScopeRecord(a, s, argsS, contextS) && IsScopeRecord(b, t, argsT, contextT)
    ensures IsRecord(a, SCOPE_FIELDS) && IsRecord(b, SCOPE_FIELDS)
    ensures FieldsAccepted(p, a, 1) && FieldsAccepted(p, b, 1) ==>
              (SameFields(p, a, b) <==> RecordsAgree(p, s, argsS, contextS, t, argsT, contextT))
  {
    if FieldsAccepted(p, a, 1) && FieldsAccepted(p, b, 1) {
      FieldsAgree(p, a, s, argsS, contextS, b, t, argsT, contextT);
    }
  }

  lemma {:induction false} RecordAgrees(p: Platform, names: seq<string>, a: seq<Entry>, b: seq<Entry>, agree: bool)
    requires IsRecord(a, names) && IsRecord(b, names)
    requires FieldsAccepted(p, a, 1) && FieldsAccepted(p, b, 1) ==> (SameFields(p, a, b) <==> agree)
    requires Normalize(p, Dict(a), 0).Ok? && Normalize(p, Dict(b), 0).Ok?
    ensures Same(NormalOf(p, Dict(a)), NormalOf(p, Dict(b))) <==> agree
  {
    RecordReduces(p, names, a, b, 0);
  }

  lemma {:induction false} TextsAgree(p: Platform, v: Value, w: Value, agree: bool)
    requires Dumps(p, v).Ok? && Dumps(p, w).Ok? && FloatsPrint(p, v) && FloatsPrint(p, w)
    requires Normalize(p, v, 0).Ok? && Normalize(p, w, 0).Ok? ==> (Same(NormalOf(p, v), NormalOf(p, w)) <==> agree)
    ensures Dumps(p, v) == Dumps(p, w) <==> agree
  {
    OneTextPerValue(p, v, w);
  }

  lemma {:induction false} ScopeFieldsAre(s: ExecutionScope, arguments: string, context: string)
    ensures IsScopeRecord(ScopeFields(s, arguments, context), s, arguments, context)
  {
  }

  lemma {:induction false} DigestTexts(env: Interpreter, s: ExecutionScope) returns (arguments: string, context: string)
    requires ScopeDigest(env, s).Ok? && PrintsAscii(env.sha) && AsciiStays(env.p)
    ensures DigestOf(env, s.rules, s.arguments) == Ok(arguments)
            && ContextDigest(env, s.fields, s.context) == Ok(context)
    ensures env.p.nfc(arguments) == arguments && env.p.nfc(context) == context
    ensures Dumps(env.p, Dict(ScopeFields(s, arguments, context))) == Ok(ScopeText(env, s))
    ensures ScopeDigest(env, s) == Ok(env.sha(ScopeText(env, s)))
  {
    arguments := DigestOf(env, s.rules, s.arguments).value;
    context := ContextDigest(env, s.fields, s.context).value;
  }

  lemma {:induction false} ScopeRecordsSame(p: Platform, s: ExecutionScope, argsS: string, contextS: string,
                                            t: ExecutionScope, argsT: string, contextT: string)
    requires Dumps(p, Dict(ScopeFields(s, argsS, contextS))).Ok? && Dumps(p, Dict(ScopeFields(t, argsT, contextT))).Ok?
    ensures Dumps(p, Dict(ScopeFields(s, argsS, contextS))) == Dumps(p, Dict(ScopeFields(t, argsT, contextT)))
       <==> RecordsAgree(p, s, argsS, contextS, t, argsT, contextT)
  {
    var a, b := ScopeFields(s, argsS, contextS), ScopeFields(t, argsT, contextT);
    FieldsPrint(p, s, argsS, contextS);
    FieldsPrint(p, t, argsT, contextT);
    ScopeFieldsAre(s, argsS, contextS);
    ScopeFieldsAre(t, argsT, contextT);
    AcceptedFieldsAgree(p, a, s, argsS, contextS, b, t, argsT, contextT);
    ghost var agree := RecordsAgree(p, s, argsS, contextS, t, argsT, contextT);
    if Normalize(p, Dict(a), 0).Ok? && Normalize(p, Dict(b), 0).Ok? { RecordAgrees(p, SCOPE_FIELDS, a, b, agree); }
    TextsAgree(p, Dict(a), Dict(b), agree);
  }

  lemma {:induction false} RecordsDigest(env: Interpreter, s: ExecutionScope, t: ExecutionScope)
    requires Faithful(env) && PrintsAscii(env.sha) && ScopeDigest(env, s).Ok? && ScopeDigest(env, t).Ok?
    requires NoCollision(env.sha, {ScopeText(env, s), ScopeText(env, t)})
    ensures ScopeDigest(env, s) == ScopeDigest(env, t)
       <==> SameText(env.p, s.runId, t.runId) && SameText(env.p, s.actorId, t.actorId)
            && SameText(env.p, s.toolId, t.toolId) && SameText(env.p, s.operation, t.operation)
            && DigestOf(env, s.rules, s.arguments) == DigestOf(env, t.rules, t.arguments)
            && ResourcesAgree(env.p, s.resources, t.resources) && PolicyAgrees(env.p, s.policy, t.policy)
            && ContextDigest(env, s.fields, s.context) == ContextDigest(env, t.fields, t.context)
  {
    var argsS, contextS := DigestTexts(env, s);
    var argsT, contextT := DigestTexts(env, t);
    ScopeRecordsSame(env.p, s, argsS, contextS, t, argsT, contextT);
  }

  lemma {:induction false} FewerTexts(sha: Sha, few: set<string>, many: set<string>)
    requires NoCollision(sha, many) && few <= many
    ensures NoCollision(sha, few)
  {
  }

  /** Scope digests are a complete invariant: two scopes that both digest have one digest exactly when
      they agree on everything that is bound, up to NFC, declared equivalence and the order of keys. */
  lemma {:induction false} ScopeDigestIsComplete(env: Interpreter, s: ExecutionScope, t: ExecutionScope)
    requires Faithful(env) && PrintsAscii(env.sha) && Digestible(env, s) && Digestible(env, t)
    requires NoCollision(env.sha, ScopeTexts(env, s) + ScopeTexts(env, t))
    ensures ScopeDigest(env, s) == ScopeDigest(env, t) <==> ScopesAgree(env, s, t)
  {
    var all := ScopeTexts(env, s) + ScopeTexts(env, t);
    FewerTexts(env.sha, {ScopeText(env, s), ScopeText(env, t)}, all);
    FewerTexts(env.sha, {ContextText(env.p, s.fields, s.context), ContextText(env.p, t.fields, t.context)}, all);
    FewerTexts(env.sha, HashedTexts(env, s.rules, s.arguments) + HashedTexts(env, t.rules, t.arguments), all);
    RecordsDigest(env, s, t);
    BindingIsComplete(env, s.rules, s.arguments, t.rules, t.arguments);
    ContextIsComplete(env, s.fields, s.context, t.fields, t.context);
  }

  /** Context outside the allow-list never reaches the digest, whatever the hash does. */
  lemma {:induction false} OtherContextIsIrrelevant(env: Interpreter, s: ExecutionScope, context: seq<Entry>)
    requires forall i | 0 <= i < |s.fields| :: Lookup(context, s.fields[i]) == Lookup(s.context, s.fields[i])
    ensures ScopeDigest(env, s.(context := context)) == ScopeDigest(env, s)
  {
    if AllPresent(s.fields, s.context) {
      assert AllPresent(s.fields, context);
      assert Pairs(s.fields, context) == Pairs(s.fields, s.context);
    } else {
      var i :| 0 <= i < |s.fields| && Lookup(s.context, s.fields[i]).None?;
      assert Lookup(context, s.fields[i]).None?;
    }
  }

  // ------------------------------------------------------------------ rebind

  lemma {:induction false} ResolvedPointwise(world: World, resources: seq<ResourceIdentity>)
    requires ResolveAll(world, resources).Ok?
    ensures var r := ResolveAll(world, resources).value;
            |r| == |resources| && forall i | 0 <= i < |resources| :: Resolve(world, resources[i]) == Ok(r[i])
  {
    if resources != [] {
      var shorter := resources[..|resources| - 1];
      ResolvedPointwise(world, shorter);
      forall i | 0 <= i < |shorter| ensures resources[i] == shorter[i] {}
    }
  }

  /** What the world says now about a resource, if it is one that can move. */
  function Current(world: World, r: ResourceIdentity): Option<Found> {
    if r.kind == "path" then world.path(r.requested)
    else if r.kind == "url" then world.url(r.requested)
    else Some(Found(r.locator, r.fingerprint))
  }

  /** Rebinding succeeds exactly when every path and URL resolves, and then each resource is still the one
      requested, with the locator and fingerprint the world gives it now. */
  lemma {:induction false} RebindFollowsTheWorld(world: World, resources: seq<ResourceIdentity>)
    ensures ResolveAll(world, resources).Ok? <==> forall i | 0 <= i < |resources| :: Current(world, resources[i]).Some?
    ensures ResolveAll(world, resources).Ok? ==>
              var r := ResolveAll(world, resources).value;
              |r| == |resources| && forall i | 0 <= i < |resources| :: FollowsWorld(world, resources[i], r[i])
  {
    if resources != [] {
      var n := |resources| - 1;
      RebindFollowsTheWorld(world, resources[..n]);
      forall i | 0 <= i < n ensures resources[..n][i] == resources[i] {}
      if forall i | 0 <= i < |resources| :: Current(world, resources[i]).Some? {
        assert forall i | 0 <= i < n :: Current(world, resources[..n][i]).Some?;
      }
    }
  }

  predicate FollowsWorld(world: World, before: ResourceIdentity, after: ResourceIdentity) {
    && after.kind == before.kind && after.requested == before.requested
    && Current(world, before) == Some(Found(after.locator, after.fingerprint))
  }

  /** Re-resolving in a later world forgets the earlier one: what was found before is never followed. */
  lemma {:induction false} ResolutionForgets(earlier: World, later: World, resources: seq<ResourceIdentity>)
    requires ResolveAll(earlier, resources).Ok?
    ensures ResolveAll(later, ResolveAll(earlier, resources).value) == ResolveAll(later, resources)
  {
    if resources != [] {
      var n := |resources| - 1;
      ResolutionForgets(earlier, later, resources[..n]);
      var done := ResolveAll(earlier, resources[..n]).value;
      var all := ResolveAll(earlier, resources).value;
      assert all[..|all| - 1] == done;
      assert all[|all| - 1] == Resolve(earlier, resources[n]).value;
    }
  }

  lemma {:induction false} RebindForgets(earlier: World, later: World, s: ExecutionScope)
    requires Rebound(earlier, s).Ok?
    ensures Rebound(later, Rebound(earlier, s).value) == Rebound(later, s)
  {
    ResolutionForgets(earlier, later, s.resources);
  }

  /** A rebound scope has the approved digest exactly when every resource still resolves to what was approved. */
  lemma {:induction false} RebindDetectsChange(env: Interpreter, world: World, s: ExecutionScope)
    requires Rebound(world, s).Ok?
    requires Faithful(env) && PrintsAscii(env.sha) && Digestible(env, s) && Digestible(env, Rebound(world, s).value)
    requires NoCollision(env.sha, ScopeTexts(env, s) + ScopeTexts(env, Rebound(world, s).value))
    ensures ScopeDigest(env, Rebound(world, s).value) == ScopeDigest(env, s)
       <==> ResourcesAgree(env.p, Rebound(world, s).value.resources, s.resources)
  {
    FewerTexts(env.sha, {ScopeText(env, Rebound(world, s).value), ScopeText(env, s)},
               ScopeTexts(env, s) + ScopeTexts(env, Rebound(world, s).value));
    RecordsDigest(env, Rebound(world, s).value, s);
    PolicySelf(env.p, s.policy);
  }

  lemma {:induction false} PolicySelf(p: Platform, policy: Option<PolicyBinding>)
    ensures PolicyAgrees(p, policy, policy)
  {
  }
}
