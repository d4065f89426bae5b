/** What is written down under which name: in the records of an export, in a checkpoint, and in what a scope and its
    arguments are digested as. */
module RecordFormats {
  import opened Wrappers
  import opened Json
  import opened Sorting
  import opened Canonical
  import opened CanonicalTheorems
  import opened Binding
  import opened BindingTheorems
  import opened Scope
  import opened ScopeTheorems
  import opened Export
  import opened HonestExport
  import opened Reconciliation
  import Checkpoint
  import FreshnessTheorems
  import L = Ledger

  // ------------------------------------------------------------------ an event as a record

  /** A record has these names in this order, no two of them alike, and these values under them. */
  ghost predicate Holds(record: seq<Entry>, names: seq<string>, values: seq<Value>) {
    && |record| == |names| == |values| && DistinctKeys(record)
    && forall i | 0 <= i < |names| :: Lookup(record, names[i]) == Some(values[i])
  }

  lemma {:induction false} HoldsItsEntries(record: seq<Entry>, names: seq<string>, values: seq<Value>)
    requires |record| == |names| == |values| && DistinctKeys(record)
    requires forall i | 0 <= i < |names| :: record[i] == Entry(names[i], values[i])
    ensures Holds(record, names, values)
  {
    forall i | 0 <= i < |names| ensures Lookup(record, names[i]) == Some(values[i]) { LookupAt(record, i); }
  }

  /** The record of an event: its number, its execution, its kind, the states it led from and to, its detail and when
      it was recorded, each under its own name. */
  lemma {:induction false} EventIsWritten(p: Platform, render: Rendering, e: L.Event)
    requires Renders(p, render)
    ensures Holds(EventBody(render, e),
                  ["sequence", "execution_id", "kind", "from_state", "to_state", "detail", "recorded_at"],
                  [Int(e.sequence), Str(e.executionId), Str(KindText(e.kind)),
                   if e.fromState.Some? then Str(StateText(e.fromState.value)) else Null,
                   if e.toState.Some? then Str(StateText(e.toState.value)) else Null,
                   render.detail(e.detail), Float(Finite(render.reading(e.recordedAt)))])
  {
    EventPrints(p, render, e);
    HoldsItsEntries(EventBody(render, e),
                    ["sequence", "execution_id", "kind", "from_state", "to_state", "detail", "recorded_at"],
                    [Int(e.sequence), Str(e.executionId), Str(KindText(e.kind)),
                     if e.fromState.Some? then Str(StateText(e.fromState.value)) else Null,
                     if e.toState.Some? then Str(StateText(e.toState.value)) else Null,
                     render.detail(e.detail), Float(Finite(render.reading(e.recordedAt)))]);
  }

  /** The names of the kinds of events. */
  lemma {:induction false} KindsAreNamed(k: L.Kind)
    ensures (k == L.CreatedEvent <==> KindText(k) == "created")
            && (k == L.ApprovedEvent <==> KindText(k) == "approved")
            && (k == L.ApproveRefused <==> KindText(k) == "approve_refused")
            && (k == L.ClaimRefused <==> KindText(k) == "claim_refused")
            && (k == L.LeaseClaimed <==> KindText(k) == "lease_claimed")
    ensures (k == L.RevokedEvent <==> KindText(k) == "revoked")
            && (k == L.OutcomeEvent <==> KindText(k) == "outcome")
            && (k == L.ReconciledEvent <==> KindText(k) == "reconciled")
            && (k == L.ReconcileRefused <==> KindText(k) == "reconcile_refused")
            && (k == L.RecoveredEvent <==> KindText(k) == "recovered")
  {
    assert "created"[0] == 'c' && "approved"[0] == 'a' && "revoked"[2] == 'v' && "outcome"[0] == 'o';
    assert "recovered"[3] == 'o' && "lease_claimed"[0] == 'l';
    assert |"created"| == 7 && |"approved"| == 8 && |"approve_refused"| == 15 && |"claim_refused"| == 13;
    assert |"lease_claimed"| == 13 && |"revoked"| == 7 && |"outcome"| == 7 && |"reconciled"| == 10;
    assert |"reconcile_refused"| == 17 && |"recovered"| == 9;
  }

  /** The names of the states. */
  lemma {:induction false} StatesAreNamed(s: L.State)
    ensures (s == L.CREATED <==> StateText(s) == "CREATED") && (s == L.APPROVED <==> StateText(s) == "APPROVED")
            && (s == L.DISPATCHING <==> StateText(s) == "DISPATCHING")
            && (s == L.SUCCEEDED <==> StateText(s) == "SUCCEEDED") && (s == L.FAILED <==> StateText(s) == "FAILED")
    ensures (s == L.UNKNOWN <==> StateText(s) == "UNKNOWN")
            && (s == L.PERMANENTLY_UNRESOLVED <==> StateText(s) == "PERMANENTLY_UNRESOLVED")
            && (s == L.REVOKED <==> StateText(s) == "REVOKED") && (s == L.EXPIRED <==> StateText(s) == "EXPIRED")
  {
    assert |"CREATED"| == 7 && |"APPROVED"| == 8 && |"DISPATCHING"| == 11 && |"SUCCEEDED"| == 9 && |"FAILED"| == 6;
    assert |"UNKNOWN"| == 7 && |"PERMANENTLY_UNRESOLVED"| == 22 && |"REVOKED"| == 7 && |"EXPIRED"| == 7;
    assert "CREATED"[0] == 'C' && "UNKNOWN"[0] == 'U' && "REVOKED"[0] == 'R' && "EXPIRED"[0] == 'E';
  }

  /** Sealing writes one field, with the hash before and the record's own, and leaves the others as they are. The chain
      begins with sixty-four zeros. */
  lemma {:induction false} SealIsWritten(body: Record, before: string, after: string, name: string)
    ensures Lookup(Seal(body, before, after), name)
         == if name == "integrity"
            then Some(Dict([Entry("previous_hash", Str(before)), Entry("event_hash", Str(after))]))
            else Lookup(body, name)
    ensures |GENESIS| == 64 && forall i | 0 <= i < 64 :: GENESIS[i] == '0'
  {
    AssignedEverywhere(body, Link(before, after), name);
  }

  lemma {:induction false} AssignedEverywhere(entries: seq<Entry>, e: Entry, name: string)
    ensures Lookup(Assign(entries, e), name) == if name == e.key then Some(e.value) else Lookup(entries, name)
  {
    if entries != [] && entries[0].key != e.key { AssignedEverywhere(entries[1..], e, name); }
  }

  // ------------------------------------------------------------------ a checkpoint

  /** What is signed and digested of a checkpoint. */
  lemma {:induction false} CheckpointIsWritten(c: Checkpoint.Checkpoint)
    ensures Holds(Checkpoint.CheckpointBody(c),
                  ["log_id", "sequence", "journal_tip_hash", "previous_checkpoint_hash", "signed_at"],
                  [Str(c.logId), Int(c.sequence), c.tip, Str(c.previous), c.signedAt])
  {
    var body := Checkpoint.CheckpointBody(c);
    assert |"log_id"| == 6 && |"sequence"| == 8 && |"journal_tip_hash"| == 16 && |"signed_at"| == 9;
    assert |"previous_checkpoint_hash"| == 24;
    HoldsItsEntries(body, ["log_id", "sequence", "journal_tip_hash", "previous_checkpoint_hash", "signed_at"],
                    [Str(c.logId), Int(c.sequence), c.tip, Str(c.previous), c.signedAt]);
  }

  /** One text means one log, one sequence, one tip, one checkpoint before it and one time: every signature and every
      digest covers all five, and no sixth. */
  lemma {:induction false} CheckpointTextIsComplete(p: Platform, a: Checkpoint.Checkpoint, b: Checkpoint.Checkpoint)
    requires FreshnessTheorems.CheckpointPrints(p, a) && FreshnessTheorems.CheckpointPrints(p, b)
    requires Checkpoint.CheckpointText(p, a).Ok? && Checkpoint.CheckpointText(p, b).Ok?
    ensures Checkpoint.CheckpointText(p, a) == Checkpoint.CheckpointText(p, b) <==>
            && SameText(p, a.logId, b.logId) && a.sequence == b.sequence
            && Same(NormalOf(p, a.tip), NormalOf(p, b.tip)) && SameText(p, a.previous, b.previous)
            && Same(NormalOf(p, a.signedAt), NormalOf(p, b.signedAt))
  {
    FreshnessTheorems.BodyPrints(p, a);
    FreshnessTheorems.BodyPrints(p, b);
    var x, y := Checkpoint.CheckpointBody(a), Checkpoint.CheckpointBody(b);
    OneTextPerValue(p, Dict(x), Dict(y));
    FreshnessTheorems.SameKeys(a, b);
    FiveFields(p, x, y);
    FiveAccepted(p, x);
    FiveAccepted(p, y);
    TextSame(p, a.logId, b.logId);
    TextSame(p, a.previous, b.previous);
    NumberSame(p, a.sequence, b.sequence);
  }

  lemma {:induction false} NumberSame(p: Platform, m: int, n: int)
    ensures Same(NormalOf(p, Int(m)), NormalOf(p, Int(n))) <==> m == n
  {
  }

  lemma {:induction false} FiveAccepted(p: Platform, x: Record)
    requires Normalize(p, Dict(x), 0).Ok? && |x| == 5
    ensures x[0].value.Str? ==> |x[0].value.s| <= MAX_STRING
    ensures x[3].value.Str? ==> |x[3].value.s| <= MAX_STRING
  {
    EntriesPointwise(p, x, 1);
    assert EntryBecomes(p, x[0], NormalizeEntries(p, x, 1).value[0], 1);
    assert EntryBecomes(p, x[3], NormalizeEntries(p, x, 1).value[3], 1);
  }

  lemma {:induction false} FiveFields(p: Platform, x: Record, y: Record)
    requires Normalize(p, Dict(x), 0).Ok? && Normalize(p, Dict(y), 0).Ok?
    requires |x| == |y| == 5 && forall i | 0 <= i < |x| :: x[i].key == y[i].key
    ensures Same(Normalize(p, Dict(x), 0).value, Normalize(p, Dict(y), 0).value) <==>
            FieldSame(p, x, y, 0) && FieldSame(p, x, y, 1) && FieldSame(p, x, y, 2) && FieldSame(p, x, y, 3)
            && FieldSame(p, x, y, 4)
  {
    RecordsSame(p, x, y, 0);
    if FieldSame(p, x, y, 0) && FieldSame(p, x, y, 1) && FieldSame(p, x, y, 2) && FieldSame(p, x, y, 3)
       && FieldSame(p, x, y, 4)
    {
      forall i | 0 <= i < |x| ensures Same(NormalOf(p, x[i].value), NormalOf(p, y[i].value)) {
        assert i == 0 || i == 1 || i == 2 || i == 3 || i == 4;
      }
    }
  }

  // ------------------------------------------------------------------ a scope

  /** What is digested of a scope: eight fields, of which the arguments and the context are digests themselves. */
  lemma {:induction false} ScopeIsWritten(env: Interpreter, s: ExecutionScope)
    requires ScopeDigest(env, s).Ok?
    ensures DigestOf(env, s.rules, s.arguments).Ok? && ContextDigest(env, s.fields, s.context).Ok?
    ensures var record := ScopeFields(s, DigestOf(env, s.rules, s.arguments).value,
                                      ContextDigest(env, s.fields, s.context).value);
            && ScopeDigest(env, s).value == env.sha(Dumps(env.p, Dict(record)).value)
            && Holds(record,
                     ["run_id", "actor_id", "tool_id", "operation", "arguments", "resources", "policy", "context"],
                     [Str(s.runId), Str(s.actorId), Str(s.toolId), Str(s.operation),
                      Str(DigestOf(env, s.rules, s.arguments).value), List(ResourceValues(s.resources)),
                      PolicyValue(s.policy), Str(ContextDigest(env, s.fields, s.context).value)])
  {
    var arguments := DigestOf(env, s.rules, s.arguments).value;
    var context := ContextDigest(env, s.fields, s.context).value;
    EightNamesDiffer(s, arguments, context);
    HoldsItsEntries(ScopeFields(s, arguments, context),
                    ["run_id", "actor_id", "tool_id", "operation", "arguments", "resources", "policy", "context"],
                    [Str(s.runId), Str(s.actorId), Str(s.toolId), Str(s.operation), Str(arguments),
                     List(ResourceValues(s.resources)), PolicyValue(s.policy), Str(context)]);
  }

  lemma {:induction false} EightNamesDiffer(s: ExecutionScope, arguments: string, context: string)
    ensures DistinctKeys(ScopeFields(s, arguments, context))
  {
    assert |"run_id"| == 6 && |"actor_id"| == 8 && |"tool_id"| == 7 && |"operation"| == 9 && |"arguments"| == 9;
    assert |"resources"| == 9 && |"policy"| == 6 && |"context"| == 7;
    assert "run_id"[0] == 'r' && "policy"[0] == 'p' && "tool_id"[0] == 't' && "context"[0] == 'c';
    assert "operation"[0] == 'o' && "arguments"[0] == 'a' && "resources"[0] == 'r';
  }

  /** What is written of a resource and of a policy. */
  lemma {:induction false} PartsAreWritten(r: ResourceIdentity, b: PolicyBinding)
    ensures ResourceValue(r).Dict? && PolicyValue(Some(b)).Dict? && PolicyValue(None) == Null
    ensures Holds(ResourceValue(r).entries, ["kind", "requested", "locator", "fingerprint"],
                  [Str(r.kind), Str(r.requested), Str(r.locator), Str(r.fingerprint)])
    ensures Holds(PolicyValue(Some(b)).entries, ["policy_id", "version", "content_digest"],
                  [Str(b.policyId), Str(b.version), Str(b.contentDigest)])
  {
    assert |"kind"| == 4 && |"requested"| == 9 && |"locator"| == 7 && |"fingerprint"| == 11;
    assert |"policy_id"| == 9 && |"version"| == 7 && |"content_digest"| == 14;
    HoldsItsEntries(ResourceValue(r).entries, ["kind", "requested", "locator", "fingerprint"],
                    [Str(r.kind), Str(r.requested), Str(r.locator), Str(r.fingerprint)]);
    HoldsItsEntries(PolicyValue(Some(b)).entries, ["policy_id", "version", "content_digest"],
                    [Str(b.policyId), Str(b.version), Str(b.contentDigest)]);
  }

  // ------------------------------------------------------------------ arguments

  /** The rule of an argument is the one declared for its name, and exact if none is. */
  lemma {:induction false} RuleIsTheDeclared(policy: ArgumentPolicy, name: string)
    ensures (forall i | 0 <= i < |policy| :: policy[i].name != name) ==> RuleFor(policy, name) == Exact
    ensures forall i | 0 <= i < |policy| && policy[i].name == name
                       && forall j | 0 <= j < i :: policy[j].name != name ::
              RuleFor(policy, name) == policy[i].how
  {
    if policy != [] {
      RuleIsTheDeclared(policy[1..], name);
      forall i | 0 <= i < |policy| && policy[i].name == name && forall j | 0 <= j < i :: policy[j].name != name
        ensures RuleFor(policy, name) == policy[i].how
      {
        if i > 0 {
          assert policy[1..][i - 1] == policy[i];
          forall j | 0 <= j < i - 1 ensures policy[1..][j].name != name { assert policy[1..][j] == policy[j + 1]; }
        }
      }
    }
  }

  /** A rule applies to what it is for and to nothing else: numeric to numbers, unordered to lists whose items have a
      canonical text, trimmed and case-folded to texts; exact to everything, and it changes nothing. */
  lemma {:induction false} RuleAppliesExactlyWhen(env: Interpreter, v: Value)
    ensures Apply(env, v, Exact) == Ok(v)
    ensures Apply(env, v, Numeric)
         == if v.Float? then Ok(v)
            else if !v.Int? then Err(NeedsNumber)
            else if env.floatOf(v.n).None? then Err(FloatOverflow)
            else Ok(Float(Finite(env.floatOf(v.n).value)))
    ensures Apply(env, v, Unordered) == Err(NeedsSequence) <==> !v.List?
    ensures Apply(env, v, Trimmed) == if v.Str? then Ok(Str(env.strip(v.s))) else Err(NeedsString)
    ensures Apply(env, v, CaseFolded) == if v.Str? then Ok(Str(env.casefold(v.s))) else Err(NeedsString)
  {
  }

  ghost predicate InDigestOrder(env: Interpreter, a: Value, b: Value) {
    && Digest(env.p, env.sha, a).Ok? && Digest(env.p, env.sha, b).Ok?
    && AtMost(Digest(env.p, env.sha, a).value, Digest(env.p, env.sha, b).value)
  }

  /** Of a list the unordered rule makes the list of the normal forms of its items, each as often as it occurs, in the
      order of their digests; it applies exactly if every item has a normal form and that a digest. */
  lemma {:induction false} UnorderedSortsByDigest(env: Interpreter, items: seq<Value>)
    ensures Apply(env, List(items), Unordered).Ok? <==>
            && NormalizeItems(env.p, items, 0).Ok?
            && Digested(env, NormalizeItems(env.p, items, 0).value).Ok?
    ensures Apply(env, List(items), Unordered).Ok? ==>
              var r := Apply(env, List(items), Unordered).value;
              && r.List? && multiset(r.items) == multiset(NormalizeItems(env.p, items, 0).value)
              && forall i, j | 0 <= i < j < |r.items| :: InDigestOrder(env, r.items[i], r.items[j])
  {
    if Apply(env, List(items), Unordered).Ok? {
      var normal := NormalizeItems(env.p, items, 0).value;
      var keyed := Digested(env, normal).value;
      var sorted := SortEntries(keyed);
      DigestedPointwise(env, normal);
      SortIsPermutation(keyed);
      SortIsSorted(keyed);
      forall i | 0 <= i < |sorted| ensures Digest(env.p, env.sha, sorted[i].value) == Ok(sorted[i].key) {
        assert sorted[i] in multiset(keyed);
        var j :| 0 <= j < |keyed| && keyed[j] == sorted[i];
        assert DigestedAt(env, normal[j], keyed[j]);
      }
      SortedValues(keyed);
      forall i | 0 <= i < |normal| ensures Values(keyed)[i] == normal[i] {
        assert DigestedAt(env, normal[i], keyed[i]);
      }
      assert Values(keyed) == normal;
    }
  }

  lemma {:induction false} OneValueMore(e: Entry, others: seq<Entry>)
    ensures Values([e] + others) == [e.value] + Values(others)
  {
  }

  lemma {:induction false} InsertedValues(e: Entry, sorted: seq<Entry>)
    ensures multiset(Values(Insert(e, sorted))) == multiset(Values(sorted)) + multiset{e.value}
  {
    if sorted == [] || AtMost(e.key, sorted[0].key) {
      assert sorted == [] ==> [e] + sorted == [e];
      OneValueMore(e, sorted);
    } else {
      InsertedValues(e, sorted[1..]);
      OneValueMore(sorted[0], Insert(e, sorted[1..]));
      OneValueMore(sorted[0], sorted[1..]);
      assert sorted == [sorted[0]] + sorted[1..];
    }
  }

  lemma {:induction false} SortedValues(entries: seq<Entry>)
    ensures multiset(Values(SortEntries(entries))) == multiset(Values(entries))
  {
    if entries != [] {
      SortedValues(entries[1..]);
      InsertedValues(entries[0], SortEntries(entries[1..]));
      OneValueMore(entries[0], entries[1..]);
      assert entries == [entries[0]] + entries[1..];
    }
  }

  /** The names of the rules, and the two fields under which arguments and rules are digested together. */
  lemma {:induction false} BindingIsWritten(applied: seq<Entry>, policy: ArgumentPolicy)
    ensures RuleText(Exact) == "exact" && RuleText(Numeric) == "numeric" && RuleText(Unordered) == "unordered"
    ensures RuleText(Trimmed) == "trimmed" && RuleText(CaseFolded) == "case_folded"
    ensures Bound(applied, policy).Dict?
    ensures Holds(Bound(applied, policy).entries, ["arguments", "policy"],
                  [Dict(applied), Dict(SortEntries(Declared(policy)))])
  {
    assert |"arguments"| == 9 && |"policy"| == 6;
    HoldsItsEntries(Bound(applied, policy).entries, ["arguments", "policy"],
                    [Dict(applied), Dict(SortEntries(Declared(policy)))]);
  }
}
