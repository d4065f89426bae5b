/** Export, verification and reconciliation against the ledger they came from. */
module Reconciliation {
  import opened Wrappers
  import opened Json
  import opened Sorting
  import opened Canonical
  import opened CanonicalTheorems
  import opened Lines
  import opened Export
  import opened ExportTheorems
  import opened HonestExport
  import opened Listing
  import L = Ledger

  /** Python tells texts and integers apart by value. */
  ghost predicate FaithfulKeys(r: Reader) {
    && (forall s, v :: r.equal(v, Str(s)) <==> v == Str(s))
    && (forall s, v :: r.equal(Str(s), v) <==> v == Str(s))
    && forall m, n :: r.equal(Int(m), Int(n)) <==> m == n
  }

  // ------------------------------------------------------------------ the ledger's events as records

  /** How the database hands back a detail and a clock reading. */
  datatype Rendering = Rendering(detail: L.Detail -> Value, reading: real -> string)

  function KindText(kind: L.Kind): string {
    match kind
    case CreatedEvent => "created"
    case ApprovedEvent => "approved"
    case ApproveRefused => "approve_refused"
    case ClaimRefused => "claim_refused"
    case LeaseClaimed => "lease_claimed"
    case RevokedEvent => "revoked"
    case OutcomeEvent => "outcome"
    case ReconciledEvent => "reconciled"
    case ReconcileRefused => "reconcile_refused"
    case RecoveredEvent => "recovered"
  }

  function StateText(s: L.State): string {
    match s
    case CREATED => "CREATED"
    case APPROVED => "APPROVED"
    case DISPATCHING => "DISPATCHING"
    case SUCCEEDED => "SUCCEEDED"
    case FAILED => "FAILED"
    case UNKNOWN => "UNKNOWN"
    case PERMANENTLY_UNRESOLVED => "PERMANENTLY_UNRESOLVED"
    case REVOKED => "REVOKED"
    case EXPIRED => "EXPIRED"
  }

  function StateValue(s: Option<L.State>): Value {
    match s
    case None => Null
    case Some(state) => Str(StateText(state))
  }

  function EventBody(render: Rendering, e: L.Event): Record {
    [Entry("sequence", Int(e.sequence)), Entry("execution_id", Str(e.executionId)),
     Entry("kind", Str(KindText(e.kind))),
     Entry("from_state", StateValue(e.fromState)), Entry("to_state", StateValue(e.toState)),
     Entry("detail", render.detail(e.detail)), Entry("recorded_at", Float(Finite(render.reading(e.recordedAt))))]
  }

  function EventBodies(render: Rendering, events: seq<L.Event>): (r: seq<Record>)
    ensures |r| == |events| && forall i | 0 <= i < |events| :: r[i] == EventBody(render, events[i])
  {
    seq(|events|, i requires 0 <= i < |events| => EventBody(render, events[i]))
  }

  /** What comes back from the database prints: details are JSON objects, readings are finite floats. */
  ghost predicate Renders(p: Platform, render: Rendering) {
    && (forall d :: Printable(p, render.detail(d)))
    && forall t :: IsFloatText(p, render.reading(t))
  }

  ghost predicate Numbered(events: seq<L.Event>) {
    forall i | 0 <= i < |events| :: events[i].sequence == i + 1
  }

  function EventKey(e: L.Event): Key {
    (Str(e.executionId), Str(KindText(e.kind)), Int(e.sequence))
  }

  function EventKeys(events: seq<L.Event>): (r: seq<Key>)
    ensures |r| == |events| && forall i | 0 <= i < |events| :: r[i] == EventKey(events[i])
  {
    seq(|events|, i requires 0 <= i < |events| => EventKey(events[i]))
  }

  const EVENT_FIELDS := ["sequence", "execution_id", "kind", "from_state", "to_state", "detail", "recorded_at"]

  lemma {:induction false} FieldsDiffer(i: nat, j: nat)
    requires i < j < |EVENT_FIELDS|
    ensures EVENT_FIELDS[i] != EVENT_FIELDS[j]
  {
    assert |EVENT_FIELDS[0]| == 8 && |EVENT_FIELDS[1]| == 12 && |EVENT_FIELDS[2]| == 4 && |EVENT_FIELDS[3]| == 10;
    assert |EVENT_FIELDS[5]| == 6 && |EVENT_FIELDS[6]| == 11;
    assert |EVENT_FIELDS[4]| == 8 && EVENT_FIELDS[4][0] == 't' && EVENT_FIELDS[0][0] == 's';
  }

  lemma {:induction false} FieldsOrdinary(i: nat)
    requires i < |EVENT_FIELDS|
    ensures EVENT_FIELDS[i] != "integrity" && EVENT_FIELDS[i] != "body"
  {
    assert |"integrity"| == 9 && |"body"| == 4 && "body"[0] == 'b';
    assert EVENT_FIELDS[2][0] == 'k';
  }

  lemma {:induction false} EventFields(render: Rendering, e: L.Event, i: nat)
    requires i < |EVENT_FIELDS|
    ensures |EventBody(render, e)| == |EVENT_FIELDS| && EventBody(render, e)[i].key == EVENT_FIELDS[i]
  {
  }

  lemma {:induction false} EventPrints(p: Platform, render: Rendering, e: L.Event)
    requires Renders(p, render)
    ensures HonestBody(p, EventBody(render, e))
  {
    var body := EventBody(render, e);
    forall i, j | 0 <= i < j < |body| ensures body[i].key != body[j].key {
      EventFields(render, e, i);
      EventFields(render, e, j);
      FieldsDiffer(i, j);
    }
    forall i | 0 <= i < |body| ensures body[i].key != "integrity" && Printable(p, body[i].value) {
      EventFields(render, e, i);
      FieldsOrdinary(i);
    }
  }

  lemma {:induction false} EventLookups(p: Platform, render: Rendering, e: L.Event)
    requires Renders(p, render)
    ensures var body := EventBody(render, e);
            && Lookup(body, "sequence") == Some(Int(e.sequence))
            && Lookup(body, "execution_id") == Some(Str(e.executionId))
            && Lookup(body, "kind") == Some(Str(KindText(e.kind))) && Lookup(body, "body") == None
  {
    var body := EventBody(render, e);
    EventPrints(p, render, e);
    LookupAt(body, 0);
    LookupAt(body, 1);
    LookupAt(body, 2);
    LookupFinds(body, "body");
    forall i | 0 <= i < |body| ensures body[i].key != "body" {
      EventFields(render, e, i);
      FieldsOrdinary(i);
    }
  }

  /** A dict with the lookups of an event's record has its key. */
  lemma {:induction false} KeyFromLookups(entries: seq<Entry>, e: L.Event)
    requires Lookup(entries, "sequence") == Some(Int(e.sequence))
             && Lookup(entries, "execution_id") == Some(Str(e.executionId))
    requires Lookup(entries, "kind") == Some(Str(KindText(e.kind))) && Lookup(entries, "body") == None
    ensures KeyOf(Dict(entries)) == Some(EventKey(e))
  {
  }

  lemma {:induction false} KeysPointwise(values: seq<Value>, keys: seq<Key>)
    requires |values| == |keys| && forall i | 0 <= i < |values| :: KeyOf(values[i]) == Some(keys[i])
    ensures KeysOf(values) == Some(keys)
  {
    if values != [] {
      KeysPointwise(values[1..], keys[1..]);
      assert keys == [keys[0]] + keys[1..];
    }
  }

  lemma {:induction false} LedgerKeys(p: Platform, render: Rendering, events: seq<L.Event>)
    requires Renders(p, render)
    ensures KeysOf(AsValues(EventBodies(render, events))) == Some(EventKeys(events))
  {
    var values := AsValues(EventBodies(render, events));
    forall i | 0 <= i < |values| ensures KeyOf(values[i]) == Some(EventKeys(events)[i]) {
      EventLookups(p, render, events[i]);
      KeyFromLookups(EventBody(render, events[i]), events[i]);
    }
    KeysPointwise(values, EventKeys(events));
  }

  // ------------------------------------------------------------------ the keys of an honest file

  lemma {:induction false} SealedLookup(p: Platform, body: Record, before: string, after: string, key: string)
    requires HonestBody(p, body) && key != "integrity"
    ensures Lookup(ReadBack(Seal(body, before, after)), key) == MapSort(Lookup(body, key))
  {
    var sealed := Seal(body, before, after);
    SealAppends(p, body, before, after);
    ReadBackParses(p, sealed);
    AppendedLookup(body, Link(before, after), key);
    assert Lookup(ReadBack(sealed), key) == MapSort(Lookup(sealed, key));
  }

  lemma {:induction false} SealedKey(p: Platform, render: Rendering, e: L.Event, before: string, after: string)
    requires Renders(p, render)
    ensures var line := LineOf(Seal(EventBody(render, e), before, after));
            Parse(p, Plain, line).Some? && KeyOf(Parse(p, Plain, line).value) == Some(EventKey(e))
  {
    var body := EventBody(render, e);
    EventPrints(p, render, e);
    EventLookups(p, render, e);
    SealedLookup(p, body, before, after, "sequence");
    SealedLookup(p, body, before, after, "execution_id");
    SealedLookup(p, body, before, after, "kind");
    SealedLookup(p, body, before, after, "body");
    KeyFromLookups(ReadBack(Seal(body, before, after)), e);
    SealAppends(p, body, before, after);
    ReadBackParses(p, Seal(body, before, after));
  }

  lemma {:induction false} ExportedPointwise(p: Platform, lines: seq<string>, keys: seq<Key>)
    requires |lines| == |keys|
    requires forall i | 0 <= i < |lines| ::
               !Blank(lines[i]) && Parse(p, Plain, lines[i]).Some?
               && KeyOf(Parse(p, Plain, lines[i]).value) == Some(keys[i])
    ensures KeysOf(Exported(p, lines)) == Some(keys)
  {
    if lines != [] {
      ExportedPointwise(p, lines[1..], keys[1..]);
      ExportedStep(p, lines);
      assert keys == [keys[0]] + keys[1..];
    }
  }

  lemma {:induction false} ExportedStep(p: Platform, lines: seq<string>)
    requires lines != [] && !Blank(lines[0]) && Parse(p, Plain, lines[0]).Some?
    ensures KeysOf(Exported(p, lines))
         == match (KeyOf(Parse(p, Plain, lines[0]).value), KeysOf(Exported(p, lines[1..])))
                                          case (Some(k), Some(ks)) => Some([k] + ks)
                                          case _ => None
  {
    var v := Parse(p, Plain, lines[0]).value;
    assert ([v] + Exported(p, lines[1..]))[1..] == Exported(p, lines[1..]);
  }

  // ------------------------------------------------------------------ differences

  /** No two of these keys are the same. */
  ghost predicate KeysDiffer(r: Reader, keys: seq<Key>) {
    forall i, j | 0 <= i < |keys| && 0 <= j < |keys| :: SameKey(r, keys[i], keys[j]) <==> i == j
  }

  lemma {:induction false} EventKeysDiffer(r: Reader, events: seq<L.Event>)
    requires FaithfulKeys(r) && Numbered(events)
    ensures KeysDiffer(r, EventKeys(events))
  {
    var keys := EventKeys(events);
    forall i, j | 0 <= i < |keys| && 0 <= j < |keys| ensures SameKey(r, keys[i], keys[j]) <==> i == j {
      assert keys[i] == EventKey(events[i]) && keys[j] == EventKey(events[j]);
    }
  }

  lemma {:induction false} KnownAmongFirst(r: Reader, keys: seq<Key>, n: nat, i: nat)
    requires KeysDiffer(r, keys) && n <= |keys| && i < |keys|
    ensures Contains(r, keys[..n], keys[i]) <==> i < n
  {
    if i < n { assert SameKey(r, keys[..n][i], keys[i]); }
    if Contains(r, keys[..n], keys[i]) {
      var j :| 0 <= j < n && SameKey(r, keys[..n][j], keys[i]);
      assert keys[..n][j] == keys[j];
    }
  }

  lemma {:induction false} NotAmong(r: Reader, keys: seq<Key>, n: nat, k: nat)
    requires KeysDiffer(r, keys) && n <= k < |keys|
    ensures !Contains(r, keys[n..k], keys[k])
  {
    forall j | 0 <= j < k - n ensures !SameKey(r, keys[n..k][j], keys[k]) {
      assert keys[n..k][j] == keys[n + j];
    }
  }

  lemma {:induction false} DifferenceStep(r: Reader, keys: seq<Key>, others: seq<Key>, k: nat)
    requires k < |keys|
    ensures var done := Difference(r, keys[..k], others);
            Difference(r, keys[..k + 1], others)
              == if Contains(r, others, keys[k]) || Contains(r, done, keys[k]) then done else done + [keys[k]]
  {
    assert keys[..k + 1][..k] == keys[..k] && keys[..k + 1][k] == keys[k];
  }

  lemma {:induction false} FirstKeysKnown(r: Reader, keys: seq<Key>, n: nat)
    requires KeysDiffer(r, keys) && n <= |keys|
    ensures Difference(r, keys[..n], keys[..n]) == []
  {
    forall i | 0 <= i < n ensures Contains(r, keys[..n], keys[..n][i]) {
      KnownAmongFirst(r, keys, n, i);
      assert keys[..n][i] == keys[i];
    }
    AllKnown(r, keys[..n], keys[..n]);
  }

  lemma {:induction false} OneMoreMissing(r: Reader, keys: seq<Key>, n: nat, k: nat)
    requires KeysDiffer(r, keys) && n <= k < |keys| && Difference(r, keys[..k], keys[..n]) == keys[n..k]
    ensures Difference(r, keys[..k + 1], keys[..n]) == keys[n..k] + [keys[k]]
  {
    DifferenceStep(r, keys, keys[..n], k);
    KnownAmongFirst(r, keys, n, k);
    NotAmong(r, keys, n, k);
  }

  lemma {:induction false} SliceGrows(keys: seq<Key>, n: nat, k: nat)
    requires n <= k < |keys|
    ensures keys[n..k] + [keys[k]] == keys[n..k + 1]
  {
  }

  /** Of distinct keys, exactly those after the first n are not among the first n. */
  lemma {:induction false} LaterKeysMissing(r: Reader, keys: seq<Key>, n: nat, m: nat)
    requires KeysDiffer(r, keys) && n <= m <= |keys|
    ensures Difference(r, keys[..m], keys[..n]) == keys[n..m]
    decreases m
  {
    if m == n {
      FirstKeysKnown(r, keys, n);
    } else {
      var k := m - 1;
      LaterKeysMissing(r, keys, n, k);
      OneMoreMissing(r, keys, n, k);
      SliceGrows(keys, n, k);
    }
  }

  lemma {:induction false} AllKnown(r: Reader, keys: seq<Key>, others: seq<Key>)
    requires forall i | 0 <= i < |keys| :: Contains(r, others, keys[i])
    ensures Difference(r, keys, others) == []
  {
    if keys != [] { AllKnown(r, keys[..|keys| - 1], others); }
  }

  lemma {:induction false} DifferenceEmpty(r: Reader, keys: seq<Key>, others: seq<Key>)
    requires Difference(r, keys, others) == []
    ensures forall i | 0 <= i < |keys| :: Contains(r, others, keys[i])
  {
    if keys != [] {
      var n := |keys| - 1;
      DifferenceEmpty(r, keys[..n], others);
      forall i | 0 <= i < |keys| ensures Contains(r, others, keys[i]) {
        if i < n { assert keys[i] == keys[..n][i]; }
      }
    }
  }

  // ------------------------------------------------------------------ the order of a report

  /** A key of two texts and a number, as an event's is. */
  predicate IsPlainKey(k: Key) {
    k.0.Str? && k.1.Str? && k.2.Int?
  }

  /** str() tells such keys apart. */
  ghost predicate PrintsKeysApart(r: Reader) {
    forall a, b | IsPlainKey(a) && IsPlainKey(b) && r.show(a) == r.show(b) :: a == b
  }

  /** The listing of events by their printed keys: the one list of exactly these keys whose printed forms never
      fall. The order in which a set hands them over plays no part. */
  lemma {:induction false} EventListingExactlyWhen(r: Reader, events: seq<L.Event>, listing: seq<Key>)
    requires PrintsKeysApart(r)
    ensures listing == Listed(r, EventKeys(events))
       <==> multiset(listing) == multiset(EventKeys(events)) && PrintsInOrder(r, listing)
  {
    var keys := EventKeys(events);
    forall i | 0 <= i < |keys| ensures IsPlainKey(keys[i]) { assert keys[i] == EventKey(events[i]); }
    ListedExactlyWhen(r, keys, listing);
  }

  // ------------------------------------------------------------------ an export and a ledger that has moved on

  lemma {:induction false} EventSequences(p: Platform, render: Rendering, events: seq<L.Event>)
    requires Renders(p, render) && Numbered(events)
    ensures HonestBodies(p, EventBodies(render, events)) && BodySequencesRise(EventBodies(render, events))
  {
    forall i | 0 <= i < |events|
      ensures HonestBody(p, EventBodies(render, events)[i])
              && BodySequence(EventBodies(render, events)[i]) == Some(events[i].sequence)
    {
      EventPrints(p, render, events[i]);
      EventLookups(p, render, events[i]);
    }
  }

  /** An export of a ledger's events verifies, and counts them all, exactly when none of them holds a
      raw line break. */
  lemma {:induction false} LedgerExportVerifies(r: Reader, render: Rendering, events: seq<L.Event>, text: string)
    requires FaithfulReader(r) && Renders(r.p, render) && Numbered(events)
    requires ExportText(r.p, r.sha, EventBodies(render, events)) == Ok(text)
    ensures VerifiesOk(r, text) <==> !AnyBodyBreaks(EventBodies(render, events))
    ensures VerifiesOk(r, text) ==> Verify(r, text).value.records == |events|
  {
    EventSequences(r.p, render, events);
    HonestExportVerifiesExactlyWhen(r, EventBodies(render, events), text);
  }

  lemma {:induction false} HonestKeys(r: Reader, render: Rendering, events: seq<L.Event>, text: string)
    requires FaithfulReader(r) && Renders(r.p, render) && Numbered(events)
    requires ExportText(r.p, r.sha, EventBodies(render, events)) == Ok(text) && VerifiesOk(r, text)
    ensures KeysOf(Exported(r.p, SplitLines(text))) == Some(EventKeys(events))
  {
    var bodies := EventBodies(render, events);
    var records := Chain(r.p, r.sha, GENESIS, bodies).value.records;
    var lines := LinesOf(records);
    EventSequences(r.p, render, events);
    ChainPointwise(r.p, r.sha, bodies);
    forall j | 0 <= j < |records|
      ensures Printable(r.p, Dict(records[j])) && !Blank(lines[j])
      ensures Parse(r.p, Plain, lines[j]).Some?
              && KeyOf(Parse(r.p, Plain, lines[j]).value) == Some(EventKeys(events)[j])
    {
      SealedPrints(r.p, r.sha, bodies, records, j);
      LineStarts(records[j]);
      SealedKey(r.p, render, events[j], HashAt(r.p, r.sha, bodies, j), HashAt(r.p, r.sha, bodies, j + 1));
    }
    OkMeansUnbroken(r, records);
    ExportedPointwise(r.p, lines, EventKeys(events));
  }

  lemma {:induction false} ReconcileFrom(r: Reader, text: string, ledger: seq<Record>, report: Report,
                                         journal: seq<Key>, record: seq<Key>)
    requires Verify(r, text) == Some(report) && report.violations == []
    requires KeysOf(Exported(r.p, SplitLines(text))) == Some(journal) && KeysOf(AsValues(ledger)) == Some(record)
    requires Difference(r, journal, record) == []
    ensures Reconcile(r, text, ledger)
         == Some(report.(violations := Missing(Listed(r, Difference(r, record, journal)))))
  {
    NothingListed(r);
    NothingAbsent(report, Missing(Listed(r, Difference(r, record, journal))));
  }

  lemma {:induction false} NothingAbsent(report: Report, missing: seq<Violation>)
    requires report.violations == []
    ensures report.(violations := report.violations + missing + Absent([])) == report.(violations := missing)
  {
    assert [] + missing + Absent([]) == missing;
  }

  lemma {:induction false} EarlierKeysKnown(r: Reader, keys: seq<Key>, n: nat)
    requires KeysDiffer(r, keys) && n <= |keys|
    ensures Difference(r, keys[..n], keys) == []
  {
    assert keys[..|keys|] == keys;
    forall i | 0 <= i < n ensures Contains(r, keys, keys[..n][i]) {
      KnownAmongFirst(r, keys, |keys|, i);
      assert keys[..n][i] == keys[i];
    }
    AllKnown(r, keys[..n], keys);
  }

  lemma {:induction false} StaleDifferences(r: Reader, events: seq<L.Event>, n: nat)
    requires FaithfulKeys(r) && Numbered(events) && n <= |events|
    ensures Difference(r, EventKeys(events), EventKeys(events[..n])) == EventKeys(events[n..])
    ensures Difference(r, EventKeys(events[..n]), EventKeys(events)) == []
  {
    var keys := EventKeys(events);
    assert EventKeys(events[..n]) == keys[..n] && keys[..|events|] == keys && EventKeys(events[n..]) == keys[n..];
    EventKeysDiffer(r, events);
    LaterKeysMissing(r, keys, n, |events|);
    EarlierKeysKnown(r, keys, n);
  }

  /** A verified export taken when the log held the first n events, compared with the ledger as it is
      now: one missing_from_export for each event since, listed by its printed key, and nothing else. */
  lemma {:induction false} StaleExportMissesExactlyTheRest(r: Reader, render: Rendering, events: seq<L.Event>, n: nat,
                                                           text: string)
    requires FaithfulReader(r) && FaithfulKeys(r) && Renders(r.p, render) && Numbered(events) && n <= |events|
    requires ExportText(r.p, r.sha, EventBodies(render, events[..n])) == Ok(text) && VerifiesOk(r, text)
    ensures Reconcile(r, text, EventBodies(render, events))
         == Some(Verify(r, text).value.(records := n, violations := Missing(Listed(r, EventKeys(events[n..])))))
  {
    assert Numbered(events[..n]);
    StaleDifferences(r, events, n);
    LedgerKeys(r.p, render, events);
    HonestKeys(r, render, events[..n], text);
    LedgerExportVerifies(r, render, events[..n], text);
    ReconcileFrom(r, text, EventBodies(render, events), Verify(r, text).value, EventKeys(events[..n]),
                  EventKeys(events));
  }

  // ------------------------------------------------------------------ an ok reconciliation

  ghost predicate PlainRecord(record: Record) {
    Lookup(record, "body") == None && GetOr(record, "sequence", Null).Int?
  }

  ghost predicate PlainRecords(records: seq<Record>) {
    forall i | 0 <= i < |records| :: PlainRecord(records[i])
  }

  /** Keys in the order of their integer sequences. */
  ghost predicate RisingKeys(keys: seq<Key>) {
    && (forall i | 0 <= i < |keys| :: keys[i].2.Int?)
    && forall i, j | 0 <= i < j < |keys| :: keys[i].2.n < keys[j].2.n
  }

  ghost predicate SameMembers(a: seq<Key>, b: seq<Key>) {
    forall k :: k in a <==> k in b
  }

  lemma {:induction false} NotBeyond(a: seq<Key>, x: Key, b: seq<Key>, y: Key)
    requires RisingKeys(a + [x]) && RisingKeys(b + [y]) && x in b + [y]
    ensures x.2.Int? && y.2.Int? && x.2.n <= y.2.n && (x.2.n == y.2.n ==> x == y)
  {
    assert (a + [x])[|a|] == x && (b + [y])[|b|] == y;
    var i :| 0 <= i < |b + [y]| && (b + [y])[i] == x;
    if i < |b| { assert (b + [y])[i].2.n < (b + [y])[|b|].2.n; }
  }

  lemma {:induction false} LastInCommon(a: seq<Key>, x: Key, b: seq<Key>, y: Key)
    requires RisingKeys(a + [x]) && RisingKeys(b + [y]) && SameMembers(a + [x], b + [y])
    ensures x == y
  {
    assert x in a + [x] && y in b + [y];
    NotBeyond(a, x, b, y);
    NotBeyond(b, y, a, x);
  }

  lemma {:induction false} NotAgain(a: seq<Key>, x: Key)
    requires RisingKeys(a + [x])
    ensures x !in a && RisingKeys(a)
  {
    assert (a + [x])[|a|] == x;
    assert forall i | 0 <= i < |a| :: (a + [x])[i] == a[i];
  }

  lemma {:induction false} EmptyIfEmpty(a: seq<Key>, b: seq<Key>)
    requires SameMembers(a, b)
    ensures a == [] ==> b == []
  {
    if b != [] { assert b[0] in b && b[0] in a; }
  }

  lemma {:induction false} RisingListsAgree(a: seq<Key>, b: seq<Key>)
    requires RisingKeys(a) && RisingKeys(b) && SameMembers(a, b)
    ensures a == b
  {
    EmptyIfEmpty(a, b);
    EmptyIfEmpty(b, a);
    if a != [] {
      var a', x, b', y := a[..|a| - 1], a[|a| - 1], b[..|b| - 1], b[|b| - 1];
      assert a == a' + [x] && b == b' + [y];
      LastInCommon(a', x, b', y);
      NotAgain(a', x);
      NotAgain(b', y);
      forall k ensures k in a' <==> k in b' {
        assert k in a <==> k in a' || k == x;
        assert k in b <==> k in b' || k == y;
      }
      RisingListsAgree(a', b');
    }
  }

  lemma {:induction false} KnownEventKey(r: Reader, k: Key, events: seq<L.Event>)
    requires FaithfulKeys(r) && k.2.Int? && Contains(r, EventKeys(events), k)
    ensures k in EventKeys(events)
  {
    var keys := EventKeys(events);
    var i :| 0 <= i < |keys| && SameKey(r, keys[i], k);
    assert keys[i] == EventKey(events[i]);
  }

  lemma {:induction false} EventKeyKnown(r: Reader, keys: seq<Key>, e: L.Event)
    requires FaithfulKeys(r) && Contains(r, keys, EventKey(e)) && forall i | 0 <= i < |keys| :: keys[i].2.Int?
    ensures EventKey(e) in keys
  {
    var i :| 0 <= i < |keys| && SameKey(r, keys[i], EventKey(e));
  }

  lemma {:induction false} SequenceInKey(record: Record, k: Key)
    requires PlainRecord(record) && KeyOf(Dict(record)) == Some(k)
    ensures k.2.Int? && SequenceAt(record) == Some(k.2.n)
  {
    RemoveLookup(record, "integrity", "sequence");
  }

  lemma {:induction false} KeysAt(values: seq<Value>, i: nat)
    requires KeysOf(values).Some? && i < |values|
    ensures |KeysOf(values).value| == |values| && KeyOf(values[i]) == Some(KeysOf(values).value[i])
  {
    if i > 0 {
      KeysAt(values[1..], i - 1);
    } else if |values| > 1 {
      KeysAt(values[1..], 0);
    }
  }

  /** What one line adds. */
  function Shown(p: Platform, line: string): seq<Value> {
    if Blank(line) then [] else [Dict(RecordOf(p, line))]
  }

  lemma {:induction false} ValuesGrow(done: seq<Record>, record: Record)
    ensures AsValues(done + [record]) == AsValues(done) + [Dict(record)]
  {
  }

  lemma {:induction false} RecordValuesGrow(p: Platform, init: seq<string>, line: string)
    ensures AsValues(RecordsOf(p, init + [line])) == AsValues(RecordsOf(p, init)) + Shown(p, line)
  {
    assert (init + [line])[..|init|] == init;
    ValuesGrow(RecordsOf(p, init), RecordOf(p, line));
  }

  lemma {:induction false} ExportedGrows(p: Platform, init: seq<string>, line: string)
    requires AllRecords(p, init) && (Blank(line) || IsRecordLine(p, line))
             && Exported(p, init) == AsValues(RecordsOf(p, init))
    ensures Exported(p, init + [line]) == AsValues(RecordsOf(p, init + [line]))
  {
    ExportedAppends(p, init, line);
    RecordValuesGrow(p, init, line);
  }

  /** In a file in which every line is a record, what is exported is its records. */
  lemma {:induction false} ExportedRecords(p: Platform, lines: seq<string>)
    requires AllRecords(p, lines)
    ensures Exported(p, lines) == AsValues(RecordsOf(p, lines))
  {
    if lines != [] {
      var init, line := lines[..|lines| - 1], lines[|lines| - 1];
      AllRecordsByOne(p, lines);
      ExportedRecords(p, init);
      ExportedGrows(p, init, line);
      assert lines == init + [line];
    }
  }

  lemma {:induction false} ExportedAppends(p: Platform, lines: seq<string>, line: string)
    requires AllRecords(p, lines) && (Blank(line) || IsRecordLine(p, line))
    ensures Exported(p, lines + [line]) == Exported(p, lines) + Shown(p, line)
  {
    var all := lines + [line];
    if lines == [] {
      assert all == [line] && all[1..] == [];
    } else {
      assert all[0] == lines[0] && all[1..] == lines[1..] + [line];
      assert forall i | 0 <= i < |lines[1..]| :: lines[1..][i] == lines[i + 1];
      ExportedAppends(p, lines[1..], line);
    }
  }

  lemma {:induction false} FileKeysRise(r: Reader, text: string, keys: seq<Key>)
    requires FaithfulReader(r) && VerifiesOk(r, text) && PlainRecords(FileRecords(r, text))
    requires KeysOf(Exported(r.p, SplitLines(text))) == Some(keys)
    ensures RisingKeys(keys)
  {
    VerifiesExactlyWhen(r, text);
    var records := FileRecords(r, text);
    ExportedRecords(r.p, SplitLines(text));
    var values := AsValues(records);
    forall i | 0 <= i < |records|
      ensures |keys| == |records| && keys[i].2.Int? && SequenceAt(records[i]) == Some(keys[i].2.n)
    {
      KeysAt(values, i);
      SequenceInKey(records[i], keys[i]);
    }
    if records == [] { assert keys == []; }
  }

  /** Every key of the one list is known to the other. */
  ghost predicate AllAmong(r: Reader, keys: seq<Key>, others: seq<Key>) {
    forall i | 0 <= i < |keys| :: Contains(r, others, keys[i])
  }

  lemma {:induction false} DifferenceEmptyExactlyWhen(r: Reader, keys: seq<Key>, others: seq<Key>)
    ensures Difference(r, keys, others) == [] <==> AllAmong(r, keys, others)
  {
    if Difference(r, keys, others) == [] { DifferenceEmpty(r, keys, others); }
    if AllAmong(r, keys, others) { AllKnown(r, keys, others); }
  }

  /** What an ok reconciliation means of any file whatever: it verifies, and its keys and the ledger's are
      the same set. How often a key occurs, and what else a record says, is not compared. */
  lemma {:induction false} OkReconciliationExactlyWhen(r: Reader, text: string, ledger: seq<Record>)
    requires Reconcile(r, text, ledger).Some?
    ensures KeysOf(Exported(r.p, SplitLines(text))).Some? && KeysOf(AsValues(ledger)).Some?
    ensures Reconcile(r, text, ledger).value.violations == []
       <==> VerifiesOk(r, text)
            && AllAmong(r, KeysOf(AsValues(ledger)).value, KeysOf(Exported(r.p, SplitLines(text))).value)
            && AllAmong(r, KeysOf(Exported(r.p, SplitLines(text))).value, KeysOf(AsValues(ledger)).value)
  {
    var journal, record := KeysOf(Exported(r.p, SplitLines(text))).value, KeysOf(AsValues(ledger)).value;
    DifferenceEmptyExactlyWhen(r, record, journal);
    DifferenceEmptyExactlyWhen(r, journal, record);
    var missing := Missing(Listed(r, Difference(r, record, journal)));
    var absent := Absent(Listed(r, Difference(r, journal, record)));
    ListedIsInOrder(r, Difference(r, record, journal));
    ListedIsInOrder(r, Difference(r, journal, record));
    var all := Reconcile(r, text, ledger).value.violations;
    assert all == Verify(r, text).value.violations + missing + absent;
    assert |all| == |Verify(r, text).value.violations| + |missing| + |absent|;
  }

  lemma {:induction false} OkParts(r: Reader, text: string, events: seq<Record>)
    returns (journal: seq<Key>, ledger: seq<Key>)
    requires Reconcile(r, text, events).Some? && Reconcile(r, text, events).value.violations == []
    ensures VerifiesOk(r, text)
    ensures KeysOf(Exported(r.p, SplitLines(text))) == Some(journal) && KeysOf(AsValues(events)) == Some(ledger)
    ensures Difference(r, ledger, journal) == [] && Difference(r, journal, ledger) == []
  {
    journal := KeysOf(Exported(r.p, SplitLines(text))).value;
    ledger := KeysOf(AsValues(events)).value;
    OkReconciliationExactlyWhen(r, text, events);
    DifferenceEmptyExactlyWhen(r, ledger, journal);
    DifferenceEmptyExactlyWhen(r, journal, ledger);
  }

  lemma {:induction false} KeysAgree(r: Reader, events: seq<L.Event>, journal: seq<Key>)
    requires FaithfulKeys(r) && Numbered(events) && RisingKeys(journal)
    requires Difference(r, EventKeys(events), journal) == [] && Difference(r, journal, EventKeys(events)) == []
    ensures journal == EventKeys(events)
  {
    var ledger := EventKeys(events);
    DifferenceEmpty(r, ledger, journal);
    DifferenceEmpty(r, journal, ledger);
    forall k | k in journal ensures k in ledger {
      var i :| 0 <= i < |journal| && journal[i] == k;
      KnownEventKey(r, k, events);
    }
    forall k | k in ledger ensures k in journal {
      var i :| 0 <= i < |ledger| && ledger[i] == k;
      EventKeyKnown(r, journal, events[i]);
    }
    RisingListsAgree(journal, ledger);
  }

  /** An ok reconciliation, for records without a `body` field and with integer sequences, means the
      exported keys are the ledger's, in order. */
  lemma {:induction false} OkReconciliationMeansEqualKeys(r: Reader, render: Rendering, events: seq<L.Event>,
                                                          text: string)
    requires FaithfulReader(r) && FaithfulKeys(r) && Renders(r.p, render) && Numbered(events)
    requires PlainRecords(FileRecords(r, text))
    requires Reconcile(r, text, EventBodies(render, events)).Some?
    requires Reconcile(r, text, EventBodies(render, events)).value.violations == []
    ensures KeysOf(Exported(r.p, SplitLines(text))) == Some(EventKeys(events))
  {
    var journal, ledger := OkParts(r, text, EventBodies(render, events));
    LedgerKeys(r.p, render, events);
    FileKeysRise(r, text, journal);
    KeysAgree(r, events, journal);
  }
}
