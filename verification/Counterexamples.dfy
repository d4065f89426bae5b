/** Inputs at which a promise of the export, the checkpoint and the reconciliation fails. The exact
    conditions are proved elsewhere; here is one input on the wrong side of each. */
module Counterexamples {
  import opened Wrappers
  import opened Principals
  import opened Json
  import opened JsonRoundTrip
  import opened Sorting
  import opened Canonical
  import opened CanonicalTheorems
  import opened Lines
  import opened JsonPrefix
  import opened Export
  import opened ExportTheorems
  import opened HonestExport
  import opened Listing
  import opened Reconciliation
  import opened LedgerExport
  import opened Witness
  import opened Checkpoint
  import opened FreshnessTheorems
  import L = Ledger
  import Evolution
  import History

  // ------------------------------------------------------------------ an export that does not verify

  /** A ledger in which one execution was created. */
  function Created(operation: string, clock: L.Clock): seq<(L.Op, L.Clock)> {
    [(L.CreateOp("A", "run", Text("actor"), "tool", operation, "scope"), clock)]
  }

  function CreatedEvent(operation: string, clock: L.Clock): L.Event {
    L.Event(1, "A", L.CreatedEvent, None, Some(L.CREATED), L.Creation("tool", operation), clock(1))
  }

  lemma {:induction false} CreatedLog(u: Unicode, operation: string, clock: L.Clock)
    requires StableOnAscii(u)
    ensures Evolution.Reachable(u, L.Run(L.EMPTY, u, Created(operation, clock)))
    ensures L.Run(L.EMPTY, u, Created(operation, clock)).events == [CreatedEvent(operation, clock)]
  {
    CanonicalSpellingIsKept(u, "actor");
    var ops := Created(operation, clock);
    assert ops[..0] == [];
    assert L.Run(L.EMPTY, u, ops[..0]) == L.EMPTY;
  }

  /** The detail of a `created` event, as it was stored and is read back. */
  function CreationDetail(operation: string): Value {
    Dict([Entry("operation", Str(operation)), Entry("tool_id", Str("tool"))])
  }

  ghost predicate KeepsCreations(render: Rendering) {
    forall operation :: render.detail(L.Creation("tool", operation)) == CreationDetail(operation)
  }

  lemma {:induction false} FieldsStayApart(p: Platform, render: Rendering, e: L.Event)
    requires AsciiStays(p)
    ensures KeysStayApart(p, EventBody(render, e))
  {
    var body := EventBody(render, e);
    forall i, j | 0 <= i < j < |body| ensures p.nfc(body[i].key) != p.nfc(body[j].key) {
      EventFields(render, e, i);
      EventFields(render, e, j);
      FieldsDiffer(i, j);
      FieldIsAscii(i);
      FieldIsAscii(j);
      AsciiNamesStay(p, EVENT_FIELDS[i], EVENT_FIELDS[j]);
    }
  }

  lemma {:induction false} FieldIsAscii(i: nat)
    requires i < |EVENT_FIELDS|
    ensures IsAscii(EVENT_FIELDS[i])
  {
  }

  lemma {:induction false} AsciiNamesStay(p: Platform, a: string, b: string)
    requires AsciiStays(p) && IsAscii(a) && IsAscii(b) && a != b
    ensures p.nfc(a) != p.nfc(b)
  {
  }

  lemma {:induction false} DetailAccepted(p: Platform, operation: string)
    requires AsciiStays(p) && |operation| <= MAX_STRING
    ensures Acceptable(p, CreationDetail(operation), 1)
  {
    var entries := CreationDetail(operation).entries;
    assert IsAscii("operation") && IsAscii("tool_id") && |"operation"| != |"tool_id"|;
    forall i | 0 <= i < |entries| ensures Acceptable(p, entries[i].value, 2) { assert entries[i].value.Str?; }
  }

  lemma {:induction false} CreationAccepted(p: Platform, render: Rendering, operation: string, clock: L.Clock)
    requires AsciiStays(p) && KeepsCreations(render) && |operation| <= MAX_STRING
    ensures Dumps(p, Dict(EventBody(render, CreatedEvent(operation, clock)))).Ok?
  {
    var e := CreatedEvent(operation, clock);
    var body := EventBody(render, e);
    FieldsStayApart(p, render, e);
    DetailAccepted(p, operation);
    forall i | 0 <= i < |body| ensures Acceptable(p, body[i].value, 1) {
      if i == 5 { assert body[5].value == CreationDetail(operation); }
    }
    AcceptedExactlyWhen(p, Dict(body), 0);
  }

  lemma {:induction false} DetailBreaks(render: Rendering, operation: string, clock: L.Clock)
    requires KeepsCreations(render) && RawBreakIn(operation)
    ensures BreaksIn(Dict(EventBody(render, CreatedEvent(operation, clock))))
  {
    var body := EventBody(render, CreatedEvent(operation, clock));
    var entries := CreationDetail(operation).entries;
    assert EntryBreaks(entries[0]);
    DictBreaks(entries);
    assert EntryBreaks(body[5]);
    DictBreaks(body);
  }

  /** An honest export that does not verify: create one execution whose operation is a line separator
      (U+2028), and export the ledger. On every platform, at every time. */
  lemma {:induction false} HonestExportCanFail(r: Reader, render: Rendering, u: Unicode, clock: L.Clock)
    requires FaithfulReader(r) && AsciiStays(r.p) && Renders(r.p, render) && KeepsCreations(render) && StableOnAscii(u)
    ensures var l := L.Run(L.EMPTY, u, Created("\U{2028}", clock));
            var text := ExportText(r.p, r.sha, EventBodies(render, l.events));
            Evolution.Reachable(u, l) && text.Ok? && !VerifiesOk(r, text.value)
  {
    var l := L.Run(L.EMPTY, u, Created("\U{2028}", clock));
    var body := EventBody(render, CreatedEvent("\U{2028}", clock));
    CreatedLog(u, "\U{2028}", clock);
    assert EventBodies(render, l.events) == [body];
    CreationAccepted(r.p, render, "\U{2028}", clock);
    OneRecordExports(r.p, r.sha, body);
    assert "\U{2028}"[0] == '\U{2028}';
    DetailBreaks(render, "\U{2028}", clock);
    assert BreaksIn(Dict(EventBodies(render, l.events)[0]));
    ReachableExportVerifies(r, render, u, l, ExportText(r.p, r.sha, EventBodies(render, l.events)).value);
  }

  // ------------------------------------------------------------------ a verified journal without a tip

  /** The integrity block of a log that calls the hash `record_hash`. */
  function RecordLink(before: string, after: string): Entry {
    Entry("integrity", Dict([Entry("previous_hash", Str(before)), Entry("record_hash", Str(after))]))
  }

  /** One record of such a log, sealed over its body. */
  function RecordHashed(p: Platform, sha: Sha, body: Record): Record {
    body + [RecordLink(GENESIS, sha(GENESIS + (match Dumps(p, Dict(body)) case Ok(t) => t case Err(_) => "")))]
  }

  lemma {:induction false} RecordLinkPrints(p: Platform, before: string, after: string)
    ensures Printable(p, RecordLink(before, after).value)
  {
    var fields := RecordLink(before, after).value.entries;
    assert fields[0].key != fields[1].key by { assert fields[0].key[0] == 'p' && fields[1].key[0] == 'r'; }
    forall i | 0 <= i < |fields| ensures Printable(p, fields[i].value) { assert fields[i].value.Str?; }
  }

  lemma {:induction false} RecordLinkFields(p: Platform, before: string, after: string)
    ensures var fields := SortEntries(SortValues(RecordLink(before, after).value.entries));
            && Lookup(fields, "previous_hash") == Some(Str(before)) && Lookup(fields, "record_hash") == Some(Str(after))
            && Lookup(fields, "event_hash") == None
  {
    var fields := RecordLink(before, after).value.entries;
    RecordLinkPrints(p, before, after);
    SortIsResorted(fields);
    LookupAt(fields, 0);
    LookupAt(fields, 1);
    LookupFinds(fields, "event_hash");
    assert fields[0].key != "event_hash" && fields[1].key != "event_hash" by {
      assert fields[0].key[0] == 'p' && fields[1].key[0] == 'r' && "event_hash"[0] == 'e';
    }
    var sorted := SortEntries(SortValues(fields));
    assert Lookup(sorted, "previous_hash") == MapSort(Lookup(fields, "previous_hash"));
    assert Lookup(sorted, "record_hash") == MapSort(Lookup(fields, "record_hash"));
    assert Lookup(sorted, "event_hash") == MapSort(Lookup(fields, "event_hash"));
  }

  /** A body with an integrity block after it, read back. */
  lemma {:induction false} AppendedReadsBack(p: Platform, body: Record, link: Entry)
    requires HonestBody(p, body) && link.key == "integrity" && Printable(p, link.value)
    ensures Printable(p, Dict(body + [link])) && IsRecordLine(p, LineOf(body + [link]))
    ensures var read := RecordOf(p, LineOf(body + [link]));
            && IntegrityOf(read) == SortKeys(link.value)
            && Resorted(body, BodyOf(read))
  {
    var record := body + [link];
    forall i, j | 0 <= i < j < |record| ensures record[i].key != record[j].key {
      assert i < |body| && record[i] == body[i];
      if j < |body| { assert record[j] == body[j]; }
    }
    ReadBackParses(p, record);
    var es := ReadBack(record);
    RemoveKeepsDistinct(es, "integrity");
    forall key ensures Lookup(Remove(es, "integrity"), key) == MapSort(Lookup(body, key)) {
      RemoveLookup(es, "integrity", key);
      AppendedLookup(body, link, key);
      LookupFinds(body, key);
      assert Lookup(es, key) == MapSort(Lookup(record, key));
    }
    assert Lookup(es, "integrity") == MapSort(Lookup(record, "integrity"));
    AppendedLookup(body, link, "integrity");
  }

  lemma {:induction false} RecordHashedLinks(r: Reader, body: Record)
    requires HonestBody(r.p, body) && Dumps(r.p, Dict(body)).Ok?
    ensures var record := RecordHashed(r.p, r.sha, body);
            && Printable(r.p, Dict(record)) && IsRecordLine(r.p, LineOf(record))
            && var read := RecordOf(r.p, LineOf(record));
               Linked(r, read, GENESIS, r.sha(GENESIS + BodyText(r.p, read))) && EventHash(Dict(read)) == None
  {
    var text := Dumps(r.p, Dict(body)).value;
    var link := RecordLink(GENESIS, r.sha(GENESIS + text));
    RecordLinkPrints(r.p, GENESIS, r.sha(GENESIS + text));
    RecordLinkFields(r.p, GENESIS, r.sha(GENESIS + text));
    AppendedReadsBack(r.p, body, link);
    var read := RecordOf(r.p, LineOf(body + [link]));
    ReadBackParses(r.p, body + [link]);
    RemovePrints(r.p, read, "integrity");
    DumpsResorted(r.p, body, BodyOf(read));
  }

  lemma {:induction false} RecordLinkUnbroken(before: string, after: string)
    requires IsAscii(before) && IsAscii(after)
    ensures !EntryBreaks(RecordLink(before, after))
  {
    var fields := RecordLink(before, after).value.entries;
    AsciiHasNoRawBreak(before);
    AsciiHasNoRawBreak(after);
    AsciiHasNoRawBreak("integrity");
    AsciiHasNoRawBreak("previous_hash");
    AsciiHasNoRawBreak("record_hash");
    forall i | 0 <= i < |fields| ensures !(RawBreakIn(fields[i].key) || BreaksIn(fields[i].value)) {}
  }

  lemma {:induction false} RecordHashedUnbroken(r: Reader, body: Record)
    requires FaithfulReader(r) && HonestBody(r.p, body) && Dumps(r.p, Dict(body)).Ok? && !BreaksIn(Dict(body))
    ensures Unbroken(LineOf(RecordHashed(r.p, r.sha, body)))
  {
    var record := RecordHashed(r.p, r.sha, body);
    RecordHashedLinks(r, body);
    SortKeysPrintable(r.p, Dict(record));
    PrintBreaks(r.p, SortKeys(Dict(record)), Spaced, "");
    SortedBreaks(Dict(record));
    RecordLinkUnbroken(GENESIS, r.sha(GENESIS + Dumps(r.p, Dict(body)).value));
    AppendedBreaks(body, record[|body|]);
  }

  lemma {:induction false} OneLinkedRecord(r: Reader, record: Record)
    requires FaithfulReader(r) && PrintedRecords(r.p, [record]) && Unbroken(LineOf(record))
    requires var read := RecordOf(r.p, LineOf(record)); Linked(r, read, GENESIS, r.sha(GENESIS + BodyText(r.p, read)))
    ensures var text := Joined(LinesOf([record]));
            VerifiesOk(r, text) && FileRecords(r, text) == [RecordOf(r.p, LineOf(record))]
  {
    var lines := LinesOf([record]);
    LinesReadBack(lines);
    RecordsReadBack(r.p, [record]);
    assert RecordsOf(r.p, lines) == [RecordOf(r.p, LineOf(record))];
    OneIsChained(r, RecordOf(r.p, LineOf(record)));
    VerifiesExactlyWhen(r, Joined(lines));
  }

  lemma {:induction false} OneIsChained(r: Reader, read: Record)
    requires Linked(r, read, GENESIS, r.sha(GENESIS + BodyText(r.p, read)))
    ensures AllLinked(r, [read]) && SequencesRise([read])
  {
    LinkedByOne(r, [], read);
    assert [] + [read] == [read] && BodyTexts(r.p, []) == [];
  }

  /** A journal that verifies and has no tip `journal_tip` can read: one record, with any body, sealed
      under `record_hash`. */
  lemma {:induction false} VerifiedWithoutTip(r: Reader, body: Record)
    requires FaithfulReader(r) && HonestBody(r.p, body) && Dumps(r.p, Dict(body)).Ok? && !BreaksIn(Dict(body))
    ensures var text := Joined(LinesOf([RecordHashed(r.p, r.sha, body)]));
            VerifiesOk(r, text) && JournalTip(r.p, text) == None
  {
    var record := RecordHashed(r.p, r.sha, body);
    RecordHashedLinks(r, body);
    RecordHashedUnbroken(r, body);
    OneLinkedRecord(r, record);
    NoTip(r, Joined(LinesOf([record])), RecordOf(r.p, LineOf(record)));
  }

  lemma {:induction false} NoTip(r: Reader, text: string, last: Record)
    requires FaithfulReader(r) && VerifiesOk(r, text) && FileRecords(r, text) == [last] && EventHash(Dict(last)) == None
    ensures JournalTip(r.p, text) == None
  {
    TipReadableExactlyWhen(r, text);
  }

  // ------------------------------------------------------------------ a fork that is called current

  /** A checkpoint of the empty journal, made at this time. */
  function MadeAt(r: Reader, sign: string -> string, time: int): Option<Checkpoint> {
    CreateCheckpoint(r, sign, "", "log", 1, None, Int(time))
  }

  lemma {:induction false} EmptyJournal(r: Reader)
    requires FaithfulReader(r)
    ensures VerifiesOk(r, "") && JournalTip(r.p, "") == Some(Str(GENESIS))
  {
    VerifiesExactlyWhen(r, "");
  }

  const CHECKPOINT_FIELDS := ["log_id", "sequence", "journal_tip_hash", "previous_checkpoint_hash", "signed_at"]

  lemma {:induction false} CheckpointFieldsDiffer(p: Platform, i: nat, j: nat)
    requires AsciiStays(p) && i < j < |CHECKPOINT_FIELDS|
    ensures p.nfc(CHECKPOINT_FIELDS[i]) != p.nfc(CHECKPOINT_FIELDS[j])
  {
    var f := CHECKPOINT_FIELDS;
    assert |f[0]| == 6 && |f[1]| == 8 && |f[2]| == 16 && |f[3]| == 24 && |f[4]| == 9;
    CheckpointFieldIsAscii(i);
    CheckpointFieldIsAscii(j);
    AsciiNamesStay(p, f[i], f[j]);
  }

  lemma {:induction false} CheckpointFieldIsAscii(i: nat)
    requires i < |CHECKPOINT_FIELDS|
    ensures IsAscii(CHECKPOINT_FIELDS[i])
  {
  }

  lemma {:induction false} CheckpointKeys(c: Checkpoint)
    ensures |CheckpointBody(c)| == |CHECKPOINT_FIELDS|
    ensures forall i | 0 <= i < |CHECKPOINT_FIELDS| :: CheckpointBody(c)[i].key == CHECKPOINT_FIELDS[i]
  {
  }

  lemma {:induction false} CheckpointAccepted(p: Platform, c: Checkpoint, time: int)
    requires AsciiStays(p) && c.logId == "log" && c.tip == Str(GENESIS) && c.previous == GENESIS
             && c.signedAt == Int(time)
    ensures CheckpointText(p, c).Ok? && CheckpointPrints(p, c)
  {
    var body := CheckpointBody(c);
    forall i, j | 0 <= i < j < |body| ensures p.nfc(body[i].key) != p.nfc(body[j].key) {
      CheckpointKeys(c);
      CheckpointFieldsDiffer(p, i, j);
    }
    forall i | 0 <= i < |body| ensures Acceptable(p, body[i].value, 1) {
      assert body[i].value.Str? || body[i].value.Int?;
    }
    AcceptedExactlyWhen(p, Dict(body), 0);
  }

  lemma {:induction false} MadeAtIs(r: Reader, sign: string -> string, time: int)
    requires FaithfulReader(r) && AsciiStays(r.p)
    ensures MadeAt(r, sign, time).Some?
    ensures var c := MadeAt(r, sign, time).value;
            && c.logId == "log" && c.sequence == 1 && c.tip == Str(GENESIS) && c.signedAt == Int(time)
            && c.previous == GENESIS_CHECKPOINT
            && CheckpointText(r.p, c).Ok? && CheckpointPrints(r.p, c)
            && c.signature == sign(CheckpointText(r.p, c).value)
  {
    EmptyJournal(r);
    CheckpointAccepted(r.p, Checkpoint("log", 1, Str(GENESIS), GENESIS_CHECKPOINT, Int(time), ""), time);
    CreatedIsHonest(r, sign, "", "log", 1, None, Int(time));
    CheckpointAccepted(r.p, MadeAt(r, sign, time).value, time);
  }

  lemma {:induction false} TimesDiffer(p: Platform, a: Checkpoint, b: Checkpoint)
    requires CheckpointPrints(p, a) && CheckpointPrints(p, b) && CheckpointText(p, a).Ok? && CheckpointText(p, b).Ok?
    requires a.signedAt == Int(1) && b.signedAt == Int(2)
    ensures CheckpointText(p, a) != CheckpointText(p, b)
  {
    if CheckpointText(p, a) == CheckpointText(p, b) { SignedAtSame(p, a, b); }
  }

  lemma {:induction false} SignedAtSame(p: Platform, a: Checkpoint, b: Checkpoint)
    requires CheckpointPrints(p, a) && CheckpointPrints(p, b)
    requires CheckpointText(p, a).Ok? && CheckpointText(p, a) == CheckpointText(p, b)
    ensures Same(NormalOf(p, a.signedAt), NormalOf(p, b.signedAt))
  {
    BodiesSame(p, a, b);
    assert CheckpointBody(a)[4].value == a.signedAt && CheckpointBody(b)[4].value == b.signedAt;
  }

  ghost predicate MadeApart(r: Reader, a: Option<Checkpoint>, b: Option<Checkpoint>) {
    a.Some? && b.Some? ==> DigestsApart(r, a.value, b.value)
  }

  /** Two checkpoints of one journal, log and sequence, made at two times. The first is published; the
      other one, presented, has the verdict "current" and is not ok. */
  lemma {:induction false} ForkIsCalledCurrent(r: Reader, sign: string -> string, signed: (string, string) -> bool)
    requires FaithfulReader(r) && AsciiStays(r.p) && forall text :: signed(text, sign(text))
    requires MadeApart(r, MadeAt(r, sign, 1), MadeAt(r, sign, 2))
    ensures MadeAt(r, sign, 1).Some? && MadeAt(r, sign, 2).Some? && CheckpointDigest(r, MadeAt(r, sign, 1).value).Ok?
    ensures var entry := Published("log", 1, CheckpointDigest(r, MadeAt(r, sign, 1).value).value);
            var report := Freshness(r, signed, "", MadeAt(r, sign, 2).value, [entry]);
            Witness.Advances([], entry) && report.Some? && report.value.Verdict() == Current && !report.value.Ok()
  {
    MadeAtIs(r, sign, 1);
    MadeAtIs(r, sign, 2);
    EmptyJournal(r);
    var a, b := MadeAt(r, sign, 1).value, MadeAt(r, sign, 2).value;
    TimesDiffer(r.p, a, b);
    var entry := Published("log", 1, CheckpointDigest(r, a).value);
    assert [entry][..0] == [] && Latest([entry], "log") == Some(1) && DigestAt([entry], "log", 1) == Some(entry.digest);
  }

  // ------------------------------------------------------------------ what a `body` field hides

  /** The three fields a record is compared by. */
  function KeyFields(e: L.Event): Record {
    [Entry("execution_id", Str(e.executionId)), Entry("kind", Str(KindText(e.kind))),
     Entry("sequence", Int(e.sequence))]
  }

  /** A record that says one thing and is compared by another. */
  function Disguised(e: L.Event, other: string): Record {
    [Entry("execution_id", Str(other)), Entry("body", Dict(KeyFields(e)))]
  }

  lemma {:induction false} KeyFieldsApart(e: L.Event)
    ensures DistinctKeys(KeyFields(e))
  {
    var fields := KeyFields(e);
    assert |fields[0].key| == 12 && |fields[1].key| == 4 && |fields[2].key| == 8;
  }

  lemma {:induction false} DisguisedIsHonest(p: Platform, e: L.Event, other: string)
    ensures HonestBody(p, Disguised(e, other))
  {
    var body, fields := Disguised(e, other), KeyFields(e);
    KeyFieldsApart(e);
    forall i | 0 <= i < |fields| ensures Printable(p, fields[i].value) {
      assert fields[i].value.Str? || fields[i].value.Int?;
    }
    assert Printable(p, Dict(fields));
    assert |body[0].key| == 12 && |body[1].key| == 4 && |"integrity"| == 9;
    forall i | 0 <= i < |body| ensures Printable(p, body[i].value) {
      assert body[i].value.Str? || body[i].value == Dict(fields);
    }
  }

  lemma {:induction false} DisguisedKey(p: Platform, e: L.Event, other: string, before: string, after: string)
    ensures var line := LineOf(Seal(Disguised(e, other), before, after));
            && Parse(p, Plain, line).Some? && KeyOf(Parse(p, Plain, line).value) == Some(EventKey(e))
            && Lookup(RecordOf(p, line), "execution_id") == Some(Str(other))
  {
    var body, fields := Disguised(e, other), KeyFields(e);
    DisguisedIsHonest(p, e, other);
    SealAppends(p, body, before, after);
    ReadBackParses(p, Seal(body, before, after));
    SealedLookup(p, body, before, after, "execution_id");
    SealedLookup(p, body, before, after, "body");
    LookupAt(body, 0);
    LookupAt(body, 1);
    SortedKeyFields(e);
    KeyInBody(ReadBack(Seal(body, before, after)), SortEntries(SortValues(fields)), e);
  }

  lemma {:induction false} SortedKeyFields(e: L.Event)
    ensures var sorted := SortEntries(SortValues(KeyFields(e)));
            && Lookup(sorted, "execution_id") == Some(Str(e.executionId))
            && Lookup(sorted, "kind") == Some(Str(KindText(e.kind)))
            && Lookup(sorted, "sequence") == Some(Int(e.sequence))
  {
    var fields := KeyFields(e);
    KeyFieldsApart(e);
    SortIsResorted(fields);
    LookupAt(fields, 0);
    LookupAt(fields, 1);
    LookupAt(fields, 2);
    var sorted := SortEntries(SortValues(fields));
    assert Lookup(sorted, "execution_id") == MapSort(Lookup(fields, "execution_id"));
    assert Lookup(sorted, "kind") == MapSort(Lookup(fields, "kind"));
    assert Lookup(sorted, "sequence") == MapSort(Lookup(fields, "sequence"));
  }

  /** What a record is compared by, if it has a `body`. */
  lemma {:induction false} KeyInBody(record: Record, fields: Record, e: L.Event)
    requires Lookup(record, "body") == Some(Dict(fields)) && Lookup(fields, "execution_id") == Some(Str(e.executionId))
    requires Lookup(fields, "kind") == Some(Str(KindText(e.kind)))
             && Lookup(fields, "sequence") == Some(Int(e.sequence))
    ensures KeyOf(Dict(record)) == Some(EventKey(e))
  {
  }

  /** The file with this one record. */
  lemma {:induction false} DisguisedFile(r: Reader, e: L.Event, other: string, text: string)
    requires FaithfulReader(r)
    requires ExportText(r.p, r.sha, [Disguised(e, other)]) == Ok(text) && !BreaksIn(Dict(Disguised(e, other)))
    ensures VerifiesOk(r, text) && KeysOf(Exported(r.p, SplitLines(text))) == Some([EventKey(e)])
    ensures |FileRecords(r, text)| == 1 && Lookup(FileRecords(r, text)[0], "execution_id") == Some(Str(other))
  {
    var bodies := [Disguised(e, other)];
    var records := Chain(r.p, r.sha, GENESIS, bodies).value.records;
    DisguisedIsHonest(r.p, e, other);
    HonestExportVerifiesExactlyWhen(r, bodies, text);
    ChainPointwise(r.p, r.sha, bodies);
    assert SealedAt(r.p, r.sha, bodies, records, 0);
    OneSealedRecord(r, records, bodies[0], HashAt(r.p, r.sha, bodies, 0), HashAt(r.p, r.sha, bodies, 1), e, other);
  }

  lemma {:induction false} OneSealedRecord(r: Reader, records: seq<Record>, body: Record, before: string, after: string,
                                           e: L.Event, other: string)
    requires FaithfulReader(r) && body == Disguised(e, other) && records == [Seal(body, before, after)]
    requires VerifiesOk(r, Joined(LinesOf(records)))
    ensures KeysOf(Exported(r.p, SplitLines(Joined(LinesOf(records))))) == Some([EventKey(e)])
    ensures var read := FileRecords(r, Joined(LinesOf(records)));
            |read| == 1 && Lookup(read[0], "execution_id") == Some(Str(other))
  {
    DisguisedIsHonest(r.p, e, other);
    SealAppends(r.p, body, before, after);
    DisguisedKey(r.p, e, other, before, after);
    OkMeansUnbroken(r, records);
    RecordsReadBack(r.p, records);
    LineStarts(records[0]);
    ExportedPointwise(r.p, LinesOf(records), [EventKey(e)]);
  }

  /** A journal that reconciles with a ledger it does not represent: its one record names any other
      execution, and carries the ledger's event in a field called `body`, by which alone it is compared. */
  lemma {:induction false} DisguiseReconciles(r: Reader, render: Rendering, e: L.Event, other: string, text: string)
    requires FaithfulReader(r) && FaithfulKeys(r) && Renders(r.p, render)
    requires ExportText(r.p, r.sha, [Disguised(e, other)]) == Ok(text) && !BreaksIn(Dict(Disguised(e, other)))
    ensures Reconcile(r, text, EventBodies(render, [e])).Some?
    ensures Reconcile(r, text, EventBodies(render, [e])).value.violations == []
    ensures |FileRecords(r, text)| == 1 && Lookup(FileRecords(r, text)[0], "execution_id") == Some(Str(other))
  {
    DisguisedFile(r, e, other, text);
    LedgerKeys(r.p, render, [e]);
    assert EventKeys([e]) == [EventKey(e)];
    OneKeyReconciles(r, text, EventBodies(render, [e]), EventKey(e));
  }

  lemma {:induction false} OneKeyReconciles(r: Reader, text: string, ledger: seq<Record>, k: Key)
    requires VerifiesOk(r, text) && SameKey(r, k, k)
    requires KeysOf(Exported(r.p, SplitLines(text))) == Some([k]) && KeysOf(AsValues(ledger)) == Some([k])
    ensures Reconcile(r, text, ledger).Some? && Reconcile(r, text, ledger).value.violations == []
  {
    OkReconciliationExactlyWhen(r, text, ledger);
    assert Contains(r, [k], k) by { assert SameKey(r, [k][0], k); }
  }

  // ------------------------------------------------------------------ a report that is not in the order of the log

  /** A ledger in which one execution was created and then approved. */
  function CreatedAndApproved(clock: L.Clock): seq<(L.Op, L.Clock)> {
    Created("call", clock)
    + [(L.ApproveOp("A", Text("approver"), "scope", L.Finite(5.0), "lease"), clock)]
  }

  function ApprovedEvent(clock: L.Clock): L.Event {
    L.Event(2, "A", L.ApprovedEvent, Some(L.CREATED), Some(L.APPROVED),
            L.Approval("approver", "lease", clock(0) + 5.0), clock(2))
  }

  function FirstRow(clock: L.Clock): L.Row {
    L.Row("run", "actor", "tool", "call", "scope", L.CREATED, None, None, None, None, clock(0))
  }

  lemma {:induction false} CreatedRow(u: Unicode, clock: L.Clock)
    requires StableOnAscii(u)
    ensures var l := L.Run(L.EMPTY, u, Created("call", clock));
            && l.order == ["A"] && "A" in l.rows && l.events == [CreatedEvent("call", clock)]
            && l.rows["A"] == FirstRow(clock)
  {
    CreatedLog(u, "call", clock);
    CanonicalSpellingIsKept(u, "actor");
    var ops := Created("call", clock);
    assert ops[..0] == [];
    assert L.Run(L.EMPTY, u, ops[..0]) == L.EMPTY;
  }

  lemma {:induction false} ApprovalLogged(u: Unicode, l: L.Ledger, clock: L.Clock)
    requires StableOnAscii(u) && l.order == ["A"] && "A" in l.rows && |l.events| == 1
    requires l.rows["A"] == FirstRow(clock)
    ensures L.Apply(l, u, L.ApproveOp("A", Text("approver"), "scope", L.Finite(5.0), "lease"), clock).events
         == l.events + [ApprovedEvent(clock)]
  {
    CanonicalSpellingIsKept(u, "approver");
    History.FindsTheLease(l.rows, l.order, "lease");
    assert |"actor"| != |"approver"|;
  }

  lemma {:induction false} ApprovedLog(u: Unicode, clock: L.Clock)
    requires StableOnAscii(u)
    ensures Evolution.Reachable(u, L.Run(L.EMPTY, u, CreatedAndApproved(clock)))
    ensures L.Run(L.EMPTY, u, CreatedAndApproved(clock)).events == [CreatedEvent("call", clock), ApprovedEvent(clock)]
  {
    var ops := CreatedAndApproved(clock);
    assert ops[..1] == Created("call", clock);
    CreatedRow(u, clock);
    ApprovalLogged(u, L.Run(L.EMPTY, u, ops[..1]), clock);
  }

  /** str() of an event's key for this execution, as Python prints a tuple. */
  ghost predicate ShowsTuples(r: Reader) {
    forall kind: L.Kind, n: nat ::
      r.show((Str("A"), Str(KindText(kind)), Int(n))) == "('A', '" + (KindText(kind) + "', " + NatText(n) + ")")
  }

  lemma {:induction false} AfterPrefix(prefix: string, a: string, b: string)
    ensures AtMost(prefix + a, prefix + b) <==> AtMost(a, b)
  {
    if prefix == "" {
      assert prefix + a == a && prefix + b == b;
    } else {
      assert (prefix + a)[1..] == prefix[1..] + a && (prefix + b)[1..] == prefix[1..] + b;
      AfterPrefix(prefix[1..], a, b);
    }
  }

  lemma {:induction false} ApprovedPrintsFirst(r: Reader, clock: L.Clock)
    requires ShowsTuples(r)
    ensures AtMost(r.show(EventKey(ApprovedEvent(clock))), r.show(EventKey(CreatedEvent("call", clock))))
    ensures !AtMost(r.show(EventKey(CreatedEvent("call", clock))), r.show(EventKey(ApprovedEvent(clock))))
  {
    var a := KindText(L.ApprovedEvent) + "', " + NatText(2) + ")";
    var b := KindText(L.CreatedEvent) + "', " + NatText(1) + ")";
    assert a[0] == 'a' && b[0] == 'c';
    AfterPrefix("('A', '", a, b);
    AfterPrefix("('A', '", b, a);
  }

  /** An export of the empty ledger, reconciled after one creation and one approval: the approval is reported
      first, because "approved" sorts before "created". */
  lemma {:induction false} ReportIsNotInLogOrder(r: Reader, render: Rendering, u: Unicode, clock: L.Clock)
    requires FaithfulReader(r) && FaithfulKeys(r) && Renders(r.p, render) && StableOnAscii(u) && ShowsTuples(r)
    ensures var now := L.Run(L.EMPTY, u, CreatedAndApproved(clock)).events;
            && now == [CreatedEvent("call", clock), ApprovedEvent(clock)]
            && ExportText(r.p, r.sha, EventBodies(render, [])) == Ok("")
            && Reconcile(r, "", EventBodies(render, now))
               == Some(Report(0, Missing([EventKey(now[1]), EventKey(now[0])]), Str(GENESIS)))
  {
    ApprovedLog(u, clock);
    ApprovedPrintsFirst(r, clock);
    TwoReported(r, render, CreatedEvent("call", clock), ApprovedEvent(clock));
  }

  /** Two events of which the later one prints first, against an export of the empty ledger. */
  lemma {:induction false} TwoReported(r: Reader, render: Rendering, first: L.Event, second: L.Event)
    requires FaithfulReader(r) && FaithfulKeys(r) && Renders(r.p, render) && Numbered([first, second])
    requires !AtMost(r.show(EventKey(first)), r.show(EventKey(second)))
    ensures ExportText(r.p, r.sha, EventBodies(render, [])) == Ok("")
    ensures Reconcile(r, "", EventBodies(render, [first, second]))
         == Some(Report(0, Missing([EventKey(second), EventKey(first)]), Str(GENESIS)))
  {
    var now := [first, second];
    EmptyExport(r, render);
    assert now[..0] == [] && now[0..] == now;
    StaleExportMissesExactlyTheRest(r, render, now, 0, "");
    assert EventKeys(now) == [EventKey(first), EventKey(second)];
    TwoListed(r, EventKey(first), EventKey(second));
  }

  lemma {:induction false} EmptyExport(r: Reader, render: Rendering)
    requires FaithfulReader(r)
    ensures ExportText(r.p, r.sha, EventBodies(render, [])) == Ok("")
    ensures VerifiesOk(r, "") && Verify(r, "") == Some(Report(0, [], Str(GENESIS)))
  {
    VerifiesExactlyWhen(r, "");
  }

  lemma {:induction false} TwoListed(r: Reader, a: Key, b: Key)
    requires !AtMost(r.show(a), r.show(b))
    ensures Listed(r, [a, b]) == [b, a]
  {
    var x, y := KeyEntry(r, a), KeyEntry(r, b);
    assert KeyEntries(r, [a, b]) == [x, y];
    assert [x, y][1..] == [y] && [y][1..] == [];
    assert SortEntries([y]) == [y];
    assert SortEntries([x, y]) == Insert(x, [y]);
    assert Insert(x, [y]) == [y] + Insert(x, []);
  }

  // ------------------------------------------------------------------ the assumptions, met together

  /** NFC that changes nothing, every float read as zero, equality by value, and one hash for all texts. */
  function Plainest(): Reader {
    Reader(Platform((s: string) => s, (t: string) => Finite("0.0")), (t: string) => GENESIS,
           (v: Value, w: Value) => v == w, (k: Key) => Print(List([k.0, k.1, k.2]), Compact))
  }

  function PlainRendering(): Rendering {
    Rendering((d: L.Detail) => if d.Creation? then CreationDetailOf(d) else Dict([]), (t: real) => "0.0")
  }

  function CreationDetailOf(d: L.Detail): Value
    requires d.Creation?
  {
    Dict([Entry("operation", Str(d.operation)), Entry("tool_id", Str(d.toolId))])
  }

  function Fill(c: char): (r: string)
    ensures |r| == 64 && forall i | 0 <= i < 64 :: r[i] == c
  {
    seq(64, _ => c)
  }

  /** A hash that tells one text from all others. */
  function Telling(text: string): Sha {
    (t: string) => if t == text then Fill('a') else Fill('b')
  }

  lemma {:induction false} TellingIsAHash(text: string)
    ensures forall t :: |Telling(text)(t)| == 64 && IsAscii(Telling(text)(t)) && Telling(text)(t) != GENESIS
    ensures forall t | t != text :: Telling(text)(t) != Telling(text)(text)
  {
    assert GENESIS[0] == '0' && Fill('a')[0] == 'a' && Fill('b')[0] == 'b';
  }

  /** The hypothesis of the chain theorems, met by the chains of two journals of which one goes on. */
  lemma {:induction false} ChainsCanBeApart(r: Reader, a: string, b: string, t: string, more: string)
    requires r.sha == Telling(GENESIS + t)
    requires BodyTexts(r.p, FileRecords(r, a)) == [t, more] && BodyTexts(r.p, FileRecords(r, b)) == [t]
    ensures ChainsApart(r, a, b)
    ensures HashAfter(r.sha, BodyTexts(r.p, FileRecords(r, a))) != HashAfter(r.sha, BodyTexts(r.p, FileRecords(r, b)))
  {
    TellingIsAHash(GENESIS + t);
    assert [t, more][..1] == [t] && [t, more][..0] == [] && [t][..0] == [];
    assert HashAfter(r.sha, [t]) == Fill('a');
    assert (Fill('a') + more)[0] == 'a' && (GENESIS + t)[0] == '0';
    var all := Hashed(r.sha, [t, more]) + Hashed(r.sha, [t]);
    forall x | x in all ensures x == GENESIS + t || x == Fill('a') + more {
      if x in Hashed(r.sha, [t, more]) {
        var j :| 0 <= j < 2 && x == HashAfter(r.sha, [t, more][..j]) + [t, more][j];
        assert j == 0 || j == 1;
      }
    }
  }

  /** A reader under which the two checkpoints of the fork have two digests. */
  function ForkReader(): Reader {
    var p := Plainest().p;
    var first := Checkpoint("log", 1, Str(GENESIS), GENESIS_CHECKPOINT, Int(1), "");
    Plainest().(sha := Telling(match CheckpointText(p, first) case Ok(t) => t case Err(_) => ""))
  }

  /** The fork, with nothing left to assume. */
  lemma {:induction false} ForkInstance()
    ensures var r, sign := ForkReader(), (t: string) => t;
            var signed := (t: string, s: string) => s == t;
            && FaithfulReader(r) && AsciiStays(r.p) && MadeApart(r, MadeAt(r, sign, 1), MadeAt(r, sign, 2))
            && MadeAt(r, sign, 1).Some? && MadeAt(r, sign, 2).Some? && CheckpointDigest(r, MadeAt(r, sign, 1).value).Ok?
            && var entry := Published("log", 1, CheckpointDigest(r, MadeAt(r, sign, 1).value).value);
               var report := Freshness(r, signed, "", MadeAt(r, sign, 2).value, [entry]);
               report.Some? && report.value.Verdict() == Current && !report.value.Ok()
  {
    var r, sign := ForkReader(), (t: string) => t;
    var signed := (t: string, s: string) => s == t;
    var first := Checkpoint("log", 1, Str(GENESIS), GENESIS_CHECKPOINT, Int(1), "");
    CheckpointAccepted(r.p, first, 1);
    TellingIsAHash(CheckpointText(r.p, first).value);
    MadeAtIs(r, sign, 1);
    MadeAtIs(r, sign, 2);
    SameBodySameText(r.p, first, MadeAt(r, sign, 1).value);
    TimesDiffer(r.p, MadeAt(r, sign, 1).value, MadeAt(r, sign, 2).value);
    ForkIsCalledCurrent(r, sign, signed);
  }

  lemma {:induction false} SameBodySameText(p: Platform, a: Checkpoint, b: Checkpoint)
    requires a.(signature := b.signature) == b
    ensures CheckpointText(p, a) == CheckpointText(p, b)
  {
    assert CheckpointBody(a) == CheckpointBody(b);
  }

  lemma {:induction false} DetailPrints(p: Platform, d: L.Detail)
    ensures Printable(p, PlainRendering().detail(d))
  {
    if d.Creation? {
      var fields := CreationDetailOf(d).entries;
      assert fields[0].key != fields[1].key by { assert |fields[0].key| == 9 && |fields[1].key| == 7; }
      forall i | 0 <= i < |fields| ensures Printable(p, fields[i].value) { assert fields[i].value.Str?; }
    }
  }

  lemma {:induction false} ZeroIsFloatText()
    ensures IsFloatText(Plainest().p, "0.0")
  {
    var t := "0.0";
    assert t[1..] == ".0" && ".0"[1..] == "0" && "0"[1..] == "";
    assert Digits("") == ("", "") && IsDigit("0"[0]);
    assert Digits("0") == (['0'] + "", "");
    assert ['0'] + "" == "0" && "." + "0" == ".0";
    assert Fraction(".0") == (".0", "");
    assert "0" + ".0" + "" == "0.0";
    assert ScanUnsigned(t) == Got(Number(t, true), "");
  }

  lemma {:induction false} KeyTextsDecide(p: Platform, a: Key, b: Key)
    requires IsPlainKey(a) && IsPlainKey(b)
    requires Print(List([a.0, a.1, a.2]), Compact) == Print(List([b.0, b.1, b.2]), Compact)
    ensures a == b
  {
    var x, y := [a.0, a.1, a.2], [b.0, b.1, b.2];
    PrintParses(p, Plain, List(x), Compact);
    PrintParses(p, Plain, List(y), Compact);
    assert x == y;
    assert x[0] == y[0] && x[1] == y[1] && x[2] == y[2];
  }

  /** What is assumed above of platform, hash and rendering can be had all together. */
  lemma {:induction false} AssumptionsAreMet()
    ensures var r, render := Plainest(), PlainRendering();
            && FaithfulReader(r) && FaithfulKeys(r) && PrintsKeysApart(r) && AsciiStays(r.p)
            && Renders(r.p, render) && KeepsCreations(render)
  {
    ZeroIsFloatText();
    forall d ensures Printable(Plainest().p, PlainRendering().detail(d)) { DetailPrints(Plainest().p, d); }
    forall a, b | IsPlainKey(a) && IsPlainKey(b) && Plainest().show(a) == Plainest().show(b) ensures a == b {
      KeyTextsDecide(Plainest().p, a, b);
    }
  }
}
