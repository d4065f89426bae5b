/** From the ledger to the freshness report: journals exported at moments of one run, anchored by
    checkpoints, and presented later. */
module AnchoredJournals {
  import opened Wrappers
  import opened Principals
  import opened Json
  import opened Sorting
  import opened Canonical
  import opened CanonicalTheorems
  import opened Lines
  import opened Export
  import opened ExportTheorems
  import opened HonestExport
  import opened Reconciliation
  import opened LedgerExport
  import opened Witness
  import opened Checkpoint
  import opened FreshnessTheorems
  import L = Ledger
  import History
  import Evolution

  /** The log after the first i transactions of a run. */
  ghost function LogAt(u: Unicode, ops: seq<(L.Op, L.Clock)>, i: nat): seq<L.Event>
    requires i <= |ops|
  {
    L.Run(L.EMPTY, u, ops[..i]).events
  }

  lemma {:induction false} LogsGrow(u: Unicode, ops: seq<(L.Op, L.Clock)>, i: nat, j: nat)
    requires StableOnAscii(u) && i <= j <= |ops|
    ensures LogAt(u, ops, i) <= LogAt(u, ops, j) && Numbered(LogAt(u, ops, j))
    decreases j
  {
    History.RunIsSound(u, ops[..j]);
    SoundNumbers(L.Run(L.EMPTY, u, ops[..j]));
    if i < j {
      LogsGrow(u, ops, i, j - 1);
      OneStepGrows(u, ops, j - 1);
    }
  }

  lemma {:induction false} OneStepGrows(u: Unicode, ops: seq<(L.Op, L.Clock)>, i: nat)
    requires StableOnAscii(u) && i < |ops|
    ensures LogAt(u, ops, i) <= LogAt(u, ops, i + 1)
  {
    var l := L.Run(L.EMPTY, u, ops[..i]);
    History.RunIsSound(u, ops[..i]);
    Evolution.SoundIsShaped(l);
    Evolution.ApplyEvolves(l, u, ops[i].0, ops[i].1);
    assert ops[..i + 1][..i] == ops[..i] && ops[..i + 1][i] == ops[i];
  }

  /** The k-th published journal is the export of the ledger as it was after `when[k]` transactions. */
  ghost predicate Exports(r: Reader, render: Rendering, u: Unicode, ops: seq<(L.Op, L.Clock)>, made: seq<Made>,
                          when: seq<nat>) {
    |when| == |made| && forall k | 0 <= k < |made| :: IsExport(r, render, u, ops, when[k], made[k].journal)
  }

  ghost predicate IsExport(r: Reader, render: Rendering, u: Unicode, ops: seq<(L.Op, L.Clock)>, i: nat, text: string) {
    i <= |ops| && ExportText(r.p, r.sha, EventBodies(render, LogAt(u, ops, i))) == Ok(text)
  }

  /** A presented journal and checkpoint, and everything the theorems assume about what was published. */
  ghost predicate Anchored(r: Reader, render: Rendering, u: Unicode, ops: seq<(L.Op, L.Clock)>, entries: seq<Published>,
                           made: seq<Made>, when: seq<nat>, text: string, c: Checkpoint) {
    && FaithfulReader(r) && AsciiStays(r.p) && Renders(r.p, render) && StableOnAscii(u)
    && Rising(entries) && HonestWitness(r, entries, made) && Exports(r, render, u, ops, made, when)
    && CheckpointPrints(r.p, c) && (forall j | 0 <= j < |made| :: CheckpointPrints(r.p, made[j].checkpoint))
    && forall j | 0 <= j < |made| :: DigestsApart(r, c, made[j].checkpoint) && ChainsApart(r, text, made[j].journal)
  }

  /** The canonical bodies of a verified export are those of the log. */
  lemma {:induction false} ExportedBodies(r: Reader, render: Rendering, u: Unicode, ops: seq<(L.Op, L.Clock)>, i: nat,
                                          text: string)
    requires FaithfulReader(r) && Renders(r.p, render) && StableOnAscii(u)
    requires IsExport(r, render, u, ops, i, text) && VerifiesOk(r, text)
    ensures BodyTexts(r.p, FileRecords(r, text)) == BodyDumps(r.p, EventBodies(render, LogAt(u, ops, i)))
  {
    LogsGrow(u, ops, i, i);
    EventSequences(r.p, render, LogAt(u, ops, i));
    HonestExportVerifiesExactlyWhen(r, EventBodies(render, LogAt(u, ops, i)), text);
  }

  /** If every published checkpoint anchors an export of this ledger, an ok report for any journal whatever
      means: its canonical bodies are, in order, those of the log as it was at the latest checkpoint, and
      that log is a prefix of the log now. */
  lemma {:induction false} FreshPinsTheLog(r: Reader, render: Rendering, signed: (string, string) -> bool, u: Unicode,
                                           ops: seq<(L.Op, L.Clock)>, entries: seq<Published>, made: seq<Made>,
                                           when: seq<nat>, text: string, c: Checkpoint) returns (k: nat)
    requires Anchored(r, render, u, ops, entries, made, when, text, c)
    requires Freshness(r, signed, text, c, entries).Some? && Freshness(r, signed, text, c, entries).value.Ok()
    ensures k < |made| && k < |when| && k < |entries| && when[k] <= |ops|
    ensures entries[k].logId == c.logId && Latest(entries, c.logId) == Some(entries[k].sequence)
    ensures BodyTexts(r.p, FileRecords(r, text)) == BodyDumps(r.p, EventBodies(render, LogAt(u, ops, when[k])))
    ensures LogAt(u, ops, when[k]) <= LogAt(u, ops, |ops|)
  {
    k := FreshMeansLatest(r, signed, entries, made, text, c);
    assert HonestPublication(r, entries[k], made[k].checkpoint, made[k].journal);
    assert IsExport(r, render, u, ops, when[k], made[k].journal);
    ExportedBodies(r, render, u, ops, when[k], made[k].journal);
    LogsGrow(u, ops, when[k], |ops|);
  }

  lemma {:induction false} PrefixesOfOneLength(a: seq<L.Event>, b: seq<L.Event>, all: seq<L.Event>)
    requires a <= all && b <= all && |a| == |b|
    ensures a == b
  {
  }

  /** Reconciled with the ledger as it is now, a file of the earlier log lacks exactly the events since then,
      listed by their printed keys, and there is no other complaint. */
  ghost predicate LacksExactlyTheRest(r: Reader, render: Rendering, text: string, before: seq<L.Event>,
                                      now: seq<L.Event>)
  {
    && before <= now && Verify(r, text).Some?
    && Export.Reconcile(r, text, EventBodies(render, now))
       == Some(Report(|before|, Missing(Listed(r, EventKeys(now[|before|..]))), Verify(r, text).value.tip))
  }

  /** And if the journal presented is itself an export of this ledger, from whatever moment: it is the log
      exactly as it was at the latest checkpoint, and reconciling it with the ledger as it is now lists
      exactly the events since then, by their printed keys, and nothing else. */
  lemma {:induction false} FreshExportReconciles(r: Reader, render: Rendering, signed: (string, string) -> bool,
                                                 u: Unicode, ops: seq<(L.Op, L.Clock)>, entries: seq<Published>,
                                                 made: seq<Made>, when: seq<nat>, text: string, i: nat, c: Checkpoint)
    returns (k: nat)
    requires Anchored(r, render, u, ops, entries, made, when, text, c) && FaithfulKeys(r)
    requires IsExport(r, render, u, ops, i, text)
    requires Freshness(r, signed, text, c, entries).Some? && Freshness(r, signed, text, c, entries).value.Ok()
    ensures k < |when| && k < |entries| && when[k] <= |ops|
    ensures entries[k].logId == c.logId && Latest(entries, c.logId) == Some(entries[k].sequence)
    ensures LogAt(u, ops, i) == LogAt(u, ops, when[k])
    ensures LacksExactlyTheRest(r, render, text, LogAt(u, ops, when[k]), LogAt(u, ops, |ops|))
  {
    k := FreshPinsTheLog(r, render, signed, u, ops, entries, made, when, text, c);
    assert VerifiesOk(r, text);
    ExportedBodies(r, render, u, ops, i, text);
    LogsGrow(u, ops, i, |ops|);
    assert |BodyDumps(r.p, EventBodies(render, LogAt(u, ops, i)))| == |LogAt(u, ops, i)|;
    assert |BodyDumps(r.p, EventBodies(render, LogAt(u, ops, when[k])))| == |LogAt(u, ops, when[k])|;
    PrefixesOfOneLength(LogAt(u, ops, i), LogAt(u, ops, when[k]), LogAt(u, ops, |ops|));
    StalePrefix(r, render, LogAt(u, ops, i), LogAt(u, ops, |ops|), text);
  }

  // ------------------------------------------------------------------ the other direction

  lemma {:induction false} SealedNamesEventHash(p: Platform, body: Record, before: string, after: string)
    requires HonestBody(p, body)
    ensures EventHash(Dict(ReadBack(Seal(body, before, after)))) == Some(Str(after))
  {
    var sealed := Seal(body, before, after);
    SealAppends(p, body, before, after);
    ReadBackParses(p, sealed);
    AppendedLookup(body, Link(before, after), "integrity");
    assert Lookup(ReadBack(sealed), "integrity") == MapSort(Lookup(sealed, "integrity"));
    LinkFields(p, before, after);
  }

  /** A verified export has a tip that can be read: the hash of its whole log. */
  lemma {:induction false} ExportHasTip(r: Reader, bodies: seq<Record>, text: string)
    requires FaithfulReader(r) && HonestBodies(r.p, bodies) && BodySequencesRise(bodies)
    requires ExportText(r.p, r.sha, bodies) == Ok(text) && VerifiesOk(r, text)
    ensures JournalTip(r.p, text) == Some(Str(HashAt(r.p, r.sha, bodies, |bodies|)))
  {
    var records := Chain(r.p, r.sha, GENESIS, bodies).value.records;
    ChainPointwise(r.p, r.sha, bodies);
    HonestExportVerifiesExactlyWhen(r, bodies, text);
    PrintedChain(r.p, r.sha, bodies, records);
    OkMeansUnbroken(r, records);
    RecordsReadBack(r.p, records);
    if bodies != [] {
      var n := |bodies| - 1;
      assert SealedAt(r.p, r.sha, bodies, records, n);
      LastNamesEventHash(r, bodies[n], records, HashAt(r.p, r.sha, bodies, n), HashAt(r.p, r.sha, bodies, n + 1));
    }
    TipReadableExactlyWhen(r, text);
  }

  lemma {:induction false} PrintedChain(p: Platform, sha: Sha, bodies: seq<Record>, records: seq<Record>)
    requires HonestBodies(p, bodies) && AllSealed(p, sha, bodies, records)
    ensures PrintedRecords(p, records)
  {
    forall j | 0 <= j < |records| ensures Printable(p, Dict(records[j])) { SealedPrints(p, sha, bodies, records, j); }
  }

  lemma {:induction false} LastNamesEventHash(r: Reader, body: Record, records: seq<Record>, before: string,
                                              after: string)
    requires PrintedRecords(r.p, records) && records != [] && HonestBody(r.p, body)
    requires records[|records| - 1] == Seal(body, before, after)
    ensures NamesEventHash(RecordsOf(r.p, LinesOf(records)))
  {
    var n := |records| - 1;
    RecordsReadBack(r.p, records);
    ReadBackParses(r.p, records[n]);
    SealedNamesEventHash(r.p, body, before, after);
    assert RecordsOf(r.p, LinesOf(records))[n] == ReadBack(records[n]);
  }

  /** An export of the ledger that verifies, a checkpoint made of it and accepted by the witness: the report
      for them is ok, and the checkpoint names the hash of the whole log. */
  lemma {:induction false} AnchoredExportIsFresh(r: Reader, render: Rendering, sign: string -> string,
                                                 signed: (string, string) -> bool, u: Unicode,
                                                 ops: seq<(L.Op, L.Clock)>, entries: seq<Published>, text: string,
                                                 logId: string, sequence: int, previous: Option<Checkpoint>, now: Value)
    requires FaithfulReader(r) && Renders(r.p, render) && StableOnAscii(u) && Rising(entries)
    requires IsExport(r, render, u, ops, |ops|, text) && VerifiesOk(r, text)
    requires CreateCheckpoint(r, sign, text, logId, sequence, previous, now).Some?
    requires forall payload :: signed(payload, sign(payload))
    requires var c := CreateCheckpoint(r, sign, text, logId, sequence, previous, now).value;
             CheckpointDigest(r, c).Ok?
             && Witness.Advances(entries, Published(logId, sequence, CheckpointDigest(r, c).value))
    ensures var c := CreateCheckpoint(r, sign, text, logId, sequence, previous, now).value;
            var bodies := EventBodies(render, LogAt(u, ops, |ops|));
            var more := entries + [Published(logId, sequence, CheckpointDigest(r, c).value)];
            var report := Freshness(r, signed, text, c, more);
            c.tip == Str(HashAt(r.p, r.sha, bodies, |bodies|)) && report.Some? && report.value.Ok()
  {
    LogsGrow(u, ops, |ops|, |ops|);
    EventSequences(r.p, render, LogAt(u, ops, |ops|));
    ExportHasTip(r, EventBodies(render, LogAt(u, ops, |ops|)), text);
    FreshOncePublished(r, sign, signed, entries, text, logId, sequence, previous, now);
  }
}
