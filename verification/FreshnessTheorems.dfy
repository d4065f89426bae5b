/** An ok freshness report pins the checkpoint and the whole journal. */
module FreshnessTheorems {
  import opened Wrappers
  import opened Json
  import opened Canonical
  import opened CanonicalTheorems
  import opened Lines
  import opened Export
  import opened ExportTheorems
  import opened Witness
  import opened Checkpoint

  // ------------------------------------------------------------------ the tip of a verified journal

  lemma {:induction false} LastRecord(p: Platform, lines: seq<string>)
    requires AllRecords(p, lines)
    ensures NonBlank(lines) == [] <==> RecordsOf(p, lines) == []
    ensures NonBlank(lines) != [] ==>
              var line := NonBlank(lines)[|NonBlank(lines)| - 1];
              IsRecordLine(p, line) && RecordOf(p, line) == RecordsOf(p, lines)[|RecordsOf(p, lines)| - 1]
  {
    if lines != [] {
      AllRecordsByOne(p, lines);
      LastRecord(p, lines[..|lines| - 1]);
    }
  }

  /** Whether the last record names its hash `event_hash`. */
  predicate NamesEventHash(records: seq<Record>) {
    records == [] || EventHash(Dict(records[|records| - 1])).Some?
  }

  lemma {:induction false} LinkedEventHash(r: Reader, record: Record, before: string, after: string)
    requires Linked(r, record, before, after) && EventHash(Dict(record)).Some?
    ensures EventHash(Dict(record)) == Some(Str(after))
  {
  }

  lemma {:induction false} ParsedLast(p: Platform, line: string)
    requires IsRecordLine(p, line)
    ensures Parse(p, Plain, line) == Some(Dict(RecordOf(p, line)))
  {
  }

  lemma {:induction false} TipOfLast(r: Reader, text: string, records: seq<Record>)
    requires AllRecords(r.p, SplitLines(text)) && records == RecordsOf(r.p, SplitLines(text))
    ensures JournalTip(r.p, text)
         == if records == [] then Some(Str(GENESIS)) else EventHash(Dict(records[|records| - 1]))
  {
    var lines := SplitLines(text);
    LastRecord(r.p, lines);
    if records != [] { ParsedLast(r.p, NonBlank(lines)[|NonBlank(lines)| - 1]); }
  }

  /** A verified journal has a readable tip exactly when it is empty or its last record calls its hash
      `event_hash`; the verifier also accepts `record_hash`, and for such a journal no checkpoint can
      be made or checked. When there is a tip, it is the verifier's. */
  lemma {:induction false} TipReadableExactlyWhen(r: Reader, text: string)
    requires FaithfulReader(r) && VerifiesOk(r, text)
    ensures JournalTip(r.p, text).Some? <==> NamesEventHash(FileRecords(r, text))
    ensures JournalTip(r.p, text).Some? ==> JournalTip(r.p, text) == Some(Verify(r, text).value.tip)
  {
    VerifiesExactlyWhen(r, text);
    var records := FileRecords(r, text);
    TipOfLast(r, text, records);
    if records != [] && NamesEventHash(records) {
      var n := |records| - 1;
      assert LinkedAt(r, records, n);
      assert records[..n + 1] == records;
      LinkedEventHash(r, records[n], HashAfter(r.sha, BodyTexts(r.p, records[..n])),
                      HashAfter(r.sha, BodyTexts(r.p, records)));
    }
  }

  lemma {:induction false} TipIsHash(r: Reader, text: string)
    requires FaithfulReader(r) && VerifiesOk(r, text) && JournalTip(r.p, text).Some?
    ensures JournalTip(r.p, text) == Some(Str(HashAfter(r.sha, BodyTexts(r.p, FileRecords(r, text)))))
  {
    TipReadableExactlyWhen(r, text);
    VerifiesExactlyWhen(r, text);
  }

  lemma {:induction false} LastNonBlank(lines: seq<string>, n: nat)
    requires n < |lines| && !Blank(lines[n]) && forall k | n < k < |lines| :: Blank(lines[k])
    ensures NonBlank(lines) != [] && NonBlank(lines)[|NonBlank(lines)| - 1] == lines[n]
  {
    if n < |lines| - 1 { LastNonBlank(lines[..|lines| - 1], n); }
  }

  lemma {:induction false} NothingBlank(lines: seq<string>)
    requires forall k | 0 <= k < |lines| :: Blank(lines[k])
    ensures NonBlank(lines) == []
  {
    if lines != [] { NothingBlank(lines[..|lines| - 1]); }
  }

  /** The tip of any journal, verified or not: what the last line that is not blank says under `integrity` and there
      under `event_hash`, and genesis if there is no such line. */
  lemma {:induction false} TipIsInTheLastLine(p: Platform, text: string, n: nat)
    ensures (forall k | 0 <= k < |SplitLines(text)| :: Blank(SplitLines(text)[k])) ==>
              JournalTip(p, text) == Some(Str(GENESIS))
    ensures var lines := SplitLines(text);
            n < |lines| && !Blank(lines[n]) && (forall k | n < k < |lines| :: Blank(lines[k])) ==>
              JournalTip(p, text)
                == match Parse(p, Plain, lines[n])
                   case Some(Dict(record)) =>
                     (match Lookup(record, "integrity")
                      case Some(Dict(fields)) => Lookup(fields, "event_hash")
                      case _ => None)
                   case _ => None
  {
    var lines := SplitLines(text);
    if forall k | 0 <= k < |lines| :: Blank(lines[k]) { NothingBlank(lines); }
    if n < |lines| && !Blank(lines[n]) && forall k | n < k < |lines| :: Blank(lines[k]) { LastNonBlank(lines, n); }
  }

  // ------------------------------------------------------------------ checkpoints

  /** A publication that was made from a journal that verifies. */
  ghost predicate HonestPublication(r: Reader, e: Published, c: Checkpoint, journal: string) {
    && c.logId == e.logId && c.sequence == e.sequence && CheckpointDigest(r, c) == Ok(e.digest)
    && VerifiesOk(r, journal) && JournalTip(r.p, journal) == Some(c.tip)
  }

  datatype Made = Made(checkpoint: Checkpoint, journal: string)

  ghost predicate HonestWitness(r: Reader, entries: seq<Published>, made: seq<Made>) {
    |made| == |entries| && forall k | 0 <= k < |entries| ::
      HonestPublication(r, entries[k], made[k].checkpoint, made[k].journal)
  }

  /** The checkpoint carries the digest of the one before it, or that of the first. */
  predicate Names(r: Reader, c: Checkpoint, previous: Option<Checkpoint>) {
    match previous
    case None => c.previous == GENESIS
    case Some(before) => CheckpointDigest(r, before) == Ok(c.previous)
  }

  /** What `create_checkpoint` makes of a verified journal, published, is an honest publication; it names
      the digest of the checkpoint before it, and carries a signature of its own text. */
  lemma {:induction false} CreatedIsHonest(r: Reader, sign: string -> string, journal: string, logId: string,
                                           sequence: int, previous: Option<Checkpoint>, now: Value)
    requires VerifiesOk(r, journal) && CreateCheckpoint(r, sign, journal, logId, sequence, previous, now).Some?
    ensures var c := CreateCheckpoint(r, sign, journal, logId, sequence, previous, now).value;
            && CheckpointDigest(r, c).Ok?
            && HonestPublication(r, Published(logId, sequence, CheckpointDigest(r, c).value), c, journal)
            && Names(r, c, previous) && c.signedAt == now
            && CheckpointText(r.p, c).Ok? && c.signature == sign(CheckpointText(r.p, c).value)
  {
    var c := CreateCheckpoint(r, sign, journal, logId, sequence, previous, now).value;
    assert CheckpointBody(c) == CheckpointBody(c.(signature := ""));
  }

  /** A checkpoint is made exactly if the journal has a tip, the checkpoint before it a digest, and the new one a
      text. */
  lemma {:induction false} CreatesExactlyWhen(r: Reader, sign: string -> string, journal: string, logId: string,
                                              sequence: int, previous: Option<Checkpoint>, now: Value)
    ensures CreateCheckpoint(r, sign, journal, logId, sequence, previous, now).Some? <==>
            && JournalTip(r.p, journal).Some?
            && (previous.Some? ==> CheckpointDigest(r, previous.value).Ok?)
            && var before := if previous.Some? then CheckpointDigest(r, previous.value).value else GENESIS;
               CheckpointText(r.p, Checkpoint(logId, sequence, JournalTip(r.p, journal).value, before, now, "")).Ok?
  {
  }

  ghost predicate CheckpointPrints(p: Platform, c: Checkpoint) {
    FloatsPrint(p, c.tip) && FloatsPrint(p, c.signedAt)
  }

  lemma {:induction false} BodyPrints(p: Platform, c: Checkpoint)
    requires CheckpointPrints(p, c)
    ensures FloatsPrint(p, Dict(CheckpointBody(c)))
  {
    var body := CheckpointBody(c);
    forall i | 0 <= i < |body| ensures FloatsPrint(p, body[i].value) {
      assert body[i].value.Str? || body[i].value.Int? || body[i].value == c.tip || body[i].value == c.signedAt;
    }
  }

  lemma {:induction false} BodiesSame(p: Platform, a: Checkpoint, b: Checkpoint)
    requires CheckpointPrints(p, a) && CheckpointPrints(p, b)
    requires CheckpointText(p, a).Ok? && CheckpointText(p, a) == CheckpointText(p, b)
    ensures SameFields(p, CheckpointBody(a), CheckpointBody(b))
  {
    BodyPrints(p, a);
    BodyPrints(p, b);
    OneTextPerValue(p, Dict(CheckpointBody(a)), Dict(CheckpointBody(b)));
    SameKeys(a, b);
    BodyRecordsSame(p, CheckpointBody(a), CheckpointBody(b));
  }

  lemma {:induction false} SameKeys(a: Checkpoint, b: Checkpoint)
    ensures |CheckpointBody(a)| == |CheckpointBody(b)|
    ensures forall i | 0 <= i < |CheckpointBody(a)| :: CheckpointBody(a)[i].key == CheckpointBody(b)[i].key
  {
  }

  lemma {:induction false} BodyRecordsSame(p: Platform, a: Record, b: Record)
    requires Normalize(p, Dict(a), 0).Ok? && Normalize(p, Dict(b), 0).Ok?
    requires |a| == |b| && forall i | 0 <= i < |a| :: a[i].key == b[i].key
    requires Same(Normalize(p, Dict(a), 0).value, Normalize(p, Dict(b), 0).value)
    ensures SameFields(p, a, b)
  {
    RecordsSame(p, a, b, 0);
  }

  lemma {:induction false} TipsSame(p: Platform, a: Checkpoint, b: Checkpoint)
    requires SameFields(p, CheckpointBody(a), CheckpointBody(b))
    ensures Same(NormalOf(p, a.tip), NormalOf(p, b.tip))
  {
    assert CheckpointBody(a)[2].value == a.tip && CheckpointBody(b)[2].value == b.tip;
  }

  /** A tip that matches an ASCII hash and is the same, after normalisation, as another ASCII hash. */
  lemma {:induction false} OneHash(p: Platform, tip: Value, h: string, g: string)
    requires AsciiStays(p) && IsAscii(h) && IsAscii(g) && |h| <= MAX_STRING && |g| <= MAX_STRING
    requires tip == Str(h) && Same(NormalOf(p, tip), NormalOf(p, Str(g)))
    ensures h == g
  {
  }

  lemma {:induction false} OnlyTextIsText(p: Platform, v: Value, s: string)
    requires |s| <= MAX_STRING && Same(NormalOf(p, v), NormalOf(p, Str(s)))
    ensures v.Str?
  {
  }

  // ------------------------------------------------------------------ what an ok report means

  lemma {:induction false} LatestEntry(entries: seq<Published>, logId: string) returns (k: nat)
    requires Rising(entries) && Latest(entries, logId).Some?
    ensures k < |entries| && entries[k].logId == logId && Latest(entries, logId) == Some(entries[k].sequence)
    ensures DigestAt(entries, logId, entries[k].sequence) == Some(entries[k].digest)
  {
    LatestIsGreatest(entries, logId);
    k :| 0 <= k < |entries| && entries[k].logId == logId && entries[k].sequence == Latest(entries, logId).value;
    RisingDigest(entries, k);
  }

  /** The digest the witness has at the latest sequence is the presented checkpoint's. */
  lemma {:induction false} OkDigest(r: Reader, signed: (string, string) -> bool, entries: seq<Published>, text: string,
                                    c: Checkpoint) returns (k: nat)
    requires Rising(entries) && Freshness(r, signed, text, c, entries).Some?
             && Freshness(r, signed, text, c, entries).value.Ok()
    ensures k < |entries| && entries[k].logId == c.logId && entries[k].sequence == c.sequence
    ensures Latest(entries, c.logId) == Some(c.sequence) && CheckpointDigest(r, c) == Ok(entries[k].digest)
    ensures VerifiesOk(r, text) && JournalTip(r.p, text).Some? && r.equal(JournalTip(r.p, text).value, c.tip)
  {
    k := LatestEntry(entries, c.logId);
  }

  ghost predicate DigestsApart(r: Reader, a: Checkpoint, b: Checkpoint) {
    CheckpointText(r.p, a).Ok? && CheckpointText(r.p, b).Ok?
    && r.sha(CheckpointText(r.p, a).value) == r.sha(CheckpointText(r.p, b).value)
    ==> CheckpointText(r.p, a) == CheckpointText(r.p, b)
  }

  ghost predicate ChainsApart(r: Reader, a: string, b: string) {
    ApartFromGenesis(r.sha, Hashed(r.sha, BodyTexts(r.p, FileRecords(r, a)))
                     + Hashed(r.sha, BodyTexts(r.p, FileRecords(r, b))))
  }

  /** Two checkpoints with one text, each matching the tip of its journal: the journals have one tip. */
  lemma {:induction false} OneTextOneTip(r: Reader, a: Checkpoint, text: string, b: Checkpoint, journal: string)
    requires FaithfulReader(r) && AsciiStays(r.p) && CheckpointPrints(r.p, a) && CheckpointPrints(r.p, b)
    requires CheckpointText(r.p, a).Ok? && CheckpointText(r.p, a) == CheckpointText(r.p, b)
    requires VerifiesOk(r, text) && JournalTip(r.p, text).Some? && r.equal(JournalTip(r.p, text).value, a.tip)
    requires VerifiesOk(r, journal) && JournalTip(r.p, journal) == Some(b.tip)
    ensures HashAfter(r.sha, BodyTexts(r.p, FileRecords(r, text)))
         == HashAfter(r.sha, BodyTexts(r.p, FileRecords(r, journal)))
  {
    var h := HashAfter(r.sha, BodyTexts(r.p, FileRecords(r, text)));
    var g := HashAfter(r.sha, BodyTexts(r.p, FileRecords(r, journal)));
    TipIsHash(r, text);
    TipIsHash(r, journal);
    HashIsAscii(r, BodyTexts(r.p, FileRecords(r, text)));
    HashIsAscii(r, BodyTexts(r.p, FileRecords(r, journal)));
    HashLength(r.sha, BodyTexts(r.p, FileRecords(r, text)));
    HashLength(r.sha, BodyTexts(r.p, FileRecords(r, journal)));
    BodiesSame(r.p, a, b);
    TipsSame(r.p, a, b);
    OnlyTextIsText(r.p, a.tip, g);
    OneHash(r.p, a.tip, h, g);
  }

  /** End-to-end freshness: if every published checkpoint was made from a journal that verifies, an ok
      report means that the presented checkpoint has the text of the latest one published for its log,
      and that the presented journal has exactly the bodies of the journal that one was made from. */
  lemma {:induction false} FreshMeansLatest(r: Reader, signed: (string, string) -> bool, entries: seq<Published>,
                                            made: seq<Made>, text: string, c: Checkpoint) returns (k: nat)
    requires FaithfulReader(r) && AsciiStays(r.p) && Rising(entries) && HonestWitness(r, entries, made)
    requires Freshness(r, signed, text, c, entries).Some? && Freshness(r, signed, text, c, entries).value.Ok()
    requires CheckpointPrints(r.p, c) && forall j | 0 <= j < |made| :: CheckpointPrints(r.p, made[j].checkpoint)
    requires forall j | 0 <= j < |made| ::
               DigestsApart(r, c, made[j].checkpoint) && ChainsApart(r, text, made[j].journal)
    ensures k < |made| && entries[k].logId == c.logId && Latest(entries, c.logId) == Some(entries[k].sequence)
    ensures CheckpointText(r.p, c) == CheckpointText(r.p, made[k].checkpoint)
    ensures BodyTexts(r.p, FileRecords(r, text)) == BodyTexts(r.p, FileRecords(r, made[k].journal))
  {
    k := OkDigest(r, signed, entries, text, c);
    assert HonestPublication(r, entries[k], made[k].checkpoint, made[k].journal);
    assert DigestsApart(r, c, made[k].checkpoint) && ChainsApart(r, text, made[k].journal);
    OneTextOneTip(r, c, text, made[k].checkpoint, made[k].journal);
    HashDeterminesTexts(r.sha, BodyTexts(r.p, FileRecords(r, text)), BodyTexts(r.p, FileRecords(r, made[k].journal)));
  }

  /** The other direction: a checkpoint made of a verified journal and accepted by the witness is reported
      ok with that journal, as long as nothing further was published. */
  lemma {:induction false} FreshOncePublished(r: Reader, sign: string -> string, signed: (string, string) -> bool,
                                              entries: seq<Published>, journal: string, logId: string, sequence: int,
                                              previous: Option<Checkpoint>, now: Value)
    requires FaithfulReader(r) && Rising(entries) && VerifiesOk(r, journal)
    requires CreateCheckpoint(r, sign, journal, logId, sequence, previous, now).Some?
    requires forall text :: signed(text, sign(text))
    requires var c := CreateCheckpoint(r, sign, journal, logId, sequence, previous, now).value;
             CheckpointDigest(r, c).Ok?
             && Witness.Advances(entries, Published(logId, sequence, CheckpointDigest(r, c).value))
    ensures var c := CreateCheckpoint(r, sign, journal, logId, sequence, previous, now).value;
            var more := entries + [Published(logId, sequence, CheckpointDigest(r, c).value)];
            var report := Freshness(r, signed, journal, c, more);
            report.Some? && report.value.Ok()
  {
    var c := CreateCheckpoint(r, sign, journal, logId, sequence, previous, now).value;
    CreatedIsHonest(r, sign, journal, logId, sequence, previous, now);
    LatestOnceAccepted(entries, Published(logId, sequence, CheckpointDigest(r, c).value));
    TipIsHash(r, journal);
  }

  lemma {:induction false} LatestOnceAccepted(entries: seq<Published>, e: Published)
    requires Rising(entries) && Witness.Advances(entries, e)
    ensures Latest(entries + [e], e.logId) == Some(e.sequence)
    ensures DigestAt(entries + [e], e.logId, e.sequence) == Some(e.digest)
  {
    PublishKeepsRising(entries, e);
    LatestAfter(entries, e, e.logId);
    RisingDigest(entries + [e], |entries|);
  }

  /** Once a higher sequence has been published for its log, a checkpoint is never ok again, whatever is
      presented with it and whatever else is offered to the witness. */
  lemma {:induction false} SupersededNeverOk(r: Reader, signed: (string, string) -> bool, entries: seq<Published>,
                                             attempts: seq<Published>, text: string, c: Checkpoint)
    requires Rising(entries) && Latest(entries, c.logId).Some? && c.sequence < Latest(entries, c.logId).value
    requires Freshness(r, signed, text, c, Recorded(entries, attempts)).Some?
    ensures !Freshness(r, signed, text, c, Recorded(entries, attempts)).value.Ok()
    ensures var report := Freshness(r, signed, text, c, Recorded(entries, attempts)).value;
            report.signatureValid && report.chainIntact && report.tipMatches ==> report.Verdict() == Rollback
  {
    LatestNeverFalls(entries, attempts, c.logId);
  }

  /** `ok` is the verdict `current` together with the digest the witness has: the verdict alone also
      covers a different checkpoint published at the same sequence. */
  lemma {:induction false} OkExactlyWhen(r: Reader, signed: (string, string) -> bool, entries: seq<Published>,
                                         text: string, c: Checkpoint)
    requires Rising(entries) && Freshness(r, signed, text, c, entries).Some?
    ensures var report := Freshness(r, signed, text, c, entries).value;
            report.Ok() <==> report.Verdict() == Current && CheckpointDigest(r, c).Ok?
                             && DigestAt(entries, c.logId, c.sequence) == Some(CheckpointDigest(r, c).value)
  {
    if Latest(entries, c.logId).Some? {
      var k := LatestEntry(entries, c.logId);
    }
  }

  /** A checkpoint whose body has no canonical text: the check raises exactly if the witness has that very
      sequence, for then the digest is asked for; otherwise the report says that the signature is invalid. */
  lemma {:induction false} UndigestibleCheckpoint(r: Reader, signed: (string, string) -> bool, entries: seq<Published>,
                                                  text: string, c: Checkpoint)
    requires Rising(entries) && Verify(r, text).Some? && JournalTip(r.p, text).Some? && CheckpointText(r.p, c).Err?
    ensures Freshness(r, signed, text, c, entries).None? <==> Latest(entries, c.logId) == Some(c.sequence)
    ensures Freshness(r, signed, text, c, entries).Some? ==>
              Freshness(r, signed, text, c, entries).value.Verdict() == SignatureInvalid
  {
    if Latest(entries, c.logId) == Some(c.sequence) {
      var k := LatestEntry(entries, c.logId);
    }
  }

  // ------------------------------------------------------------------ what a report says

  /** Some checkpoint of this log was published at this sequence. */
  predicate IsPublished(entries: seq<Published>, logId: string, sequence: int) {
    exists k | 0 <= k < |entries| :: entries[k].logId == logId && entries[k].sequence == sequence
  }

  /** Every checkpoint of this log was published at or below this sequence. */
  predicate NoneAbove(entries: seq<Published>, logId: string, sequence: int) {
    forall k | 0 <= k < |entries| && entries[k].logId == logId :: entries[k].sequence <= sequence
  }

  predicate NeverPublished(entries: seq<Published>, logId: string) {
    forall k | 0 <= k < |entries| :: entries[k].logId != logId
  }

  /** The latest sequence of a log is the one published with none above it, and there is none exactly if nothing was
      published of the log. */
  lemma {:induction false} LatestExactlyWhen(entries: seq<Published>, logId: string, sequence: int)
    ensures Latest(entries, logId) == Some(sequence)
       <==> IsPublished(entries, logId, sequence) && NoneAbove(entries, logId, sequence)
    ensures Latest(entries, logId) == None <==> NeverPublished(entries, logId)
  {
    LatestIsGreatest(entries, logId);
  }

  /** The check raises exactly if verifying the journal does, its tip cannot be read, or a checkpoint was published at
      the presented, latest sequence and the presented one has no digest. */
  lemma {:induction false} RaisesExactlyWhen(r: Reader, signed: (string, string) -> bool, text: string, c: Checkpoint,
                                             entries: seq<Published>)
    requires Rising(entries)
    ensures Freshness(r, signed, text, c, entries).None? <==>
            || Verify(r, text).None? || JournalTip(r.p, text).None?
            || (&& IsPublished(entries, c.logId, c.sequence) && NoneAbove(entries, c.logId, c.sequence)
                && CheckpointDigest(r, c).Err?)
  {
    LatestExactlyWhen(entries, c.logId, c.sequence);
    if Latest(entries, c.logId) == Some(c.sequence) {
      var k := LatestEntry(entries, c.logId);
    }
  }

  /** The four answers of a report, each by itself. */
  lemma {:induction false} AnswersExactlyWhen(r: Reader, signed: (string, string) -> bool, text: string, c: Checkpoint,
                                              entries: seq<Published>)
    requires Rising(entries) && Freshness(r, signed, text, c, entries).Some?
    ensures var report := Freshness(r, signed, text, c, entries).value;
            && (report.signatureValid <==>
                  CheckpointText(r.p, c).Ok? && signed(CheckpointText(r.p, c).value, c.signature))
            && (report.chainIntact <==> VerifiesOk(r, text))
            && (report.tipMatches <==> r.equal(JournalTip(r.p, text).value, c.tip))
            && (report.sequenceCurrent <==>
                  && IsPublished(entries, c.logId, c.sequence) && NoneAbove(entries, c.logId, c.sequence)
                  && CheckpointDigest(r, c).Ok?
                  && Published(c.logId, c.sequence, CheckpointDigest(r, c).value) in entries)
            && (report.Ok() <==>
                  report.signatureValid && report.chainIntact && report.tipMatches && report.sequenceCurrent)
  {
    LatestExactlyWhen(entries, c.logId, c.sequence);
    if Latest(entries, c.logId) == Some(c.sequence) {
      var k := LatestEntry(entries, c.logId);
      if CheckpointDigest(r, c).Ok? && Published(c.logId, c.sequence, CheckpointDigest(r, c).value) in entries {
        var j :| 0 <= j < |entries| && entries[j] == Published(c.logId, c.sequence, CheckpointDigest(r, c).value);
        assert j == k;
      }
    }
  }

  /** The verdict names the first thing wrong: the signature, then the chain, then the tip, then what the witness says.
      It is not_witnessed if nothing was ever published of the log, rollback if something was published above the
      presented sequence, ahead_of_witness if all of it was below, and current if the presented one is the latest. */
  lemma {:induction false} VerdictExactlyWhen(r: Reader, signed: (string, string) -> bool, text: string, c: Checkpoint,
                                              entries: seq<Published>)
    requires Rising(entries) && Freshness(r, signed, text, c, entries).Some?
    ensures var report := Freshness(r, signed, text, c, entries).value;
            var sound := report.signatureValid && report.chainIntact && report.tipMatches;
            && (report.Verdict() == SignatureInvalid <==> !report.signatureValid)
            && (report.Verdict() == ChainIsBroken <==> report.signatureValid && !report.chainIntact)
            && (report.Verdict() == TipMismatch <==>
                  report.signatureValid && report.chainIntact && !report.tipMatches)
            && (report.Verdict() == NotWitnessed <==> sound && NeverPublished(entries, c.logId))
            && (report.Verdict() == Rollback <==> sound && !NoneAbove(entries, c.logId, c.sequence))
            && (report.Verdict() == AheadOfWitness <==>
                  && sound && !NeverPublished(entries, c.logId) && NoneAbove(entries, c.logId, c.sequence)
                  && !IsPublished(entries, c.logId, c.sequence))
            && (report.Verdict() == Current <==>
                  sound && IsPublished(entries, c.logId, c.sequence) && NoneAbove(entries, c.logId, c.sequence))
  {
    LatestExactlyWhen(entries, c.logId, c.sequence);
    LatestIsGreatest(entries, c.logId);
  }
}
