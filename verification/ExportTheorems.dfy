/** What it takes for a file to verify, and what a verified file's tip says about the rest of it. */
module ExportTheorems {
  import opened Wrappers
  import opened Json
  import opened Canonical
  import opened Lines
  import opened Export

  /** A hash prints as SHA-256 in hexadecimal does, and Python tells a text from everything else. */
  ghost predicate FaithfulReader(r: Reader) {
    && (forall s, v :: r.equal(v, Str(s)) <==> v == Str(s))
    && forall t :: |r.sha(t)| == 64 && IsAscii(r.sha(t))
  }

  // ------------------------------------------------------------------ the chain of a list of texts

  function HashAfter(sha: Sha, texts: seq<string>): string {
    if texts == [] then GENESIS else sha(HashAfter(sha, texts[..|texts| - 1]) + texts[|texts| - 1])
  }

  /** The texts hashed along a chain. */
  function Hashed(sha: Sha, texts: seq<string>): set<string> {
    set j | 0 <= j < |texts| :: HashAfter(sha, texts[..j]) + texts[j]
  }

  /** No two of these texts share a hash, and none has the genesis hash. */
  ghost predicate ApartFromGenesis(sha: Sha, texts: set<string>) {
    && (forall s, t | s in texts && t in texts && sha(s) == sha(t) :: s == t)
    && forall t | t in texts :: sha(t) != GENESIS
  }

  ghost predicate SixtyFour(sha: Sha) {
    forall t :: |sha(t)| == 64
  }

  lemma {:induction false} HashLength(sha: Sha, texts: seq<string>)
    requires SixtyFour(sha)
    ensures |HashAfter(sha, texts)| == 64
  {
  }

  lemma {:induction false} HashedShorter(sha: Sha, texts: seq<string>)
    requires texts != []
    ensures Hashed(sha, texts[..|texts| - 1]) <= Hashed(sha, texts)
    ensures HashAfter(sha, texts[..|texts| - 1]) + texts[|texts| - 1] in Hashed(sha, texts)
  {
    var n := |texts| - 1;
    var shorter := texts[..n];
    forall t | t in Hashed(sha, shorter) ensures t in Hashed(sha, texts) {
      var j :| 0 <= j < |shorter| && t == HashAfter(sha, shorter[..j]) + shorter[j];
      assert shorter[..j] == texts[..j];
    }
  }

  lemma {:induction false} FewerApart(sha: Sha, few: set<string>, many: set<string>)
    requires ApartFromGenesis(sha, many) && few <= many
    ensures ApartFromGenesis(sha, few)
  {
  }

  lemma {:induction false} SplitAt64(a: string, x: string, b: string, y: string)
    requires a + x == b + y && |a| == |b|
    ensures a == b && x == y
  {
    assert a == (a + x)[..|a|] && b == (b + y)[..|b|];
    assert x == (a + x)[|a|..] && y == (b + y)[|b|..];
  }

  lemma {:induction false} LastHashed(sha: Sha, texts: seq<string>) returns (t: string)
    requires texts != []
    ensures t in Hashed(sha, texts) && t == HashAfter(sha, texts[..|texts| - 1]) + texts[|texts| - 1]
    ensures HashAfter(sha, texts) == sha(t)
  {
    HashedShorter(sha, texts);
    t := HashAfter(sha, texts[..|texts| - 1]) + texts[|texts| - 1];
  }

  /** One hash, one last text and one hash before it. */
  lemma {:induction false} LastsAgree(sha: Sha, a: seq<string>, b: seq<string>)
    requires SixtyFour(sha) && ApartFromGenesis(sha, Hashed(sha, a) + Hashed(sha, b)) && a != [] && b != []
    requires HashAfter(sha, a) == HashAfter(sha, b)
    ensures a[|a| - 1] == b[|b| - 1] && HashAfter(sha, a[..|a| - 1]) == HashAfter(sha, b[..|b| - 1])
  {
    var s := LastHashed(sha, a);
    var t := LastHashed(sha, b);
    HashLength(sha, a[..|a| - 1]);
    HashLength(sha, b[..|b| - 1]);
    assert s == t;
    SplitAt64(HashAfter(sha, a[..|a| - 1]), a[|a| - 1], HashAfter(sha, b[..|b| - 1]), b[|b| - 1]);
  }

  lemma {:induction false} NotGenesis(sha: Sha, texts: seq<string>)
    requires texts != [] && ApartFromGenesis(sha, Hashed(sha, texts))
    ensures HashAfter(sha, texts) != GENESIS
  {
    var t := LastHashed(sha, texts);
  }

  lemma {:induction false} ShorterApart(sha: Sha, a: seq<string>, b: seq<string>)
    requires ApartFromGenesis(sha, Hashed(sha, a) + Hashed(sha, b)) && a != [] && b != []
    ensures ApartFromGenesis(sha, Hashed(sha, a[..|a| - 1]) + Hashed(sha, b[..|b| - 1]))
  {
    HashedShorter(sha, a);
    HashedShorter(sha, b);
    FewerApart(sha, Hashed(sha, a[..|a| - 1]) + Hashed(sha, b[..|b| - 1]), Hashed(sha, a) + Hashed(sha, b));
  }

  lemma {:induction false} EmptyTogether(sha: Sha, a: seq<string>, b: seq<string>)
    requires ApartFromGenesis(sha, Hashed(sha, a) + Hashed(sha, b)) && HashAfter(sha, a) == HashAfter(sha, b)
    ensures a == [] <==> b == []
  {
    FewerApart(sha, Hashed(sha, a), Hashed(sha, a) + Hashed(sha, b));
    FewerApart(sha, Hashed(sha, b), Hashed(sha, a) + Hashed(sha, b));
    if a != [] { NotGenesis(sha, a); }
    if b != [] { NotGenesis(sha, b); }
  }

  lemma {:induction false} LastAndRest(a: seq<string>, b: seq<string>)
    requires a != [] && b != [] && a[..|a| - 1] == b[..|b| - 1] && a[|a| - 1] == b[|b| - 1]
    ensures a == b
  {
    assert a == a[..|a| - 1] + [a[|a| - 1]] && b == b[..|b| - 1] + [b[|b| - 1]];
  }

  /** The last hash determines the whole chain. */
  lemma {:induction false} HashDeterminesTexts(sha: Sha, a: seq<string>, b: seq<string>)
    requires SixtyFour(sha) && ApartFromGenesis(sha, Hashed(sha, a) + Hashed(sha, b))
    requires HashAfter(sha, a) == HashAfter(sha, b)
    ensures a == b
    decreases |a|
  {
    EmptyTogether(sha, a, b);
    if a != [] {
      LastsAgree(sha, a, b);
      ShorterApart(sha, a, b);
      HashDeterminesTexts(sha, a[..|a| - 1], b[..|b| - 1]);
      LastAndRest(a, b);
    }
  }

  lemma {:induction false} HashedPrefix(sha: Sha, texts: seq<string>, n: nat)
    requires n <= |texts|
    ensures Hashed(sha, texts[..n]) <= Hashed(sha, texts)
  {
    forall t | t in Hashed(sha, texts[..n]) ensures t in Hashed(sha, texts) {
      var j :| 0 <= j < n && t == HashAfter(sha, texts[..n][..j]) + texts[..n][j];
      assert texts[..n][..j] == texts[..j];
    }
  }

  /** Along one chain, a hash determines its position. */
  lemma {:induction false} HashDeterminesPosition(sha: Sha, texts: seq<string>, i: nat, j: nat)
    requires SixtyFour(sha) && ApartFromGenesis(sha, Hashed(sha, texts)) && i <= |texts| && j <= |texts|
    requires HashAfter(sha, texts[..i]) == HashAfter(sha, texts[..j])
    ensures i == j
  {
    HashedPrefix(sha, texts, i);
    HashedPrefix(sha, texts, j);
    FewerApart(sha, Hashed(sha, texts[..i]) + Hashed(sha, texts[..j]), Hashed(sha, texts));
    HashDeterminesTexts(sha, texts[..i], texts[..j]);
    assert |texts[..i]| == i && |texts[..j]| == j;
  }

  // ------------------------------------------------------------------ the records of a file

  ghost predicate IsRecordLine(p: Platform, line: string) {
    Parse(p, Plain, line).Some? && Parse(p, Plain, line).value.Dict?
  }

  function RecordOf(p: Platform, line: string): Record {
    match Parse(p, Plain, line)
    case Some(v) => if v.Dict? then v.entries else []
    case None => []
  }

  function RecordsOf(p: Platform, lines: seq<string>): seq<Record> {
    if lines == [] then []
    else
      var done := RecordsOf(p, lines[..|lines| - 1]);
      if Blank(lines[|lines| - 1]) then done else done + [RecordOf(p, lines[|lines| - 1])]
  }

  function BodyOf(record: Record): Record {
    Remove(record, "integrity")
  }

  function IntegrityOf(record: Record): Value {
    GetOr(record, "integrity", Null)
  }

  function BodyText(p: Platform, record: Record): string {
    match Dumps(p, Dict(BodyOf(record)))
    case Ok(t) => t
    case Err(_) => ""
  }

  /** The canonical bodies of a file. */
  function BodyTexts(p: Platform, records: seq<Record>): (r: seq<string>)
    ensures |r| == |records| && forall i | 0 <= i < |records| :: r[i] == BodyText(p, records[i])
  {
    seq(|records|, i requires 0 <= i < |records| => BodyText(p, records[i]))
  }

  function SequenceAt(record: Record): Option<int> {
    SequenceOf(GetOr(BodyOf(record), "sequence", Null))
  }

  /** A record whose integrity block links these two hashes over its body. */
  ghost predicate Linked(r: Reader, record: Record, before: string, after: string) {
    && IntegrityOf(record).Dict? && Dumps(r.p, Dict(BodyOf(record))).Ok?
    && GetOr(IntegrityOf(record).entries, "previous_hash", Null) == Str(before)
    && FoundHash(IntegrityOf(record).entries, Null) == Str(after)
    && after == r.sha(before + BodyText(r.p, record))
  }

  ghost predicate LinkedAt(r: Reader, records: seq<Record>, j: nat)
    requires j < |records|
  {
    Linked(r, records[j], HashAfter(r.sha, BodyTexts(r.p, records[..j])),
           HashAfter(r.sha, BodyTexts(r.p, records[..j + 1])))
  }

  ghost predicate AllLinked(r: Reader, records: seq<Record>) {
    forall j | 0 <= j < |records| :: LinkedAt(r, records, j)
  }

  ghost predicate SequencesRise(records: seq<Record>) {
    forall i, j | 0 <= i < j < |records| && SequenceAt(records[i]).Some? && SequenceAt(records[j]).Some? ::
      SequenceAt(records[i]).value < SequenceAt(records[j]).value
  }

  function LastSequence(records: seq<Record>): Option<int> {
    if records == [] then None
    else if SequenceAt(records[|records| - 1]).Some? then SequenceAt(records[|records| - 1])
    else LastSequence(records[..|records| - 1])
  }

  ghost predicate AllRecords(p: Platform, lines: seq<string>) {
    forall i | 0 <= i < |lines| :: Blank(lines[i]) || IsRecordLine(p, lines[i])
  }

  /** Every line that is not blank is a record, each record continues the chain from genesis, and the
      integer sequences rise. */
  ghost predicate WellChained(r: Reader, lines: seq<string>) {
    && AllRecords(r.p, lines)
    && AllLinked(r, RecordsOf(r.p, lines))
    && SequencesRise(RecordsOf(r.p, lines))
  }

  predicate Accepted(scanned: Scanned) {
    scanned.Running? && scanned.scan.violations == []
  }

  /** The loop's variables after these records, when all is well. */
  function ScanOf(r: Reader, records: seq<Record>): Scan {
    Scan(Str(HashAfter(r.sha, BodyTexts(r.p, records))), |records|, LastSequence(records), [])
  }

  lemma {:induction false} LastIsGreatest(records: seq<Record>)
    requires SequencesRise(records)
    ensures LastSequence(records).Some? ==>
              exists i | 0 <= i < |records| :: SequenceAt(records[i]) == LastSequence(records)
    ensures forall i | 0 <= i < |records| && SequenceAt(records[i]).Some? ::
              LastSequence(records).Some? && SequenceAt(records[i]).value <= LastSequence(records).value
  {
    if records != [] {
      var shorter := records[..|records| - 1];
      LastIsGreatest(shorter);
      assert forall i | 0 <= i < |shorter| :: records[i] == shorter[i];
    }
  }

  predicate Advances(records: seq<Record>, x: Record) {
    SequenceAt(x).Some? && LastSequence(records).Some? ==> LastSequence(records).value < SequenceAt(x).value
  }

  lemma {:induction false} RisingByOne(records: seq<Record>, x: Record)
    ensures SequencesRise(records + [x]) <==> SequencesRise(records) && Advances(records, x)
  {
    var more := records + [x];
    assert forall i | 0 <= i < |records| :: more[i] == records[i];
    assert more[|records|] == x;
    if SequencesRise(more) {
      assert SequencesRise(records);
      LastIsGreatest(records);
    } else if SequencesRise(records) {
      LastIsGreatest(records);
    }
  }

  lemma {:induction false} TextsByOne(p: Platform, records: seq<Record>, x: Record)
    ensures BodyTexts(p, records + [x]) == BodyTexts(p, records) + [BodyText(p, x)]
    ensures BodyTexts(p, (records + [x])[..|records|]) == BodyTexts(p, records)
    ensures BodyTexts(p, (records + [x])[..|records| + 1]) == BodyTexts(p, records) + [BodyText(p, x)]
  {
    assert (records + [x])[..|records|] == records;
    assert (records + [x])[..|records| + 1] == records + [x];
  }

  lemma {:induction false} HashByOne(sha: Sha, texts: seq<string>, t: string)
    ensures HashAfter(sha, texts + [t]) == sha(HashAfter(sha, texts) + t)
  {
    assert (texts + [t])[..|texts|] == texts;
  }

  lemma {:induction false} LinkedByOne(r: Reader, records: seq<Record>, x: Record)
    ensures AllLinked(r, records + [x])
       <==> AllLinked(r, records)
            && var before := HashAfter(r.sha, BodyTexts(r.p, records));
               Linked(r, x, before, r.sha(before + BodyText(r.p, x)))
  {
    var more, n := records + [x], |records|;
    TextsByOne(r.p, records, x);
    HashByOne(r.sha, BodyTexts(r.p, records), BodyText(r.p, x));
    assert more[n] == x;
    forall j | 0 <= j < n ensures LinkedAt(r, more, j) <==> LinkedAt(r, records, j) {
      assert more[..j] == records[..j] && more[..j + 1] == records[..j + 1] && more[j] == records[j];
    }
    if AllLinked(r, more) {
      assert LinkedAt(r, more, n);
      forall j | 0 <= j < n ensures LinkedAt(r, records, j) { assert LinkedAt(r, more, j); }
    }
    var before := HashAfter(r.sha, BodyTexts(r.p, records));
    if AllLinked(r, records) && Linked(r, x, before, r.sha(before + BodyText(r.p, x))) {
      forall j | 0 <= j < n + 1 ensures LinkedAt(r, more, j) {
        if j < n { assert LinkedAt(r, records, j); }
      }
    }
  }

  /** A violation, once recorded, stays. */
  lemma {:induction false} ViolationsStay(r: Reader, s: Scan, number: nat, line: string)
    requires s.violations != []
    ensures !Accepted(Step(r, s, number, line))
  {
  }

  lemma {:induction false} HashIsAscii(r: Reader, texts: seq<string>)
    requires FaithfulReader(r)
    ensures IsAscii(HashAfter(r.sha, texts))
  {
  }

  lemma {:induction false} CheckMeans(r: Reader, records: seq<Record>, number: nat, record: Record)
    requires FaithfulReader(r) && IntegrityOf(record).Dict?
    ensures var before := HashAfter(r.sha, BodyTexts(r.p, records));
            var after := r.sha(before + BodyText(r.p, record));
            var s := ScanOf(r, records).(count := |records| + 1);
            var next := CheckRecord(r, s, number, BodyOf(record), IntegrityOf(record).entries);
            && (Accepted(next) <==> Linked(r, record, before, after) && Advances(records, record))
            && (Accepted(next) ==> next.scan == Scan(Str(after), |records| + 1, LastSequence(records + [record]), []))
  {
    HashIsAscii(r, BodyTexts(r.p, records));
    LastByOne(records, record);
  }

  lemma {:induction false} LastByOne(records: seq<Record>, x: Record)
    ensures LastSequence(records + [x]) == if SequenceAt(x).Some? then SequenceAt(x) else LastSequence(records)
  {
    assert (records + [x])[..|records|] == records;
  }

  lemma {:induction false} StepMeans(r: Reader, records: seq<Record>, number: nat, line: string)
    requires FaithfulReader(r) && !Blank(line) && AllLinked(r, records) && SequencesRise(records)
    ensures var more := records + [RecordOf(r.p, line)];
            var next := Step(r, ScanOf(r, records), number, line);
            && (Accepted(next) <==> IsRecordLine(r.p, line) && AllLinked(r, more) && SequencesRise(more))
            && (Accepted(next) ==> next.scan == ScanOf(r, more))
  {
    var record := RecordOf(r.p, line);
    LinkedByOne(r, records, record);
    RisingByOne(records, record);
    TextsByOne(r.p, records, record);
    HashByOne(r.sha, BodyTexts(r.p, records), BodyText(r.p, record));
    if IsRecordLine(r.p, line) && IntegrityOf(record).Dict? {
      CheckMeans(r, records, number, record);
    }
  }

  /** One pass over the lines accepts exactly the well-chained ones, and then knows how many records
      there were, the last hash and the last sequence. */
  lemma {:induction false} ScanMeans(r: Reader, lines: seq<string>)
    requires FaithfulReader(r)
    ensures Accepted(ScanLines(r, lines)) <==> WellChained(r, lines)
    ensures WellChained(r, lines) ==> ScanLines(r, lines) == Running(ScanOf(r, RecordsOf(r.p, lines)))
  {
    if lines != [] {
      var n := |lines| - 1;
      var shorter, line := lines[..n], lines[n];
      ScanMeans(r, shorter);
      AllRecordsByOne(r.p, lines);
      if WellChained(r, lines) { WellChainedByOne(r, lines); }
      if WellChained(r, shorter) {
        if !Blank(line) { StepMeans(r, RecordsOf(r.p, shorter), n + 1, line); }
      } else {
        if ScanLines(r, shorter).Running? { ViolationsStay(r, ScanLines(r, shorter).scan, n + 1, line); }
      }
    }
  }

  lemma {:induction false} AllRecordsByOne(p: Platform, lines: seq<string>)
    requires lines != []
    ensures var n := |lines| - 1;
            AllRecords(p, lines) <==> AllRecords(p, lines[..n]) && (Blank(lines[n]) || IsRecordLine(p, lines[n]))
  {
    var n := |lines| - 1;
    assert forall i | 0 <= i < n :: lines[i] == lines[..n][i];
  }

  lemma {:induction false} ChainedByOne(r: Reader, shorter: seq<Record>, x: Record)
    requires AllLinked(r, shorter + [x]) && SequencesRise(shorter + [x])
    ensures AllLinked(r, shorter) && SequencesRise(shorter)
  {
    LinkedByOne(r, shorter, x);
    RisingByOne(shorter, x);
  }

  lemma {:induction false} WellChainedByOne(r: Reader, lines: seq<string>)
    requires lines != [] && WellChained(r, lines)
    ensures WellChained(r, lines[..|lines| - 1])
  {
    var n := |lines| - 1;
    AllRecordsByOne(r.p, lines);
    if !Blank(lines[n]) { ChainedByOne(r, RecordsOf(r.p, lines[..n]), RecordOf(r.p, lines[n])); }
  }

  // ------------------------------------------------------------------ the theorems

  predicate VerifiesOk(r: Reader, text: string) {
    Verify(r, text).Some? && Verify(r, text).value.violations == []
  }

  function FileRecords(r: Reader, text: string): seq<Record> {
    RecordsOf(r.p, SplitLines(text))
  }

  lemma {:induction false} StoppedHasViolation(r: Reader, lines: seq<string>)
    requires ScanLines(r, lines).Stopped?
    ensures ScanLines(r, lines).scan.violations != []
  {
    if lines != [] && !ScanLines(r, lines[..|lines| - 1]).Running? {
      StoppedHasViolation(r, lines[..|lines| - 1]);
    }
  }

  /** A file verifies exactly when it is well chained; the report then counts its records and gives
      the hash of the chain of their bodies. */
  lemma {:induction false} VerifiesExactlyWhen(r: Reader, text: string)
    requires FaithfulReader(r)
    ensures VerifiesOk(r, text) <==> WellChained(r, SplitLines(text))
    ensures VerifiesOk(r, text) ==>
              var records := FileRecords(r, text);
              Verify(r, text) == Some(Report(|records|, [], Str(HashAfter(r.sha, BodyTexts(r.p, records)))))
  {
    var lines := SplitLines(text);
    ScanMeans(r, lines);
    if ScanLines(r, lines).Stopped? { StoppedHasViolation(r, lines); }
  }

  /** The tip determines the journal: two files that verify and report one tip hold the same canonical
      bodies in the same order. */
  lemma {:induction false} TipDeterminesJournal(r: Reader, a: string, b: string)
    requires FaithfulReader(r) && VerifiesOk(r, a) && VerifiesOk(r, b)
    requires Verify(r, a).value.tip == Verify(r, b).value.tip
    requires ApartFromGenesis(r.sha, Hashed(r.sha, BodyTexts(r.p, FileRecords(r, a)))
                              + Hashed(r.sha, BodyTexts(r.p, FileRecords(r, b))))
    ensures BodyTexts(r.p, FileRecords(r, a)) == BodyTexts(r.p, FileRecords(r, b))
  {
    VerifiesExactlyWhen(r, a);
    VerifiesExactlyWhen(r, b);
    HashDeterminesTexts(r.sha, BodyTexts(r.p, FileRecords(r, a)), BodyTexts(r.p, FileRecords(r, b)));
  }
}
