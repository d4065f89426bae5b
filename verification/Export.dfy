/** The evidence export (core/export.py): a hash chain over the ledger's events, written one JSON
    record a line, and the verifier that needs nothing but the file. */
module Export {
  import opened Wrappers
  import opened Json
  import opened Sorting
  import opened Canonical
  import opened Lines

  function Zeros(n: nat): (r: string)
    ensures |r| == n && forall i | 0 <= i < n :: r[i] == '0'
  {
    if n == 0 then "" else ['0'] + Zeros(n - 1)
  }

  const GENESIS := Zeros(64)

  type Record = seq<Entry>

  // ------------------------------------------------------------------ sealing

  function Seal(body: Record, previous: string, hash: string): Record {
    Assign(body, Entry("integrity", Dict([Entry("previous_hash", Str(previous)), Entry("event_hash", Str(hash))])))
  }

  datatype Chained = Chained(records: seq<Record>, tip: string)

  /** Each record sealed over the hash of the one before. */
  function Chain(p: Platform, sha: Sha, start: string, bodies: seq<Record>): Result<Chained, Error> {
    if bodies == [] then Ok(Chained([], start))
    else
      var body := bodies[|bodies| - 1];
      match Chain(p, sha, start, bodies[..|bodies| - 1])
      case Err(e) => Err(e)
      case Ok(done) =>
        match Dumps(p, Dict(body))
        case Err(e) => Err(e)
        case Ok(text) =>
          var hash := sha(done.tip + text);
          Ok(Chained(done.records + [Seal(body, done.tip, hash)], hash))
  }

  lemma {:induction false} ChainErrorSticks(p: Platform, sha: Sha, start: string, bodies: seq<Record>, i: nat)
    requires i <= |bodies| && Chain(p, sha, start, bodies[..i]).Err?
    ensures Chain(p, sha, start, bodies) == Chain(p, sha, start, bodies[..i])
  {
    if i == |bodies| {
      assert bodies[..i] == bodies;
    } else {
      var shorter := bodies[..|bodies| - 1];
      assert shorter[..i] == bodies[..i];
      ChainErrorSticks(p, sha, start, shorter, i);
    }
  }

  /** `chain`: the running hash is carried from record to record. */
  method ChainRecords(p: Platform, sha: Sha, start: string, bodies: seq<Record>) returns (r: Result<Chained, Error>)
    ensures r == Chain(p, sha, start, bodies)
  {
    var previous := start;
    var records: seq<Record> := [];
    for i := 0 to |bodies|
      invariant Chain(p, sha, start, bodies[..i]) == Ok(Chained(records, previous))
    {
      assert bodies[..i + 1][..i] == bodies[..i];
      var text := Dumps(p, Dict(bodies[i]));
      if text.Err? {
        ChainErrorSticks(p, sha, start, bodies, i + 1);
        return Err(text.error);
      }
      var hash := sha(previous + text.value);
      records := records + [Seal(bodies[i], previous, hash)];
      previous := hash;
    }
    assert bodies[..|bodies|] == bodies;
    return Ok(Chained(records, previous));
  }

  /** One line of the file: the record as json.dumps prints it, its keys sorted. */
  function LineOf(record: Record): string {
    Print(SortKeys(Dict(record)), Spaced)
  }

  function LinesOf(records: seq<Record>): (r: seq<string>)
    ensures |r| == |records| && forall i | 0 <= i < |records| :: r[i] == LineOf(records[i])
  {
    seq(|records|, i requires 0 <= i < |records| => LineOf(records[i]))
  }

  function ExportText(p: Platform, sha: Sha, bodies: seq<Record>): Result<string, Error> {
    match Chain(p, sha, GENESIS, bodies)
    case Err(e) => Err(e)
    case Ok(chained) => Ok(Joined(LinesOf(chained.records)))
  }

  // ------------------------------------------------------------------ verifying

  type Key = (Value, Value, Value)

  datatype Kind = MalformedLine | MissingIntegrity | ChainBroken | ContentModified | SequenceRegressed
    | MissingFromExport(key: Key) | AbsentFromLedger(key: Key)

  datatype Violation = Violation(line: nat, kind: Kind)

  /** What the verifier runs on: the JSON platform, the hash, Python's equality of parsed values, and the text
      str() makes of a key, a tuple of three. */
  datatype Reader = Reader(p: Platform, sha: Sha, equal: (Value, Value) -> bool, show: Key -> string)

  /** The loop's variables. */
  datatype Scan = Scan(previous: Value, count: nat, last: Option<int>, violations: seq<Violation>)

  /** The loop goes on, has stopped at a record it cannot read, or has raised. */
  datatype Scanned = Running(scan: Scan) | Stopped(scan: Scan) | Raised

  const START := Scan(Str(GENESIS), 0, None, [])

  function GetOr(entries: seq<Entry>, key: string, default: Value): Value {
    match Lookup(entries, key)
    case Some(v) => v
    case None => default
  }

  function Remove(entries: seq<Entry>, key: string): seq<Entry> {
    if entries == [] then []
    else if entries[0].key == key then Remove(entries[1..], key)
    else [entries[0]] + Remove(entries[1..], key)
  }

  /** `isinstance(sequence, int)`: a bool is an int. */
  function SequenceOf(v: Value): Option<int> {
    match v
    case Int(n) => Some(n)
    case Bool(b) => Some(if b then 1 else 0)
    case _ => None
  }

  function FoundHash(integrity: seq<Entry>, default: Value): Value {
    GetOr(integrity, "event_hash", GetOr(integrity, "record_hash", default))
  }

  function Broken(r: Reader, s: Scan, number: nat, integrity: seq<Entry>): seq<Violation> {
    if r.equal(GetOr(integrity, "previous_hash", Null), s.previous) then [] else [Violation(number, ChainBroken)]
  }

  function Modified(r: Reader, number: nat, integrity: seq<Entry>, expected: string): seq<Violation> {
    if r.equal(FoundHash(integrity, Null), Str(expected)) then [] else [Violation(number, ContentModified)]
  }

  function Regressed(s: Scan, number: nat, sequence: Option<int>): seq<Violation> {
    if sequence.Some? && s.last.Some? && sequence.value <= s.last.value
    then [Violation(number, SequenceRegressed)]
    else []
  }

  /** A record with an integrity block: three checks, none of which stops the loop. */
  function CheckRecord(r: Reader, s: Scan, number: nat, body: Record, integrity: seq<Entry>): Scanned {
    match GetOr(integrity, "previous_hash", Str(""))
    case Str(previous) =>
      if !IsAscii(previous) then Raised
      else
        (match Dumps(r.p, Dict(body))
         case Err(_) => Raised
         case Ok(text) =>
           var sequence := SequenceOf(GetOr(body, "sequence", Null));
           Running(Scan(
             FoundHash(integrity, Str("")),
             s.count,
             if sequence.Some? then sequence else s.last,
             s.violations + Broken(r, s, number, integrity)
               + Modified(r, number, integrity, r.sha(previous + text)) + Regressed(s, number, sequence))))
    case _ => Raised
  }

  function Step(r: Reader, s: Scan, number: nat, line: string): Scanned {
    if Blank(line) then Running(s)
    else
      var s' := s.(count := s.count + 1);
      match Parse(r.p, Plain, line)
      case None => Stopped(s'.(violations := s.violations + [Violation(number, MalformedLine)]))
      case Some(v) =>
        if !v.Dict? then Raised
        else
          var integrity := GetOr(v.entries, "integrity", Null);
          if !integrity.Dict? then Stopped(s'.(violations := s.violations + [Violation(number, MissingIntegrity)]))
          else CheckRecord(r, s', number, Remove(v.entries, "integrity"), integrity.entries)
  }

  function ScanLines(r: Reader, lines: seq<string>): Scanned {
    if lines == [] then Running(START)
    else
      match ScanLines(r, lines[..|lines| - 1])
      case Running(s) => Step(r, s, |lines|, lines[|lines| - 1])
      case other => other
  }

  datatype Report = Report(records: nat, violations: seq<Violation>, tip: Value)

  function ReportOf(scanned: Scanned): Option<Report> {
    match scanned
    case Raised => None
    case Running(s) => Some(Report(s.count, s.violations, s.previous))
    case Stopped(s) => Some(Report(s.count, s.violations, s.previous))
  }

  /** The verdict on a file; None when the verifier raises. */
  function Verify(r: Reader, text: string): Option<Report> {
    ReportOf(ScanLines(r, SplitLines(text)))
  }

  lemma {:induction false} ScanSticks(r: Reader, lines: seq<string>, i: nat)
    requires i <= |lines| && !ScanLines(r, lines[..i]).Running?
    ensures ScanLines(r, lines) == ScanLines(r, lines[..i])
  {
    if i == |lines| {
      assert lines[..i] == lines;
    } else {
      var shorter := lines[..|lines| - 1];
      assert shorter[..i] == lines[..i];
      ScanSticks(r, shorter, i);
    }
  }

  /** The three checks of a record, as the loop makes them. */
  method CheckIntegrity(r: Reader, s: Scan, number: nat, body: Record, integrity: seq<Entry>) returns (next: Scanned)
    ensures next == CheckRecord(r, s, number, body, integrity)
  {
    var violations, lastSequence := s.violations, s.last;
    if !r.equal(GetOr(integrity, "previous_hash", Null), s.previous) {
      violations := violations + [Violation(number, ChainBroken)];
    }
    var claimed := GetOr(integrity, "previous_hash", Str(""));
    if !claimed.Str? || !IsAscii(claimed.s) { return Raised; }
    var text := Dumps(r.p, Dict(body));
    if text.Err? { return Raised; }
    if !r.equal(FoundHash(integrity, Null), Str(r.sha(claimed.s + text.value))) {
      violations := violations + [Violation(number, ContentModified)];
    }
    assert violations == s.violations + Broken(r, s, number, integrity)
      + Modified(r, number, integrity, r.sha(claimed.s + text.value));
    var sequence := SequenceOf(GetOr(body, "sequence", Null));
    if sequence.Some? {
      if lastSequence.Some? && sequence.value <= lastSequence.value {
        violations := violations + [Violation(number, SequenceRegressed)];
      }
      lastSequence := sequence;
    }
    return Running(Scan(FoundHash(integrity, Str("")), s.count, lastSequence, violations));
  }

  method CheckLine(r: Reader, s: Scan, number: nat, line: string) returns (next: Scanned)
    ensures next == Step(r, s, number, line)
  {
    if Blank(line) { return Running(s); }
    var counted := s.(count := s.count + 1);
    var parsed := Parse(r.p, Plain, line);
    if parsed.None? {
      return Stopped(counted.(violations := s.violations + [Violation(number, MalformedLine)]));
    }
    if !parsed.value.Dict? { return Raised; }
    var block := GetOr(parsed.value.entries, "integrity", Null);
    if !block.Dict? {
      return Stopped(counted.(violations := s.violations + [Violation(number, MissingIntegrity)]));
    }
    next := CheckIntegrity(r, counted, number, Remove(parsed.value.entries, "integrity"), block.entries);
  }

  /** `verify_export`: one pass over the lines, which ends early at a record it cannot read. */
  method VerifyExport(r: Reader, text: string) returns (report: Option<Report>)
    ensures report == Verify(r, text)
  {
    var scan := START;
    var lines := SplitLines(text);
    for i := 0 to |lines|
      invariant ScanLines(r, lines[..i]) == Running(scan)
    {
      assert lines[..i + 1][..i] == lines[..i];
      var next := CheckLine(r, scan, i + 1, lines[i]);
      assert ScanLines(r, lines[..i + 1]) == next;
      if !next.Running? {
        ScanSticks(r, lines, i + 1);
        return ReportOf(next);
      }
      scan := next.scan;
    }
    assert lines[..|lines|] == lines;
    return Some(Report(scan.count, scan.violations, scan.previous));
  }

  // ------------------------------------------------------------------ reconciling

  /** Every line that is not blank, parsed, up to the first that is no JSON. */
  function Exported(p: Platform, lines: seq<string>): seq<Value> {
    if lines == [] then []
    else if Blank(lines[0]) then Exported(p, lines[1..])
    else
      match Parse(p, Plain, lines[0])
      case None => []
      case Some(v) => [v] + Exported(p, lines[1..])
  }

  /** A list or a dict cannot be part of a key. */
  predicate Hashable(v: Value) {
    !v.List? && !v.Dict?
  }

  /** What a record is compared by; None when the comparison raises. */
  function KeyOf(v: Value): Option<Key> {
    if !v.Dict? then None
    else
      var body := GetOr(v.entries, "body", v);
      if !body.Dict? then None
      else
        var key := (GetOr(body.entries, "execution_id", Null), GetOr(body.entries, "kind", Null),
                    GetOr(body.entries, "sequence", Null));
        if Hashable(key.0) && Hashable(key.1) && Hashable(key.2) then Some(key) else None
  }

  function KeysOf(values: seq<Value>): Option<seq<Key>> {
    if values == [] then Some([])
    else
      match (KeyOf(values[0]), KeysOf(values[1..]))
      case (Some(k), Some(ks)) => Some([k] + ks)
      case _ => None
  }

  predicate SameKey(r: Reader, a: Key, b: Key) {
    r.equal(a.0, b.0) && r.equal(a.1, b.1) && r.equal(a.2, b.2)
  }

  predicate Contains(r: Reader, keys: seq<Key>, k: Key) {
    exists i | 0 <= i < |keys| :: SameKey(r, keys[i], k)
  }

  /** The keys of the one collection that are not in the other, each once. */
  function Difference(r: Reader, keys: seq<Key>, others: seq<Key>): seq<Key> {
    if keys == [] then []
    else
      var k := keys[|keys| - 1];
      var done := Difference(r, keys[..|keys| - 1], others);
      if Contains(r, others, k) || Contains(r, done, k) then done else done + [k]
  }

  function KeyEntry(r: Reader, k: Key): Entry {
    Entry(r.show(k), List([k.0, k.1, k.2]))
  }

  function KeyEntries(r: Reader, keys: seq<Key>): (es: seq<Entry>)
    ensures |es| == |keys| && forall i | 0 <= i < |keys| :: es[i] == KeyEntry(r, keys[i])
  {
    seq(|keys|, i requires 0 <= i < |keys| => KeyEntry(r, keys[i]))
  }

  function KeyIn(e: Entry): Key {
    match e.value
    case List(items) => if |items| == 3 then (items[0], items[1], items[2]) else (Null, Null, Null)
    case _ => (Null, Null, Null)
  }

  function KeysIn(entries: seq<Entry>): (keys: seq<Key>)
    ensures |keys| == |entries| && forall i | 0 <= i < |entries| :: keys[i] == KeyIn(entries[i])
  {
    seq(|entries|, i requires 0 <= i < |entries| => KeyIn(entries[i]))
  }

  /** `sorted(keys, key=str)`: the order in which differences are reported. */
  function Listed(r: Reader, keys: seq<Key>): seq<Key> {
    KeysIn(SortEntries(KeyEntries(r, keys)))
  }

  function Missing(keys: seq<Key>): (v: seq<Violation>)
    ensures |v| == |keys| && forall i | 0 <= i < |keys| :: v[i] == Violation(0, MissingFromExport(keys[i]))
  {
    seq(|keys|, i requires 0 <= i < |keys| => Violation(0, MissingFromExport(keys[i])))
  }

  function Absent(keys: seq<Key>): (v: seq<Violation>)
    ensures |v| == |keys| && forall i | 0 <= i < |keys| :: v[i] == Violation(0, AbsentFromLedger(keys[i]))
  {
    seq(|keys|, i requires 0 <= i < |keys| => Violation(0, AbsentFromLedger(keys[i])))
  }

  function AsValues(bodies: seq<Record>): (r: seq<Value>)
    ensures |r| == |bodies| && forall i | 0 <= i < |bodies| :: r[i] == Dict(bodies[i])
  {
    seq(|bodies|, i requires 0 <= i < |bodies| => Dict(bodies[i]))
  }

  /** `reconcile_with_ledger`, over the bodies of the ledger's events; None when it raises. */
  function Reconcile(r: Reader, text: string, ledger: seq<Record>): Option<Report> {
    match (Verify(r, text), KeysOf(Exported(r.p, SplitLines(text))), KeysOf(AsValues(ledger)))
    case (Some(report), Some(journal), Some(record)) =>
      var missing := Missing(Listed(r, Difference(r, record, journal)));
      var absent := Absent(Listed(r, Difference(r, journal, record)));
      Some(report.(violations := report.violations + missing + absent))
    case _ => None
  }
}
