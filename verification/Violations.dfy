/** What a report says of a file, violation by violation: which records it counts, at which line it finds the chain
    broken, a content modified or a sequence falling back, and where it stops. */
module Violations {
  import opened Wrappers
  import opened Json
  import opened JsonPrefix
  import opened Canonical
  import opened Lines
  import opened Export
  import opened ExportTheorems
  import opened HonestExport

  // ------------------------------------------------------------------ what a record says of itself

  function Block(record: Record): Option<seq<Entry>> {
    match Lookup(record, "integrity")
    case Some(Dict(fields)) => Some(fields)
    case _ => None
  }

  function PreviousHash(record: Record): Option<Value> {
    match Block(record)
    case Some(fields) => Lookup(fields, "previous_hash")
    case None => None
  }

  /** The hash a record names as its own: under `event_hash`, or else under `record_hash`. */
  function OwnHash(record: Record): Option<Value> {
    match Block(record)
    case None => None
    case Some(fields) =>
      match Lookup(fields, "event_hash")
      case Some(v) => Some(v)
      case None => Lookup(fields, "record_hash")
  }

  /** A sequence counts if it is an integer; True and False are 1 and 0. */
  function SequenceIn(record: Record): Option<int> {
    match Lookup(record, "sequence")
    case Some(Int(n)) => Some(n)
    case Some(Bool(b)) => Some(if b then 1 else 0)
    case _ => None
  }

  function PreviousText(record: Record): string {
    match PreviousHash(record)
    case Some(Str(s)) => s
    case _ => ""
  }

  /** A record the verifier can check: it has an integrity block, its previous hash is an ASCII text if it is there,
      and the rest of it can be dumped. */
  predicate Checkable(p: Platform, record: Record) {
    && Block(record).Some?
    && (PreviousHash(record).Some? ==> PreviousHash(record).value.Str? && IsAscii(PreviousHash(record).value.s))
    && Dumps(p, Dict(BodyOf(record))).Ok?
  }

  predicate IsCheckable(p: Platform, line: string) {
    match Parse(p, Plain, line)
    case Some(Dict(record)) => Checkable(p, record)
    case _ => false
  }

  ghost predicate AllCheckable(p: Platform, lines: seq<string>, n: nat)
    requires n <= |lines|
  {
    forall k | 0 <= k < n :: Blank(lines[k]) || IsCheckable(p, lines[k])
  }

  // ------------------------------------------------------------------ what is known before a line

  /** The hash the nearest record before a line names, and genesis before the first record. */
  function HashBefore(p: Platform, lines: seq<string>, n: nat): Value
    requires n <= |lines|
  {
    if n == 0 then Str(GENESIS)
    else if Blank(lines[n - 1]) then HashBefore(p, lines, n - 1)
    else
      match OwnHash(RecordOf(p, lines[n - 1]))
      case Some(v) => v
      case None => Str("")
  }

  /** The nearest integer sequence before a line. */
  function SequenceBefore(p: Platform, lines: seq<string>, n: nat): Option<int>
    requires n <= |lines|
  {
    if n == 0 then None
    else if !Blank(lines[n - 1]) && SequenceIn(RecordOf(p, lines[n - 1])).Some?
    then SequenceIn(RecordOf(p, lines[n - 1]))
    else SequenceBefore(p, lines, n - 1)
  }

  function RecordsBefore(lines: seq<string>, n: nat): nat
    requires n <= |lines|
  {
    if n == 0 then 0 else RecordsBefore(lines, n - 1) + if Blank(lines[n - 1]) then 0 else 1
  }

  // ------------------------------------------------------------------ the three faults of a record

  function OrNull(v: Option<Value>): Value {
    match v
    case Some(w) => w
    case None => Null
  }

  /** Its previous hash is not the one the record before it names. */
  predicate BreaksChain(r: Reader, lines: seq<string>, k: nat)
    requires k < |lines|
  {
    !Blank(lines[k])
    && !r.equal(OrNull(PreviousHash(RecordOf(r.p, lines[k]))), HashBefore(r.p, lines, k))
  }

  /** The hash it names is not that of its previous hash and its body. */
  predicate ChangesContent(r: Reader, lines: seq<string>, k: nat)
    requires k < |lines|
  {
    var record := RecordOf(r.p, lines[k]);
    !Blank(lines[k])
    && !r.equal(OrNull(OwnHash(record)), Str(r.sha(PreviousText(record) + BodyText(r.p, record))))
  }

  /** Its sequence does not exceed the last one. */
  predicate FallsBack(p: Platform, lines: seq<string>, k: nat)
    requires k < |lines|
  {
    var sequence, last := SequenceIn(RecordOf(p, lines[k])), SequenceBefore(p, lines, k);
    !Blank(lines[k]) && sequence.Some? && last.Some? && sequence.value <= last.value
  }

  function If(c: bool, line: nat, kind: Kind): seq<Violation> {
    if c then [Violation(line, kind)] else []
  }

  function FaultsAt(r: Reader, lines: seq<string>, k: nat): seq<Violation>
    requires k < |lines|
  {
    If(BreaksChain(r, lines, k), k + 1, ChainBroken) + If(ChangesContent(r, lines, k), k + 1, ContentModified)
    + If(FallsBack(r.p, lines, k), k + 1, SequenceRegressed)
  }

  function Flat(lists: seq<seq<Violation>>): seq<Violation> {
    if lists == [] then [] else Flat(lists[..|lists| - 1]) + lists[|lists| - 1]
  }

  lemma {:induction false} FlatByOne(lists: seq<seq<Violation>>, more: seq<seq<Violation>>)
    requires |more| == |lists| + 1 && forall k | 0 <= k < |lists| :: more[k] == lists[k]
    ensures Flat(more) == Flat(lists) + more[|lists|]
  {
    assert more[..|lists|] == lists;
  }

  lemma {:induction false} InFlat(lists: seq<seq<Violation>>, v: Violation)
    ensures v in Flat(lists) <==> exists k | 0 <= k < |lists| :: v in lists[k]
  {
    if lists != [] {
      var n := |lists| - 1;
      InFlat(lists[..n], v);
      assert forall k | 0 <= k < n :: lists[..n][k] == lists[k];
    }
  }

  function LineFaults(r: Reader, lines: seq<string>, n: nat): (f: seq<seq<Violation>>)
    requires n <= |lines|
    ensures |f| == n && forall k | 0 <= k < n :: f[k] == FaultsAt(r, lines, k)
  {
    seq(n, k requires 0 <= k < n => FaultsAt(r, lines, k))
  }

  /** The faults of the first n lines, in the order of the lines. */
  function Faults(r: Reader, lines: seq<string>, n: nat): seq<Violation>
    requires n <= |lines|
  {
    Flat(LineFaults(r, lines, n))
  }

  lemma {:induction false} FaultsByOne(r: Reader, lines: seq<string>, n: nat)
    requires n < |lines|
    ensures Faults(r, lines, n + 1) == Faults(r, lines, n) + FaultsAt(r, lines, n)
  {
    FlatByOne(LineFaults(r, lines, n), LineFaults(r, lines, n + 1));
  }

  // ------------------------------------------------------------------ the loop finds them

  function ScanBefore(r: Reader, lines: seq<string>, n: nat): Scan
    requires n <= |lines|
  {
    Scan(HashBefore(r.p, lines, n), RecordsBefore(lines, n), SequenceBefore(r.p, lines, n), Faults(r, lines, n))
  }

  lemma {:induction false} FieldsAgree(record: Record)
    requires Block(record).Some?
    ensures IntegrityOf(record) == Dict(Block(record).value)
    ensures GetOr(Block(record).value, "previous_hash", Null) == OrNull(PreviousHash(record))
    ensures FoundHash(Block(record).value, Null) == OrNull(OwnHash(record))
    ensures SequenceOf(GetOr(BodyOf(record), "sequence", Null)) == SequenceIn(record)
  {
    RemoveLookup(record, "integrity", "sequence");
  }

  /** The three checks of a record, over what is known before it. */
  function Checked(r: Reader, s: Scan, number: nat, record: Record): seq<Violation> {
    If(!r.equal(OrNull(PreviousHash(record)), s.previous), number, ChainBroken)
    + If(!r.equal(OrNull(OwnHash(record)), Str(r.sha(PreviousText(record) + BodyText(r.p, record)))), number,
         ContentModified)
    + If(SequenceIn(record).Some? && s.last.Some? && SequenceIn(record).value <= s.last.value, number,
         SequenceRegressed)
  }

  /** What the three checks make of a record, whatever came before. */
  lemma {:induction false} RecordChecked(r: Reader, s: Scan, number: nat, record: Record)
    requires Checkable(r.p, record)
    ensures var own, sequence := OwnHash(record), SequenceIn(record);
            CheckRecord(r, s, number, BodyOf(record), Block(record).value)
              == Running(Scan(if own.Some? then own.value else Str(""), s.count,
                              if sequence.Some? then sequence else s.last,
                              s.violations + Checked(r, s, number, record)))
  {
    FieldsAgree(record);
    var previous := PreviousText(record) + BodyText(r.p, record);
    ThreeAppended(s.violations, Broken(r, s, number, Block(record).value),
                  Modified(r, number, Block(record).value, r.sha(previous)), Regressed(s, number, SequenceIn(record)));
  }

  lemma {:induction false} StepChecks(r: Reader, s: Scan, number: nat, line: string)
    requires !Blank(line) && IsCheckable(r.p, line)
    ensures Step(r, s, number, line)
         == CheckRecord(r, s.(count := s.count + 1), number, BodyOf(RecordOf(r.p, line)),
                        Block(RecordOf(r.p, line)).value)
  {
    FieldsAgree(RecordOf(r.p, line));
  }

  lemma {:induction false} ThreeAppended(all: seq<Violation>, a: seq<Violation>, b: seq<Violation>, c: seq<Violation>)
    ensures all + a + b + c == all + (a + b + c)
  {
  }

  lemma {:induction false} NextScan(r: Reader, lines: seq<string>, k: nat)
    requires k < |lines| && !Blank(lines[k])
    ensures var s, record := ScanBefore(r, lines, k), RecordOf(r.p, lines[k]);
            ScanBefore(r, lines, k + 1)
              == Scan(if OwnHash(record).Some? then OwnHash(record).value else Str(""), s.count + 1,
                      if SequenceIn(record).Some? then SequenceIn(record) else s.last,
                      s.violations + Checked(r, s, k + 1, record))
  {
    FaultsByOne(r, lines, k);
  }

  lemma {:induction false} CheckableStep(r: Reader, lines: seq<string>, k: nat)
    requires k < |lines| && !Blank(lines[k]) && IsCheckable(r.p, lines[k])
    ensures Step(r, ScanBefore(r, lines, k), k + 1, lines[k]) == Running(ScanBefore(r, lines, k + 1))
  {
    var s := ScanBefore(r, lines, k);
    NextScan(r, lines, k);
    RecordStep(r, s, k + 1, lines[k], RecordOf(r.p, lines[k]));
  }

  lemma {:induction false} RecordStep(r: Reader, s: Scan, number: nat, line: string, record: Record)
    requires !Blank(line) && IsCheckable(r.p, line) && record == RecordOf(r.p, line)
    ensures Step(r, s, number, line)
         == Running(Scan(if OwnHash(record).Some? then OwnHash(record).value else Str(""), s.count + 1,
                         if SequenceIn(record).Some? then SequenceIn(record) else s.last,
                         s.violations + Checked(r, s, number, record)))
  {
    StepChecks(r, s, number, line);
    RecordChecked(r, s.(count := s.count + 1), number, record);
  }

  lemma {:induction false} BlankStep(r: Reader, lines: seq<string>, k: nat)
    requires k < |lines| && Blank(lines[k])
    ensures ScanBefore(r, lines, k + 1) == ScanBefore(r, lines, k)
  {
    FaultsByOne(r, lines, k);
  }

  lemma {:induction false} ScanIsBefore(r: Reader, lines: seq<string>, n: nat)
    requires n <= |lines| && AllCheckable(r.p, lines, n)
    ensures ScanLines(r, lines[..n]) == Running(ScanBefore(r, lines, n))
  {
    if n > 0 {
      ScanIsBefore(r, lines, n - 1);
      assert lines[..n][..n - 1] == lines[..n - 1];
      if Blank(lines[n - 1]) { BlankStep(r, lines, n - 1); } else { CheckableStep(r, lines, n - 1); }
    }
  }

  /** A file of records: the report counts them, lists exactly their faults in the order of the lines, and gives the
      hash the last of them names. */
  lemma {:induction false} ReportListsTheFaults(r: Reader, text: string)
    requires AllCheckable(r.p, SplitLines(text), |SplitLines(text)|)
    ensures var lines := SplitLines(text);
            Verify(r, text)
              == Some(Report(RecordsBefore(lines, |lines|), Faults(r, lines, |lines|),
                             HashBefore(r.p, lines, |lines|)))
  {
    var lines := SplitLines(text);
    ScanIsBefore(r, lines, |lines|);
    assert lines[..|lines|] == lines;
  }

  /** The first line that is not blank and no record ends the report: a line that is no JSON is malformed, and one
      without an integrity block lacks it, and what comes after is not looked at; at any other the verifier raises. */
  lemma {:induction false} ReportStops(r: Reader, text: string, lines: seq<string>, n: nat)
    requires lines == SplitLines(text) && n < |lines| && AllCheckable(r.p, lines, n)
    requires !Blank(lines[n]) && !IsCheckable(r.p, lines[n])
    ensures Verify(r, text)
         == match WhyStopped(r.p, lines[n])
            case None => None
            case Some(kind) =>
              Some(Report(RecordsBefore(lines, n) + 1, Faults(r, lines, n) + [Violation(n + 1, kind)],
                          HashBefore(r.p, lines, n)))
  {
    ScanEnds(r, lines, n);
    StoppedReport(r, text, ScanBefore(r, lines, n), n + 1, WhyStopped(r.p, lines[n]));
  }

  lemma {:induction false} StoppedReport(r: Reader, text: string, s: Scan, number: nat, why: Option<Kind>)
    requires ScanLines(r, SplitLines(text)) == StoppedAt(s, number, why)
    ensures Verify(r, text)
         == match why
            case None => None
            case Some(kind) => Some(Report(s.count + 1, s.violations + [Violation(number, kind)], s.previous))
  {
  }

  function WhyStopped(p: Platform, line: string): Option<Kind> {
    match Parse(p, Plain, line)
    case None => Some(MalformedLine)
    case Some(Dict(record)) => if Block(record).None? then Some(MissingIntegrity) else None
    case _ => None
  }

  lemma {:induction false} ScanEnds(r: Reader, lines: seq<string>, n: nat)
    requires n < |lines| && AllCheckable(r.p, lines, n) && !Blank(lines[n]) && !IsCheckable(r.p, lines[n])
    ensures ScanLines(r, lines) == StoppedAt(ScanBefore(r, lines, n), n + 1, WhyStopped(r.p, lines[n]))
  {
    ScanIsBefore(r, lines, n);
    assert lines[..n + 1][..n] == lines[..n];
    UncheckableStep(r, ScanBefore(r, lines, n), n + 1, lines[n]);
    ScanSticks(r, lines, n + 1);
  }

  function StoppedAt(s: Scan, number: nat, why: Option<Kind>): Scanned {
    match why
    case None => Raised
    case Some(kind) => Stopped(s.(count := s.count + 1, violations := s.violations + [Violation(number, kind)]))
  }

  lemma {:induction false} UncheckableStep(r: Reader, s: Scan, number: nat, line: string)
    requires !Blank(line) && !IsCheckable(r.p, line)
    ensures Step(r, s, number, line) == StoppedAt(s, number, WhyStopped(r.p, line))
  {
    var found := Parse(r.p, Plain, line);
    if found.Some? && found.value.Dict? && Block(found.value.entries).Some? { FieldsAgree(found.value.entries); }
  }

  // ------------------------------------------------------------------ read off the report

  /** Whether a line has this fault. */
  predicate HasFault(r: Reader, lines: seq<string>, v: Violation)
    requires 0 < v.line <= |lines|
  {
    || (v.kind == ChainBroken && BreaksChain(r, lines, v.line - 1))
    || (v.kind == ContentModified && ChangesContent(r, lines, v.line - 1))
    || (v.kind == SequenceRegressed && FallsBack(r.p, lines, v.line - 1))
  }

  lemma {:induction false} InThree(v: Violation, line: nat, a: bool, b: bool, c: bool)
    ensures v in If(a, line, ChainBroken) + If(b, line, ContentModified) + If(c, line, SequenceRegressed)
       <==> (a && v == Violation(line, ChainBroken)) || (b && v == Violation(line, ContentModified))
            || (c && v == Violation(line, SequenceRegressed))
  {
  }

  lemma {:induction false} FaultsAtLine(r: Reader, lines: seq<string>, k: nat, v: Violation)
    requires k < |lines|
    ensures v in FaultsAt(r, lines, k) <==> v.line == k + 1 && HasFault(r, lines, v)
  {
    InThree(v, k + 1, BreaksChain(r, lines, k), ChangesContent(r, lines, k), FallsBack(r.p, lines, k));
  }

  lemma {:induction false} FaultsFound(r: Reader, lines: seq<string>, n: nat, v: Violation)
    requires n <= |lines|
    ensures v in Faults(r, lines, n) <==> 0 < v.line <= n && HasFault(r, lines, v)
  {
    var lists := LineFaults(r, lines, n);
    InFlat(lists, v);
    forall k | 0 <= k < n ensures v in lists[k] <==> v.line == k + 1 && HasFault(r, lines, v) {
      FaultsAtLine(r, lines, k, v);
    }
    if 0 < v.line <= n { assert v in lists[v.line - 1] <==> HasFault(r, lines, v); }
  }

  /** Of a file of records: a line is reported broken exactly if its previous hash is not the one the record before it
      names, modified exactly if the hash it names is not that of its own previous hash and body, and regressed
      exactly if its integer sequence does not exceed the last one; and nothing else is reported. */
  lemma {:induction false} ReportedExactlyWhen(r: Reader, text: string, v: Violation)
    requires AllCheckable(r.p, SplitLines(text), |SplitLines(text)|)
    ensures var lines := SplitLines(text);
            Verify(r, text).Some?
            && (v in Verify(r, text).value.violations <==>
                  0 < v.line <= |lines| && HasFault(r, lines, v))
  {
    ReportListsTheFaults(r, text);
    FaultsFound(r, SplitLines(text), |SplitLines(text)|, v);
  }

  // ------------------------------------------------------------------ files of sealed records

  /** A record as somebody sealed it, over whatever hashes. */
  datatype Sealed = Sealed(body: Record, before: string, after: string)

  function Written(sheet: seq<Sealed>): (r: seq<Record>)
    ensures |r| == |sheet|
    ensures forall k | 0 <= k < |sheet| :: r[k] == Seal(sheet[k].body, sheet[k].before, sheet[k].after)
  {
    seq(|sheet|, k requires 0 <= k < |sheet| => Seal(sheet[k].body, sheet[k].before, sheet[k].after))
  }

  ghost predicate Proper(p: Platform, x: Sealed) {
    && HonestBody(p, x.body) && Dumps(p, Dict(x.body)).Ok? && !BreaksIn(Dict(x.body))
    && IsAscii(x.before) && IsAscii(x.after)
  }

  ghost predicate AllProper(p: Platform, sheet: seq<Sealed>) {
    forall k | 0 <= k < |sheet| :: Proper(p, sheet[k])
  }

  function AfterOf(sheet: seq<Sealed>, k: nat): string
    requires k <= |sheet|
  {
    if k == 0 then GENESIS else sheet[k - 1].after
  }

  function TextOf(p: Platform, x: Sealed): string {
    match Dumps(p, Dict(x.body))
    case Ok(t) => t
    case Err(_) => ""
  }

  /** The sequences of the sheet never fall back. */
  ghost predicate Rises(sheet: seq<Sealed>) {
    forall i, j | 0 <= i < j < |sheet| && BodySequence(sheet[i].body).Some? && BodySequence(sheet[j].body).Some? ::
      BodySequence(sheet[i].body).value < BodySequence(sheet[j].body).value
  }

  /** A record that was not sealed over the hash of the one before it, or not under the hash of its own body. */
  function SheetFaultsAt(r: Reader, sheet: seq<Sealed>, k: nat): seq<Violation>
    requires k < |sheet|
  {
    If(sheet[k].before != AfterOf(sheet, k), k + 1, ChainBroken)
    + If(sheet[k].after != r.sha(sheet[k].before + TextOf(r.p, sheet[k])), k + 1, ContentModified)
  }

  function SheetFaults(r: Reader, sheet: seq<Sealed>): (f: seq<seq<Violation>>)
    ensures |f| == |sheet| && forall k | 0 <= k < |sheet| :: f[k] == SheetFaultsAt(r, sheet, k)
  {
    seq(|sheet|, k requires 0 <= k < |sheet| => SheetFaultsAt(r, sheet, k))
  }

  /** One line of the file reads as it was sealed. */
  ghost predicate SealedLine(p: Platform, line: string, x: Sealed) {
    && !Blank(line) && IsCheckable(p, line)
    && PreviousHash(RecordOf(p, line)) == Some(Str(x.before)) && OwnHash(RecordOf(p, line)) == Some(Str(x.after))
    && BodyText(p, RecordOf(p, line)) == TextOf(p, x) && SequenceIn(RecordOf(p, line)) == BodySequence(x.body)
  }

  lemma {:induction false} ReadsAsSealed(p: Platform, record: Record, x: Sealed)
    requires ReadsAs(p, record, x.body, x.before, x.after) && Proper(p, x)
    ensures Checkable(p, record) && PreviousHash(record) == Some(Str(x.before))
    ensures OwnHash(record) == Some(Str(x.after)) && BodyText(p, record) == TextOf(p, x)
    ensures SequenceIn(record) == BodySequence(x.body)
  {
    FieldsAgree(record);
  }

  lemma {:induction false} LineReadsAsSealed(p: Platform, x: Sealed)
    requires Proper(p, x)
    ensures SealedLine(p, LineOf(Seal(x.body, x.before, x.after)), x)
    ensures Unbroken(LineOf(Seal(x.body, x.before, x.after)))
  {
    var sealed := Seal(x.body, x.before, x.after);
    SealedReadsBack(p, x.body, x.before, x.after);
    LineStarts(sealed);
    LineBreaksExactlyWhen(p, x.body, x.before, x.after);
    ReadsAsSealed(p, RecordOf(p, LineOf(sealed)), x);
  }

  ghost predicate SealedLines(p: Platform, lines: seq<string>, sheet: seq<Sealed>) {
    |lines| == |sheet| && forall k | 0 <= k < |sheet| :: SealedLine(p, lines[k], sheet[k])
  }

  lemma {:induction false} NeverFallsBack(p: Platform, lines: seq<string>, sheet: seq<Sealed>, n: nat)
    requires SealedLines(p, lines, sheet) && Rises(sheet) && n <= |sheet|
    ensures SequenceBefore(p, lines, n).Some? ==>
              exists i | 0 <= i < n :: BodySequence(sheet[i].body) == SequenceBefore(p, lines, n)
    ensures n < |sheet| ==> !FallsBack(p, lines, n)
  {
    if n > 0 { NeverFallsBack(p, lines, sheet, n - 1); }
    if n > 0 && SequenceBefore(p, lines, n).Some? {
      if SequenceIn(RecordOf(p, lines[n - 1])).Some? {
        assert BodySequence(sheet[n - 1].body) == SequenceBefore(p, lines, n);
      }
    }
  }

  lemma {:induction false} SealedFaults(r: Reader, lines: seq<string>, sheet: seq<Sealed>, k: nat)
    requires FaithfulReader(r) && SealedLines(r.p, lines, sheet) && k < |sheet|
    requires HashBefore(r.p, lines, k) == Str(AfterOf(sheet, k)) && !FallsBack(r.p, lines, k)
    ensures FaultsAt(r, lines, k) == SheetFaultsAt(r, sheet, k)
  {
    SealedBreaks(r, lines, sheet, k);
    assert If(false, k + 1, SequenceRegressed) == [];
  }

  lemma {:induction false} TextsDiffer(r: Reader, named: Option<Value>, a: string, b: string)
    requires FaithfulReader(r) && named == Some(Str(a))
    ensures r.equal(OrNull(named), Str(b)) <==> a == b
  {
  }

  lemma {:induction false} SealedBreaks(r: Reader, lines: seq<string>, sheet: seq<Sealed>, k: nat)
    requires FaithfulReader(r) && SealedLines(r.p, lines, sheet) && k < |sheet|
    requires HashBefore(r.p, lines, k) == Str(AfterOf(sheet, k))
    ensures BreaksChain(r, lines, k) <==> sheet[k].before != AfterOf(sheet, k)
    ensures ChangesContent(r, lines, k) <==> sheet[k].after != r.sha(sheet[k].before + TextOf(r.p, sheet[k]))
  {
    var line, x := lines[k], sheet[k];
    assert SealedLine(r.p, line, x);
    var record := RecordOf(r.p, line);
    TextsDiffer(r, PreviousHash(record), x.before, AfterOf(sheet, k));
    TextsDiffer(r, OwnHash(record), x.after, r.sha(x.before + TextOf(r.p, x)));
    assert PreviousText(record) == x.before;
  }

  lemma {:induction false} SheetHash(p: Platform, lines: seq<string>, sheet: seq<Sealed>, n: nat)
    requires SealedLines(p, lines, sheet) && n <= |sheet|
    ensures HashBefore(p, lines, n) == Str(AfterOf(sheet, n))
  {
    if n > 0 { assert SealedLine(p, lines[n - 1], sheet[n - 1]); }
  }

  lemma {:induction false} AllAreCounted(lines: seq<string>, n: nat)
    requires n <= |lines| && forall k | 0 <= k < n :: !Blank(lines[k])
    ensures RecordsBefore(lines, n) == n
  {
    if n > 0 { AllAreCounted(lines, n - 1); }
  }

  lemma {:induction false} SheetScanned(r: Reader, lines: seq<string>, sheet: seq<Sealed>)
    requires FaithfulReader(r) && SealedLines(r.p, lines, sheet) && Rises(sheet)
    ensures LineFaults(r, lines, |sheet|) == SheetFaults(r, sheet)
  {
    forall k | 0 <= k < |sheet| ensures FaultsAt(r, lines, k) == SheetFaultsAt(r, sheet, k) {
      SheetHash(r.p, lines, sheet, k);
      NeverFallsBack(r.p, lines, sheet, k);
      SealedFaults(r, lines, sheet, k);
    }
  }

  /** A file of sealed records whose sequences rise: a record is reported broken exactly if it was not sealed over the
      hash of the one before it, and modified exactly if its hash is not that of its body over that hash. */
  lemma {:induction false} SheetReport(r: Reader, sheet: seq<Sealed>)
    requires FaithfulReader(r) && AllProper(r.p, sheet) && Rises(sheet)
    ensures Verify(r, Joined(LinesOf(Written(sheet))))
         == Some(Report(|sheet|, Flat(SheetFaults(r, sheet)), Str(AfterOf(sheet, |sheet|))))
  {
    var lines := LinesOf(Written(sheet));
    SheetIsRead(r.p, sheet);
    ReportListsTheFaults(r, Joined(lines));
    SheetHash(r.p, lines, sheet, |sheet|);
    SheetScanned(r, lines, sheet);
  }

  lemma {:induction false} SheetIsRead(p: Platform, sheet: seq<Sealed>)
    requires AllProper(p, sheet)
    ensures var lines := LinesOf(Written(sheet));
            && SplitLines(Joined(lines)) == lines && SealedLines(p, lines, sheet)
            && AllCheckable(p, lines, |lines|) && RecordsBefore(lines, |lines|) == |sheet|
  {
    var lines := LinesOf(Written(sheet));
    forall k | 0 <= k < |sheet|
      ensures SealedLine(p, lines[k], sheet[k]) && Unbroken(lines[k]) && !Blank(lines[k])
    {
      assert Proper(p, sheet[k]);
      LineReadsAsSealed(p, sheet[k]);
    }
    LinesReadBack(lines);
    AllAreCounted(lines, |lines|);
  }

  // ------------------------------------------------------------------ records dropped, a body edited

  /** The sheet of an honest chain. */
  function ChainSheet(p: Platform, sha: Sha, bodies: seq<Record>): (s: seq<Sealed>)
    ensures |s| == |bodies|
    ensures forall j | 0 <= j < |bodies| ::
              s[j] == Sealed(bodies[j], HashAt(p, sha, bodies, j), HashAt(p, sha, bodies, j + 1))
  {
    seq(|bodies|, j requires 0 <= j < |bodies| =>
          Sealed(bodies[j], HashAt(p, sha, bodies, j), HashAt(p, sha, bodies, j + 1)))
  }

  lemma {:induction false} ChainIsItsSheet(p: Platform, sha: Sha, bodies: seq<Record>)
    requires Chain(p, sha, GENESIS, bodies).Ok?
    ensures Chain(p, sha, GENESIS, bodies).value.records == Written(ChainSheet(p, sha, bodies))
    ensures forall j | 0 <= j < |bodies| :: Dumps(p, Dict(bodies[j])).Ok?
  {
    ChainPointwise(p, sha, bodies);
    var records := Chain(p, sha, GENESIS, bodies).value.records;
    forall j | 0 <= j < |bodies|
      ensures records[j] == Written(ChainSheet(p, sha, bodies))[j] && Dumps(p, Dict(bodies[j])).Ok?
    {
      assert SealedAt(p, sha, bodies, records, j);
    }
  }

  lemma {:induction false} ChainSheetIsProper(r: Reader, bodies: seq<Record>)
    requires FaithfulReader(r) && HonestBodies(r.p, bodies) && Chain(r.p, r.sha, GENESIS, bodies).Ok?
    requires !AnyBodyBreaks(bodies)
    ensures AllProper(r.p, ChainSheet(r.p, r.sha, bodies))
  {
    ChainIsItsSheet(r.p, r.sha, bodies);
    var sheet := ChainSheet(r.p, r.sha, bodies);
    forall j | 0 <= j < |bodies| ensures Proper(r.p, sheet[j]) {
      HashIsAscii(r, BodyDumps(r.p, bodies)[..j]);
      HashIsAscii(r, BodyDumps(r.p, bodies)[..j + 1]);
      assert HonestBody(r.p, bodies[j]);
    }
  }

  function Kept(sheet: seq<Sealed>, choice: seq<nat>): (s: seq<Sealed>)
    requires forall k | 0 <= k < |choice| :: choice[k] < |sheet|
    ensures |s| == |choice| && forall k | 0 <= k < |choice| :: s[k] == sheet[choice[k]]
  {
    seq(|choice|, k requires 0 <= k < |choice| => sheet[choice[k]])
  }

  ghost predicate InRange(choice: seq<nat>, n: nat) {
    forall k | 0 <= k < |choice| :: choice[k] < n
  }

  ghost predicate Increasing(choice: seq<nat>) {
    forall i, j | 0 <= i < j < |choice| :: choice[i] < choice[j]
  }

  /** The record after the one kept before the k-th. */
  function Expected(choice: seq<nat>, k: nat): nat
    requires k < |choice|
  {
    if k == 0 then 0 else choice[k - 1] + 1
  }

  function GapAt(choice: seq<nat>, k: nat): seq<Violation>
    requires k < |choice|
  {
    if choice[k] != Expected(choice, k) then [Violation(k + 1, ChainBroken)] else []
  }

  /** For each kept record that does not follow the one kept before it, one violation. */
  function Gaps(choice: seq<nat>): (g: seq<seq<Violation>>)
    ensures |g| == |choice| && forall k | 0 <= k < |choice| :: g[k] == GapAt(choice, k)
  {
    seq(|choice|, k requires 0 <= k < |choice| => GapAt(choice, k))
  }

  /** A record sealed under the hash of its own body is at most out of place. */
  lemma {:induction false} WholeRecordFaults(r: Reader, sheet: seq<Sealed>, k: nat)
    requires k < |sheet| && sheet[k].after == r.sha(sheet[k].before + TextOf(r.p, sheet[k]))
    ensures SheetFaultsAt(r, sheet, k)
         == if sheet[k].before != AfterOf(sheet, k) then [Violation(k + 1, ChainBroken)] else []
  {
  }

  lemma {:induction false} ChainIsWhole(p: Platform, sha: Sha, bodies: seq<Record>, j: nat)
    requires j < |bodies|
    ensures var x := ChainSheet(p, sha, bodies)[j]; x.after == sha(x.before + TextOf(p, x))
  {
    NextHash(p, sha, bodies, j);
  }

  lemma {:induction false} KeptFaultsAt(r: Reader, bodies: seq<Record>, choice: seq<nat>, k: nat)
    requires FaithfulReader(r) && InRange(choice, |bodies|) && k < |choice|
    requires ApartFromGenesis(r.sha, Hashed(r.sha, BodyDumps(r.p, bodies)))
    ensures SheetFaultsAt(r, Kept(ChainSheet(r.p, r.sha, bodies), choice), k) == GapAt(choice, k)
  {
    var sheet := Kept(ChainSheet(r.p, r.sha, bodies), choice);
    ChainIsWhole(r.p, r.sha, bodies, choice[k]);
    WholeRecordFaults(r, sheet, k);
    KeptBefore(r, bodies, choice, k);
    PlacesApart(r, bodies, choice[k], Expected(choice, k));
  }

  lemma {:induction false} PlacesApart(r: Reader, bodies: seq<Record>, i: nat, j: nat)
    requires FaithfulReader(r) && i <= |bodies| && j <= |bodies|
    requires ApartFromGenesis(r.sha, Hashed(r.sha, BodyDumps(r.p, bodies)))
    ensures HashAt(r.p, r.sha, bodies, i) == HashAt(r.p, r.sha, bodies, j) <==> i == j
  {
    if HashAt(r.p, r.sha, bodies, i) == HashAt(r.p, r.sha, bodies, j) {
      HashDeterminesPosition(r.sha, BodyDumps(r.p, bodies), i, j);
    }
  }

  lemma {:induction false} KeptBefore(r: Reader, bodies: seq<Record>, choice: seq<nat>, k: nat)
    requires InRange(choice, |bodies|) && k < |choice|
    ensures Expected(choice, k) <= |bodies|
    ensures AfterOf(Kept(ChainSheet(r.p, r.sha, bodies), choice), k)
         == HashAt(r.p, r.sha, bodies, Expected(choice, k))
  {
    if k > 0 { assert choice[k - 1] < |bodies|; }
  }

  lemma {:induction false} KeptFaults(r: Reader, bodies: seq<Record>, choice: seq<nat>)
    requires FaithfulReader(r) && InRange(choice, |bodies|)
    requires ApartFromGenesis(r.sha, Hashed(r.sha, BodyDumps(r.p, bodies)))
    ensures SheetFaults(r, Kept(ChainSheet(r.p, r.sha, bodies), choice)) == Gaps(choice)
  {
    var sheet := Kept(ChainSheet(r.p, r.sha, bodies), choice);
    forall k | 0 <= k < |choice| ensures SheetFaultsAt(r, sheet, k) == GapAt(choice, k) {
      KeptFaultsAt(r, bodies, choice, k);
    }
  }

  lemma {:induction false} KeptRises(p: Platform, sha: Sha, bodies: seq<Record>, choice: seq<nat>)
    requires BodySequencesRise(bodies) && InRange(choice, |bodies|) && Increasing(choice)
    ensures Rises(Kept(ChainSheet(p, sha, bodies), choice))
  {
  }

  lemma {:induction false} KeptIsChosen(p: Platform, sha: Sha, bodies: seq<Record>, choice: seq<nat>)
    requires InRange(choice, |bodies|)
    ensures Written(Kept(ChainSheet(p, sha, bodies), choice)) == Chosen(Written(ChainSheet(p, sha, bodies)), choice)
  {
  }

  /** An honest chain with records dropped, wherever and however many: the report has exactly one broken link at each
      gap and nothing else; what is dropped from the end leaves no trace but the tip. */
  lemma {:induction false} DroppedRecordsLeaveGaps(r: Reader, bodies: seq<Record>, choice: seq<nat>)
    requires FaithfulReader(r) && HonestBodies(r.p, bodies) && BodySequencesRise(bodies) && !AnyBodyBreaks(bodies)
    requires Chain(r.p, r.sha, GENESIS, bodies).Ok?
    requires ApartFromGenesis(r.sha, Hashed(r.sha, BodyDumps(r.p, bodies)))
    requires Increasing(choice) && InRange(choice, |Chain(r.p, r.sha, GENESIS, bodies).value.records|)
    ensures |Chain(r.p, r.sha, GENESIS, bodies).value.records| == |bodies|
    ensures var end := if choice == [] then 0 else choice[|choice| - 1] + 1;
            Verify(r, Joined(LinesOf(Chosen(Chain(r.p, r.sha, GENESIS, bodies).value.records, choice))))
              == Some(Report(|choice|, Flat(Gaps(choice)), Str(HashAt(r.p, r.sha, bodies, end))))
  {
    ChainIsItsSheet(r.p, r.sha, bodies);
    ChainSheetIsProper(r, bodies);
    var sheet := Kept(ChainSheet(r.p, r.sha, bodies), choice);
    forall k | 0 <= k < |sheet| ensures Proper(r.p, sheet[k]) {}
    KeptRises(r.p, r.sha, bodies, choice);
    KeptIsChosen(r.p, r.sha, bodies, choice);
    SheetReport(r, sheet);
    KeptFaults(r, bodies, choice);
  }

  /** The sheet of a chain with one body replaced. */
  function Edited(p: Platform, sha: Sha, bodies: seq<Record>, j: nat, body: Record): (s: seq<Sealed>)
    requires j < |bodies|
    ensures |s| == |bodies|
  {
    var sheet := ChainSheet(p, sha, bodies);
    sheet[j := sheet[j].(body := body)]
  }

  /** The texts of both bodies, over the hash of what comes before them, have two hashes. */
  predicate ChangesHash(p: Platform, sha: Sha, bodies: seq<Record>, j: nat, body: Record)
    requires j < |bodies|
  {
    var before := HashAt(p, sha, bodies, j);
    Dumps(p, Dict(body)).Ok? && sha(before + Dumps(p, Dict(body)).value) != sha(before + BodyDumps(p, bodies)[j])
  }

  lemma {:induction false} EditedFaultsAt(r: Reader, bodies: seq<Record>, j: nat, body: Record, k: nat)
    requires j < |bodies| && k < |bodies| && ChangesHash(r.p, r.sha, bodies, j, body)
    ensures SheetFaultsAt(r, Edited(r.p, r.sha, bodies, j, body), k)
         == if k == j then [Violation(j + 1, ContentModified)] else []
  {
    var sheet := Edited(r.p, r.sha, bodies, j, body);
    NextHash(r.p, r.sha, bodies, k);
    assert sheet[k].before == HashAt(r.p, r.sha, bodies, k) && sheet[k].after == HashAt(r.p, r.sha, bodies, k + 1);
    assert AfterOf(sheet, k) == HashAt(r.p, r.sha, bodies, k);
    assert k != j ==> TextOf(r.p, sheet[k]) == BodyDumps(r.p, bodies)[k];
  }

  lemma {:induction false} OnlyOne(lists: seq<seq<Violation>>, j: nat, v: Violation)
    requires forall k | 0 <= k < |lists| :: lists[k] == if k == j then [v] else []
    ensures Flat(lists) == if j < |lists| then [v] else []
  {
    if lists != [] { OnlyOne(lists[..|lists| - 1], j, v); }
  }

  lemma {:induction false} EditedFaults(r: Reader, bodies: seq<Record>, j: nat, body: Record)
    requires j < |bodies| && ChangesHash(r.p, r.sha, bodies, j, body)
    ensures Flat(SheetFaults(r, Edited(r.p, r.sha, bodies, j, body))) == [Violation(j + 1, ContentModified)]
  {
    var sheet := Edited(r.p, r.sha, bodies, j, body);
    var lists := SheetFaults(r, sheet);
    forall k | 0 <= k < |bodies|
      ensures lists[k] == if k == j then [Violation(j + 1, ContentModified)] else []
    {
      EditedFaultsAt(r, bodies, j, body, k);
    }
    OnlyOne(lists, j, Violation(j + 1, ContentModified));
  }

  lemma {:induction false} EditedIsProper(r: Reader, bodies: seq<Record>, j: nat, body: Record)
    requires AllProper(r.p, ChainSheet(r.p, r.sha, bodies)) && j < |bodies| && BodySequencesRise(bodies[j := body])
    requires HonestBody(r.p, body) && Dumps(r.p, Dict(body)).Ok? && !BreaksIn(Dict(body))
    ensures AllProper(r.p, Edited(r.p, r.sha, bodies, j, body)) && Rises(Edited(r.p, r.sha, bodies, j, body))
  {
    var sheet := ChainSheet(r.p, r.sha, bodies);
    var edited := Edited(r.p, r.sha, bodies, j, body);
    forall k | 0 <= k < |edited|
      ensures Proper(r.p, edited[k]) && edited[k].body == bodies[j := body][k]
    {
      assert Proper(r.p, sheet[k]);
    }
  }

  lemma {:induction false} EditedIsWritten(p: Platform, sha: Sha, bodies: seq<Record>, j: nat, body: Record)
    requires j < |bodies|
    ensures Written(Edited(p, sha, bodies, j, body))
         == Written(ChainSheet(p, sha, bodies))[j := Seal(body, HashAt(p, sha, bodies, j),
                                                          HashAt(p, sha, bodies, j + 1))]
  {
  }

  /** One body of an honest chain replaced by another, its integrity block left as it was and its sequence still in
      order: the report has exactly one violation, modified content at that line. */
  lemma {:induction false} EditedBodyIsFound(r: Reader, bodies: seq<Record>, j: nat, body: Record)
    requires FaithfulReader(r) && HonestBodies(r.p, bodies) && !AnyBodyBreaks(bodies)
    requires Chain(r.p, r.sha, GENESIS, bodies).Ok? && j < |bodies|
    requires HonestBody(r.p, body) && !BreaksIn(Dict(body)) && BodySequencesRise(bodies[j := body])
    requires ChangesHash(r.p, r.sha, bodies, j, body)
    ensures var records := Chain(r.p, r.sha, GENESIS, bodies).value.records;
            && |records| == |bodies|
            && var edited := Seal(body, HashAt(r.p, r.sha, bodies, j), HashAt(r.p, r.sha, bodies, j + 1));
               Verify(r, Joined(LinesOf(records[j := edited])))
                 == Some(Report(|bodies|, [Violation(j + 1, ContentModified)],
                                Str(HashAt(r.p, r.sha, bodies, |bodies|))))
  {
    ChainIsItsSheet(r.p, r.sha, bodies);
    ChainSheetIsProper(r, bodies);
    EditedIsProper(r, bodies, j, body);
    EditedIsWritten(r.p, r.sha, bodies, j, body);
    SheetReport(r, Edited(r.p, r.sha, bodies, j, body));
    EditedFaults(r, bodies, j, body);
  }
}
