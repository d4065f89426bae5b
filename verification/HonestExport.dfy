/** Files made of records that were really sealed: when the honest export verifies, and what is left
    of it if its records are dropped, repeated or reordered. */
module HonestExport {
  import opened Wrappers
  import opened Json
  import opened JsonRoundTrip
  import opened Sorting
  import opened Canonical
  import opened CanonicalTheorems
  import opened Lines
  import opened JsonPrefix
  import opened Export
  import opened ExportTheorems

  /** A record as the exporter builds it: values that print, distinct keys, and no integrity block yet. */
  ghost predicate HonestBody(p: Platform, body: Record) {
    Printable(p, Dict(body)) && !HasKey(body, "integrity")
  }

  ghost predicate HonestBodies(p: Platform, bodies: seq<Record>) {
    forall i | 0 <= i < |bodies| :: HonestBody(p, bodies[i])
  }

  function Link(before: string, after: string): Entry {
    Entry("integrity", Dict([Entry("previous_hash", Str(before)), Entry("event_hash", Str(after))]))
  }

  // ------------------------------------------------------------------ one sealed record, read back

  lemma {:induction false} SealAppends(p: Platform, body: Record, before: string, after: string)
    requires HonestBody(p, body)
    ensures Seal(body, before, after) == body + [Link(before, after)]
    ensures Printable(p, Dict(Seal(body, before, after)))
  {
    forall i | 0 <= i < |body| ensures body[i].key != "integrity" {}
    AssignNew(body, Link(before, after));
    LinkPrints(p, before, after);
  }

  lemma {:induction false} LinkPrints(p: Platform, before: string, after: string)
    ensures Printable(p, Link(before, after).value)
  {
    var fields := Link(before, after).value.entries;
    assert fields[0].key != fields[1].key by { assert fields[0].key[0] == 'p' && fields[1].key[0] == 'e'; }
    forall i | 0 <= i < |fields| ensures Printable(p, fields[i].value) { assert fields[i].value.Str?; }
  }

  /** What json.loads makes of a written record. */
  function ReadBack(record: Record): Record {
    SortEntries(SortValues(record))
  }

  lemma {:induction false} ReadBackParses(p: Platform, record: Record)
    requires Printable(p, Dict(record))
    ensures Parse(p, Plain, LineOf(record)) == Some(Dict(ReadBack(record)))
    ensures Printable(p, Dict(ReadBack(record))) && Resorted(record, ReadBack(record))
  {
    SortKeysPrintable(p, Dict(record));
    PrintParses(p, Plain, SortKeys(Dict(record)), Spaced);
    SortIsResorted(record);
  }

  lemma {:induction false} RemoveLookup(entries: seq<Entry>, gone: string, key: string)
    ensures Lookup(Remove(entries, gone), key) == if key == gone then None else Lookup(entries, key)
  {
    if entries != [] { RemoveLookup(entries[1..], gone, key); }
  }

  lemma {:induction false} RemoveIn(entries: seq<Entry>, gone: string, j: nat) returns (i: nat)
    requires j < |Remove(entries, gone)|
    ensures i < |entries| && entries[i] == Remove(entries, gone)[j] && entries[i].key != gone
  {
    if entries[0].key == gone {
      i := RemoveIn(entries[1..], gone, j);
      i := i + 1;
    } else if j == 0 {
      i := 0;
    } else {
      i := RemoveIn(entries[1..], gone, j - 1);
      i := i + 1;
    }
  }

  lemma {:induction false} RemoveKeepsDistinct(entries: seq<Entry>, gone: string)
    requires DistinctKeys(entries)
    ensures DistinctKeys(Remove(entries, gone))
    ensures |Remove(entries, gone)| == |entries| - if Lookup(entries, gone).Some? then 1 else 0
  {
    if entries != [] {
      var others := entries[1..];
      RemoveKeepsDistinct(others, gone);
      LookupFinds(others, gone);
      var rest := Remove(others, gone);
      forall j | 0 <= j < |rest| ensures rest[j].key != entries[0].key {
        var i := RemoveIn(others, gone, j);
      }
    }
  }

  lemma {:induction false} RemovePrints(p: Platform, entries: seq<Entry>, gone: string)
    requires Printable(p, Dict(entries))
    ensures Printable(p, Dict(Remove(entries, gone)))
  {
    RemoveKeepsDistinct(entries, gone);
    forall j | 0 <= j < |Remove(entries, gone)| ensures Printable(p, Remove(entries, gone)[j].value) {
      var i := RemoveIn(entries, gone, j);
    }
  }

  lemma {:induction false} AppendedLookup(body: Record, e: Entry, key: string)
    requires !HasKey(body, e.key)
    ensures Lookup(body + [e], key) == if key == e.key then Some(e.value) else Lookup(body, key)
  {
    if body == [] {
      assert body + [e] == [e];
    } else {
      assert (body + [e])[0] == body[0] && (body + [e])[1..] == body[1..] + [e];
      assert !HasKey(body[1..], e.key);
      AppendedLookup(body[1..], e, key);
    }
  }

  /** Taking the integrity block out again leaves the body, its keys sorted. */
  lemma {:induction false} BodyReadBack(p: Platform, body: Record, before: string, after: string)
    requires HonestBody(p, body)
    ensures Resorted(body, BodyOf(ReadBack(Seal(body, before, after))))
    ensures Printable(p, Dict(BodyOf(ReadBack(Seal(body, before, after)))))
  {
    var sealed := Seal(body, before, after);
    SealAppends(p, body, before, after);
    ReadBackParses(p, sealed);
    var es := ReadBack(sealed);
    RemovePrints(p, es, "integrity");
    RemoveKeepsDistinct(es, "integrity");
    forall key ensures Lookup(Remove(es, "integrity"), key) == MapSort(Lookup(body, key)) {
      RemoveLookup(es, "integrity", key);
      AppendedLookup(body, Link(before, after), key);
      LookupFinds(body, key);
    }
    assert Lookup(es, "integrity") == MapSort(Lookup(sealed, "integrity"));
    AppendedLookup(body, Link(before, after), "integrity");
  }

  lemma {:induction false} LinkReadBack(p: Platform, body: Record, before: string, after: string)
    requires HonestBody(p, body)
    ensures var integrity := IntegrityOf(ReadBack(Seal(body, before, after)));
            && integrity.Dict? && GetOr(integrity.entries, "previous_hash", Null) == Str(before)
            && FoundHash(integrity.entries, Null) == Str(after)
  {
    var sealed := Seal(body, before, after);
    SealAppends(p, body, before, after);
    ReadBackParses(p, sealed);
    AppendedLookup(body, Link(before, after), "integrity");
    assert Lookup(ReadBack(sealed), "integrity") == MapSort(Lookup(sealed, "integrity"));
    LinkFields(p, before, after);
  }

  lemma {:induction false} LinkFields(p: Platform, before: string, after: string)
    ensures var fields := SortEntries(SortValues(Link(before, after).value.entries));
            Lookup(fields, "previous_hash") == Some(Str(before)) && Lookup(fields, "event_hash") == Some(Str(after))
  {
    var fields := Link(before, after).value.entries;
    LinkPrints(p, before, after);
    SortIsResorted(fields);
    LookupAt(fields, 0);
    LookupAt(fields, 1);
    assert Lookup(SortEntries(SortValues(fields)), "previous_hash") == MapSort(Lookup(fields, "previous_hash"));
    assert Lookup(SortEntries(SortValues(fields)), "event_hash") == MapSort(Lookup(fields, "event_hash"));
  }

  /** A sealed record as the verifier finds it. */
  ghost predicate ReadsAs(p: Platform, record: Record, body: Record, before: string, after: string) {
    && IntegrityOf(record).Dict? && Dumps(p, Dict(BodyOf(record))) == Dumps(p, Dict(body))
    && GetOr(IntegrityOf(record).entries, "previous_hash", Null) == Str(before)
    && FoundHash(IntegrityOf(record).entries, Null) == Str(after)
    && SequenceAt(record) == BodySequence(body)
  }

  function BodySequence(body: Record): Option<int> {
    SequenceOf(GetOr(body, "sequence", Null))
  }

  lemma {:induction false} SequenceReadBack(a: Record, b: Record)
    requires Resorted(a, b)
    ensures BodySequence(b) == BodySequence(a)
  {
    assert Lookup(b, "sequence") == MapSort(Lookup(a, "sequence"));
  }

  lemma {:induction false} SealedReadsBack(p: Platform, body: Record, before: string, after: string)
    requires HonestBody(p, body) && Dumps(p, Dict(body)).Ok?
    ensures IsRecordLine(p, LineOf(Seal(body, before, after)))
    ensures ReadsAs(p, RecordOf(p, LineOf(Seal(body, before, after))), body, before, after)
  {
    SealAppends(p, body, before, after);
    ReadBackParses(p, Seal(body, before, after));
    BodyReadBack(p, body, before, after);
    LinkReadBack(p, body, before, after);
    DumpsResorted(p, body, BodyOf(ReadBack(Seal(body, before, after))));
    SequenceReadBack(body, BodyOf(ReadBack(Seal(body, before, after))));
  }

  // ------------------------------------------------------------------ lines

  lemma {:induction false} LineStarts(record: Record)
    ensures Starts(LineOf(record), '{') && !Blank(LineOf(record))
  {
    var line := LineOf(record);
    assert line[0] == '{';
    assert !IsBlankChar(line[0]);
  }

  ghost predicate PrintedRecords(p: Platform, records: seq<Record>) {
    forall i | 0 <= i < |records| :: Printable(p, Dict(records[i]))
  }

  /** The part of a broken line before the break: not blank, and no JSON. */
  lemma {:induction false} BrokenLineUnreadable(p: Platform, record: Record)
    requires Printable(p, Dict(record)) && !Unbroken(LineOf(record))
    ensures var line := LineOf(record);
            var part := line[..LineLength(line)];
            LineLength(line) < |line| ==> !Blank(part) && !IsRecordLine(p, part)
  {
    var line := LineOf(record);
    var n := LineLength(line);
    LineStarts(record);
    if n < |line| {
      assert n > 0;
      var part := line[..n];
      assert part[0] == '{' && !IsBlankChar(part[0]);
      SortKeysPrintable(p, Dict(record));
      ProperPrefixFails(p, Plain, SortKeys(Dict(record)), Spaced, n);
    }
  }

  lemma {:induction false} FirstBroken(lines: seq<string>) returns (k: nat)
    requires exists i | 0 <= i < |lines| :: !Unbroken(lines[i])
    ensures k < |lines| && !Unbroken(lines[k]) && forall i | 0 <= i < k :: Unbroken(lines[i])
  {
    k := 0;
    while Unbroken(lines[k])
      invariant k < |lines| && forall i | 0 <= i < k :: Unbroken(lines[i])
      invariant exists i | k <= i < |lines| :: !Unbroken(lines[i])
      decreases |lines| - k
    {
      k := k + 1;
    }
  }

  /** A file of printed records in which a line breaks does not verify. */
  lemma {:induction false} BrokenFileFails(r: Reader, records: seq<Record>)
    requires FaithfulReader(r) && PrintedRecords(r.p, records)
    requires exists i | 0 <= i < |records| :: !Unbroken(LinesOf(records)[i])
    ensures !VerifiesOk(r, Joined(LinesOf(records)))
  {
    var lines := LinesOf(records);
    var k := FirstBroken(lines);
    LinesUpToBreak(lines, k);
    BrokenLineUnreadable(r.p, records[k]);
    var read := SplitLines(Joined(lines));
    assert !Blank(read[k]) && !IsRecordLine(r.p, read[k]);
    VerifiesExactlyWhen(r, Joined(lines));
  }

  lemma {:induction false} RecordsStep(p: Platform, lines: seq<string>)
    requires lines != [] && !Blank(lines[|lines| - 1])
    ensures RecordsOf(p, lines) == RecordsOf(p, lines[..|lines| - 1]) + [RecordOf(p, lines[|lines| - 1])]
  {
  }

  ghost predicate RecordsAre(p: Platform, records: seq<Record>, lines: seq<string>) {
    |records| == |lines| && forall i | 0 <= i < |lines| :: records[i] == RecordOf(p, lines[i])
  }

  lemma {:induction false} RecordsExtend(p: Platform, records: seq<Record>, lines: seq<string>)
    requires lines != [] && RecordsAre(p, records, lines[..|lines| - 1])
    ensures RecordsAre(p, records + [RecordOf(p, lines[|lines| - 1])], lines)
  {
    forall i | 0 <= i < |lines| - 1 ensures records[i] == RecordOf(p, lines[i]) {
      assert lines[..|lines| - 1][i] == lines[i];
    }
  }

  lemma {:induction false} RecordsPointwise(p: Platform, lines: seq<string>)
    requires forall i | 0 <= i < |lines| :: !Blank(lines[i])
    ensures RecordsAre(p, RecordsOf(p, lines), lines)
  {
    if lines != [] {
      var shorter := lines[..|lines| - 1];
      forall i | 0 <= i < |shorter| ensures !Blank(shorter[i]) { assert shorter[i] == lines[i]; }
      RecordsPointwise(p, shorter);
      RecordsStep(p, lines);
      RecordsExtend(p, RecordsOf(p, shorter), lines);
    }
  }

  /** Unbroken lines are the records again. */
  lemma {:induction false} RecordsReadBack(p: Platform, records: seq<Record>)
    requires PrintedRecords(p, records)
    ensures AllRecords(p, LinesOf(records)) && |RecordsOf(p, LinesOf(records))| == |records|
    ensures forall i | 0 <= i < |records| :: RecordsOf(p, LinesOf(records))[i] == RecordOf(p, LineOf(records[i]))
  {
    var lines := LinesOf(records);
    forall i | 0 <= i < |lines| ensures !Blank(lines[i]) && IsRecordLine(p, lines[i]) {
      LineStarts(records[i]);
      ReadBackParses(p, records[i]);
    }
    RecordsPointwise(p, lines);
  }

  // ------------------------------------------------------------------ the honest chain

  function BodyDumps(p: Platform, bodies: seq<Record>): (r: seq<string>)
    ensures |r| == |bodies|
    ensures forall i | 0 <= i < |bodies| :: r[i] == match Dumps(p, Dict(bodies[i])) case Ok(t) => t case Err(_) => ""
  {
    seq(|bodies|, i requires 0 <= i < |bodies| => match Dumps(p, Dict(bodies[i])) case Ok(t) => t case Err(_) => "")
  }

  function HashAt(p: Platform, sha: Sha, bodies: seq<Record>, j: nat): string
    requires j <= |bodies|
  {
    HashAfter(sha, BodyDumps(p, bodies)[..j])
  }

  ghost predicate SealedAt(p: Platform, sha: Sha, bodies: seq<Record>, records: seq<Record>, j: nat)
    requires j < |bodies| && |records| == |bodies|
  {
    && Dumps(p, Dict(bodies[j])).Ok?
    && records[j] == Seal(bodies[j], HashAt(p, sha, bodies, j), HashAt(p, sha, bodies, j + 1))
  }

  lemma {:induction false} HashAtShorter(p: Platform, sha: Sha, bodies: seq<Record>, n: nat, j: nat)
    requires j <= n <= |bodies|
    ensures HashAt(p, sha, bodies[..n], j) == HashAt(p, sha, bodies, j)
  {
    assert BodyDumps(p, bodies[..n])[..j] == BodyDumps(p, bodies)[..j];
  }

  lemma {:induction false} HashStep(sha: Sha, texts: seq<string>, j: nat)
    requires j < |texts|
    ensures HashAfter(sha, texts[..j + 1]) == sha(HashAfter(sha, texts[..j]) + texts[j])
  {
    assert texts[..j + 1] == texts[..j] + [texts[j]];
    HashByOne(sha, texts[..j], texts[j]);
  }

  lemma {:induction false} NextHash(p: Platform, sha: Sha, bodies: seq<Record>, j: nat)
    requires j < |bodies|
    ensures HashAt(p, sha, bodies, j + 1) == sha(HashAt(p, sha, bodies, j) + BodyDumps(p, bodies)[j])
  {
    HashStep(sha, BodyDumps(p, bodies), j);
  }

  ghost predicate AllSealed(p: Platform, sha: Sha, bodies: seq<Record>, records: seq<Record>) {
    |records| == |bodies| && forall j | 0 <= j < |bodies| :: SealedAt(p, sha, bodies, records, j)
  }

  lemma {:induction false} SealedShorter(p: Platform, sha: Sha, bodies: seq<Record>, done: seq<Record>, n: nat, j: nat,
                                         more: seq<Record>)
    requires j < n <= |bodies| && |done| == n && SealedAt(p, sha, bodies[..n], done, j) && |more| == |bodies|
             && done <= more
    ensures SealedAt(p, sha, bodies, more, j)
  {
    HashAtShorter(p, sha, bodies, n, j);
    HashAtShorter(p, sha, bodies, n, j + 1);
  }

  lemma {:induction false} ChainStep(p: Platform, sha: Sha, bodies: seq<Record>) returns (done: Chained)
    requires Chain(p, sha, GENESIS, bodies).Ok? && bodies != []
    ensures var n := |bodies| - 1;
            var chained := Chain(p, sha, GENESIS, bodies).value;
            && Chain(p, sha, GENESIS, bodies[..n]) == Ok(done)
            && Dumps(p, Dict(bodies[n])) == Ok(BodyDumps(p, bodies)[n])
            && chained.tip == sha(done.tip + BodyDumps(p, bodies)[n])
            && chained.records == done.records + [Seal(bodies[n], done.tip, chained.tip)]
  {
    done := Chain(p, sha, GENESIS, bodies[..|bodies| - 1]).value;
  }

  lemma {:induction false} SealedByOne(p: Platform, sha: Sha, bodies: seq<Record>, done: seq<Record>,
                                       records: seq<Record>)
    requires bodies != [] && AllSealed(p, sha, bodies[..|bodies| - 1], done)
    requires |records| == |bodies| && done <= records && SealedAt(p, sha, bodies, records, |bodies| - 1)
    ensures AllSealed(p, sha, bodies, records)
  {
    var n := |bodies| - 1;
    forall j | 0 <= j < |bodies| ensures SealedAt(p, sha, bodies, records, j) {
      if j < n { SealedShorter(p, sha, bodies, done, n, j, records); }
    }
  }

  /** Each record of the chain is sealed between the hashes of what comes before it and up to it. */
  lemma {:induction false} ChainPointwise(p: Platform, sha: Sha, bodies: seq<Record>)
    requires Chain(p, sha, GENESIS, bodies).Ok?
    ensures AllSealed(p, sha, bodies, Chain(p, sha, GENESIS, bodies).value.records)
    ensures Chain(p, sha, GENESIS, bodies).value.tip == HashAt(p, sha, bodies, |bodies|)
  {
    if bodies != [] {
      var n := |bodies| - 1;
      var done := ChainStep(p, sha, bodies);
      ChainPointwise(p, sha, bodies[..n]);
      HashAtShorter(p, sha, bodies, n, n);
      NextHash(p, sha, bodies, n);
      SealedByOne(p, sha, bodies, done.records, Chain(p, sha, GENESIS, bodies).value.records);
    }
  }

  lemma {:induction false} SealedPrints(p: Platform, sha: Sha, bodies: seq<Record>, records: seq<Record>, j: nat)
    requires HonestBodies(p, bodies) && j < |bodies| && |records| == |bodies| && SealedAt(p, sha, bodies, records, j)
    ensures Printable(p, Dict(records[j]))
    ensures ReadsAs(p, RecordOf(p, LineOf(records[j])), bodies[j], HashAt(p, sha, bodies, j),
                    HashAt(p, sha, bodies, j + 1))
  {
    assert HonestBody(p, bodies[j]);
    SealAppends(p, bodies[j], HashAt(p, sha, bodies, j), HashAt(p, sha, bodies, j + 1));
    SealedReadsBack(p, bodies[j], HashAt(p, sha, bodies, j), HashAt(p, sha, bodies, j + 1));
  }

  // ------------------------------------------------------------------ rearrangement

  function Chosen(records: seq<Record>, choice: seq<nat>): (r: seq<Record>)
    requires forall k | 0 <= k < |choice| :: choice[k] < |records|
    ensures |r| == |choice| && forall k | 0 <= k < |choice| :: r[k] == records[choice[k]]
  {
    seq(|choice|, k requires 0 <= k < |choice| => records[choice[k]])
  }

  /** A well-chained file assembled from the sealed records of an honest chain. */
  ghost predicate Assembled(r: Reader, bodies: seq<Record>, records: seq<Record>, choice: seq<nat>) {
    && FaithfulReader(r) && HonestBodies(r.p, bodies) && AllSealed(r.p, r.sha, bodies, records)
    && (forall i | 0 <= i < |choice| :: choice[i] < |bodies|)
    && PrintedRecords(r.p, Chosen(records, choice)) && WellChained(r, LinesOf(Chosen(records, choice)))
  }

  /** The hash of the first k chosen records. */
  function ChosenHash(r: Reader, records: seq<Record>, choice: seq<nat>, k: nat): string
    requires forall i | 0 <= i < |choice| :: choice[i] < |records|
  {
    var read := RecordsOf(r.p, LinesOf(Chosen(records, choice)));
    HashAfter(r.sha, BodyTexts(r.p, if k <= |read| then read[..k] else read))
  }

  /** The two hashes in a record's integrity block. */
  function HashesIn(record: Record): (Value, Value) {
    match IntegrityOf(record)
    case Dict(fields) => (GetOr(fields, "previous_hash", Null), FoundHash(fields, Null))
    case _ => (Null, Null)
  }

  lemma {:induction false} LinkedHashes(r: Reader, record: Record, before: string, after: string)
    requires Linked(r, record, before, after)
    ensures HashesIn(record) == (Str(before), Str(after))
  {
  }

  lemma {:induction false} SealedHashes(p: Platform, sha: Sha, bodies: seq<Record>, records: seq<Record>, j: nat)
    requires HonestBodies(p, bodies) && AllSealed(p, sha, bodies, records) && j < |bodies|
    ensures HashesIn(RecordOf(p, LineOf(records[j])))
         == (Str(HashAt(p, sha, bodies, j)), Str(HashAt(p, sha, bodies, j + 1)))
  {
    SealedPrints(p, sha, bodies, records, j);
  }

  lemma {:induction false} ChosenHashes(r: Reader, records: seq<Record>, choice: seq<nat>, k: nat)
    requires forall i | 0 <= i < |choice| :: choice[i] < |records|
    requires PrintedRecords(r.p, Chosen(records, choice))
             && AllLinked(r, RecordsOf(r.p, LinesOf(Chosen(records, choice))))
    requires k < |choice|
    ensures HashesIn(RecordOf(r.p, LineOf(records[choice[k]])))
         == (Str(ChosenHash(r, records, choice, k)), Str(ChosenHash(r, records, choice, k + 1)))
  {
    var chosen := Chosen(records, choice);
    RecordsReadBack(r.p, chosen);
    var read := RecordsOf(r.p, LinesOf(chosen));
    assert LinkedAt(r, read, k);
    LinkedHashes(r, read[k], HashAfter(r.sha, BodyTexts(r.p, read[..k])),
                 HashAfter(r.sha, BodyTexts(r.p, read[..k + 1])));
  }

  /** The k-th chosen record begins where the chosen ones before it ended. */
  lemma {:induction false} ChosenLinks(r: Reader, bodies: seq<Record>, records: seq<Record>, choice: seq<nat>, k: nat)
    requires HonestBodies(r.p, bodies) && AllSealed(r.p, r.sha, bodies, records)
    requires forall i | 0 <= i < |choice| :: choice[i] < |records|
    requires PrintedRecords(r.p, Chosen(records, choice))
             && AllLinked(r, RecordsOf(r.p, LinesOf(Chosen(records, choice))))
    requires k < |choice|
    ensures ChosenHash(r, records, choice, k) == HashAt(r.p, r.sha, bodies, choice[k])
    ensures ChosenHash(r, records, choice, k + 1) == HashAt(r.p, r.sha, bodies, choice[k] + 1)
  {
    SealedHashes(r.p, r.sha, bodies, records, choice[k]);
    ChosenHashes(r, records, choice, k);
  }

  ghost predicate InOrder(choice: seq<nat>) {
    forall k | 0 <= k < |choice| :: choice[k] == k
  }

  /** Steps along an injective chain, each beginning where the one before it ended. */
  ghost predicate Follows(chain: nat -> string, n: nat, seen: nat -> string, choice: seq<nat>) {
    && (forall i: nat, j: nat | i <= n && j <= n && chain(i) == chain(j) :: i == j)
    && seen(0) == chain(0)
    && forall k: nat | k < |choice| ::
         choice[k] < n && seen(k) == chain(choice[k]) && seen(k + 1) == chain(choice[k] + 1)
  }

  lemma {:induction false} FollowsInOrder(chain: nat -> string, n: nat, seen: nat -> string, choice: seq<nat>, k: nat)
    requires Follows(chain, n, seen, choice) && k < |choice|
    ensures choice[k] == k
  {
    if k > 0 { FollowsInOrder(chain, n, seen, choice, k - 1); }
  }

  lemma {:induction false} AssembledFollows(r: Reader, bodies: seq<Record>, records: seq<Record>, choice: seq<nat>,
                                            chain: nat -> string, seen: nat -> string)
    requires Assembled(r, bodies, records, choice) && ApartFromGenesis(r.sha, Hashed(r.sha, BodyDumps(r.p, bodies)))
    requires forall j: nat | j <= |bodies| :: chain(j) == HashAt(r.p, r.sha, bodies, j)
    requires forall k: nat | k <= |choice| :: seen(k) == ChosenHash(r, records, choice, k)
    ensures Follows(chain, |bodies|, seen, choice)
  {
    forall i: nat, j: nat | i <= |bodies| && j <= |bodies| && chain(i) == chain(j) ensures i == j {
      HashDeterminesPosition(r.sha, BodyDumps(r.p, bodies), i, j);
    }
    forall k: nat | k < |choice| ensures seen(k) == chain(choice[k]) && seen(k + 1) == chain(choice[k] + 1) {
      ChosenLinks(r, bodies, records, choice, k);
    }
    assert seen(0) == GENESIS && chain(0) == GENESIS;
  }

  function TextAt(r: Reader, records: seq<Record>, choice: seq<nat>, k: nat): string {
    if forall i | 0 <= i < |choice| :: choice[i] < |records| then ChosenHash(r, records, choice, k) else ""
  }

  lemma {:induction false} AssembledInOrder(r: Reader, bodies: seq<Record>, records: seq<Record>, choice: seq<nat>)
    requires Assembled(r, bodies, records, choice) && ApartFromGenesis(r.sha, Hashed(r.sha, BodyDumps(r.p, bodies)))
    ensures InOrder(choice)
  {
    var chain := (j: nat) => if j <= |bodies| then HashAt(r.p, r.sha, bodies, j) else "";
    assert forall i | 0 <= i < |choice| :: choice[i] < |records|;
    var seen := (k: nat) => TextAt(r, records, choice, k);
    AssembledFollows(r, bodies, records, choice, chain, seen);
    forall k | 0 <= k < |choice| ensures choice[k] == k { FollowsInOrder(chain, |bodies|, seen, choice, k); }
  }

  lemma {:induction false} OkMeansUnbroken(r: Reader, records: seq<Record>)
    requires FaithfulReader(r) && PrintedRecords(r.p, records) && VerifiesOk(r, Joined(LinesOf(records)))
    ensures SplitLines(Joined(LinesOf(records))) == LinesOf(records) && WellChained(r, LinesOf(records))
  {
    var lines := LinesOf(records);
    if exists i | 0 <= i < |records| :: !Unbroken(lines[i]) {
      BrokenFileFails(r, records);
    }
    LinesReadBack(lines);
    VerifiesExactlyWhen(r, Joined(lines));
  }

  /** Rearrangement leaves only prefixes: a file assembled from the sealed records of an honest chain
      by dropping, repeating or reordering them, and which still verifies, is a prefix of that chain. */
  lemma {:induction false} RearrangementIsPrefix(r: Reader, bodies: seq<Record>, choice: seq<nat>)
    requires FaithfulReader(r) && HonestBodies(r.p, bodies) && Chain(r.p, r.sha, GENESIS, bodies).Ok?
    requires forall k | 0 <= k < |choice| :: choice[k] < |Chain(r.p, r.sha, GENESIS, bodies).value.records|
    requires VerifiesOk(r, Joined(LinesOf(Chosen(Chain(r.p, r.sha, GENESIS, bodies).value.records, choice))))
    requires ApartFromGenesis(r.sha, Hashed(r.sha, BodyDumps(r.p, bodies)))
    ensures InOrder(choice) && |choice| <= |bodies|
    ensures Chosen(Chain(r.p, r.sha, GENESIS, bodies).value.records, choice)
        <= Chain(r.p, r.sha, GENESIS, bodies).value.records
  {
    var records := Chain(r.p, r.sha, GENESIS, bodies).value.records;
    ChainPointwise(r.p, r.sha, bodies);
    forall k | 0 <= k < |choice| ensures Printable(r.p, Dict(Chosen(records, choice)[k])) {
      SealedPrints(r.p, r.sha, bodies, records, choice[k]);
    }
    OkMeansUnbroken(r, Chosen(records, choice));
    AssembledInOrder(r, bodies, records, choice);
    if choice != [] { assert choice[|choice| - 1] == |choice| - 1; }
  }

  // ------------------------------------------------------------------ the honest export

  ghost predicate BodySequencesRise(bodies: seq<Record>) {
    forall i, j | 0 <= i < j < |bodies| && BodySequence(bodies[i]).Some? && BodySequence(bodies[j]).Some? ::
      BodySequence(bodies[i]).value < BodySequence(bodies[j]).value
  }

  predicate AnyBodyBreaks(bodies: seq<Record>) {
    exists i | 0 <= i < |bodies| :: BreaksIn(Dict(bodies[i]))
  }

  lemma {:induction false} AsciiHasNoRawBreak(s: string)
    requires IsAscii(s)
    ensures !RawBreakIn(s)
  {
  }

  lemma {:induction false} SortedBreaks(v: Value)
    ensures BreaksIn(SortKeys(v)) <==> BreaksIn(v)
    decreases v
  {
    match v
    case List(items) => forall i | 0 <= i < |items| { SortedBreaks(items[i]); }
    case Dict(entries) =>
      forall i | 0 <= i < |entries| { SortedBreaks(entries[i].value); }
      SortedEntriesBreak(entries);
    case _ =>
  }

  lemma {:induction false} SortedEntriesBreak(entries: seq<Entry>)
    requires forall i | 0 <= i < |entries| :: BreaksIn(SortKeys(entries[i].value)) <==> BreaksIn(entries[i].value)
    ensures BreaksIn(Dict(SortEntries(SortValues(entries)))) <==> BreaksIn(Dict(entries))
  {
    var values := SortValues(entries);
    var sorted := SortEntries(values);
    SortIsPermutation(values);
    DictBreaks(entries);
    DictBreaks(sorted);
    if AnyEntryBreaks(entries) {
      var i :| 0 <= i < |entries| && EntryBreaks(entries[i]);
      assert values[i] in multiset(sorted);
      var k :| 0 <= k < |sorted| && sorted[k] == values[i];
      assert EntryBreaks(sorted[k]);
    }
    if AnyEntryBreaks(sorted) {
      var k :| 0 <= k < |sorted| && EntryBreaks(sorted[k]);
      assert sorted[k] in multiset(values);
      var i :| 0 <= i < |values| && values[i] == sorted[k];
      assert EntryBreaks(entries[i]);
    }
  }

  lemma {:induction false} LinkUnbroken(before: string, after: string)
    requires IsAscii(before) && IsAscii(after)
    ensures !EntryBreaks(Link(before, after))
  {
    var fields := Link(before, after).value.entries;
    AsciiHasNoRawBreak(before);
    AsciiHasNoRawBreak(after);
    AsciiHasNoRawBreak("integrity");
    AsciiHasNoRawBreak("previous_hash");
    AsciiHasNoRawBreak("event_hash");
    forall i | 0 <= i < |fields| ensures !(RawBreakIn(fields[i].key) || BreaksIn(fields[i].value)) {}
  }

  /** A written record breaks over lines exactly when its body holds one of the three characters. */
  lemma {:induction false} LineBreaksExactlyWhen(p: Platform, body: Record, before: string, after: string)
    requires HonestBody(p, body) && IsAscii(before) && IsAscii(after)
    ensures Unbroken(LineOf(Seal(body, before, after))) <==> !BreaksIn(Dict(body))
  {
    var sealed := Seal(body, before, after);
    SealAppends(p, body, before, after);
    SortKeysPrintable(p, Dict(sealed));
    PrintBreaks(p, SortKeys(Dict(sealed)), Spaced, "");
    SortedBreaks(Dict(sealed));
    LinkUnbroken(before, after);
    AppendedBreaks(body, Link(before, after));
  }

  lemma {:induction false} AppendedBreaks(body: Record, e: Entry)
    requires !EntryBreaks(e)
    ensures BreaksIn(Dict(body + [e])) <==> BreaksIn(Dict(body))
  {
    DictBreaks(body);
    DictBreaks(body + [e]);
    if AnyEntryBreaks(body) {
      var i :| 0 <= i < |body| && EntryBreaks(body[i]);
      assert EntryBreaks((body + [e])[i]);
    }
    if AnyEntryBreaks(body + [e]) {
      var i :| 0 <= i < |body + [e]| && EntryBreaks((body + [e])[i]);
      assert i < |body|;
      assert EntryBreaks(body[i]);
    }
  }

  lemma {:induction false} HonestTexts(r: Reader, bodies: seq<Record>, records: seq<Record>, n: nat)
    requires HonestBodies(r.p, bodies) && AllSealed(r.p, r.sha, bodies, records) && n <= |bodies|
             && PrintedRecords(r.p, records)
    ensures var read := RecordsOf(r.p, LinesOf(records));
            |read| == |bodies| && BodyTexts(r.p, read[..n]) == BodyDumps(r.p, bodies)[..n]
  {
    RecordsReadBack(r.p, records);
    var read := RecordsOf(r.p, LinesOf(records));
    forall j | 0 <= j < n ensures BodyTexts(r.p, read[..n])[j] == BodyDumps(r.p, bodies)[j] {
      SealedPrints(r.p, r.sha, bodies, records, j);
    }
  }

  lemma {:induction false} HonestLinkedAt(r: Reader, bodies: seq<Record>, records: seq<Record>, j: nat)
    requires HonestBodies(r.p, bodies) && AllSealed(r.p, r.sha, bodies, records) && PrintedRecords(r.p, records)
             && j < |bodies|
    ensures var read := RecordsOf(r.p, LinesOf(records));
            |read| == |bodies| && LinkedAt(r, read, j) && SequenceAt(read[j]) == BodySequence(bodies[j])
  {
    RecordsReadBack(r.p, records);
    SealedPrints(r.p, r.sha, bodies, records, j);
    HonestTexts(r, bodies, records, j);
    HonestTexts(r, bodies, records, j + 1);
    NextHash(r.p, r.sha, bodies, j);
  }

  /** The records of an honest chain are linked as the verifier demands. */
  lemma {:induction false} HonestWellChained(r: Reader, bodies: seq<Record>, records: seq<Record>)
    requires HonestBodies(r.p, bodies) && AllSealed(r.p, r.sha, bodies, records) && PrintedRecords(r.p, records)
    requires BodySequencesRise(bodies)
    ensures WellChained(r, LinesOf(records))
  {
    RecordsReadBack(r.p, records);
    var read := RecordsOf(r.p, LinesOf(records));
    forall j | 0 <= j < |read| ensures LinkedAt(r, read, j) && SequenceAt(read[j]) == BodySequence(bodies[j]) {
      HonestLinkedAt(r, bodies, records, j);
    }
  }

  /** An honest export verifies exactly when no key and no string of its bodies holds one of U+0085,
      U+2028 and U+2029: json.dumps writes those as they are, and splitlines breaks the line there.
      When it verifies, the report counts every body and gives the tip of the chain. */
  lemma {:induction false} HonestExportVerifiesExactlyWhen(r: Reader, bodies: seq<Record>, text: string)
    requires FaithfulReader(r) && HonestBodies(r.p, bodies) && BodySequencesRise(bodies)
    requires ExportText(r.p, r.sha, bodies) == Ok(text)
    ensures VerifiesOk(r, text) <==> !AnyBodyBreaks(bodies)
    ensures VerifiesOk(r, text) ==>
              && Verify(r, text) == Some(Report(|bodies|, [], Str(HashAt(r.p, r.sha, bodies, |bodies|))))
              && BodyTexts(r.p, FileRecords(r, text)) == BodyDumps(r.p, bodies)
  {
    var records := Chain(r.p, r.sha, GENESIS, bodies).value.records;
    var lines := LinesOf(records);
    ChainPointwise(r.p, r.sha, bodies);
    forall j | 0 <= j < |records|
      ensures Printable(r.p, Dict(records[j])) && (Unbroken(lines[j]) <==> !BreaksIn(Dict(bodies[j])))
    {
      SealedPrints(r.p, r.sha, bodies, records, j);
      HashIsAscii(r, BodyDumps(r.p, bodies)[..j]);
      HashIsAscii(r, BodyDumps(r.p, bodies)[..j + 1]);
      LineBreaksExactlyWhen(r.p, bodies[j], HashAt(r.p, r.sha, bodies, j), HashAt(r.p, r.sha, bodies, j + 1));
    }
    if AnyBodyBreaks(bodies) {
      BrokenFileFails(r, records);
    } else {
      HonestFileVerifies(r, bodies, records);
    }
  }

  lemma {:induction false} HonestFileVerifies(r: Reader, bodies: seq<Record>, records: seq<Record>)
    requires FaithfulReader(r) && HonestBodies(r.p, bodies) && BodySequencesRise(bodies)
    requires AllSealed(r.p, r.sha, bodies, records) && PrintedRecords(r.p, records)
    requires forall j | 0 <= j < |records| :: Unbroken(LinesOf(records)[j])
    ensures var text := Joined(LinesOf(records));
            && VerifiesOk(r, text)
            && Verify(r, text) == Some(Report(|bodies|, [], Str(HashAt(r.p, r.sha, bodies, |bodies|))))
            && BodyTexts(r.p, FileRecords(r, text)) == BodyDumps(r.p, bodies)
  {
    var lines := LinesOf(records);
    LinesReadBack(lines);
    HonestWellChained(r, bodies, records);
    VerifiesExactlyWhen(r, Joined(lines));
    HonestTexts(r, bodies, records, |bodies|);
    var read := RecordsOf(r.p, lines);
    assert read[..|bodies|] == read && BodyDumps(r.p, bodies)[..|bodies|] == BodyDumps(r.p, bodies);
  }

  lemma {:induction false} OneRecordExports(p: Platform, sha: Sha, body: Record)
    requires Dumps(p, Dict(body)).Ok?
    ensures ExportText(p, sha, [body]).Ok?
  {
    var bodies := [body];
    assert bodies[..0] == [];
    assert Chain(p, sha, GENESIS, bodies[..0]) == Ok(Chained([], GENESIS));
    assert Chain(p, sha, GENESIS, bodies).Ok?;
  }
}
