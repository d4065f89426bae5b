/** What a reconciliation reports of any file against any ledger: which keys are missing from the export and which are
    absent from the ledger, each once, and nothing else besides what verifying the file found. */
module Differences {
  import opened Wrappers
  import opened Json
  import opened Lines
  import opened Export
  import opened Listing

  // ------------------------------------------------------------------ keys

  function ValueAt(entries: seq<Entry>, name: string): Value {
    match Lookup(entries, name)
    case Some(v) => v
    case None => Null
  }

  /** A record is known by execution id, kind and sequence: its own, or those of its `body` if it has one. Of anything
      but a dict, and of lists and dicts in those places, there is no key, and the comparison raises. */
  lemma {:induction false} KeysAreRead(v: Value, k: Key)
    ensures KeyOf(v) == Some(k) <==>
            && v.Dict?
            && var body := if Lookup(v.entries, "body").Some? then Lookup(v.entries, "body").value else v;
               && body.Dict?
               && k == (ValueAt(body.entries, "execution_id"), ValueAt(body.entries, "kind"),
                        ValueAt(body.entries, "sequence"))
               && !k.0.List? && !k.0.Dict? && !k.1.List? && !k.1.Dict? && !k.2.List? && !k.2.Dict?
  {
  }

  /** Equal in all three places, as Python compares them. */
  predicate Alike(r: Reader, a: Key, b: Key) {
    r.equal(a.0, b.0) && r.equal(a.1, b.1) && r.equal(a.2, b.2)
  }

  predicate Occurs(r: Reader, k: Key, keys: seq<Key>) {
    exists i | 0 <= i < |keys| :: Alike(r, keys[i], k)
  }

  /** Equality of the values in keys is reflexive and symmetric. */
  ghost predicate Equates(r: Reader) {
    (forall v :: r.equal(v, v)) && forall v, w :: r.equal(v, w) <==> r.equal(w, v)
  }

  /** The keys of the one list that do not occur in the other, each once. */
  ghost predicate IsDifference(r: Reader, found: seq<Key>, keys: seq<Key>, others: seq<Key>) {
    && (forall k | k in found :: k in keys && !Occurs(r, k, others))
    && (forall k | k in keys :: Occurs(r, k, others) || Occurs(r, k, found))
    && forall i, j | 0 <= i < |found| && 0 <= j < |found| && i != j :: !Alike(r, found[i], found[j])
  }

  // ------------------------------------------------------------------ the difference

  lemma {:induction false} ContainsIsOccurs(r: Reader, keys: seq<Key>, k: Key)
    ensures Contains(r, keys, k) <==> Occurs(r, k, keys)
  {
    if Contains(r, keys, k) {
      var i :| 0 <= i < |keys| && SameKey(r, keys[i], k);
      assert Alike(r, keys[i], k);
    }
    if Occurs(r, k, keys) {
      var i :| 0 <= i < |keys| && Alike(r, keys[i], k);
      assert SameKey(r, keys[i], k);
    }
  }

  lemma {:induction false} OccursOnce(r: Reader, done: seq<Key>, k: Key, other: Key)
    ensures Occurs(r, other, done + [k]) <==> Occurs(r, other, done) || Alike(r, k, other)
  {
    if Occurs(r, other, done) {
      var i :| 0 <= i < |done| && Alike(r, done[i], other);
      assert Alike(r, (done + [k])[i], other);
    }
    if Alike(r, k, other) { assert Alike(r, (done + [k])[|done|], other); }
  }

  /** One key more: it is found unless something like it was found or is among the others. */
  lemma {:induction false} OneMoreKey(r: Reader, done: seq<Key>, shorter: seq<Key>, others: seq<Key>, k: Key)
    requires Equates(r) && IsDifference(r, done, shorter, others)
    ensures IsDifference(r, if Occurs(r, k, others) || Occurs(r, k, done) then done else done + [k], shorter + [k],
                         others)
  {
    var keys := shorter + [k];
    if Occurs(r, k, others) || Occurs(r, k, done) {
      forall x | x in keys ensures Occurs(r, x, others) || Occurs(r, x, done) { assert x in shorter || x == k; }
    } else {
      var found := done + [k];
      forall x | x in keys ensures Occurs(r, x, others) || Occurs(r, x, found) {
        OccursOnce(r, done, k, x);
        assert x in shorter || x == k;
      }
      forall i, j | 0 <= i < |found| && 0 <= j < |found| && i != j ensures !Alike(r, found[i], found[j]) {
        if i == |done| { assert !Alike(r, done[j], k); }
        if j == |done| { assert !Alike(r, done[i], k); }
      }
    }
  }

  lemma {:induction false} DifferenceFinds(r: Reader, keys: seq<Key>, others: seq<Key>)
    requires Equates(r)
    ensures IsDifference(r, Difference(r, keys, others), keys, others)
  {
    if keys != [] {
      var shorter, k := keys[..|keys| - 1], keys[|keys| - 1];
      var done := Difference(r, shorter, others);
      DifferenceFinds(r, shorter, others);
      ContainsIsOccurs(r, others, k);
      ContainsIsOccurs(r, done, k);
      OneMoreKey(r, done, shorter, others, k);
      assert keys == shorter + [k];
    }
  }

  // ------------------------------------------------------------------ in another order

  lemma {:induction false} DistinctCounts(keys: seq<Key>, k: Key)
    requires forall i, j | 0 <= i < j < |keys| :: keys[i] != keys[j]
    ensures multiset(keys)[k] <= 1
  {
    if keys != [] {
      var n := |keys| - 1;
      assert keys == keys[..n] + [keys[n]];
      DistinctCounts(keys[..n], k);
      forall i | 0 <= i < n ensures keys[..n][i] != keys[n] {}
      assert keys[n] !in multiset(keys[..n]);
    }
  }

  lemma {:induction false} TwoCount(keys: seq<Key>, i: nat, j: nat)
    requires i < j < |keys| && keys[i] == keys[j]
    ensures multiset(keys)[keys[i]] >= 2
  {
    assert keys == keys[..j] + [keys[j]] + keys[j + 1..];
    assert keys[..j][i] == keys[i];
    assert keys[i] in multiset(keys[..j]);
  }

  lemma {:induction false} SameKeysIn(a: seq<Key>, b: seq<Key>, k: Key)
    requires multiset(a) == multiset(b)
    ensures k in a <==> k in b
  {
    assert k in a <==> k in multiset(a);
    assert k in b <==> k in multiset(b);
  }

  lemma {:induction false} OccursAmong(r: Reader, a: seq<Key>, b: seq<Key>, k: Key)
    requires multiset(a) == multiset(b) && Occurs(r, k, a)
    ensures Occurs(r, k, b)
  {
    var i :| 0 <= i < |a| && Alike(r, a[i], k);
    SameKeysIn(a, b, a[i]);
    var j :| 0 <= j < |b| && b[j] == a[i];
    assert Alike(r, b[j], k);
  }

  lemma {:induction false} ApartAmong(r: Reader, a: seq<Key>, b: seq<Key>, i: nat, j: nat)
    requires Equates(r) && multiset(a) == multiset(b) && i < |b| && j < |b| && i != j
    requires forall m, n | 0 <= m < |a| && 0 <= n < |a| && m != n :: !Alike(r, a[m], a[n])
    ensures !Alike(r, b[i], b[j])
  {
    forall m, n | 0 <= m < n < |a| ensures a[m] != a[n] { assert Alike(r, a[m], a[m]); }
    DistinctCounts(a, b[i]);
    if b[i] == b[j] { TwoCount(b, if i < j then i else j, if i < j then j else i); }
    SameKeysIn(a, b, b[i]);
    SameKeysIn(a, b, b[j]);
    var m :| 0 <= m < |a| && a[m] == b[i];
    var n :| 0 <= n < |a| && a[n] == b[j];
  }

  lemma {:induction false} ReorderedDifference(r: Reader, a: seq<Key>, b: seq<Key>, keys: seq<Key>, others: seq<Key>)
    requires Equates(r) && IsDifference(r, a, keys, others) && multiset(a) == multiset(b)
    ensures IsDifference(r, b, keys, others)
  {
    forall k | k in b ensures k in keys && !Occurs(r, k, others) { SameKeysIn(a, b, k); }
    forall k | k in keys ensures Occurs(r, k, others) || Occurs(r, k, b) {
      if Occurs(r, k, a) { OccursAmong(r, a, b, k); }
    }
    forall i, j | 0 <= i < |b| && 0 <= j < |b| && i != j ensures !Alike(r, b[i], b[j]) { ApartAmong(r, a, b, i, j); }
  }

  lemma {:induction false} ListedDifference(r: Reader, keys: seq<Key>, others: seq<Key>)
    requires Equates(r)
    ensures IsDifference(r, Listed(r, Difference(r, keys, others)), keys, others)
    ensures PrintsInOrder(r, Listed(r, Difference(r, keys, others)))
  {
    DifferenceFinds(r, keys, others);
    ListedIsInOrder(r, Difference(r, keys, others));
    ReorderedDifference(r, Difference(r, keys, others), Listed(r, Difference(r, keys, others)), keys, others);
  }

  // ------------------------------------------------------------------ the report

  /** These violations are those two lists, after what verifying found. */
  ghost predicate Reports(all: seq<Violation>, found: seq<Violation>, missing: seq<Key>, absent: seq<Key>) {
    && |all| == |found| + |missing| + |absent| && found <= all
    && (forall i | 0 <= i < |missing| :: all[|found| + i] == Violation(0, MissingFromExport(missing[i])))
    && forall i | 0 <= i < |absent| :: all[|found| + |missing| + i] == Violation(0, AbsentFromLedger(absent[i]))
  }

  /** Of any file and any ledger whose keys can be compared: the report keeps what verifying the file found, and adds
      each key of the ledger that does not occur in the file as missing from the export, and each key of the file that
      does not occur in the ledger as absent from it, in that order, each once, and by their printed forms. */
  lemma {:induction false} ReportsExactlyTheDifferences(r: Reader, text: string, ledger: seq<Record>)
    returns (missing: seq<Key>, absent: seq<Key>)
    requires Equates(r) && Reconcile(r, text, ledger).Some?
    ensures KeysOf(Exported(r.p, SplitLines(text))).Some? && KeysOf(AsValues(ledger)).Some? && Verify(r, text).Some?
    ensures var journal := KeysOf(Exported(r.p, SplitLines(text))).value;
            var record := KeysOf(AsValues(ledger)).value;
            var report, found := Reconcile(r, text, ledger).value, Verify(r, text).value;
            && report.records == found.records && report.tip == found.tip
            && Reports(report.violations, found.violations, missing, absent)
            && IsDifference(r, missing, record, journal) && IsDifference(r, absent, journal, record)
            && PrintsInOrder(r, missing) && PrintsInOrder(r, absent)
  {
    var journal := KeysOf(Exported(r.p, SplitLines(text))).value;
    var record := KeysOf(AsValues(ledger)).value;
    missing, absent := Listed(r, Difference(r, record, journal)), Listed(r, Difference(r, journal, record));
    ListedDifference(r, record, journal);
    ListedDifference(r, journal, record);
    ReportsBoth(Verify(r, text).value.violations, missing, absent);
  }

  lemma {:induction false} ReportsBoth(found: seq<Violation>, missing: seq<Key>, absent: seq<Key>)
    ensures Reports(found + Missing(missing) + Absent(absent), found, missing, absent)
  {
  }

  ghost predicate IsRead(p: Platform, line: string, v: Value) {
    !Blank(line) && Parse(p, Plain, line) == Some(v)
  }

  /** What is compared of a file: the lines that are not blank, up to the first that is no JSON. */
  lemma {:induction false} ExportedExactly(p: Platform, lines: seq<string>, n: nat, v: Value)
    requires n <= |lines| && forall k | 0 <= k < n :: Blank(lines[k]) || Parse(p, Plain, lines[k]).Some?
    requires n < |lines| ==> !Blank(lines[n]) && Parse(p, Plain, lines[n]) == None
    ensures v in Exported(p, lines) <==> exists k | 0 <= k < n :: IsRead(p, lines[k], v)
  {
    if n > 0 {
      var others := lines[1..];
      forall k | 0 <= k < n - 1 ensures others[k] == lines[k + 1] {}
      ExportedExactly(p, others, n - 1, v);
      if IsRead(p, lines[0], v) {
        assert v in Exported(p, lines);
      } else if v in Exported(p, lines) {
        var k :| 0 <= k < n - 1 && IsRead(p, others[k], v);
        assert IsRead(p, lines[k + 1], v);
      }
      if k :| 0 <= k < n && IsRead(p, lines[k], v) {
        if k > 0 { assert IsRead(p, others[k - 1], v); }
      }
    }
  }
}
