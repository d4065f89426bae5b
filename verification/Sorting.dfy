/** Sorting by code point: what `sort_keys` and `sorted(..., key=...)` do. */
module Sorting {
  import opened Wrappers
  import opened Json

  /** The order Python's string comparison uses. */
  predicate AtMost(a: string, b: string) {
    a == "" || (b != "" && (a[0] < b[0] || (a[0] == b[0] && AtMost(a[1..], b[1..]))))
  }

  /** By code point: at the first place where they differ the smaller character decides, and a text comes after all
      of its beginnings. */
  lemma {:induction false} AtMostExactlyWhen(a: string, b: string, k: nat)
    requires k <= |a| && k <= |b| && a[..k] == b[..k] && (k < |a| && k < |b| ==> a[k] != b[k])
    ensures AtMost(a, b) <==> k == |a| || (k < |b| && a[k] < b[k])
  {
    if k > 0 {
      assert a[0] == a[..k][0] && b[0] == b[..k][0];
      assert a[1..][..k - 1] == a[..k][1..] && b[1..][..k - 1] == b[..k][1..];
      AtMostExactlyWhen(a[1..], b[1..], k - 1);
    }
  }

  lemma {:induction false} AtMostTotal(a: string, b: string)
    ensures AtMost(a, b) || AtMost(b, a)
  {
    if a != "" && b != "" { AtMostTotal(a[1..], b[1..]); }
  }

  lemma {:induction false} AtMostAntisymmetric(a: string, b: string)
    requires AtMost(a, b) && AtMost(b, a)
    ensures a == b
  {
    if a != "" && b != "" {
      AtMostAntisymmetric(a[1..], b[1..]);
      assert a == [a[0]] + a[1..] && b == [b[0]] + b[1..];
    }
  }

  lemma {:induction false} AtMostTransitive(a: string, b: string, c: string)
    requires AtMost(a, b) && AtMost(b, c)
    ensures AtMost(a, c)
  {
    if a != "" && a[0] == b[0] && b[0] == c[0] { AtMostTransitive(a[1..], b[1..], c[1..]); }
  }

  /** A stable sort: an entry goes before the later ones with the same key. */
  function Insert(e: Entry, sorted: seq<Entry>): seq<Entry> {
    if sorted == [] then [e]
    else if AtMost(e.key, sorted[0].key) then [e] + sorted
    else [sorted[0]] + Insert(e, sorted[1..])
  }

  function SortEntries(entries: seq<Entry>): seq<Entry> {
    if entries == [] then [] else Insert(entries[0], SortEntries(entries[1..]))
  }

  ghost predicate Sorted(entries: seq<Entry>) {
    forall i, j | 0 <= i < j < |entries| :: AtMost(entries[i].key, entries[j].key)
  }

  lemma {:induction false} InsertIsPermutation(e: Entry, sorted: seq<Entry>)
    ensures multiset(Insert(e, sorted)) == multiset(sorted) + multiset{e}
  {
    if sorted != [] {
      assert sorted == [sorted[0]] + sorted[1..];
      if !AtMost(e.key, sorted[0].key) { InsertIsPermutation(e, sorted[1..]); }
    }
  }

  lemma {:induction false} SortIsPermutation(entries: seq<Entry>)
    ensures multiset(SortEntries(entries)) == multiset(entries)
    ensures |SortEntries(entries)| == |entries|
  {
    if entries != [] {
      SortIsPermutation(entries[1..]);
      InsertIsPermutation(entries[0], SortEntries(entries[1..]));
      assert entries == [entries[0]] + entries[1..];
    }
    assert |multiset(SortEntries(entries))| == |SortEntries(entries)|;
    assert |multiset(entries)| == |entries|;
  }

  lemma {:induction false} InsertKeepsSorted(e: Entry, sorted: seq<Entry>)
    requires Sorted(sorted)
    ensures Sorted(Insert(e, sorted))
  {
    if sorted != [] {
      if AtMost(e.key, sorted[0].key) {
        forall j | 0 <= j < |sorted| ensures AtMost(e.key, sorted[j].key) {
          if j > 0 { AtMostTransitive(e.key, sorted[0].key, sorted[j].key); }
        }
      } else {
        AtMostTotal(e.key, sorted[0].key);
        var rest := Insert(e, sorted[1..]);
        InsertKeepsSorted(e, sorted[1..]);
        InsertIsPermutation(e, sorted[1..]);
        forall j | 0 <= j < |rest| ensures AtMost(sorted[0].key, rest[j].key) {
          assert rest[j] in multiset(rest);
          assert rest[j] == e || rest[j] in sorted[1..];
        }
      }
    }
  }

  lemma {:induction false} SortIsSorted(entries: seq<Entry>)
    ensures Sorted(SortEntries(entries))
  {
    if entries != [] {
      SortIsSorted(entries[1..]);
      InsertKeepsSorted(entries[0], SortEntries(entries[1..]));
    }
  }

  /** Equal keys mean equal entries. */
  ghost predicate KeysDecide(entries: multiset<Entry>) {
    forall e, f | e in entries && f in entries && e.key == f.key :: e == f
  }

  /** Two sorted lists of the same entries are the same list, when keys decide entries. */
  lemma {:induction false} SortedIsUnique(a: seq<Entry>, b: seq<Entry>)
    requires Sorted(a) && Sorted(b) && multiset(a) == multiset(b) && KeysDecide(multiset(a))
    ensures a == b
  {
    if a == [] {
      assert |multiset(a)| == |a| && |multiset(b)| == |b|;
    } else {
      SameHead(a, b);
      TailsAgree(a, b);
      SortedIsUnique(a[1..], b[1..]);
      assert a == [a[0]] + a[1..] && b == [b[0]] + b[1..];
    }
  }

  lemma {:induction false} SameHead(a: seq<Entry>, b: seq<Entry>)
    requires Sorted(a) && Sorted(b) && multiset(a) == multiset(b) && KeysDecide(multiset(a)) && a != []
    ensures b != [] && a[0] == b[0]
  {
    assert a[0] in multiset(b);
    assert b != [] && b[0] in multiset(a) by { assert b[0] in multiset(b); }
    HeadIsLeast(a, b[0].key);
    HeadIsLeast(b, a[0].key);
    AtMostAntisymmetric(a[0].key, b[0].key);
  }

  lemma {:induction false} TailsAgree(a: seq<Entry>, b: seq<Entry>)
    requires a != [] && b != [] && a[0] == b[0] && multiset(a) == multiset(b) && KeysDecide(multiset(a))
    ensures multiset(a[1..]) == multiset(b[1..]) && KeysDecide(multiset(a[1..]))
  {
    assert a == [a[0]] + a[1..] && b == [b[0]] + b[1..];
    assert multiset(a[1..]) == multiset(a) - multiset{a[0]};
    assert multiset(b[1..]) == multiset(b) - multiset{b[0]};
    assert forall e | e in multiset(a[1..]) :: e in multiset(a);
  }

  lemma {:induction false} HeadIsLeast(a: seq<Entry>, key: string)
    requires Sorted(a) && a != [] && exists e | e in multiset(a) :: e.key == key
    ensures AtMost(a[0].key, key)
  {
    var e :| e in multiset(a) && e.key == key;
    var i :| 0 <= i < |a| && a[i] == e;
    if i == 0 { AtMostTotal(a[0].key, key); }
  }

  /** Sorting forgets the order of the entries, and nothing else. */
  lemma {:induction false} SortForgetsOrder(a: seq<Entry>, b: seq<Entry>)
    requires KeysDecide(multiset(a) + multiset(b))
    ensures SortEntries(a) == SortEntries(b) <==> multiset(a) == multiset(b)
  {
    SortIsPermutation(a);
    SortIsPermutation(b);
    SortIsSorted(a);
    SortIsSorted(b);
    if multiset(a) == multiset(b) {
      assert forall e | e in multiset(a) :: e in multiset(a) + multiset(b);
      SortedIsUnique(SortEntries(a), SortEntries(b));
    }
  }

  /** What is in order already stays as it is: the sort is stable. */
  lemma {:induction false} SortedStays(a: seq<Entry>)
    requires Sorted(a)
    ensures SortEntries(a) == a
  {
    if a != [] {
      SortedStays(a[1..]);
      assert a == [a[0]] + a[1..];
      if |a| > 1 { assert AtMost(a[0].key, a[1].key); }
    }
  }

  lemma {:induction false} DistinctKeysDecide(a: seq<Entry>)
    requires DistinctKeys(a)
    ensures KeysDecide(multiset(a))
  {
    forall e, f | e in multiset(a) && f in multiset(a) && e.key == f.key ensures e == f {
      var i :| 0 <= i < |a| && a[i] == e;
      var j :| 0 <= j < |a| && a[j] == f;
      assert i == j;
    }
  }

  /** A sorted dict has the same keys, still distinct. */
  lemma {:induction false} SortKeepsDistinct(a: seq<Entry>)
    requires DistinctKeys(a)
    ensures DistinctKeys(SortEntries(a))
  {
    if a != [] {
      SortKeepsDistinct(a[1..]);
      var rest := SortEntries(a[1..]);
      forall i | 0 <= i < |rest| ensures rest[i].key != a[0].key {
        SortIsPermutation(a[1..]);
        assert rest[i] in multiset(rest);
        assert rest[i] in a[1..];
      }
      InsertKeepsDistinct(a[0], rest);
    }
  }

  lemma {:induction false} InsertKeepsDistinct(e: Entry, sorted: seq<Entry>)
    requires DistinctKeys(sorted) && forall i | 0 <= i < |sorted| :: sorted[i].key != e.key
    ensures DistinctKeys(Insert(e, sorted))
  {
    if sorted != [] && !AtMost(e.key, sorted[0].key) {
      var rest := Insert(e, sorted[1..]);
      InsertKeepsDistinct(e, sorted[1..]);
      InsertIsPermutation(e, sorted[1..]);
      forall j | 0 <= j < |rest| ensures rest[j].key != sorted[0].key {
        assert rest[j] in multiset(rest);
        assert rest[j] == e || rest[j] in sorted[1..];
      }
    }
  }

  lemma {:induction false} LookupFinds(entries: seq<Entry>, key: string)
    ensures match Lookup(entries, key)
            case Some(v) => Entry(key, v) in entries
            case None => forall i | 0 <= i < |entries| :: entries[i].key != key
  {
    if entries != [] && entries[0].key != key { LookupFinds(entries[1..], key); }
  }

  lemma {:induction false} LookupAt(entries: seq<Entry>, i: nat)
    requires DistinctKeys(entries) && i < |entries|
    ensures Lookup(entries, entries[i].key) == Some(entries[i].value)
  {
    LookupFinds(entries, entries[i].key);
    var v := Lookup(entries, entries[i].key);
    if v.Some? {
      var j :| 0 <= j < |entries| && entries[j] == Entry(entries[i].key, v.value);
      assert i == j;
    }
  }

  ghost predicate AnswerAlike(a: seq<Entry>, b: seq<Entry>) {
    forall key :: Lookup(a, key) == Lookup(b, key)
  }

  /** A dict is its lookups: two dicts with distinct keys have the same entries exactly when they
      answer every key alike. */
  lemma {:induction false} EntriesAreLookups(a: seq<Entry>, b: seq<Entry>)
    requires DistinctKeys(a) && DistinctKeys(b)
    ensures multiset(a) == multiset(b) <==> AnswerAlike(a, b)
  {
    if multiset(a) == multiset(b) {
      forall key ensures Lookup(a, key) == Lookup(b, key) {
        SameEntriesAnswerAlike(a, b, key);
      }
    }
    if AnswerAlike(a, b) {
      forall e ensures multiset(a)[e] == multiset(b)[e] {
        DistinctCount(a, e);
        DistinctCount(b, e);
        assert Lookup(a, e.key) == Lookup(b, e.key);
      }
      assert multiset(a) == multiset(b);
    }
  }

  lemma {:induction false} FoundInBoth(a: seq<Entry>, b: seq<Entry>, key: string)
    requires DistinctKeys(b) && multiset(a) == multiset(b) && Lookup(a, key).Some?
    ensures Lookup(b, key) == Lookup(a, key)
  {
    LookupFinds(a, key);
    assert Entry(key, Lookup(a, key).value) in multiset(b);
    var j :| 0 <= j < |b| && b[j] == Entry(key, Lookup(a, key).value);
    LookupAt(b, j);
  }

  lemma {:induction false} SameEntriesAnswerAlike(a: seq<Entry>, b: seq<Entry>, key: string)
    requires DistinctKeys(a) && DistinctKeys(b) && multiset(a) == multiset(b)
    ensures Lookup(a, key) == Lookup(b, key)
  {
    if Lookup(a, key).Some? {
      FoundInBoth(a, b, key);
    } else if Lookup(b, key).Some? {
      FoundInBoth(b, a, key);
    }
  }

  lemma {:induction false} DistinctCount(a: seq<Entry>, e: Entry)
    requires DistinctKeys(a)
    ensures multiset(a)[e] == if Lookup(a, e.key) == Some(e.value) then 1 else 0
  {
    if a != [] {
      assert a == [a[0]] + a[1..];
      DistinctCount(a[1..], e);
      if a[0].key == e.key {
        LookupFinds(a[1..], e.key);
      }
    }
  }
}
