/** The order in which reconciliation reports what differs: by printed key. */
module Listing {
  import opened Wrappers
  import opened Json
  import opened Sorting
  import opened Canonical
  import opened Export

  /** The printed keys never fall. */
  ghost predicate PrintsInOrder(r: Reader, keys: seq<Key>) {
    forall i, j | 0 <= i < j < |keys| :: AtMost(r.show(keys[i]), r.show(keys[j]))
  }

  /** Of these keys, different ones print differently. */
  ghost predicate PrintsApart(r: Reader, keys: seq<Key>) {
    forall i, j | 0 <= i < |keys| && 0 <= j < |keys| && r.show(keys[i]) == r.show(keys[j]) :: keys[i] == keys[j]
  }

  lemma {:induction false} PrintedInOrder(r: Reader, keys: seq<Key>)
    ensures Sorted(KeyEntries(r, keys)) <==> PrintsInOrder(r, keys)
  {
    var es := KeyEntries(r, keys);
    forall i | 0 <= i < |keys| ensures es[i].key == r.show(keys[i]) {}
  }

  lemma {:induction false} ListedEntries(r: Reader, keys: seq<Key>)
    ensures KeyEntries(r, Listed(r, keys)) == SortEntries(KeyEntries(r, keys))
  {
    var es := KeyEntries(r, keys);
    var sorted := SortEntries(es);
    SortIsPermutation(es);
    forall i | 0 <= i < |sorted| ensures KeyEntry(r, KeyIn(sorted[i])) == sorted[i] {
      assert sorted[i] in multiset(sorted);
      var j :| 0 <= j < |es| && es[j] == sorted[i];
      assert es[j] == KeyEntry(r, keys[j]);
    }
  }

  lemma {:induction false} EntryCount(r: Reader, keys: seq<Key>, k: Key)
    ensures multiset(KeyEntries(r, keys))[KeyEntry(r, k)] == multiset(keys)[k]
  {
    if keys != [] {
      EntryCount(r, keys[1..], k);
      assert keys == [keys[0]] + keys[1..];
      assert KeyEntries(r, keys) == [KeyEntry(r, keys[0])] + KeyEntries(r, keys[1..]);
      assert KeyEntry(r, keys[0]) == KeyEntry(r, k) ==> KeyIn(KeyEntry(r, keys[0])) == KeyIn(KeyEntry(r, k));
    }
  }

  lemma {:induction false} SameEntriesSameKeys(r: Reader, a: seq<Key>, b: seq<Key>)
    ensures multiset(KeyEntries(r, a)) == multiset(KeyEntries(r, b)) <==> multiset(a) == multiset(b)
  {
    if multiset(KeyEntries(r, a)) == multiset(KeyEntries(r, b)) {
      forall k ensures multiset(a)[k] == multiset(b)[k] {
        EntryCount(r, a, k);
        EntryCount(r, b, k);
      }
      assert multiset(a) == multiset(b);
    }
    if multiset(a) == multiset(b) {
      forall e ensures multiset(KeyEntries(r, a))[e] == multiset(KeyEntries(r, b))[e] {
        EntryElsewhere(r, a, e);
        EntryElsewhere(r, b, e);
      }
      assert multiset(KeyEntries(r, a)) == multiset(KeyEntries(r, b));
    }
  }

  lemma {:induction false} EntryElsewhere(r: Reader, keys: seq<Key>, e: Entry)
    ensures multiset(KeyEntries(r, keys))[e] == if e == KeyEntry(r, KeyIn(e)) then multiset(keys)[KeyIn(e)] else 0
  {
    EntryCount(r, keys, KeyIn(e));
    if e in multiset(KeyEntries(r, keys)) {
      var i :| 0 <= i < |keys| && KeyEntries(r, keys)[i] == e;
      assert e == KeyEntry(r, keys[i]);
    }
  }

  /** What is listed are the keys, each as often as it occurs, by their printed form. */
  lemma {:induction false} ListedIsInOrder(r: Reader, keys: seq<Key>)
    ensures multiset(Listed(r, keys)) == multiset(keys) && PrintsInOrder(r, Listed(r, keys))
    ensures |Listed(r, keys)| == |keys|
  {
    var es := KeyEntries(r, keys);
    ListedEntries(r, keys);
    SortIsPermutation(es);
    SortIsSorted(es);
    SameEntriesSameKeys(r, Listed(r, keys), keys);
    PrintedInOrder(r, Listed(r, keys));
  }

  lemma {:induction false} NothingListed(r: Reader)
    ensures Listed(r, []) == []
  {
  }

  lemma {:induction false} PrintsApartDecides(r: Reader, keys: seq<Key>)
    requires PrintsApart(r, keys)
    ensures KeysDecide(multiset(KeyEntries(r, keys)))
  {
    var es := KeyEntries(r, keys);
    forall e: Entry, f: Entry | e in multiset(es) && f in multiset(es) && e.key == f.key ensures e == f {
      var i :| 0 <= i < |es| && es[i] == e;
      var j :| 0 <= j < |es| && es[j] == f;
      assert keys[i] == keys[j];
    }
  }

  /** As long as different keys print differently, that decides the listing, in whatever order the keys came. */
  lemma {:induction false} ListedExactlyWhen(r: Reader, keys: seq<Key>, listing: seq<Key>)
    requires PrintsApart(r, keys)
    ensures listing == Listed(r, keys) <==> multiset(listing) == multiset(keys) && PrintsInOrder(r, listing)
  {
    ListedIsInOrder(r, keys);
    if multiset(listing) == multiset(keys) && PrintsInOrder(r, listing) {
      PrintsApartDecides(r, keys);
      SameEntriesSameKeys(r, listing, keys);
      PrintedInOrder(r, listing);
      SortedListing(r, keys, listing);
    }
  }

  lemma {:induction false} SortedListing(r: Reader, keys: seq<Key>, listing: seq<Key>)
    requires Sorted(KeyEntries(r, listing)) && KeysDecide(multiset(KeyEntries(r, keys)))
    requires multiset(KeyEntries(r, listing)) == multiset(KeyEntries(r, keys))
    ensures listing == Listed(r, keys)
  {
    var a, b := KeyEntries(r, listing), SortEntries(KeyEntries(r, keys));
    SortIsPermutation(KeyEntries(r, keys));
    SortIsSorted(KeyEntries(r, keys));
    SortedIsUnique(a, b);
    forall i | 0 <= i < |listing| ensures KeyIn(a[i]) == listing[i] { assert a[i] == KeyEntry(r, listing[i]); }
    assert listing == KeysIn(a);
  }

  /** Keys are listed in the order of the log exactly when their printed forms already rise with it. */
  lemma {:induction false} ListedInLogOrderExactlyWhen(r: Reader, keys: seq<Key>)
    ensures Listed(r, keys) == keys <==> PrintsInOrder(r, keys)
  {
    ListedIsInOrder(r, keys);
    PrintedInOrder(r, keys);
    if PrintsInOrder(r, keys) {
      var es := KeyEntries(r, keys);
      SortedStays(es);
      forall i | 0 <= i < |keys| ensures KeyIn(es[i]) == keys[i] { assert es[i] == KeyEntry(r, keys[i]); }
      assert KeysIn(es) == keys;
    }
  }
}
