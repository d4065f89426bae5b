/** What canonical form is, said without the functions that compute it: the normal form of a value, the order of its
    keys, its one text, and why a value has none. */
module CanonicalText {
  import opened Wrappers
  import opened Json
  import opened JsonGrammar
  import opened JsonText
  import opened Sorting
  import opened Canonical
  import opened CanonicalTheorems

  // ------------------------------------------------------------------ the normal form

  /** Every string and every key under NFC; everything else, and every order, as it was. */
  ghost predicate IsNormalFormOf(p: Platform, v: Value, n: Value)
    decreases v
  {
    match v
    case Str(s) => n == Str(p.nfc(s))
    case List(items) =>
      n.List? && |n.items| == |items| && forall i | 0 <= i < |items| :: IsNormalFormOf(p, items[i], n.items[i])
    case Dict(entries) =>
      n.Dict? && |n.entries| == |entries|
      && forall i | 0 <= i < |entries| :: IsNormalEntryOf(p, entries[i], n.entries[i])
    case _ => n == v
  }

  ghost predicate IsNormalEntryOf(p: Platform, e: Entry, n: Entry)
    decreases e
  {
    n.key == p.nfc(e.key) && IsNormalFormOf(p, e.value, n.value)
  }

  lemma {:induction false} NormalizeYields(p: Platform, v: Value, depth: nat)
    requires Normalize(p, v, depth).Ok?
    ensures IsNormalFormOf(p, v, Normalize(p, v, depth).value)
    decreases v
  {
    match v
    case List(items) =>
      ItemsPointwise(p, items, depth + 1);
      forall i | 0 <= i < |items| { NormalizeYields(p, items[i], depth + 1); }
    case Dict(entries) =>
      EntriesPointwise(p, entries, depth + 1);
      forall i | 0 <= i < |entries|
        ensures IsNormalEntryOf(p, entries[i], NormalizeEntries(p, entries, depth + 1).value[i])
      {
        assert EntryBecomes(p, entries[i], NormalizeEntries(p, entries, depth + 1).value[i], depth + 1);
        NormalizeYields(p, entries[i].value, depth + 1);
      }
    case _ =>
  }

  lemma {:induction false} OneNormalForm(p: Platform, v: Value, m: Value, n: Value)
    requires IsNormalFormOf(p, v, m) && IsNormalFormOf(p, v, n)
    ensures m == n
    decreases v
  {
    match v
    case List(items) => forall i | 0 <= i < |items| ensures m.items[i] == n.items[i] {
      OneNormalForm(p, items[i], m.items[i], n.items[i]);
    }
    case Dict(entries) => forall i | 0 <= i < |entries| ensures m.entries[i] == n.entries[i] {
      assert IsNormalEntryOf(p, entries[i], m.entries[i]) && IsNormalEntryOf(p, entries[i], n.entries[i]);
      OneNormalForm(p, entries[i].value, m.entries[i].value, n.entries[i].value);
    }
    case _ =>
  }

  /** Normalisation returns a value exactly if the value is acceptable, and then its normal form. */
  lemma {:induction false} NormalizesExactlyWhen(p: Platform, v: Value, depth: nat, n: Value)
    ensures Normalize(p, v, depth) == Ok(n) <==> Acceptable(p, v, depth) && IsNormalFormOf(p, v, n)
  {
    AcceptedExactlyWhen(p, v, depth);
    if Acceptable(p, v, depth) {
      NormalizeYields(p, v, depth);
      if IsNormalFormOf(p, v, n) { OneNormalForm(p, v, n, Normalize(p, v, depth).value); }
    }
  }

  // ------------------------------------------------------------------ its one text

  /** In every dict the keys rise by code point. */
  ghost predicate KeysInOrder(v: Value)
    decreases v
  {
    match v
    case List(items) => forall i | 0 <= i < |items| :: KeysInOrder(items[i])
    case Dict(entries) =>
      && (forall i, j | 0 <= i < j < |entries| :: AtMost(entries[i].key, entries[j].key))
      && forall i | 0 <= i < |entries| :: KeysInOrder(entries[i].value)
    case _ => true
  }

  lemma {:induction false} SortedInOrder(v: Value)
    ensures KeysInOrder(SortKeys(v))
    decreases v
  {
    match v
    case List(items) => forall i | 0 <= i < |items| { SortedInOrder(items[i]); }
    case Dict(entries) =>
      var values := SortValues(entries);
      SortIsSorted(values);
      forall i | 0 <= i < |entries| ensures KeysInOrder(values[i].value) { SortedInOrder(entries[i].value); }
      SortKeeps(values, e => KeepsOrder(e));
    case _ =>
  }

  ghost predicate KeepsOrder(e: Entry) {
    KeysInOrder(e.value)
  }

  /** A value has a canonical text exactly if it is acceptable. The text is that of its normal form with the keys of
      every dict in order, without white space between the parts; and the digest is the hash of the text. */
  lemma {:induction false} DumpsExactly(p: Platform, sha: Sha, v: Value) returns (normal: Value, sorted: Value)
    requires FloatsPrint(p, v)
    ensures Dumps(p, v).Ok? <==> Acceptable(p, v, 0)
    ensures Dumps(p, v).Ok? ==>
              && IsNormalFormOf(p, v, normal) && Same(normal, sorted) && KeysInOrder(sorted)
              && Dumps(p, v) == Ok(Text(sorted, ",", ":")) && Digest(p, sha, v) == Ok(sha(Text(sorted, ",", ":")))
  {
    AcceptedExactlyWhen(p, v, 0);
    normal, sorted := NormalOf(p, v), SortKeys(NormalOf(p, v));
    if Dumps(p, v).Ok? {
      NormalizeYields(p, v, 0);
      LoadsInvertsDumps(p, v);
      SortedInOrder(normal);
      PrintsAsWritten(sorted);
    }
  }

  // ------------------------------------------------------------------ why a value is refused

  /** At a value itself: too deep, too long, not finite, too many of it, or of no type that JSON has. */
  lemma {:induction false} RefusedAtOnce(p: Platform, v: Value, depth: nat)
    ensures depth > 32 ==> Normalize(p, v, depth) == Err(TooDeep)
    ensures depth <= 32 ==>
              && (v.Str? && |v.s| > 65536 ==> Normalize(p, v, depth) == Err(StringTooLong))
              && (v == Float(NonFinite) ==> Normalize(p, v, depth) == Err(NonFiniteNumber))
              && (v.List? && |v.items| > 1000 ==> Normalize(p, v, depth) == Err(TooManyItems))
              && (v.Dict? && |v.entries| > 1000 ==> Normalize(p, v, depth) == Err(TooManyKeys))
              && (v.Opaque? ==> Normalize(p, v, depth) == Err(Unsupported))
  {
  }

  /** In a list that is not too long: for the reason of the first item that is refused. */
  lemma {:induction false} RefusedForItem(p: Platform, items: seq<Value>, depth: nat, i: nat)
    requires depth <= 32 && |items| <= 1000 && i < |items| && !Acceptable(p, items[i], depth + 1)
    requires forall j | 0 <= j < i :: Acceptable(p, items[j], depth + 1)
    ensures Normalize(p, List(items), depth).Err? && Normalize(p, items[i], depth + 1).Err?
    ensures Normalize(p, List(items), depth).error == Normalize(p, items[i], depth + 1).error
  {
    AcceptedExactlyWhen(p, items[i], depth + 1);
    ItemsAccepted(p, items[..i], depth + 1);
    assert items[..i + 1][..i] == items[..i];
    ItemsErrorSticks(p, items, depth + 1, i + 1);
  }

  /** The key of the i-th entry is, under NFC, that of an earlier one. */
  ghost predicate Collides(p: Platform, entries: seq<Entry>, i: nat)
    requires i < |entries|
  {
    exists j | 0 <= j < i :: p.nfc(entries[j].key) == p.nfc(entries[i].key)
  }

  /** In a dict that is not too large: at the first entry that is refused, because its key collides, or else for the
      reason its value is. */
  lemma {:induction false} RefusedForEntry(p: Platform, entries: seq<Entry>, depth: nat, i: nat)
    requires depth <= 32 && |entries| <= 1000 && i < |entries|
    requires forall j | 0 <= j < i :: Acceptable(p, entries[j].value, depth + 1)
    requires KeysStayApart(p, entries[..i])
    requires Collides(p, entries, i) || !Acceptable(p, entries[i].value, depth + 1)
    ensures Normalize(p, Dict(entries), depth).Err?
    ensures if Collides(p, entries, i) then Normalize(p, Dict(entries), depth) == Err(KeysCollide)
            else && Normalize(p, entries[i].value, depth + 1).Err?
                 && Normalize(p, Dict(entries), depth).error == Normalize(p, entries[i].value, depth + 1).error
  {
    var before := entries[..i];
    AcceptedExactlyWhen(p, entries[i].value, depth + 1);
    EntriesAccepted(p, before, depth + 1);
    CollidesBefore(p, entries, i);
    OneEntryRefused(p, before, entries[i], depth + 1);
    assert entries[..i + 1] == before + [entries[i]];
    EntriesErrorSticks(p, entries, depth + 1, i + 1);
  }

  predicate IsSpelled(p: Platform, before: seq<Entry>, key: string) {
    exists j | 0 <= j < |before| :: p.nfc(before[j].key) == key
  }

  lemma {:induction false} CollidesBefore(p: Platform, entries: seq<Entry>, i: nat)
    requires i < |entries|
    ensures Collides(p, entries, i) <==> IsSpelled(p, entries[..i], p.nfc(entries[i].key))
  {
    var before := entries[..i];
    if Collides(p, entries, i) {
      var j :| 0 <= j < i && p.nfc(entries[j].key) == p.nfc(entries[i].key);
      assert before[j] == entries[j];
    }
  }

  lemma {:induction false} OneEntryRefused(p: Platform, before: seq<Entry>, e: Entry, depth: nat)
    requires NormalizeEntries(p, before, depth).Ok?
    requires IsSpelled(p, before, p.nfc(e.key)) || Normalize(p, e.value, depth).Err?
    ensures NormalizeEntries(p, before + [e], depth).Err?
    ensures NormalizeEntries(p, before + [e], depth).error
         == if IsSpelled(p, before, p.nfc(e.key)) then KeysCollide else Normalize(p, e.value, depth).error
  {
    assert (before + [e])[..|before|] == before;
    EntriesPointwise(p, before, depth);
    KeyMet(p, before, NormalizeEntries(p, before, depth).value, depth, p.nfc(e.key));
  }

  lemma {:induction false} KeyMet(p: Platform, before: seq<Entry>, done: seq<Entry>, depth: nat, key: string)
    requires |done| == |before| && forall i | 0 <= i < |before| :: EntryBecomes(p, before[i], done[i], depth)
    ensures HasKey(done, key) <==> IsSpelled(p, before, key)
  {
    if HasKey(done, key) {
      var j :| 0 <= j < |done| && done[j].key == key;
      assert EntryBecomes(p, before[j], done[j], depth);
    }
    if IsSpelled(p, before, key) {
      var j :| 0 <= j < |before| && p.nfc(before[j].key) == key;
      assert EntryBecomes(p, before[j], done[j], depth);
    }
  }

  // ------------------------------------------------------------------ loads

  /** `loads` returns a value exactly for a text of at most 262144 characters that is JSON, without a key twice in one
      object and without a number that is not finite, and then what the text means. A longer text is refused for its
      size, and any other because it is no such JSON. */
  lemma {:induction false} LoadsExactlyWhen(p: Platform, text: string, v: Value)
    ensures Loads(p, text) == Ok(v) <==> |text| <= 262144 && IsTextOf(p, Strict, text, v)
    ensures Loads(p, text) == Err(TooLarge) <==> |text| > 262144
    ensures Loads(p, text) == Err(NotJson) <==> |text| <= 262144 && forall w :: !IsTextOf(p, Strict, text, w)
  {
    ParsesExactlyWhen(p, Strict, text, v);
    forall w ensures Parse(p, Strict, text) == Some(w) <==> IsTextOf(p, Strict, text, w) {
      ParsesExactlyWhen(p, Strict, text, w);
    }
  }
}
