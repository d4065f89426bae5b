/** What the canonical form promises: one text per value, and a text that says which value it is. */
module CanonicalTheorems {
  import opened Wrappers
  import opened Json
  import opened JsonRoundTrip
  import opened Sorting
  import opened Canonical

  /** NFC is a projection (UAX #15). */
  ghost predicate NfcSettles(p: Platform) {
    forall s :: p.nfc(p.nfc(s)) == p.nfc(s)
  }

  /** NFC leaves ASCII text alone (UAX #15). */
  ghost predicate AsciiStays(p: Platform) {
    forall s :: IsAscii(s) ==> p.nfc(s) == s
  }

  /** Every finite float in a value is the text that prints it. */
  ghost predicate FloatsPrint(p: Platform, v: Value)
    decreases v
  {
    match v
    case Float(f) => f.Finite? ==> IsFloatText(p, f.text)
    case List(items) => forall i | 0 <= i < |items| :: FloatsPrint(p, items[i])
    case Dict(entries) => forall i | 0 <= i < |entries| :: FloatsPrint(p, entries[i].value)
    case _ => true
  }

  /** What normalisation leaves behind: everything it demands, except the length of its strings. */
  ghost predicate Normal(p: Platform, v: Value, depth: nat)
    decreases v
  {
    depth <= MAX_DEPTH
    && match v
       case Str(s) => p.nfc(s) == s
       case Float(f) => f.Finite?
       case List(items) => |items| <= MAX_KEYS && forall i | 0 <= i < |items| :: Normal(p, items[i], depth + 1)
       case Dict(entries) =>
         && |entries| <= MAX_KEYS && DistinctKeys(entries)
         && forall i | 0 <= i < |entries| :: NormalEntry(p, entries[i], depth + 1)
       case Opaque => false
       case _ => true
  }

  ghost predicate NormalEntry(p: Platform, e: Entry, depth: nat)
    decreases e
  {
    p.nfc(e.key) == e.key && Normal(p, e.value, depth)
  }

  /** No string value is over the limit. Keys have no limit. */
  predicate ShortStrings(v: Value)
    decreases v
  {
    match v
    case Str(s) => |s| <= MAX_STRING
    case List(items) => forall i | 0 <= i < |items| :: ShortStrings(items[i])
    case Dict(entries) => forall i | 0 <= i < |entries| :: ShortStrings(entries[i].value)
    case _ => true
  }

  // ------------------------------------------------------------------ what normalisation does, element by element

  lemma {:induction false} ItemsPointwise(p: Platform, items: seq<Value>, depth: nat)
    requires NormalizeItems(p, items, depth).Ok?
    ensures var r := NormalizeItems(p, items, depth).value;
            && |r| == |items|
            && forall i | 0 <= i < |items| :: Normalize(p, items[i], depth) == Ok(r[i])
  {
    if items != [] {
      var shorter := items[..|items| - 1];
      ItemsPointwise(p, shorter, depth);
      forall i | 0 <= i < |shorter| ensures items[i] == shorter[i] {}
    }
  }

  ghost predicate EntryBecomes(p: Platform, e: Entry, r: Entry, depth: nat) {
    r.key == p.nfc(e.key) && Normalize(p, e.value, depth) == Ok(r.value)
  }

  lemma {:induction false} EntriesPointwise(p: Platform, entries: seq<Entry>, depth: nat)
    requires NormalizeEntries(p, entries, depth).Ok?
    ensures var r := NormalizeEntries(p, entries, depth).value;
            && |r| == |entries| && DistinctKeys(r)
            && forall i | 0 <= i < |entries| :: EntryBecomes(p, entries[i], r[i], depth)
  {
    if entries != [] {
      var shorter := entries[..|entries| - 1];
      EntriesPointwise(p, shorter, depth);
      forall i | 0 <= i < |shorter| ensures entries[i] == shorter[i] {}
    }
  }

  lemma {:induction false} ItemsCompose(p: Platform, items: seq<Value>, r: seq<Value>, depth: nat)
    requires |r| == |items| && forall i | 0 <= i < |items| :: Normalize(p, items[i], depth) == Ok(r[i])
    ensures NormalizeItems(p, items, depth) == Ok(r)
  {
    if items != [] {
      var n := |items| - 1;
      ItemsCompose(p, items[..n], r[..n], depth);
      assert r == r[..n] + [r[n]];
    }
  }

  lemma {:induction false} EntriesCompose(p: Platform, entries: seq<Entry>, r: seq<Entry>, depth: nat)
    requires |r| == |entries| && DistinctKeys(r)
    requires forall i | 0 <= i < |entries| :: EntryBecomes(p, entries[i], r[i], depth)
    ensures NormalizeEntries(p, entries, depth) == Ok(r)
  {
    if entries != [] {
      var n := |entries| - 1;
      forall i | 0 <= i < n ensures EntryBecomes(p, entries[..n][i], r[..n][i], depth) {
        assert EntryBecomes(p, entries[i], r[i], depth);
      }
      EntriesCompose(p, entries[..n], r[..n], depth);
      assert EntryBecomes(p, entries[n], r[n], depth);
      assert !HasKey(r[..n], r[n].key);
      assert r == r[..n] + [r[n]];
    }
  }

  // ------------------------------------------------------------------ what is accepted

  /** What normalisation demands of a value: at most 32 levels below the top, 65536 characters in a string and 1000
      items in a list or keys in a dict. The length of a key is not among it. */
  ghost predicate Acceptable(p: Platform, v: Value, depth: nat)
    decreases v
  {
    depth <= 32
    && match v
       case Str(s) => |s| <= 65536
       case Float(f) => f.Finite?
       case List(items) => |items| <= 1000 && forall i | 0 <= i < |items| :: Acceptable(p, items[i], depth + 1)
       case Dict(entries) =>
         && |entries| <= 1000
         && (forall i | 0 <= i < |entries| :: Acceptable(p, entries[i].value, depth + 1))
         && KeysStayApart(p, entries)
       case Opaque => false
       case _ => true
  }

  ghost predicate KeysStayApart(p: Platform, entries: seq<Entry>) {
    forall i, j | 0 <= i < j < |entries| :: p.nfc(entries[i].key) != p.nfc(entries[j].key)
  }

  lemma {:induction false} ItemsAccepted(p: Platform, items: seq<Value>, depth: nat)
    ensures NormalizeItems(p, items, depth).Ok? <==> forall i | 0 <= i < |items| :: Acceptable(p, items[i], depth)
    decreases items, 0
  {
    forall i | 0 <= i < |items| { AcceptedExactlyWhen(p, items[i], depth); }
    if NormalizeItems(p, items, depth).Ok? {
      ItemsPointwise(p, items, depth);
    } else if forall i | 0 <= i < |items| :: Acceptable(p, items[i], depth) {
      var r := seq(|items|, i requires 0 <= i < |items| && Normalize(p, items[i], depth).Ok? =>
                              Normalize(p, items[i], depth).value);
      ItemsCompose(p, items, r, depth);
      assert false;
    }
  }

  lemma {:induction false} EntriesAccepted(p: Platform, entries: seq<Entry>, depth: nat)
    ensures NormalizeEntries(p, entries, depth).Ok?
       <==> (forall i | 0 <= i < |entries| :: Acceptable(p, entries[i].value, depth)) && KeysStayApart(p, entries)
    decreases entries, 0
  {
    forall i | 0 <= i < |entries| { AcceptedExactlyWhen(p, entries[i].value, depth); }
    if NormalizeEntries(p, entries, depth).Ok? {
      EntriesPointwise(p, entries, depth);
      var r := NormalizeEntries(p, entries, depth).value;
      forall i | 0 <= i < |entries|
        ensures r[i].key == p.nfc(entries[i].key) && Normalize(p, entries[i].value, depth).Ok?
      {
        assert EntryBecomes(p, entries[i], r[i], depth);
      }
    } else if (forall i | 0 <= i < |entries| :: Acceptable(p, entries[i].value, depth)) && KeysStayApart(p, entries) {
      var r := seq(|entries|, i requires 0 <= i < |entries| && Normalize(p, entries[i].value, depth).Ok? =>
                              Entry(p.nfc(entries[i].key), Normalize(p, entries[i].value, depth).value));
      EntriesCompose(p, entries, r, depth);
      assert false;
    }
  }

  /** Normalisation accepts exactly the acceptable values. */
  lemma {:induction false} AcceptedExactlyWhen(p: Platform, v: Value, depth: nat)
    ensures Normalize(p, v, depth).Ok? <==> Acceptable(p, v, depth)
    decreases v, 1
  {
    match v
    case List(items) => ItemsAccepted(p, items, depth + 1);
    case Dict(entries) => EntriesAccepted(p, entries, depth + 1);
    case _ =>
  }

  // ------------------------------------------------------------------ normal values

  lemma {:induction false} NormalizeYieldsNormal(p: Platform, v: Value, depth: nat)
    requires NfcSettles(p) && Normalize(p, v, depth).Ok?
    ensures Normal(p, Normalize(p, v, depth).value, depth)
    decreases v
  {
    match v
    case List(items) =>
      ItemsPointwise(p, items, depth + 1);
      forall i | 0 <= i < |items| { NormalizeYieldsNormal(p, items[i], depth + 1); }
    case Dict(entries) =>
      EntriesPointwise(p, entries, depth + 1);
      var r := NormalizeEntries(p, entries, depth + 1).value;
      forall i | 0 <= i < |entries| ensures NormalEntry(p, r[i], depth + 1) {
        assert EntryBecomes(p, entries[i], r[i], depth + 1);
        NormalizeYieldsNormal(p, entries[i].value, depth + 1);
      }
    case _ =>
  }

  lemma {:induction false} EntriesKeepFloats(p: Platform, entries: seq<Entry>, depth: nat)
    requires NormalizeEntries(p, entries, depth).Ok?
    requires forall i | 0 <= i < |entries| :: FloatsPrint(p, entries[i].value)
    ensures Printable(p, Dict(NormalizeEntries(p, entries, depth).value))
    decreases entries, 0
  {
    EntriesPointwise(p, entries, depth);
    var r := NormalizeEntries(p, entries, depth).value;
    forall i | 0 <= i < |r| ensures Printable(p, r[i].value) {
      assert EntryBecomes(p, entries[i], r[i], depth);
      NormalizeKeepsFloats(p, entries[i].value, depth);
    }
  }

  lemma {:induction false} ItemsKeepFloats(p: Platform, items: seq<Value>, depth: nat)
    requires NormalizeItems(p, items, depth).Ok? && forall i | 0 <= i < |items| :: FloatsPrint(p, items[i])
    ensures Printable(p, List(NormalizeItems(p, items, depth).value))
    decreases items, 0
  {
    ItemsPointwise(p, items, depth);
    var r := NormalizeItems(p, items, depth).value;
    forall i | 0 <= i < |r| ensures Printable(p, r[i]) { NormalizeKeepsFloats(p, items[i], depth); }
  }

  lemma {:induction false} NormalizeKeepsFloats(p: Platform, v: Value, depth: nat)
    requires FloatsPrint(p, v) && Normalize(p, v, depth).Ok?
    ensures Printable(p, Normalize(p, v, depth).value)
    decreases v, 1
  {
    match v
    case List(items) => ItemsKeepFloats(p, items, depth + 1);
    case Dict(entries) => EntriesKeepFloats(p, entries, depth + 1);
    case _ =>
  }

  // ------------------------------------------------------------------ idempotence, and when it fails

  lemma {:induction false} NormalItemsStay(p: Platform, items: seq<Value>, depth: nat)
    requires forall i | 0 <= i < |items| :: Normal(p, items[i], depth)
    ensures NormalizeItems(p, items, depth)
         == if (forall i | 0 <= i < |items| :: ShortStrings(items[i])) then Ok(items) else Err(StringTooLong)
    decreases items, 0
  {
    if items != [] {
      var n := |items| - 1;
      var shorter := items[..n];
      NormalItemsStay(p, shorter, depth);
      NormalStays(p, items[n], depth);
      assert items == shorter + [items[n]];
      assert (forall i | 0 <= i < |items| :: ShortStrings(items[i]))
          == ((forall i | 0 <= i < |shorter| :: ShortStrings(shorter[i])) && ShortStrings(items[n]));
    }
  }

  ghost predicate ShortValues(entries: seq<Entry>) {
    forall i | 0 <= i < |entries| :: ShortStrings(entries[i].value)
  }

  lemma {:induction false} NormalEntriesStay(p: Platform, entries: seq<Entry>, depth: nat)
    requires DistinctKeys(entries) && forall i | 0 <= i < |entries| :: NormalEntry(p, entries[i], depth)
    ensures NormalizeEntries(p, entries, depth) == if ShortValues(entries) then Ok(entries) else Err(StringTooLong)
    decreases entries, 0
  {
    if entries != [] {
      var n := |entries| - 1;
      var shorter, last := entries[..n], entries[n];
      NormalEntriesStay(p, shorter, depth);
      assert NormalEntry(p, last, depth);
      NormalStays(p, last.value, depth);
      assert entries == shorter + [last];
      assert ShortValues(entries) == (ShortValues(shorter) && ShortStrings(last.value));
      assert !HasKey(shorter, last.key);
    }
  }

  /** Normalising a normal value changes nothing, unless NFC had lengthened a string past the limit:
      then the second pass refuses what the first accepted. */
  lemma {:induction false} NormalStays(p: Platform, v: Value, depth: nat)
    requires Normal(p, v, depth)
    ensures Normalize(p, v, depth) == if ShortStrings(v) then Ok(v) else Err(StringTooLong)
    decreases v, 1
  {
    match v
    case List(items) => NormalItemsStay(p, items, depth + 1);
    case Dict(entries) => NormalEntriesStay(p, entries, depth + 1);
    case _ =>
  }

  /** Normalisation is idempotent exactly on the values whose strings are still short afterwards. */
  lemma {:induction false} NormalizeIsIdempotentWhenShort(p: Platform, v: Value)
    requires NfcSettles(p) && Normalize(p, v, 0).Ok?
    ensures var n := Normalize(p, v, 0).value;
            Normalize(p, n, 0) == if ShortStrings(n) then Ok(n) else Err(StringTooLong)
  {
    NormalizeYieldsNormal(p, v, 0);
    NormalStays(p, Normalize(p, v, 0).value, 0);
  }

  /** A platform whose NFC doubles one character, as NFC does to U+0958 and others: a string of the
      greatest permitted length is accepted once, and its normal form is refused. */
  function Doubling(): Platform {
    Platform((s: string) => Doubled(s), (t: string) => NonFinite)
  }

  function Doubled(s: string): (r: string)
    ensures |s| <= |r|
    ensures (exists i | 0 <= i < |s| :: s[i] == '\U{0958}') ==> |s| < |r|
    ensures forall i | 0 <= i < |r| :: r[i] != '\U{0958}'
  {
    if s == "" then ""
    else (if s[0] == '\U{0958}' then ['\U{0915}', '\U{093C}'] else [s[0]]) + Doubled(s[1..])
  }

  lemma {:induction false} DoubledSettles(s: string)
    requires forall i | 0 <= i < |s| :: s[i] != '\U{0958}'
    ensures Doubled(s) == s
  {
    if s != "" {
      DoubledSettles(s[1..]);
      assert s == [s[0]] + s[1..];
    }
  }

  /** A text of the greatest permitted length, of characters that NFC doubles. */
  function LongText(): string {
    seq(MAX_STRING, i => '\U{0958}')
  }

  lemma {:induction false} SecondPassCanFail()
    ensures NfcSettles(Doubling())
    ensures Normalize(Doubling(), Str(LongText()), 0) == Ok(Str(Doubled(LongText())))
    ensures Normalize(Doubling(), Str(Doubled(LongText())), 0) == Err(StringTooLong)
  {
    var p := Doubling();
    forall s ensures p.nfc(p.nfc(s)) == p.nfc(s) { DoubledSettles(Doubled(s)); }
    assert LongText()[0] == '\U{0958}';
  }

  // ------------------------------------------------------------------ sorting the keys

  lemma {:induction false} SortValuesKeepsDistinct(entries: seq<Entry>)
    requires DistinctKeys(entries)
    ensures DistinctKeys(SortValues(entries))
  {
  }

  /** Any property of single entries survives a sort. */
  lemma {:induction false} SortKeeps(entries: seq<Entry>, good: Entry -> bool)
    requires forall i | 0 <= i < |entries| :: good(entries[i])
    ensures forall i | 0 <= i < |SortEntries(entries)| :: good(SortEntries(entries)[i])
  {
    SortIsPermutation(entries);
    var sorted := SortEntries(entries);
    forall i | 0 <= i < |sorted| ensures good(sorted[i]) {
      assert sorted[i] in multiset(sorted);
      assert sorted[i] in entries;
    }
  }

  lemma {:induction false} SortKeysPrintable(p: Platform, v: Value)
    requires Printable(p, v)
    ensures Printable(p, SortKeys(v))
    decreases v
  {
    match v
    case List(items) => forall i | 0 <= i < |items| { SortKeysPrintable(p, items[i]); }
    case Dict(entries) =>
      var values := SortValues(entries);
      forall i | 0 <= i < |entries| ensures Printable(p, values[i].value) { SortKeysPrintable(p, entries[i].value); }
      SortValuesKeepsDistinct(entries);
      SortKeepsDistinct(values);
      var good := (e: Entry) => Printable(p, e.value);
      SortKeeps(values, good);
      forall i | 0 <= i < |SortEntries(values)| ensures Printable(p, SortEntries(values)[i].value) {
        assert good(SortEntries(values)[i]);
      }
    case _ =>
  }

  lemma {:induction false} SortKeysNormal(p: Platform, v: Value, depth: nat)
    requires Normal(p, v, depth)
    ensures Normal(p, SortKeys(v), depth)
    decreases v
  {
    match v
    case List(items) => forall i | 0 <= i < |items| { SortKeysNormal(p, items[i], depth + 1); }
    case Dict(entries) =>
      var values := SortValues(entries);
      forall i | 0 <= i < |entries| ensures NormalEntry(p, values[i], depth + 1) {
        assert NormalEntry(p, entries[i], depth + 1);
        SortKeysNormal(p, entries[i].value, depth + 1);
      }
      SortValuesKeepsDistinct(entries);
      SortKeepsDistinct(values);
      SortIsPermutation(values);
      var good := (e: Entry) => NormalEntry(p, e, depth + 1);
      SortKeeps(values, good);
      forall i | 0 <= i < |SortEntries(values)| ensures NormalEntry(p, SortEntries(values)[i], depth + 1) {
        assert good(SortEntries(values)[i]);
      }
    case _ =>
  }

  lemma {:induction false} ShortBothWays(values: seq<Entry>)
    ensures ShortValues(SortEntries(values)) == ShortValues(values)
  {
    SortIsPermutation(values);
    var sorted := SortEntries(values);
    forall i | 0 <= i < |sorted| ensures sorted[i] in values { assert sorted[i] in multiset(sorted); }
    forall i | 0 <= i < |values| ensures values[i] in sorted { assert values[i] in multiset(values); }
  }

  lemma {:induction false} SortKeysShort(v: Value)
    ensures ShortStrings(SortKeys(v)) == ShortStrings(v)
    decreases v
  {
    match v
    case List(items) => forall i | 0 <= i < |items| { SortKeysShort(items[i]); }
    case Dict(entries) =>
      forall i | 0 <= i < |entries| { SortKeysShort(entries[i].value); }
      assert ShortValues(SortValues(entries)) == ShortValues(entries);
      ShortBothWays(SortValues(entries));
    case _ =>
  }

  // ------------------------------------------------------------------ the same value up to key order

  /** Two values with the same structure, where a dict is the set of its entries. */
  ghost predicate Same(v: Value, w: Value)
    decreases v
  {
    match v
    case List(items) => w.List? && |w.items| == |items| && forall i | 0 <= i < |items| :: Same(items[i], w.items[i])
    case Dict(entries) =>
      && w.Dict? && (forall j | 0 <= j < |w.entries| :: HasKey(entries, w.entries[j].key))
      && forall i | 0 <= i < |entries| :: HasKey(w.entries, entries[i].key) && SameAt(entries[i], w.entries)
    case _ => v == w
  }

  ghost predicate SameAt(e: Entry, others: seq<Entry>)
    decreases e
  {
    match Lookup(others, e.key)
    case Some(x) => Same(e.value, x)
    case None => false
  }

  function MapSort(o: Option<Value>): Option<Value> {
    match o
    case Some(v) => Some(SortKeys(v))
    case None => None
  }

  lemma {:induction false} LookupSorted(entries: seq<Entry>, key: string)
    ensures Lookup(SortValues(entries), key) == MapSort(Lookup(entries, key))
  {
    if entries != [] { LookupSorted(entries[1..], key); }
  }

  lemma {:induction false} HasKeyFinds(entries: seq<Entry>, key: string)
    ensures HasKey(entries, key) <==> Lookup(entries, key).Some?
  {
    LookupFinds(entries, key);
  }

  lemma {:induction false} SortedDictsAgree(a: seq<Entry>, b: seq<Entry>)
    requires DistinctKeys(a) && DistinctKeys(b)
    ensures SortEntries(a) == SortEntries(b) <==> AnswerAlike(a, b)
  {
    SortIsPermutation(a);
    SortIsPermutation(b);
    EntriesAreLookups(a, b);
    if multiset(a) == multiset(b) {
      SortIsSorted(a);
      SortIsSorted(b);
      DistinctKeysDecide(a);
      SortedIsUnique(SortEntries(a), SortEntries(b));
    }
  }

  lemma {:induction false} SameDictsSort(p: Platform, a: seq<Entry>, b: seq<Entry>, key: string)
    requires Printable(p, Dict(a)) && Printable(p, Dict(b)) && Same(Dict(a), Dict(b))
    ensures Lookup(SortValues(a), key) == Lookup(SortValues(b), key)
    decreases a, 0
  {
    LookupSorted(a, key);
    LookupSorted(b, key);
    LookupFinds(a, key);
    LookupFinds(b, key);
    if Lookup(a, key).Some? {
      var x := Lookup(a, key).value;
      var i :| 0 <= i < |a| && a[i] == Entry(key, x);
      assert SameAt(a[i], b);
      var y := Lookup(b, key).value;
      var j :| 0 <= j < |b| && b[j] == Entry(key, y);
      SameExactlyWhenSorted(p, a[i].value, b[j].value);
    } else {
      HasKeyFinds(a, key);
      forall j | 0 <= j < |b| ensures b[j].key != key {}
    }
  }

  lemma {:induction false} SortedDictsSame(p: Platform, a: seq<Entry>, b: seq<Entry>, i: nat)
    requires Printable(p, Dict(a)) && Printable(p, Dict(b)) && AnswerAlike(SortValues(a), SortValues(b)) && i < |a|
    ensures SameAt(a[i], b) && HasKey(b, a[i].key)
    decreases a, 0
  {
    var key := a[i].key;
    LookupAt(a, i);
    LookupSorted(a, key);
    LookupSorted(b, key);
    assert Lookup(SortValues(a), key) == Lookup(SortValues(b), key);
    LookupFinds(b, key);
    var y := Lookup(b, key).value;
    var j :| 0 <= j < |b| && b[j] == Entry(key, y);
    SameExactlyWhenSorted(p, a[i].value, b[j].value);
  }

  lemma {:induction false} SortedDictsShareKeys(a: seq<Entry>, b: seq<Entry>, j: nat)
    requires AnswerAlike(SortValues(a), SortValues(b)) && j < |b|
    ensures HasKey(a, b[j].key)
  {
    var key := b[j].key;
    LookupSorted(a, key);
    LookupSorted(b, key);
    assert Lookup(SortValues(a), key) == Lookup(SortValues(b), key);
    HasKeyFinds(a, key);
    HasKeyFinds(b, key);
    assert HasKey(b, key);
  }

  lemma {:induction false} DictsExactlyWhenSorted(p: Platform, a: seq<Entry>, b: seq<Entry>)
    requires Printable(p, Dict(a)) && Printable(p, Dict(b))
    ensures Same(Dict(a), Dict(b)) <==> SortKeys(Dict(a)) == SortKeys(Dict(b))
    decreases a, 1
  {
    SortValuesKeepsDistinct(a);
    SortValuesKeepsDistinct(b);
    SortedDictsAgree(SortValues(a), SortValues(b));
    if Same(Dict(a), Dict(b)) {
      forall key ensures Lookup(SortValues(a), key) == Lookup(SortValues(b), key) { SameDictsSort(p, a, b, key); }
    } else if AnswerAlike(SortValues(a), SortValues(b)) {
      forall i | 0 <= i < |a| ensures SameAt(a[i], b) && HasKey(b, a[i].key) { SortedDictsSame(p, a, b, i); }
      forall j | 0 <= j < |b| ensures HasKey(a, b[j].key) { SortedDictsShareKeys(a, b, j); }
      assert Same(Dict(a), Dict(b));
    }
  }

  /** Sorting the keys decides sameness: it forgets the order of keys at every level, and nothing more. */
  lemma {:induction false} SameExactlyWhenSorted(p: Platform, v: Value, w: Value)
    requires Printable(p, v) && Printable(p, w)
    ensures Same(v, w) <==> SortKeys(v) == SortKeys(w)
    decreases v, 2
  {
    match v
    case List(items) =>
      if w.List? && |w.items| == |items| {
        forall i | 0 <= i < |items| { SameExactlyWhenSorted(p, items[i], w.items[i]); }
        if SortItems(items) == SortItems(w.items) {
          forall i | 0 <= i < |items| ensures Same(items[i], w.items[i]) {
            assert SortItems(items)[i] == SortItems(w.items)[i];
          }
        } else {
          assert SortItems(items) == SortItems(w.items)
             <==> forall i | 0 <= i < |items| :: SortItems(items)[i] == SortItems(w.items)[i];
        }
      } else if w.List? {
        assert |SortItems(items)| != |SortItems(w.items)|;
      }
    case Dict(entries) =>
      if w.Dict? { DictsExactlyWhenSorted(p, entries, w.entries); }
    case _ =>
  }

  // ------------------------------------------------------------------ dicts, entry by entry

  /** Depth only bounds normalisation: what is accepted deeper is accepted alike higher up. */
  lemma {:induction false} DepthOnlyBounds(p: Platform, v: Value, depth: nat, higher: nat)
    requires higher <= depth && Normalize(p, v, depth).Ok?
    ensures Normalize(p, v, higher) == Normalize(p, v, depth)
    decreases v
  {
    match v
    case List(items) =>
      ItemsPointwise(p, items, depth + 1);
      var r := NormalizeItems(p, items, depth + 1).value;
      forall i | 0 <= i < |items| { DepthOnlyBounds(p, items[i], depth + 1, higher + 1); }
      ItemsCompose(p, items, r, higher + 1);
    case Dict(entries) =>
      EntriesPointwise(p, entries, depth + 1);
      var r := NormalizeEntries(p, entries, depth + 1).value;
      forall i | 0 <= i < |entries| ensures EntryBecomes(p, entries[i], r[i], higher + 1) {
        assert EntryBecomes(p, entries[i], r[i], depth + 1);
        DepthOnlyBounds(p, entries[i].value, depth + 1, higher + 1);
      }
      EntriesCompose(p, entries, r, higher + 1);
    case _ =>
  }

  /** The normal form of an accepted value, at whatever depth it was accepted. */
  function NormalOf(p: Platform, v: Value): Value {
    match Normalize(p, v, 0)
    case Ok(n) => n
    case Err(_) => Opaque
  }

  ghost predicate Corresponds(p: Platform, x: Entry, y: Entry) {
    p.nfc(x.key) == p.nfc(y.key) && Same(NormalOf(p, x.value), NormalOf(p, y.value))
  }

  ghost predicate HasCounterpart(p: Platform, x: Entry, others: seq<Entry>) {
    exists j | 0 <= j < |others| :: Corresponds(p, x, others[j])
  }

  ghost predicate HasSpelling(p: Platform, entries: seq<Entry>, key: string) {
    exists i | 0 <= i < |entries| :: p.nfc(entries[i].key) == p.nfc(key)
  }

  /** Each entry of the one has a counterpart in the other, and the other has no further key. */
  ghost predicate EntriesCorrespond(p: Platform, a: seq<Entry>, b: seq<Entry>) {
    && (forall i | 0 <= i < |a| :: HasCounterpart(p, a[i], b))
    && (forall j | 0 <= j < |b| :: HasSpelling(p, a, b[j].key))
  }

  /** The entry `r` is the normal form of the entry `e`. */
  ghost predicate IsNormalOf(p: Platform, e: Entry, r: Entry) {
    r.key == p.nfc(e.key) && NormalOf(p, e.value) == r.value
  }

  ghost predicate AllNormalOf(p: Platform, a: seq<Entry>, na: seq<Entry>) {
    |na| == |a| && DistinctKeys(na) && forall i | 0 <= i < |a| :: IsNormalOf(p, a[i], na[i])
  }

  lemma {:induction false} SameAtIndex(e: Entry, others: seq<Entry>, j: nat)
    requires DistinctKeys(others) && j < |others| && others[j].key == e.key
    ensures HasKey(others, e.key) && (SameAt(e, others) <==> Same(e.value, others[j].value))
  {
    LookupAt(others, j);
  }

  lemma {:induction false} NormalEntriesAt(p: Platform, a: seq<Entry>, na: seq<Entry>, depth: nat)
    requires NormalizeEntries(p, a, depth) == Ok(na)
    ensures AllNormalOf(p, a, na)
  {
    EntriesPointwise(p, a, depth);
    forall i | 0 <= i < |a| ensures IsNormalOf(p, a[i], na[i]) {
      assert EntryBecomes(p, a[i], na[i], depth);
      DepthOnlyBounds(p, a[i].value, depth, 0);
    }
  }

  lemma {:induction false} CounterpartExactlyWhen(p: Platform, x: Entry, nx: Entry, b: seq<Entry>, nb: seq<Entry>)
    requires IsNormalOf(p, x, nx) && AllNormalOf(p, b, nb)
    ensures HasCounterpart(p, x, b) <==> HasKey(nb, nx.key) && SameAt(nx, nb)
  {
    if HasCounterpart(p, x, b) {
      var j :| 0 <= j < |b| && Corresponds(p, x, b[j]);
      assert IsNormalOf(p, b[j], nb[j]);
      SameAtIndex(nx, nb, j);
    }
    if HasKey(nb, nx.key) && SameAt(nx, nb) {
      var j :| 0 <= j < |nb| && nb[j].key == nx.key;
      assert IsNormalOf(p, b[j], nb[j]);
      SameAtIndex(nx, nb, j);
      assert Corresponds(p, x, b[j]);
    }
  }

  lemma {:induction false} SpellingExactlyWhen(p: Platform, a: seq<Entry>, na: seq<Entry>, y: Entry, ny: Entry)
    requires AllNormalOf(p, a, na) && IsNormalOf(p, y, ny)
    ensures HasSpelling(p, a, y.key) <==> HasKey(na, ny.key)
  {
    if HasSpelling(p, a, y.key) {
      var i :| 0 <= i < |a| && p.nfc(a[i].key) == p.nfc(y.key);
      assert IsNormalOf(p, a[i], na[i]);
    }
    if HasKey(na, ny.key) {
      var i :| 0 <= i < |na| && na[i].key == ny.key;
      assert IsNormalOf(p, a[i], na[i]);
    }
  }

  lemma {:induction false} SameExactlyWhenCorresponding(p: Platform, a: seq<Entry>, b: seq<Entry>, na: seq<Entry>,
                                                        nb: seq<Entry>)
    requires AllNormalOf(p, a, na) && AllNormalOf(p, b, nb)
    ensures Same(Dict(na), Dict(nb)) <==> EntriesCorrespond(p, a, b)
  {
    forall i | 0 <= i < |a| ensures HasCounterpart(p, a[i], b) <==> HasKey(nb, na[i].key) && SameAt(na[i], nb) {
      assert IsNormalOf(p, a[i], na[i]);
      CounterpartExactlyWhen(p, a[i], na[i], b, nb);
    }
    forall j | 0 <= j < |b| ensures HasSpelling(p, a, b[j].key) <==> HasKey(na, nb[j].key) {
      assert IsNormalOf(p, b[j], nb[j]);
      SpellingExactlyWhen(p, a, na, b[j], nb[j]);
    }
  }

  /** Two dicts are the same after normalisation exactly when their entries correspond. */
  lemma {:induction false} DictsCorrespond(p: Platform, a: seq<Entry>, b: seq<Entry>, depth: nat)
    requires Normalize(p, Dict(a), depth).Ok? && Normalize(p, Dict(b), depth).Ok?
    ensures Same(NormalOf(p, Dict(a)), NormalOf(p, Dict(b))) <==> EntriesCorrespond(p, a, b)
  {
    DepthOnlyBounds(p, Dict(a), depth, 0);
    DepthOnlyBounds(p, Dict(b), depth, 0);
    var na, nb := NormalizeEntries(p, a, depth + 1).value, NormalizeEntries(p, b, depth + 1).value;
    NormalEntriesAt(p, a, na, depth + 1);
    NormalEntriesAt(p, b, nb, depth + 1);
    SameExactlyWhenCorresponding(p, a, b, na, nb);
  }

  ghost predicate SameFields(p: Platform, a: seq<Entry>, b: seq<Entry>)
    requires |a| == |b|
  {
    forall i | 0 <= i < |a| :: Same(NormalOf(p, a[i].value), NormalOf(p, b[i].value))
  }

  lemma {:induction false} CorrespondingFields(p: Platform, a: seq<Entry>, b: seq<Entry>)
    requires KeysStayApart(p, b) && |a| == |b| && forall i | 0 <= i < |a| :: a[i].key == b[i].key
    ensures EntriesCorrespond(p, a, b) <==> SameFields(p, a, b)
  {
    if EntriesCorrespond(p, a, b) {
      forall i | 0 <= i < |a| ensures Same(NormalOf(p, a[i].value), NormalOf(p, b[i].value)) {
        assert HasCounterpart(p, a[i], b);
        var j :| 0 <= j < |b| && Corresponds(p, a[i], b[j]);
        assert i == j;
      }
    }
    if SameFields(p, a, b) {
      forall i | 0 <= i < |a| ensures HasCounterpart(p, a[i], b) { assert Corresponds(p, a[i], b[i]); }
      forall j | 0 <= j < |b| ensures HasSpelling(p, a, b[j].key) { assert a[j].key == b[j].key; }
    }
  }

  /** Two dicts with the same fields in the same order are the same exactly when each field is. */
  lemma {:induction false} RecordsSame(p: Platform, a: seq<Entry>, b: seq<Entry>, depth: nat)
    requires Normalize(p, Dict(a), depth).Ok? && Normalize(p, Dict(b), depth).Ok?
    requires |a| == |b| && forall i | 0 <= i < |a| :: a[i].key == b[i].key
    ensures Same(NormalOf(p, Dict(a)), NormalOf(p, Dict(b))) <==> SameFields(p, a, b)
  {
    DictsCorrespond(p, a, b, depth);
    EntriesAccepted(p, b, depth + 1);
    CorrespondingFields(p, a, b);
  }

  // ------------------------------------------------------------------ lists, item by item

  ghost predicate AllSame(p: Platform, xs: seq<Value>, ys: seq<Value>) {
    |xs| == |ys| && forall i | 0 <= i < |xs| :: Same(NormalOf(p, xs[i]), NormalOf(p, ys[i]))
  }

  ghost predicate AllAccepted(p: Platform, xs: seq<Value>, depth: nat) {
    forall i | 0 <= i < |xs| :: Normalize(p, xs[i], depth).Ok?
  }

  lemma {:induction false} ListsSame(p: Platform, xs: seq<Value>, ys: seq<Value>, depth: nat)
    requires Normalize(p, List(xs), depth).Ok? && Normalize(p, List(ys), depth).Ok?
    ensures Same(NormalOf(p, List(xs)), NormalOf(p, List(ys))) <==> AllSame(p, xs, ys)
    ensures AllAccepted(p, xs, depth + 1) && AllAccepted(p, ys, depth + 1)
  {
    NormalList(p, xs, depth);
    NormalList(p, ys, depth);
    ItemsPointwise(p, xs, depth + 1);
    ItemsPointwise(p, ys, depth + 1);
  }

  lemma {:induction false} NormalList(p: Platform, xs: seq<Value>, depth: nat)
    requires Normalize(p, List(xs), depth).Ok?
    ensures var n := NormalOf(p, List(xs));
            n.List? && |n.items| == |xs| && forall i | 0 <= i < |xs| :: n.items[i] == NormalOf(p, xs[i])
  {
    DepthOnlyBounds(p, List(xs), depth, 0);
    ItemsPointwise(p, xs, 1);
    forall i | 0 <= i < |xs| { DepthOnlyBounds(p, xs[i], 1, 0); }
  }

  // ------------------------------------------------------------------ sorting before normalising

  /** `b` answers every key as `a` does, with sorted values. */
  ghost predicate Resorted(a: seq<Entry>, b: seq<Entry>) {
    && DistinctKeys(a) && DistinctKeys(b) && |a| == |b|
    && forall key :: Lookup(b, key) == MapSort(Lookup(a, key))
  }

  lemma {:induction false} SortedLookup(entries: seq<Entry>, key: string)
    requires DistinctKeys(entries)
    ensures Lookup(SortEntries(entries), key) == Lookup(entries, key)
  {
    SortIsPermutation(entries);
    SortKeepsDistinct(entries);
    EntriesAreLookups(SortEntries(entries), entries);
  }

  lemma {:induction false} SortIsResorted(entries: seq<Entry>)
    requires DistinctKeys(entries)
    ensures Resorted(entries, SortEntries(SortValues(entries)))
  {
    var values := SortValues(entries);
    SortValuesKeepsDistinct(entries);
    SortKeepsDistinct(values);
    SortIsPermutation(values);
    forall key ensures Lookup(SortEntries(values), key) == MapSort(Lookup(entries, key)) {
      SortedLookup(values, key);
      LookupSorted(entries, key);
    }
  }

  /** The entry of `a` behind an entry of `b`. */
  lemma {:induction false} ResortedFrom(a: seq<Entry>, b: seq<Entry>, j: nat) returns (i: nat)
    requires Resorted(a, b) && j < |b|
    ensures i < |a| && b[j] == Entry(a[i].key, SortKeys(a[i].value))
  {
    LookupAt(b, j);
    assert Lookup(b, b[j].key) == MapSort(Lookup(a, b[j].key));
    LookupFinds(a, b[j].key);
    i :| 0 <= i < |a| && a[i] == Entry(b[j].key, Lookup(a, b[j].key).value);
  }

  lemma {:induction false} ResortedTo(a: seq<Entry>, b: seq<Entry>, i: nat) returns (j: nat)
    requires Resorted(a, b) && i < |a|
    ensures j < |b| && b[j] == Entry(a[i].key, SortKeys(a[i].value))
  {
    LookupAt(a, i);
    assert Lookup(b, a[i].key) == MapSort(Lookup(a, a[i].key));
    LookupFinds(b, a[i].key);
    j :| 0 <= j < |b| && b[j] == Entry(a[i].key, Lookup(b, a[i].key).value);
  }

  lemma {:induction false} ResortedStaysApart(p: Platform, a: seq<Entry>, b: seq<Entry>)
    requires Resorted(a, b) && KeysStayApart(p, a)
    ensures KeysStayApart(p, b)
  {
    forall j, k | 0 <= j < k < |b| ensures p.nfc(b[j].key) != p.nfc(b[k].key) {
      var x := ResortedFrom(a, b, j);
      var y := ResortedFrom(a, b, k);
      assert x != y;
    }
  }

  ghost predicate ValuesKept(p: Platform, a: seq<Entry>, depth: nat) {
    forall i | 0 <= i < |a| ::
      Acceptable(p, SortKeys(a[i].value), depth) && Same(NormalOf(p, SortKeys(a[i].value)), NormalOf(p, a[i].value))
  }

  lemma {:induction false} ResortedCorrespond(p: Platform, a: seq<Entry>, b: seq<Entry>, depth: nat)
    requires Resorted(a, b) && ValuesKept(p, a, depth)
    ensures EntriesCorrespond(p, b, a)
  {
    forall j | 0 <= j < |b| ensures HasCounterpart(p, b[j], a) {
      var i := ResortedFrom(a, b, j);
      assert Corresponds(p, b[j], a[i]);
    }
    forall i | 0 <= i < |a| ensures HasSpelling(p, b, a[i].key) {
      var j := ResortedTo(a, b, i);
      assert p.nfc(b[j].key) == p.nfc(a[i].key);
    }
  }

  lemma {:induction false} ResortedAcceptable(p: Platform, a: seq<Entry>, b: seq<Entry>, depth: nat)
    requires Resorted(a, b) && ValuesKept(p, a, depth + 1) && Acceptable(p, Dict(a), depth)
    ensures Acceptable(p, Dict(b), depth)
  {
    ResortedStaysApart(p, a, b);
    forall j | 0 <= j < |b| ensures Acceptable(p, b[j].value, depth + 1) {
      var i := ResortedFrom(a, b, j);
    }
  }

  /** A dict whose values are sorted, in whatever order of keys, is the same dict. */
  lemma {:induction false} ResortedDict(p: Platform, a: seq<Entry>, b: seq<Entry>, depth: nat)
    requires Printable(p, Dict(a)) && Acceptable(p, Dict(a), depth) && Resorted(a, b)
    ensures Acceptable(p, Dict(b), depth) && Same(NormalOf(p, Dict(b)), NormalOf(p, Dict(a)))
    decreases a, 0
  {
    forall i | 0 <= i < |a|
      ensures Acceptable(p, SortKeys(a[i].value), depth + 1)
      ensures Same(NormalOf(p, SortKeys(a[i].value)), NormalOf(p, a[i].value))
    {
      SortFirst(p, a[i].value, depth + 1);
    }
    ResortedAcceptable(p, a, b, depth);
    ResortedCorrespond(p, a, b, depth + 1);
    AcceptedExactlyWhen(p, Dict(a), depth);
    AcceptedExactlyWhen(p, Dict(b), depth);
    DictsCorrespond(p, b, a, depth);
  }

  lemma {:induction false} SortItemsFirst(p: Platform, items: seq<Value>, depth: nat)
    requires Acceptable(p, List(items), depth)
    requires forall i | 0 <= i < |items| ::
               Acceptable(p, SortKeys(items[i]), depth + 1)
               && Same(NormalOf(p, SortKeys(items[i])), NormalOf(p, items[i]))
    ensures Acceptable(p, List(SortItems(items)), depth)
    ensures Same(NormalOf(p, List(SortItems(items))), NormalOf(p, List(items)))
  {
    var sorted := SortItems(items);
    assert Acceptable(p, List(sorted), depth);
    AcceptedExactlyWhen(p, List(items), depth);
    AcceptedExactlyWhen(p, List(sorted), depth);
    ListsSame(p, sorted, items, depth);
  }

  lemma {:induction false} SortItemFirst(p: Platform, v: Value, i: nat, depth: nat)
    requires v.List? && i < |v.items| && Printable(p, v) && Acceptable(p, v, depth)
    ensures Acceptable(p, SortKeys(v.items[i]), depth + 1)
    ensures Same(NormalOf(p, SortKeys(v.items[i])), NormalOf(p, v.items[i]))
    decreases v, 1
  {
    SortFirst(p, v.items[i], depth + 1);
  }

  /** Sorting the keys before normalising changes neither acceptance nor the value. */
  lemma {:induction false} SortFirst(p: Platform, v: Value, depth: nat)
    requires Printable(p, v) && Acceptable(p, v, depth)
    ensures Acceptable(p, SortKeys(v), depth) && Same(NormalOf(p, SortKeys(v)), NormalOf(p, v))
    decreases v, 2
  {
    if v.List? {
      forall i | 0 <= i < |v.items|
        ensures Acceptable(p, SortKeys(v.items[i]), depth + 1)
        ensures Same(NormalOf(p, SortKeys(v.items[i])), NormalOf(p, v.items[i]))
      {
        SortItemFirst(p, v, i, depth);
      }
      SortItemsFirst(p, v.items, depth);
    } else if v.Dict? {
      SortIsResorted(v.entries);
      ResortedDict(p, v.entries, SortEntries(SortValues(v.entries)), depth);
    } else {
      ScalarsStay(p, v);
    }
  }

  lemma {:induction false} ScalarsStay(p: Platform, v: Value)
    requires !v.List? && !v.Dict?
    ensures SortKeys(v) == v && Same(NormalOf(p, v), NormalOf(p, v))
  {
  }

  // ------------------------------------------------------------------ the text

  lemma {:induction false} CanonIsPrintable(p: Platform, v: Value)
    requires FloatsPrint(p, v) && Canon(p, v).Ok?
    ensures Printable(p, Canon(p, v).value)
  {
    NormalizeKeepsFloats(p, v, 0);
    SortKeysPrintable(p, Normalize(p, v, 0).value);
  }

  /** Reading a canonical text back, in either parsing mode, gives the value it was printed from. */
  lemma {:induction false} DumpsParses(p: Platform, mode: Mode, v: Value)
    requires FloatsPrint(p, v) && Dumps(p, v).Ok?
    ensures Parse(p, mode, Dumps(p, v).value) == Some(Canon(p, v).value)
  {
    CanonIsPrintable(p, v);
    PrintParses(p, mode, Canon(p, v).value, Compact);
  }

  /** The printer is uniquely decodable: two accepted values have one text exactly when their normal
      forms are the same value up to the order of keys. */
  lemma {:induction false} OneTextPerValue(p: Platform, v: Value, w: Value)
    requires FloatsPrint(p, v) && FloatsPrint(p, w) && Dumps(p, v).Ok? && Dumps(p, w).Ok?
    ensures Dumps(p, v) == Dumps(p, w) <==> Same(Normalize(p, v, 0).value, Normalize(p, w, 0).value)
  {
    DumpsParses(p, Strict, v);
    DumpsParses(p, Strict, w);
    NormalizeKeepsFloats(p, v, 0);
    NormalizeKeepsFloats(p, w, 0);
    SameExactlyWhenSorted(p, Normalize(p, v, 0).value, Normalize(p, w, 0).value);
  }

  lemma {:induction false} PrintableFloats(p: Platform, v: Value)
    requires Printable(p, v)
    ensures FloatsPrint(p, v)
    decreases v
  {
    match v
    case List(items) => forall i | 0 <= i < |items| { PrintableFloats(p, items[i]); }
    case Dict(entries) => forall i | 0 <= i < |entries| { PrintableFloats(p, entries[i].value); }
    case _ =>
  }

  /** A dict read back from a file with its keys sorted has the text it had before. */
  lemma {:induction false} DumpsResorted(p: Platform, a: seq<Entry>, b: seq<Entry>)
    requires Printable(p, Dict(a)) && Printable(p, Dict(b)) && Dumps(p, Dict(a)).Ok? && Resorted(a, b)
    ensures Dumps(p, Dict(b)) == Dumps(p, Dict(a))
  {
    AcceptedExactlyWhen(p, Dict(a), 0);
    ResortedDict(p, a, b, 0);
    AcceptedExactlyWhen(p, Dict(b), 0);
    PrintableFloats(p, Dict(a));
    PrintableFloats(p, Dict(b));
    OneTextPerValue(p, Dict(b), Dict(a));
  }

  /** `loads` inverts `dumps` up to key order, exactly on the texts that fit its bound: `dumps` has
      none of its own. */
  lemma {:induction false} LoadsInvertsDumps(p: Platform, v: Value)
    requires FloatsPrint(p, v) && Dumps(p, v).Ok?
    ensures var text := Dumps(p, v).value;
            Loads(p, text) == if |text| > 262144 then Err(TooLarge) else Ok(Canon(p, v).value)
    ensures Same(Normalize(p, v, 0).value, Canon(p, v).value)
  {
    DumpsParses(p, Strict, v);
    var n := Normalize(p, v, 0).value;
    NormalizeKeepsFloats(p, v, 0);
    SortKeysPrintable(p, n);
    SortTwice(p, n);
    SameExactlyWhenSorted(p, n, SortKeys(n));
  }

  lemma {:induction false} ControlsGrow(s: string, rest: string)
    requires forall i | 0 <= i < |s| :: s[i] == '\U{0001}'
    ensures |StringTo(s, rest)| == 6 * |s| + 1 + |rest|
  {
    if s != "" { ControlsGrow(s[1..], rest); }
  }

  /** A text of the greatest permitted length, of characters that JSON writes with six. */
  function Controls(): (s: string)
    ensures |s| == MAX_STRING && forall i | 0 <= i < |s| :: s[i] == '\U{0001}'
  {
    seq(MAX_STRING, i => '\U{0001}')
  }

  /** A value that `dumps` accepts and whose text `loads` refuses. */
  lemma {:induction false} DumpsCanOutgrowLoads(p: Platform)
    requires AsciiStays(p)
    ensures Dumps(p, Str(Controls())).Ok? && Loads(p, Dumps(p, Str(Controls())).value) == Err(TooLarge)
  {
    assert IsAscii(Controls());
    TextOfString(p, Controls());
    ControlsGrow(Controls(), "");
  }

  lemma {:induction false} TextOfString(p: Platform, s: string)
    requires p.nfc(s) == s && |s| <= MAX_STRING
    ensures Dumps(p, Str(s)) == Ok("\"" + StringTo(s, ""))
  {
  }

  lemma {:induction false} SortTwice(p: Platform, v: Value)
    requires Printable(p, v)
    ensures SortKeys(SortKeys(v)) == SortKeys(v)
    decreases v
  {
    match v
    case List(items) => forall i | 0 <= i < |items| { SortTwice(p, items[i]); }
    case Dict(entries) => SortDictTwice(p, entries);
    case _ =>
  }

  lemma {:induction false} SortDictTwice(p: Platform, entries: seq<Entry>)
    requires Printable(p, Dict(entries))
    ensures SortKeys(SortKeys(Dict(entries))) == SortKeys(Dict(entries))
    decreases entries, 0
  {
    var values := SortValues(entries);
    var sorted := SortEntries(values);
    forall i | 0 <= i < |entries| ensures Fixed(values[i]) { SortTwice(p, entries[i].value); }
    SortKeeps(values, (e: Entry) => Fixed(e));
    assert forall i | 0 <= i < |sorted| :: Fixed(sorted[i]);
    assert SortValues(sorted) == sorted;
    SortValuesKeepsDistinct(entries);
    SortIsPermutation(values);
    SortIsPermutation(sorted);
    SortIsSorted(values);
    SortIsSorted(sorted);
    DistinctKeysDecide(values);
    SortedIsUnique(SortEntries(sorted), sorted);
  }

  predicate Fixed(e: Entry) {
    SortKeys(e.value) == e.value
  }

  /** The canonical value has the text it was read from, unless a string outgrew the limit; then it
      has none. */
  lemma {:induction false} CanonicalTextIsStable(p: Platform, v: Value)
    requires NfcSettles(p) && FloatsPrint(p, v) && Dumps(p, v).Ok?
    ensures Dumps(p, Canon(p, v).value)
         == if ShortStrings(Normalize(p, v, 0).value) then Dumps(p, v) else Err(StringTooLong)
  {
    var n := Normalize(p, v, 0).value;
    NormalizeYieldsNormal(p, v, 0);
    SortKeysNormal(p, n, 0);
    SortKeysShort(n);
    NormalStays(p, SortKeys(n), 0);
    NormalizeKeepsFloats(p, v, 0);
    SortTwice(p, n);
  }

  // ------------------------------------------------------------------ what the strict parser refuses

  lemma {:induction false} RepeatIsFound(pairs: seq<Entry>)
    ensures FirstRepeat(pairs) <==> !DistinctKeys(pairs)
  {
    if pairs != [] {
      var shorter := pairs[..|pairs| - 1];
      RepeatIsFound(shorter);
      if FirstRepeat(shorter) {
        var i, j :| 0 <= i < j < |shorter| && shorter[i].key == shorter[j].key;
        assert pairs[i].key == pairs[j].key;
      }
      if !FirstRepeat(pairs) {
        forall i, j | 0 <= i < j < |pairs| ensures pairs[i].key != pairs[j].key {
          assert pairs[i] == shorter[i];
          if j < |shorter| { assert pairs[j] == shorter[j]; }
        }
      }
    }
  }

  /** Whatever the strict parser accepts, the plain one reads as the same value: there is no text
      that `loads` takes and json.loads understands differently. */
  lemma {:induction false} StrictAgreesWithPlain(p: Platform, s: string)
    requires ParseValue(p, Strict, s).Got?
    ensures ParseValue(p, Plain, s) == ParseValue(p, Strict, s)
    decreases |s|, 1
  {
    if s[0] == '{' {
      var t := SkipSpace(s[1..]);
      if !Starts(t, '}') {
        MembersAgree(p, t);
      }
    } else if s[0] == '[' {
      var t := SkipSpace(s[1..]);
      if !Starts(t, ']') {
        ItemsAgree(p, t);
      }
    }
  }

  lemma {:induction false} ItemsAgree(p: Platform, s: string)
    requires ParseItems(p, Strict, s).Got?
    ensures ParseItems(p, Plain, s) == ParseItems(p, Strict, s)
    decreases |s|, 2
  {
    StrictAgreesWithPlain(p, s);
    var t := SkipSpace(ParseValue(p, Strict, s).rest);
    if !Starts(t, ']') { ItemsAgree(p, SkipSpace(t[1..])); }
  }

  lemma {:induction false} MembersAgree(p: Platform, s: string)
    requires ParseMembers(p, Strict, s).Got?
    ensures ParseMembers(p, Plain, s) == ParseMembers(p, Strict, s)
    decreases |s|, 2
  {
    var colon := SkipSpace(ParseString(s[1..]).rest);
    var text := SkipSpace(colon[1..]);
    StrictAgreesWithPlain(p, text);
    var t := SkipSpace(ParseValue(p, Strict, text).rest);
    if !Starts(t, '}') { MembersAgree(p, SkipSpace(t[1..])); }
  }

  /** What `loads` accepts, json.loads reads alike. */
  lemma {:induction false} LoadsIsUnambiguous(p: Platform, text: string)
    requires Loads(p, text).Ok?
    ensures Parse(p, Plain, text) == Some(Loads(p, text).value)
  {
    StrictAgreesWithPlain(p, SkipSpace(text));
  }
}
