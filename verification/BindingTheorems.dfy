/** The argument digest is a complete invariant: it agrees exactly when the calls are equivalent
    under what was declared, and the declarations agree. */
module BindingTheorems {
  import opened Wrappers
  import opened Json
  import opened JsonRoundTrip
  import opened Sorting
  import opened Canonical
  import opened CanonicalTheorems
  import opened Binding

  /** The interpreter's promises: NFC settles, it leaves ASCII alone, and a converted integer prints as a float. */
  ghost predicate Faithful(env: Interpreter) {
    && NfcSettles(env.p) && AsciiStays(env.p)
    && forall n :: env.floatOf(n).Some? ==> IsFloatText(env.p, env.floatOf(n).value)
  }

  /** No two of these texts share a digest. Nothing is asked of any other text. */
  ghost predicate NoCollision(sha: Sha, texts: set<string>) {
    forall s, t | s in texts && t in texts && sha(s) == sha(t) :: s == t
  }

  // ------------------------------------------------------------------ sorting by digest

  function CanonOf(p: Platform, v: Value): Value {
    SortKeys(NormalOf(p, v))
  }

  function Canons(p: Platform, items: seq<Value>): (r: seq<Value>)
    ensures |r| == |items| && forall i | 0 <= i < |items| :: r[i] == CanonOf(p, items[i])
  {
    seq(|items|, i requires 0 <= i < |items| => CanonOf(p, items[i]))
  }

  /** Canonical values, each under the digest of its text. */
  function Keyed(sha: Sha, canons: seq<Value>): (r: seq<Entry>)
    ensures |r| == |canons| && forall i | 0 <= i < |canons| :: r[i] == Entry(sha(Print(canons[i], Compact)), canons[i])
  {
    if canons == [] then [] else [Entry(sha(Print(canons[0], Compact)), canons[0])] + Keyed(sha, canons[1..])
  }

  lemma {:induction false} InsertCommutes(e: Entry, sorted: seq<Entry>)
    ensures SortValues(Insert(e, sorted)) == Insert(Entry(e.key, SortKeys(e.value)), SortValues(sorted))
  {
    if sorted != [] {
      if AtMost(e.key, sorted[0].key) {
        assert ([e] + sorted)[1..] == sorted;
      } else {
        InsertCommutes(e, sorted[1..]);
        assert ([sorted[0]] + Insert(e, sorted[1..]))[1..] == Insert(e, sorted[1..]);
      }
    }
  }

  /** A stable sort looks at nothing but the keys. */
  lemma {:induction false} SortCommutes(entries: seq<Entry>)
    ensures SortValues(SortEntries(entries)) == SortEntries(SortValues(entries))
  {
    if entries != [] {
      SortCommutes(entries[1..]);
      InsertCommutes(entries[0], SortEntries(entries[1..]));
    }
  }

  lemma {:induction false} KeyedCount(sha: Sha, canons: seq<Value>, e: Entry)
    ensures multiset(Keyed(sha, canons))[e]
         == if e.key == sha(Print(e.value, Compact)) then multiset(canons)[e.value] else 0
  {
    if canons != [] {
      KeyedCount(sha, canons[1..], e);
      assert canons == [canons[0]] + canons[1..];
    }
  }

  lemma {:induction false} KeyedKeepsMultisets(sha: Sha, a: seq<Value>, b: seq<Value>)
    ensures multiset(Keyed(sha, a)) == multiset(Keyed(sha, b)) <==> multiset(a) == multiset(b)
  {
    if multiset(a) == multiset(b) {
      forall e ensures multiset(Keyed(sha, a))[e] == multiset(Keyed(sha, b))[e] {
        KeyedCount(sha, a, e);
        KeyedCount(sha, b, e);
      }
      assert multiset(Keyed(sha, a)) == multiset(Keyed(sha, b));
    }
    if multiset(Keyed(sha, a)) == multiset(Keyed(sha, b)) {
      forall c ensures multiset(a)[c] == multiset(b)[c] {
        KeyedCount(sha, a, Entry(sha(Print(c, Compact)), c));
        KeyedCount(sha, b, Entry(sha(Print(c, Compact)), c));
      }
      assert multiset(a) == multiset(b);
    }
  }

  function Texts(canons: seq<Value>): set<string> {
    set c | c in canons :: Print(c, Compact)
  }

  ghost predicate AllPrintable(p: Platform, values: seq<Value>) {
    forall i | 0 <= i < |values| :: Printable(p, values[i])
  }

  lemma {:induction false} TextsDecide(p: Platform, v: Value, w: Value)
    requires Printable(p, v) && Printable(p, w) && Print(v, Compact) == Print(w, Compact)
    ensures v == w
  {
    PrintParses(p, Plain, v, Compact);
    PrintParses(p, Plain, w, Compact);
  }

  lemma {:induction false} DigestsDecide(p: Platform, sha: Sha, a: seq<Value>, b: seq<Value>)
    requires AllPrintable(p, a) && AllPrintable(p, b) && NoCollision(sha, Texts(a) + Texts(b))
    ensures KeysDecide(multiset(Keyed(sha, a)) + multiset(Keyed(sha, b)))
  {
    var all := multiset(Keyed(sha, a)) + multiset(Keyed(sha, b));
    forall e, f | e in all && f in all && e.key == f.key ensures e == f {
      KeyedIn(p, sha, a, b, e);
      KeyedIn(p, sha, a, b, f);
      TextsDecide(p, e.value, f.value);
    }
  }

  lemma {:induction false} KeyedIn(p: Platform, sha: Sha, a: seq<Value>, b: seq<Value>, e: Entry)
    requires AllPrintable(p, a) && AllPrintable(p, b) && e in multiset(Keyed(sha, a)) + multiset(Keyed(sha, b))
    ensures e.key == sha(Print(e.value, Compact)) && Print(e.value, Compact) in Texts(a) + Texts(b)
            && Printable(p, e.value)
  {
    assert e in Keyed(sha, a) || e in Keyed(sha, b);
    if e in Keyed(sha, a) {
      var i :| 0 <= i < |a| && Keyed(sha, a)[i] == e;
      assert e.value in a;
    } else {
      var i :| 0 <= i < |b| && Keyed(sha, b)[i] == e;
      assert e.value in b;
    }
  }

  /** Sorting canonical values by digest decides their multisets. */
  lemma {:induction false} SortedByDigestDecides(p: Platform, sha: Sha, a: seq<Value>, b: seq<Value>)
    requires AllPrintable(p, a) && AllPrintable(p, b) && NoCollision(sha, Texts(a) + Texts(b))
    ensures SortEntries(Keyed(sha, a)) == SortEntries(Keyed(sha, b)) <==> multiset(a) == multiset(b)
  {
    DigestsDecide(p, sha, a, b);
    SortForgetsOrder(Keyed(sha, a), Keyed(sha, b));
    KeyedKeepsMultisets(sha, a, b);
  }

  // ------------------------------------------------------------------ the list an unordered argument becomes

  lemma {:induction false} DigestedPointwise(env: Interpreter, items: seq<Value>)
    requires Digested(env, items).Ok?
    ensures var r := Digested(env, items).value;
            |r| == |items| && forall i | 0 <= i < |items| :: DigestedAt(env, items[i], r[i])
  {
    if items != [] { DigestedPointwise(env, items[1..]); }
  }

  ghost predicate DigestedAt(env: Interpreter, v: Value, e: Entry) {
    e.value == v && Digest(env.p, env.sha, v) == Ok(e.key)
  }

  /** The normal form of an accepted item is normalised again for its digest; if that succeeds it
      changes nothing. */
  lemma {:induction false} NormalDigest(env: Interpreter, v: Value, n: Value, e: Entry)
    requires NfcSettles(env.p) && Normalize(env.p, v, 0) == Ok(n) && DigestedAt(env, n, e)
    ensures Normalize(env.p, n, 0) == Ok(n) && e.key == env.sha(Print(CanonOf(env.p, v), Compact))
  {
    NormalizeYieldsNormal(env.p, v, 0);
    NormalStays(env.p, n, 0);
  }

  /** What `sorted(..., key=digest)` leaves, with the keys of every dict in order. */
  lemma {:induction false} UnorderedIsSorted(env: Interpreter, items: seq<Value>, keyed: seq<Entry>, normal: seq<Value>)
    requires NfcSettles(env.p) && NormalizeItems(env.p, items, 0) == Ok(normal) && Digested(env, normal) == Ok(keyed)
    ensures SortValues(keyed) == Keyed(env.sha, Canons(env.p, items))
    ensures SortValues(SortEntries(keyed)) == SortEntries(Keyed(env.sha, Canons(env.p, items)))
    ensures forall i | 0 <= i < |keyed| :: Normalize(env.p, keyed[i].value, 0) == Ok(keyed[i].value)
  {
    ItemsPointwise(env.p, items, 0);
    DigestedPointwise(env, normal);
    forall i | 0 <= i < |items|
      ensures SortValues(keyed)[i] == Keyed(env.sha, Canons(env.p, items))[i]
      ensures Normalize(env.p, keyed[i].value, 0) == Ok(keyed[i].value)
    {
      assert DigestedAt(env, normal[i], keyed[i]);
      NormalDigest(env, items[i], normal[i], keyed[i]);
    }
    assert SortValues(keyed) == Keyed(env.sha, Canons(env.p, items));
    SortCommutes(keyed);
  }

  predicate Settled(p: Platform, e: Entry) {
    Normalize(p, e.value, 0) == Ok(e.value)
  }

  lemma {:induction false} SettledListStays(p: Platform, sorted: seq<Entry>, depth: nat)
    requires (forall i | 0 <= i < |sorted| :: Settled(p, sorted[i])) && Normalize(p, List(Values(sorted)), depth).Ok?
    ensures NormalOf(p, List(Values(sorted))) == List(Values(sorted))
  {
    var items := Values(sorted);
    DepthOnlyBounds(p, List(items), depth, 0);
    ItemsPointwise(p, items, 1);
    var r := NormalizeItems(p, items, 1).value;
    forall i | 0 <= i < |items| ensures r[i] == items[i] {
      assert Settled(p, sorted[i]);
      DepthOnlyBounds(p, items[i], 1, 0);
    }
    assert r == items;
  }

  /** The canonical form of an unordered argument: its items' canonical forms, sorted by digest. */
  lemma {:induction false} UnorderedCanon(env: Interpreter, items: seq<Value>, depth: nat)
    requires NfcSettles(env.p) && SortByDigest(env, items).Ok?
             && Normalize(env.p, SortByDigest(env, items).value, depth).Ok?
    ensures CanonOf(env.p, SortByDigest(env, items).value)
         == List(Values(SortEntries(Keyed(env.sha, Canons(env.p, items)))))
  {
    var normal := NormalizeItems(env.p, items, 0).value;
    var keyed := Digested(env, normal).value;
    UnorderedIsSorted(env, items, keyed, normal);
    SortKeeps(keyed, (e: Entry) => Settled(env.p, e));
    var sorted := SortEntries(keyed);
    SettledListStays(env.p, sorted, depth);
    assert SortItems(Values(sorted)) == Values(SortValues(sorted));
  }

  lemma {:induction false} ValuesDecideKeyed(sha: Sha, a: seq<Entry>, b: seq<Entry>)
    requires forall i | 0 <= i < |a| :: UnderItsDigest(sha, a[i])
    requires forall i | 0 <= i < |b| :: UnderItsDigest(sha, b[i])
    ensures Values(a) == Values(b) <==> a == b
  {
    if Values(a) == Values(b) {
      assert |a| == |b|;
      forall i | 0 <= i < |a| ensures a[i] == b[i] {
        assert Values(a)[i] == Values(b)[i];
        assert UnderItsDigest(sha, a[i]) && UnderItsDigest(sha, b[i]);
      }
    }
  }

  predicate UnderItsDigest(sha: Sha, e: Entry) {
    e.key == sha(Print(e.value, Compact))
  }

  lemma {:induction false} CanonsPrintable(p: Platform, items: seq<Value>)
    requires NormalizeItems(p, items, 0).Ok? && forall i | 0 <= i < |items| :: FloatsPrint(p, items[i])
    ensures AllPrintable(p, Canons(p, items))
  {
    ItemsPointwise(p, items, 0);
    forall i | 0 <= i < |items| ensures Printable(p, Canons(p, items)[i]) {
      NormalizeKeepsFloats(p, items[i], 0);
      SortKeysPrintable(p, NormalOf(p, items[i]));
    }
  }

  lemma {:induction false} SortedUnderDigests(sha: Sha, canons: seq<Value>)
    ensures forall i | 0 <= i < |SortEntries(Keyed(sha, canons))| ::
              UnderItsDigest(sha, SortEntries(Keyed(sha, canons))[i])
  {
    SortKeeps(Keyed(sha, canons), (e: Entry) => UnderItsDigest(sha, e));
  }

  lemma {:induction false} SortedValuesDecide(p: Platform, sha: Sha, a: seq<Value>, b: seq<Value>)
    requires AllPrintable(p, a) && AllPrintable(p, b) && NoCollision(sha, Texts(a) + Texts(b))
    ensures Values(SortEntries(Keyed(sha, a))) == Values(SortEntries(Keyed(sha, b))) <==> multiset(a) == multiset(b)
  {
    SortedByDigestDecides(p, sha, a, b);
    SortedUnderDigests(sha, a);
    SortedUnderDigests(sha, b);
    ValuesDecideKeyed(sha, SortEntries(Keyed(sha, a)), SortEntries(Keyed(sha, b)));
  }

  /** UNORDERED binds multisets: two lists become the same argument exactly when they are permutations
      of each other as canonical values, with multiplicity counted. */
  lemma {:induction false} UnorderedBindsMultisets(env: Interpreter, v: seq<Value>, w: seq<Value>, depth: nat)
    requires NfcSettles(env.p)
    requires SortByDigest(env, v).Ok? && Normalize(env.p, SortByDigest(env, v).value, depth).Ok?
    requires SortByDigest(env, w).Ok? && Normalize(env.p, SortByDigest(env, w).value, depth).Ok?
    requires FloatsPrint(env.p, List(v)) && FloatsPrint(env.p, List(w))
    requires NoCollision(env.sha, Texts(Canons(env.p, v)) + Texts(Canons(env.p, w)))
    ensures CanonOf(env.p, SortByDigest(env, v).value) == CanonOf(env.p, SortByDigest(env, w).value)
       <==> multiset(Canons(env.p, v)) == multiset(Canons(env.p, w))
  {
    UnorderedCanon(env, v, depth);
    UnorderedCanon(env, w, depth);
    CanonsPrintable(env.p, v);
    CanonsPrintable(env.p, w);
    SortedValuesDecide(env.p, env.sha, Canons(env.p, v), Canons(env.p, w));
  }

  // ------------------------------------------------------------------ one argument

  /** What each rule promises to ignore, said without the rule's own algorithm. */
  ghost predicate SameUnder(env: Interpreter, how: Equivalence, v: Value, w: Value) {
    match how
    case Exact => Same(NormalOf(env.p, v), NormalOf(env.p, w))
    case Numeric => AsFloat(env, v) == AsFloat(env, w)
    case Unordered => v.List? && w.List? && multiset(Canons(env.p, v.items)) == multiset(Canons(env.p, w.items))
    case Trimmed => v.Str? && w.Str? && env.p.nfc(env.strip(v.s)) == env.p.nfc(env.strip(w.s))
    case CaseFolded => v.Str? && w.Str? && env.p.nfc(env.casefold(v.s)) == env.p.nfc(env.casefold(w.s))
  }

  /** The printed float of a number. */
  function AsFloat(env: Interpreter, v: Value): Option<FloatValue> {
    match v
    case Int(n) => (match env.floatOf(n) case Some(t) => Some(Finite(t)) case None => None)
    case Float(f) => Some(f)
    case _ => None
  }

  /** The texts whose digests order an argument's items. */
  function ItemTexts(env: Interpreter, how: Equivalence, v: Value): set<string> {
    if how.Unordered? && v.List? then Texts(Canons(env.p, v.items)) else {}
  }

  ghost predicate Bindable(env: Interpreter, how: Equivalence, v: Value, depth: nat) {
    FloatsPrint(env.p, v) && Apply(env, v, how).Ok? && Normalize(env.p, Apply(env, v, how).value, depth).Ok?
  }

  function Applied(env: Interpreter, how: Equivalence, v: Value): Value {
    match Apply(env, v, how)
    case Ok(w) => w
    case Err(_) => Opaque
  }

  /** Applying a rule yields a value that still prints. */
  lemma {:induction false} AppliedPrints(env: Interpreter, how: Equivalence, v: Value, depth: nat)
    requires Faithful(env) && Bindable(env, how, v, depth)
    ensures FloatsPrint(env.p, Applied(env, how, v))
  {
    if how.Unordered? {
      var normal := NormalizeItems(env.p, v.items, 0).value;
      var keyed := Digested(env, normal).value;
      ItemsPointwise(env.p, v.items, 0);
      DigestedPointwise(env, normal);
      forall i | 0 <= i < |keyed| ensures FloatsPrint(env.p, keyed[i].value) {
        assert DigestedAt(env, normal[i], keyed[i]);
        NormalizeKeepsFloats(env.p, v.items[i], 0);
        PrintableFloats(env.p, normal[i]);
      }
      var good := (e: Entry) => FloatsPrint(env.p, e.value);
      SortKeeps(keyed, good);
      forall i | 0 <= i < |SortEntries(keyed)| ensures FloatsPrint(env.p, SortEntries(keyed)[i].value) {
        assert good(SortEntries(keyed)[i]);
      }
    }
  }

  lemma {:induction false} NormalPrints(env: Interpreter, how: Equivalence, v: Value, depth: nat)
    requires Faithful(env) && Bindable(env, how, v, depth)
    ensures Printable(env.p, NormalOf(env.p, Applied(env, how, v)))
  {
    AppliedPrints(env, how, v, depth);
    DepthOnlyBounds(env.p, Applied(env, how, v), depth, 0);
    NormalizeKeepsFloats(env.p, Applied(env, how, v), 0);
  }

  /** Each rule makes two values one argument exactly when they differ in nothing but what it ignores. */
  lemma {:induction false} RuleMeans(env: Interpreter, how: Equivalence, v: Value, w: Value, depth: nat)
    requires Faithful(env) && Bindable(env, how, v, depth) && Bindable(env, how, w, depth)
    requires NoCollision(env.sha, ItemTexts(env, how, v) + ItemTexts(env, how, w))
    ensures Same(NormalOf(env.p, Applied(env, how, v)), NormalOf(env.p, Applied(env, how, w)))
       <==> SameUnder(env, how, v, w)
  {
    var av, aw := Applied(env, how, v), Applied(env, how, w);
    DepthOnlyBounds(env.p, av, depth, 0);
    DepthOnlyBounds(env.p, aw, depth, 0);
    match how
    case Unordered =>
      NormalPrints(env, how, v, depth);
      NormalPrints(env, how, w, depth);
      SameExactlyWhenSorted(env.p, NormalOf(env.p, av), NormalOf(env.p, aw));
      UnorderedBindsMultisets(env, v.items, w.items, depth);
    case _ =>
  }

  // ------------------------------------------------------------------ the whole call

  /** Two arguments of two calls: one name, and values that agree under the rules declared for it. Where
      the rules differ (a rule is looked up by the raw spelling of a name) the values they yield must agree. */
  ghost predicate ArgumentAgrees(env: Interpreter, pa: ArgumentPolicy, x: Entry, pb: ArgumentPolicy, y: Entry) {
    var hx, hy := RuleFor(pa, x.key), RuleFor(pb, y.key);
    && env.p.nfc(x.key) == env.p.nfc(y.key)
    && if hx == hy then SameUnder(env, hx, x.value, y.value)
       else Same(NormalOf(env.p, Applied(env, hx, x.value)), NormalOf(env.p, Applied(env, hy, y.value)))
  }

  ghost predicate HasAgreeing(env: Interpreter, pa: ArgumentPolicy, x: Entry, pb: ArgumentPolicy, b: seq<Entry>) {
    exists j | 0 <= j < |b| :: ArgumentAgrees(env, pa, x, pb, b[j])
  }

  ghost predicate ArgumentsAgree(env: Interpreter, pa: ArgumentPolicy, a: seq<Entry>, pb: ArgumentPolicy, b: seq<Entry>)
  {
    && (forall i | 0 <= i < |a| :: HasAgreeing(env, pa, a[i], pb, b))
    && (forall j | 0 <= j < |b| :: HasSpelling(env.p, a, b[j].key))
  }

  ghost predicate RuleAgrees(p: Platform, x: Rule, y: Rule) {
    p.nfc(x.name) == p.nfc(y.name) && x.how == y.how
  }

  ghost predicate Declares(p: Platform, policy: ArgumentPolicy, x: Rule) {
    exists j | 0 <= j < |policy| :: RuleAgrees(p, x, policy[j])
  }

  ghost predicate PoliciesAgree(p: Platform, pa: ArgumentPolicy, pb: ArgumentPolicy) {
    && (forall i | 0 <= i < |pa| :: Declares(p, pb, pa[i]))
    && (forall j | 0 <= j < |pb| :: Declares(p, pa, pb[j]))
  }

  lemma {:induction false} ArgumentsPointwise(env: Interpreter, policy: ArgumentPolicy, a: seq<Entry>)
    requires Arguments(env, policy, a).Ok?
    ensures var r := Arguments(env, policy, a).value;
            |r| == |a| && forall i | 0 <= i < |a| :: AppliedTo(env, policy, a[i], r[i])
  {
    if a != [] {
      var shorter := a[..|a| - 1];
      ArgumentsPointwise(env, policy, shorter);
      forall i | 0 <= i < |shorter| ensures a[i] == shorter[i] {}
    }
  }

  ghost predicate AppliedTo(env: Interpreter, policy: ArgumentPolicy, e: Entry, r: Entry) {
    r.key == e.key && Apply(env, e.value, RuleFor(policy, e.key)) == Ok(r.value)
  }

  /** Every text hashed on the way to a call's digest. */
  function HashedTexts(env: Interpreter, policy: ArgumentPolicy, a: seq<Entry>): set<string> {
    (set i, t | 0 <= i < |a| && t in ItemTexts(env, RuleFor(policy, a[i].key), a[i].value) :: t)
        + {BoundText(env, policy, a)}
  }

  function BoundText(env: Interpreter, policy: ArgumentPolicy, a: seq<Entry>): string {
    match Arguments(env, policy, a)
    case Err(_) => ""
    case Ok(r) => match Dumps(env.p, Bound(r, policy)) case Ok(t) => t case Err(_) => ""
  }

  lemma {:induction false} BoundParts(p: Platform, applied: seq<Entry>, policy: ArgumentPolicy)
    requires Normalize(p, Bound(applied, policy), 0).Ok?
    ensures Normalize(p, Dict(applied), 1).Ok? && Normalize(p, Dict(SortEntries(Declared(policy))), 1).Ok?
  {
    var fields := Bound(applied, policy).entries;
    EntriesPointwise(p, fields, 1);
    assert EntryBecomes(p, fields[0], NormalizeEntries(p, fields, 1).value[0], 1);
    assert EntryBecomes(p, fields[1], NormalizeEntries(p, fields, 1).value[1], 1);
  }

  lemma {:induction false} RuleTextsDecide(env: Interpreter, a: Equivalence, b: Equivalence)
    requires AsciiStays(env.p)
    ensures env.p.nfc(RuleText(a)) == env.p.nfc(RuleText(b)) <==> a == b
  {
    RuleTextIsAscii(a);
    RuleTextIsAscii(b);
    assert env.p.nfc(RuleText(a)) == RuleText(a) && env.p.nfc(RuleText(b)) == RuleText(b);
    assert |"exact"| == 5 && |"numeric"| == 7 && |"unordered"| == 9 && |"trimmed"| == 7 && |"case_folded"| == 11;
    assert "numeric"[0] == 'n' && "trimmed"[0] == 't';
  }

  lemma {:induction false} RuleTextIsAscii(how: Equivalence)
    ensures IsAscii(RuleText(how))
  {
    match how
    case Exact =>
    case Numeric =>
    case Unordered =>
    case Trimmed =>
    case CaseFolded =>
  }

  lemma {:induction false} ShortText(how: Equivalence)
    ensures |RuleText(how)| <= MAX_STRING
  {
  }

  lemma {:induction false} DeclaredCorrespond(env: Interpreter, x: Rule, y: Rule)
    requires AsciiStays(env.p)
    ensures Corresponds(env.p, Entry(x.name, Str(RuleText(x.how))), Entry(y.name, Str(RuleText(y.how))))
       <==> RuleAgrees(env.p, x, y)
  {
    ShortText(x.how);
    ShortText(y.how);
    RuleTextsDecide(env, x.how, y.how);
  }

  lemma {:induction false} SortedIn(entries: seq<Entry>, i: nat)
    requires i < |entries|
    ensures exists k | 0 <= k < |SortEntries(entries)| :: SortEntries(entries)[k] == entries[i]
  {
    SortIsPermutation(entries);
    assert entries[i] in multiset(SortEntries(entries));
  }

  lemma {:induction false} SortedFrom(entries: seq<Entry>, k: nat)
    requires k < |SortEntries(entries)|
    ensures exists i | 0 <= i < |entries| :: entries[i] == SortEntries(entries)[k]
  {
    SortIsPermutation(entries);
    assert SortEntries(entries)[k] in multiset(entries);
  }

  lemma {:induction false} DeclaresExactlyWhen(env: Interpreter, x: Rule, pb: ArgumentPolicy)
    requires AsciiStays(env.p)
    ensures Declares(env.p, pb, x)
       <==> HasCounterpart(env.p, Entry(x.name, Str(RuleText(x.how))), SortEntries(Declared(pb)))
  {
    var e, sorted := Entry(x.name, Str(RuleText(x.how))), SortEntries(Declared(pb));
    if Declares(env.p, pb, x) {
      var j :| 0 <= j < |pb| && RuleAgrees(env.p, x, pb[j]);
      DeclaredCorrespond(env, x, pb[j]);
      SortedIn(Declared(pb), j);
      var k :| 0 <= k < |sorted| && sorted[k] == Declared(pb)[j];
      assert Corresponds(env.p, e, sorted[k]);
    }
    if HasCounterpart(env.p, e, sorted) {
      var k :| 0 <= k < |sorted| && Corresponds(env.p, e, sorted[k]);
      SortedFrom(Declared(pb), k);
      var j :| 0 <= j < |Declared(pb)| && Declared(pb)[j] == sorted[k];
      DeclaredCorrespond(env, x, pb[j]);
      assert RuleAgrees(env.p, x, pb[j]);
    }
  }

  lemma {:induction false} PolicyHasSpelling(p: Platform, pa: ArgumentPolicy, x: Rule)
    requires Declares(p, pa, x)
    ensures HasSpelling(p, SortEntries(Declared(pa)), x.name)
  {
    var j :| 0 <= j < |pa| && RuleAgrees(p, x, pa[j]);
    SortedIn(Declared(pa), j);
    var sorted := SortEntries(Declared(pa));
    var k :| 0 <= k < |sorted| && sorted[k] == Declared(pa)[j];
    assert p.nfc(sorted[k].key) == p.nfc(x.name);
  }

  lemma {:induction false} CorrespondingPolicies(env: Interpreter, pa: ArgumentPolicy, pb: ArgumentPolicy)
    requires AsciiStays(env.p)
    requires EntriesCorrespond(env.p, SortEntries(Declared(pa)), SortEntries(Declared(pb)))
    requires EntriesCorrespond(env.p, SortEntries(Declared(pb)), SortEntries(Declared(pa)))
    ensures PoliciesAgree(env.p, pa, pb)
  {
    forall i | 0 <= i < |pa| ensures Declares(env.p, pb, pa[i]) { DeclaredThere(env, pa, pb, i); }
    forall j | 0 <= j < |pb| ensures Declares(env.p, pa, pb[j]) { DeclaredThere(env, pb, pa, j); }
  }

  lemma {:induction false} DeclaredThere(env: Interpreter, pa: ArgumentPolicy, pb: ArgumentPolicy, i: nat)
    requires AsciiStays(env.p) && i < |pa|
    requires EntriesCorrespond(env.p, SortEntries(Declared(pa)), SortEntries(Declared(pb)))
    ensures Declares(env.p, pb, pa[i])
  {
    var sorted := SortEntries(Declared(pa));
    SortedIn(Declared(pa), i);
    var k :| 0 <= k < |sorted| && sorted[k] == Declared(pa)[i];
    assert HasCounterpart(env.p, sorted[k], SortEntries(Declared(pb)));
    DeclaresExactlyWhen(env, pa[i], pb);
  }

  lemma {:induction false} AgreeingPolicies(env: Interpreter, pa: ArgumentPolicy, pb: ArgumentPolicy)
    requires AsciiStays(env.p) && PoliciesAgree(env.p, pa, pb)
    ensures EntriesCorrespond(env.p, SortEntries(Declared(pa)), SortEntries(Declared(pb)))
  {
    var sa, sb := SortEntries(Declared(pa)), SortEntries(Declared(pb));
    forall k | 0 <= k < |sa| ensures HasCounterpart(env.p, sa[k], sb) {
      SortedFrom(Declared(pa), k);
      var i :| 0 <= i < |Declared(pa)| && Declared(pa)[i] == sa[k];
      assert Declares(env.p, pb, pa[i]);
      DeclaresExactlyWhen(env, pa[i], pb);
    }
    forall k | 0 <= k < |sb| ensures HasSpelling(env.p, sa, sb[k].key) {
      SortedFrom(Declared(pb), k);
      var j :| 0 <= j < |Declared(pb)| && Declared(pb)[j] == sb[k];
      assert Declares(env.p, pa, pb[j]);
      PolicyHasSpelling(env.p, pa, pb[j]);
    }
  }

  lemma {:induction false} SameIsSymmetric(p: Platform, v: Value, w: Value)
    requires Printable(p, v) && Printable(p, w)
    ensures Same(v, w) == Same(w, v)
  {
    SameExactlyWhenSorted(p, v, w);
    SameExactlyWhenSorted(p, w, v);
  }

  lemma {:induction false} DeclaredPrints(p: Platform, policy: ArgumentPolicy)
    ensures FloatsPrint(p, Dict(SortEntries(Declared(policy))))
  {
    var good := (e: Entry) => FloatsPrint(p, e.value);
    SortKeeps(Declared(policy), good);
    forall i | 0 <= i < |SortEntries(Declared(policy))| ensures FloatsPrint(p, SortEntries(Declared(policy))[i].value) {
      assert good(SortEntries(Declared(policy))[i]);
    }
  }

  /** The policy's part of the text. */
  lemma {:induction false} PoliciesSame(env: Interpreter, pa: ArgumentPolicy, pb: ArgumentPolicy)
    requires AsciiStays(env.p)
    requires Normalize(env.p, Dict(SortEntries(Declared(pa))), 1).Ok?
             && Normalize(env.p, Dict(SortEntries(Declared(pb))), 1).Ok?
    ensures Same(NormalOf(env.p, Dict(SortEntries(Declared(pa)))), NormalOf(env.p, Dict(SortEntries(Declared(pb)))))
       <==> PoliciesAgree(env.p, pa, pb)
  {
    var sa, sb := SortEntries(Declared(pa)), SortEntries(Declared(pb));
    DictsCorrespond(env.p, sa, sb, 1);
    DictsCorrespond(env.p, sb, sa, 1);
    if PoliciesAgree(env.p, pa, pb) { AgreeingPolicies(env, pa, pb); }
    if EntriesCorrespond(env.p, sa, sb) {
      DeclaredPrints(env.p, pa);
      DeclaredPrints(env.p, pb);
      DepthOnlyBounds(env.p, Dict(sa), 1, 0);
      DepthOnlyBounds(env.p, Dict(sb), 1, 0);
      NormalizeKeepsFloats(env.p, Dict(sa), 0);
      NormalizeKeepsFloats(env.p, Dict(sb), 0);
      SameIsSymmetric(env.p, NormalOf(env.p, Dict(sa)), NormalOf(env.p, Dict(sb)));
      CorrespondingPolicies(env, pa, pb);
    }
  }

  // ------------------------------------------------------------------ the arguments' part

  ghost predicate AllBindable(env: Interpreter, policy: ArgumentPolicy, a: seq<Entry>) {
    forall i | 0 <= i < |a| :: Bindable(env, RuleFor(policy, a[i].key), a[i].value, 2)
  }

  lemma {:induction false} ArgumentsBindable(env: Interpreter, policy: ArgumentPolicy, a: seq<Entry>,
                                             applied: seq<Entry>)
    requires FloatsPrint(env.p, Dict(a)) && Arguments(env, policy, a) == Ok(applied)
             && Normalize(env.p, Dict(applied), 1).Ok?
    ensures AllBindable(env, policy, a)
    ensures |applied| == |a| && forall i | 0 <= i < |a| :: AppliedTo(env, policy, a[i], applied[i])
  {
    ArgumentsPointwise(env, policy, a);
    EntriesPointwise(env.p, applied, 2);
    var r := NormalizeEntries(env.p, applied, 2).value;
    forall i | 0 <= i < |a| ensures Bindable(env, RuleFor(policy, a[i].key), a[i].value, 2) {
      assert AppliedTo(env, policy, a[i], applied[i]);
      assert EntryBecomes(env.p, applied[i], r[i], 2);
    }
  }

  lemma {:induction false} AgreeingCorrespond(env: Interpreter, pa: ArgumentPolicy, x: Entry, ax: Entry,
                                              pb: ArgumentPolicy, y: Entry, ay: Entry)
    requires Faithful(env) && AppliedTo(env, pa, x, ax) && AppliedTo(env, pb, y, ay)
    requires Bindable(env, RuleFor(pa, x.key), x.value, 2) && Bindable(env, RuleFor(pb, y.key), y.value, 2)
    requires NoCollision(env.sha, ItemTexts(env, RuleFor(pa, x.key), x.value)
                         + ItemTexts(env, RuleFor(pb, y.key), y.value))
    ensures Corresponds(env.p, ax, ay) <==> ArgumentAgrees(env, pa, x, pb, y)
  {
    var hx, hy := RuleFor(pa, x.key), RuleFor(pb, y.key);
    if hx == hy { RuleMeans(env, hx, x.value, y.value, 2); }
  }

  ghost predicate ItemsApart(env: Interpreter, pa: ArgumentPolicy, a: seq<Entry>, pb: ArgumentPolicy, b: seq<Entry>) {
    forall i, j | 0 <= i < |a| && 0 <= j < |b| ::
      NoCollision(env.sha, ItemTexts(env, RuleFor(pa, a[i].key), a[i].value)
                  + ItemTexts(env, RuleFor(pb, b[j].key), b[j].value))
  }

  ghost predicate AllApplied(env: Interpreter, policy: ArgumentPolicy, a: seq<Entry>, applied: seq<Entry>) {
    |applied| == |a| && forall i | 0 <= i < |a| :: AppliedTo(env, policy, a[i], applied[i])
  }

  lemma {:induction false} HasAgreeingExactlyWhen(env: Interpreter, pa: ArgumentPolicy, a: seq<Entry>, aa: seq<Entry>,
                                                  i: nat, pb: ArgumentPolicy, b: seq<Entry>, ab: seq<Entry>)
    requires Faithful(env) && AllBindable(env, pa, a) && AllBindable(env, pb, b) && ItemsApart(env, pa, a, pb, b)
    requires AllApplied(env, pa, a, aa) && AllApplied(env, pb, b, ab) && i < |a|
    ensures HasAgreeing(env, pa, a[i], pb, b) <==> HasCounterpart(env.p, aa[i], ab)
  {
    forall j | 0 <= j < |b| ensures Corresponds(env.p, aa[i], ab[j]) <==> ArgumentAgrees(env, pa, a[i], pb, b[j]) {
      assert AppliedTo(env, pa, a[i], aa[i]) && AppliedTo(env, pb, b[j], ab[j]);
      AgreeingCorrespond(env, pa, a[i], aa[i], pb, b[j], ab[j]);
    }
    if HasAgreeing(env, pa, a[i], pb, b) {
      var j :| 0 <= j < |b| && ArgumentAgrees(env, pa, a[i], pb, b[j]);
      assert Corresponds(env.p, aa[i], ab[j]);
    }
    if HasCounterpart(env.p, aa[i], ab) {
      var j :| 0 <= j < |ab| && Corresponds(env.p, aa[i], ab[j]);
      assert ArgumentAgrees(env, pa, a[i], pb, b[j]);
    }
  }

  lemma {:induction false} SpellingsKept(env: Interpreter, pa: ArgumentPolicy, a: seq<Entry>, aa: seq<Entry>,
                                         key: string)
    requires AllApplied(env, pa, a, aa)
    ensures HasSpelling(env.p, a, key) <==> HasSpelling(env.p, aa, key)
  {
    forall i | 0 <= i < |a| ensures aa[i].key == a[i].key { assert AppliedTo(env, pa, a[i], aa[i]); }
    if HasSpelling(env.p, a, key) {
      var i :| 0 <= i < |a| && env.p.nfc(a[i].key) == env.p.nfc(key);
      assert env.p.nfc(aa[i].key) == env.p.nfc(key);
    }
  }

  lemma {:induction false} ArgumentsCorrespond(env: Interpreter, pa: ArgumentPolicy, a: seq<Entry>, aa: seq<Entry>,
                                               pb: ArgumentPolicy, b: seq<Entry>, ab: seq<Entry>)
    requires Faithful(env) && AllBindable(env, pa, a) && AllBindable(env, pb, b) && ItemsApart(env, pa, a, pb, b)
    requires AllApplied(env, pa, a, aa) && AllApplied(env, pb, b, ab)
    ensures EntriesCorrespond(env.p, aa, ab) <==> ArgumentsAgree(env, pa, a, pb, b)
  {
    forall i | 0 <= i < |a| ensures HasAgreeing(env, pa, a[i], pb, b) <==> HasCounterpart(env.p, aa[i], ab) {
      HasAgreeingExactlyWhen(env, pa, a, aa, i, pb, b, ab);
    }
    forall j | 0 <= j < |b| ensures HasSpelling(env.p, a, b[j].key) <==> HasSpelling(env.p, aa, ab[j].key) {
      SpellingsKept(env, pa, a, aa, b[j].key);
      assert AppliedTo(env, pb, b[j], ab[j]);
    }
  }

  lemma {:induction false} HashedApart(env: Interpreter, pa: ArgumentPolicy, a: seq<Entry>, pb: ArgumentPolicy,
                                       b: seq<Entry>)
    requires NoCollision(env.sha, HashedTexts(env, pa, a) + HashedTexts(env, pb, b))
    ensures ItemsApart(env, pa, a, pb, b)
  {
  }

  /** The arguments' part of the text. */
  lemma {:induction false} ArgumentsSame(env: Interpreter, pa: ArgumentPolicy, a: seq<Entry>, aa: seq<Entry>,
                                         pb: ArgumentPolicy, b: seq<Entry>, ab: seq<Entry>)
    requires Faithful(env) && FloatsPrint(env.p, Dict(a)) && FloatsPrint(env.p, Dict(b))
    requires Arguments(env, pa, a) == Ok(aa) && Normalize(env.p, Dict(aa), 1).Ok?
    requires Arguments(env, pb, b) == Ok(ab) && Normalize(env.p, Dict(ab), 1).Ok?
    requires ItemsApart(env, pa, a, pb, b)
    ensures Same(NormalOf(env.p, Dict(aa)), NormalOf(env.p, Dict(ab))) <==> ArgumentsAgree(env, pa, a, pb, b)
    ensures FloatsPrint(env.p, Bound(aa, pa)) && FloatsPrint(env.p, Bound(ab, pb))
  {
    ArgumentsBindable(env, pa, a, aa);
    ArgumentsBindable(env, pb, b, ab);
    DictsCorrespond(env.p, aa, ab, 1);
    ArgumentsCorrespond(env, pa, a, aa, pb, b, ab);
    BoundPrints(env, pa, a, aa);
    BoundPrints(env, pb, b, ab);
  }

  // ------------------------------------------------------------------ the theorem

  /** Two calls that both digest have one digest exactly when their policies declare the same rules and
      their arguments agree under them, up to NFC and the order of names. */
  lemma {:induction false} BindingIsComplete(env: Interpreter, pa: ArgumentPolicy, a: seq<Entry>, pb: ArgumentPolicy,
                                             b: seq<Entry>)
    requires Faithful(env) && FloatsPrint(env.p, Dict(a)) && FloatsPrint(env.p, Dict(b))
    requires DigestOf(env, pa, a).Ok? && DigestOf(env, pb, b).Ok?
    requires NoCollision(env.sha, HashedTexts(env, pa, a) + HashedTexts(env, pb, b))
    ensures DigestOf(env, pa, a) == DigestOf(env, pb, b)
       <==> PoliciesAgree(env.p, pa, pb) && ArgumentsAgree(env, pa, a, pb, b)
  {
    var aa, ab := Arguments(env, pa, a).value, Arguments(env, pb, b).value;
    BoundParts(env.p, aa, pa);
    BoundParts(env.p, ab, pb);
    HashedApart(env, pa, a, pb, b);
    ArgumentsSame(env, pa, a, aa, pb, b, ab);
    PoliciesSame(env, pa, pb);
    BoundSame(env, pa, aa, pb, ab);
    OneTextPerValue(env.p, Bound(aa, pa), Bound(ab, pb));
    assert BoundText(env, pa, a) in HashedTexts(env, pa, a) && BoundText(env, pb, b) in HashedTexts(env, pb, b);
  }

  lemma {:induction false} BoundSame(env: Interpreter, pa: ArgumentPolicy, aa: seq<Entry>, pb: ArgumentPolicy,
                                     ab: seq<Entry>)
    requires Normalize(env.p, Bound(aa, pa), 0).Ok? && Normalize(env.p, Bound(ab, pb), 0).Ok?
    ensures Same(NormalOf(env.p, Bound(aa, pa)), NormalOf(env.p, Bound(ab, pb)))
       <==> Same(NormalOf(env.p, Dict(aa)), NormalOf(env.p, Dict(ab)))
            && Same(NormalOf(env.p, Dict(SortEntries(Declared(pa)))), NormalOf(env.p, Dict(SortEntries(Declared(pb)))))
  {
    var fa, fb := Bound(aa, pa).entries, Bound(ab, pb).entries;
    RecordsSame(env.p, fa, fb, 0);
    assert SameFields(env.p, fa, fb)
      <==> Same(NormalOf(env.p, fa[0].value), NormalOf(env.p, fb[0].value))
           && Same(NormalOf(env.p, fa[1].value), NormalOf(env.p, fb[1].value));
  }

  lemma {:induction false} BoundPrints(env: Interpreter, policy: ArgumentPolicy, a: seq<Entry>, applied: seq<Entry>)
    requires Faithful(env) && AllBindable(env, policy, a) && AllApplied(env, policy, a, applied)
    ensures FloatsPrint(env.p, Bound(applied, policy))
  {
    forall i | 0 <= i < |applied| ensures FloatsPrint(env.p, applied[i].value) {
      assert AppliedTo(env, policy, a[i], applied[i]);
      AppliedPrints(env, RuleFor(policy, a[i].key), a[i].value, 2);
    }
    DeclaredPrints(env.p, policy);
  }

  lemma {:induction false} PolicyAgreesWithItself(p: Platform, policy: ArgumentPolicy)
    ensures PoliciesAgree(p, policy, policy)
  {
    forall i | 0 <= i < |policy| ensures Declares(p, policy, policy[i]) {
      assert RuleAgrees(p, policy[i], policy[i]);
    }
  }

  /** `equivalent`: under one policy, the question is the arguments alone. */
  lemma {:induction false} EquivalentExactlyWhen(env: Interpreter, policy: ArgumentPolicy, a: seq<Entry>, b: seq<Entry>)
    requires Faithful(env) && FloatsPrint(env.p, Dict(a)) && FloatsPrint(env.p, Dict(b))
    requires DigestOf(env, policy, a).Ok? && DigestOf(env, policy, b).Ok?
    requires NoCollision(env.sha, HashedTexts(env, policy, a) + HashedTexts(env, policy, b))
    ensures Equivalent(env, policy, a, b) == Ok(ArgumentsAgree(env, policy, a, policy, b))
  {
    BindingIsComplete(env, policy, a, policy, b);
    PolicyAgreesWithItself(env.p, policy);
  }
}
