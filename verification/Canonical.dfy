/** Canonical form (core/canonical.py): what a value is reduced to before a decision is computed
    over it, its one text, and its digest.

    The text is not that of RFC 8785: keys are sorted by code point, whereas section 3.2.3 of
    RFC 8785 sorts them by UTF-16 code unit. */
module Canonical {
  import opened Wrappers
  import opened Json
  import opened Sorting

  const MAX_DEPTH := 32
  const MAX_KEYS := 1000
  const MAX_STRING := 65536

  datatype Error = TooDeep | StringTooLong | NonFiniteNumber | TooManyKeys | TooManyItems | KeysCollide
    | Unsupported | TooLarge | NotJson

  // ------------------------------------------------------------------ normalize

  function Normalize(p: Platform, v: Value, depth: nat): Result<Value, Error>
    decreases v, 1
  {
    if depth > MAX_DEPTH then Err(TooDeep)
    else
      match v
      case Str(s) => if |s| > MAX_STRING then Err(StringTooLong) else Ok(Str(p.nfc(s)))
      case Float(f) => if f.NonFinite? then Err(NonFiniteNumber) else Ok(v)
      case Dict(entries) =>
        if |entries| > MAX_KEYS then Err(TooManyKeys)
        else
          (match NormalizeEntries(p, entries, depth + 1)
           case Ok(es) => Ok(Dict(es))
           case Err(e) => Err(e))
      case List(items) =>
        if |items| > MAX_KEYS then Err(TooManyItems)
        else
          (match NormalizeItems(p, items, depth + 1)
           case Ok(vs) => Ok(List(vs))
           case Err(e) => Err(e))
      case Opaque => Err(Unsupported)
      case _ => Ok(v)
  }

  function NormalizeEntries(p: Platform, entries: seq<Entry>, depth: nat): (r: Result<seq<Entry>, Error>)
    decreases entries, 0
  {
    if entries == [] then Ok([])
    else
      var last := entries[|entries| - 1];
      match NormalizeEntries(p, entries[..|entries| - 1], depth)
      case Err(e) => Err(e)
      case Ok(done) =>
        var key := p.nfc(last.key);
        if HasKey(done, key) then Err(KeysCollide)
        else
          match Normalize(p, last.value, depth)
          case Err(e) => Err(e)
          case Ok(v) => Ok(done + [Entry(key, v)])
  }

  function NormalizeItems(p: Platform, items: seq<Value>, depth: nat): (r: Result<seq<Value>, Error>)
    decreases items, 0
  {
    if items == [] then Ok([])
    else
      match NormalizeItems(p, items[..|items| - 1], depth)
      case Err(e) => Err(e)
      case Ok(done) =>
        match Normalize(p, items[|items| - 1], depth)
        case Err(e) => Err(e)
        case Ok(v) => Ok(done + [v])
  }

  lemma {:induction false} EntriesErrorSticks(p: Platform, entries: seq<Entry>, depth: nat, i: nat)
    requires i <= |entries| && NormalizeEntries(p, entries[..i], depth).Err?
    ensures NormalizeEntries(p, entries, depth) == NormalizeEntries(p, entries[..i], depth)
  {
    if i == |entries| {
      assert entries[..i] == entries;
    } else {
      var shorter := entries[..|entries| - 1];
      assert shorter[..i] == entries[..i];
      EntriesErrorSticks(p, shorter, depth, i);
    }
  }

  lemma {:induction false} ItemsErrorSticks(p: Platform, items: seq<Value>, depth: nat, i: nat)
    requires i <= |items| && NormalizeItems(p, items[..i], depth).Err?
    ensures NormalizeItems(p, items, depth) == NormalizeItems(p, items[..i], depth)
  {
    if i == |items| {
      assert items[..i] == items;
    } else {
      var shorter := items[..|items| - 1];
      assert shorter[..i] == items[..i];
      ItemsErrorSticks(p, shorter, depth, i);
    }
  }

  /** The source's loops: a dict and a list are filled one element at a time. */
  method NormalizeValue(p: Platform, v: Value, depth: nat) returns (r: Result<Value, Error>)
    ensures r == Normalize(p, v, depth)
    decreases v, 1
  {
    if depth > MAX_DEPTH { return Err(TooDeep); }
    match v {
      case Str(s) =>
        if |s| > MAX_STRING { return Err(StringTooLong); }
        return Ok(Str(p.nfc(s)));
      case Float(f) =>
        if f.NonFinite? { return Err(NonFiniteNumber); }
        return Ok(v);
      case Dict(entries) =>
        if |entries| > MAX_KEYS { return Err(TooManyKeys); }
        var es := NormalizeDict(p, entries, depth + 1);
        return if es.Ok? then Ok(Dict(es.value)) else Err(es.error);
      case List(items) =>
        if |items| > MAX_KEYS { return Err(TooManyItems); }
        var vs := NormalizeList(p, items, depth + 1);
        return if vs.Ok? then Ok(List(vs.value)) else Err(vs.error);
      case Opaque => return Err(Unsupported);
      case _ => return Ok(v);
    }
  }

  method NormalizeDict(p: Platform, entries: seq<Entry>, depth: nat) returns (r: Result<seq<Entry>, Error>)
    ensures r == NormalizeEntries(p, entries, depth)
    decreases entries, 0
  {
    var normalized: seq<Entry> := [];
    for i := 0 to |entries|
      invariant NormalizeEntries(p, entries[..i], depth) == Ok(normalized)
    {
      assert entries[..i + 1][..i] == entries[..i];
      var key := p.nfc(entries[i].key);
      if HasKey(normalized, key) {
        EntriesErrorSticks(p, entries, depth, i + 1);
        return Err(KeysCollide);
      }
      var item := NormalizeValue(p, entries[i].value, depth);
      if item.Err? {
        EntriesErrorSticks(p, entries, depth, i + 1);
        return Err(item.error);
      }
      normalized := normalized + [Entry(key, item.value)];
    }
    assert entries[..|entries|] == entries;
    return Ok(normalized);
  }

  method NormalizeList(p: Platform, items: seq<Value>, depth: nat) returns (r: Result<seq<Value>, Error>)
    ensures r == NormalizeItems(p, items, depth)
    decreases items, 0
  {
    var normalized: seq<Value> := [];
    for i := 0 to |items|
      invariant NormalizeItems(p, items[..i], depth) == Ok(normalized)
    {
      assert items[..i + 1][..i] == items[..i];
      var item := NormalizeValue(p, items[i], depth);
      if item.Err? {
        ItemsErrorSticks(p, items, depth, i + 1);
        return Err(item.error);
      }
      normalized := normalized + [item.value];
    }
    assert items[..|items|] == items;
    return Ok(normalized);
  }

  // ------------------------------------------------------------------ dumps, digest, loads

  /** A value with the keys of every dict in order. */
  function SortKeys(v: Value): Value
    decreases v, 1
  {
    match v
    case List(items) => List(SortItems(items))
    case Dict(entries) => Dict(SortEntries(SortValues(entries)))
    case _ => v
  }

  function SortItems(items: seq<Value>): (r: seq<Value>)
    ensures |r| == |items|
    ensures forall i | 0 <= i < |items| :: r[i] == SortKeys(items[i])
    decreases items, 0
  {
    if items == [] then [] else [SortKeys(items[0])] + SortItems(items[1..])
  }

  function SortValues(entries: seq<Entry>): (r: seq<Entry>)
    ensures |r| == |entries|
    ensures forall i | 0 <= i < |entries| :: r[i] == Entry(entries[i].key, SortKeys(entries[i].value))
    decreases entries, 0
  {
    if entries == [] then [] else [Entry(entries[0].key, SortKeys(entries[0].value))] + SortValues(entries[1..])
  }

  /** The value a text stands for: normalised, with its keys in order. */
  function Canon(p: Platform, v: Value): Result<Value, Error> {
    match Normalize(p, v, 0)
    case Ok(n) => Ok(SortKeys(n))
    case Err(e) => Err(e)
  }

  function Dumps(p: Platform, v: Value): Result<string, Error> {
    match Canon(p, v)
    case Ok(c) => Ok(Print(c, Compact))
    case Err(e) => Err(e)
  }

  /** SHA-256 of the text, in hexadecimal: an arbitrary function here. */
  type Sha = string -> string

  function Digest(p: Platform, sha: Sha, v: Value): Result<string, Error> {
    match Dumps(p, v)
    case Ok(text) => Ok(sha(text))
    case Err(e) => Err(e)
  }

  function Loads(p: Platform, text: string): Result<Value, Error> {
    if |text| > MAX_STRING * 4 then Err(TooLarge)
    else
      match Parse(p, Strict, text)
      case Some(v) => Ok(v)
      case None => Err(NotJson)
  }

  /** `_reject_duplicate_keys`: the loop over the pairs and the set of keys seen. */
  method RejectDuplicateKeys(pairs: seq<Entry>) returns (r: Option<Value>)
    ensures r.None? <==> !DistinctKeys(pairs)
    ensures r.Some? ==> r == Some(Dict(pairs))
  {
    var seen: set<string> := {};
    for i := 0 to |pairs|
      invariant DistinctKeys(pairs[..i])
      invariant seen == set j | 0 <= j < i :: pairs[j].key
    {
      if pairs[i].key in seen {
        return None;
      }
      seen := seen + {pairs[i].key};
    }
    assert pairs[..|pairs|] == pairs;
    return Some(Dict(pairs));
  }
}
