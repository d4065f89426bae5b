/** Argument equivalence (core/binding.py): which differences between two calls are differences.

    An argument is compared exactly unless its policy declares otherwise, and the policy is part of
    what is digested. */
module Binding {
  import opened Wrappers
  import opened Json
  import opened Sorting
  import opened Canonical

  datatype Equivalence = Exact | Numeric | Unordered | Trimmed | CaseFolded

  datatype Rule = Rule(name: string, how: Equivalence)

  /** The declared rules, in the order of the mapping; no name occurs twice. */
  type ArgumentPolicy = seq<Rule>

  /** What the interpreter supplies: NFC and float parsing, SHA-256, str.strip, str.casefold, and
      float(int), which overflows on the largest integers. */
  datatype Interpreter = Interpreter(
    p: Platform,
    sha: Sha,
    strip: string -> string,
    casefold: string -> string,
    floatOf: int -> Option<string>)

  datatype BindingError = NeedsNumber | NeedsSequence | NeedsString | FloatOverflow | NotCanonical(why: Error)

  function RuleText(how: Equivalence): string {
    match how
    case Exact => "exact"
    case Numeric => "numeric"
    case Unordered => "unordered"
    case Trimmed => "trimmed"
    case CaseFolded => "case_folded"
  }

  /** The rule declared for a name, spelled as the caller spelled it. */
  function RuleFor(policy: ArgumentPolicy, name: string): Equivalence {
    if policy == [] then Exact
    else if policy[0].name == name then policy[0].how
    else RuleFor(policy[1..], name)
  }

  /** Each item under its digest. */
  function Digested(env: Interpreter, items: seq<Value>): Result<seq<Entry>, Error> {
    if items == [] then Ok([])
    else
      match Digest(env.p, env.sha, items[0])
      case Err(e) => Err(e)
      case Ok(d) =>
        match Digested(env, items[1..])
        case Err(e) => Err(e)
        case Ok(rest) => Ok([Entry(d, items[0])] + rest)
  }

  function Values(entries: seq<Entry>): (r: seq<Value>)
    ensures |r| == |entries| && forall i | 0 <= i < |entries| :: r[i] == entries[i].value
  {
    seq(|entries|, i requires 0 <= i < |entries| => entries[i].value)
  }

  function SortByDigest(env: Interpreter, items: seq<Value>): Result<Value, BindingError> {
    match NormalizeItems(env.p, items, 0)
    case Err(e) => Err(NotCanonical(e))
    case Ok(normal) =>
      match Digested(env, normal)
      case Err(e) => Err(NotCanonical(e))
      case Ok(keyed) => Ok(List(Values(SortEntries(keyed))))
  }

  function Apply(env: Interpreter, v: Value, how: Equivalence): Result<Value, BindingError> {
    match how
    case Exact => Ok(v)
    case Numeric =>
      (match v
       case Int(n) => (match env.floatOf(n) case Some(t) => Ok(Float(Finite(t))) case None => Err(FloatOverflow))
       case Float(_) => Ok(v)
       case _ => Err(NeedsNumber))
    case Unordered => if v.List? then SortByDigest(env, v.items) else Err(NeedsSequence)
    case Trimmed => if v.Str? then Ok(Str(env.strip(v.s))) else Err(NeedsString)
    case CaseFolded => if v.Str? then Ok(Str(env.casefold(v.s))) else Err(NeedsString)
  }

  function Arguments(env: Interpreter, policy: ArgumentPolicy, arguments: seq<Entry>): Result<seq<Entry>, BindingError>
  {
    if arguments == [] then Ok([])
    else
      var last := arguments[|arguments| - 1];
      match Arguments(env, policy, arguments[..|arguments| - 1])
      case Err(e) => Err(e)
      case Ok(done) =>
        match Apply(env, last.value, RuleFor(policy, last.key))
        case Err(e) => Err(e)
        case Ok(v) => Ok(done + [Entry(last.key, v)])
  }

  lemma {:induction false} ArgumentsErrorSticks(env: Interpreter, policy: ArgumentPolicy, arguments: seq<Entry>, i: nat)
    requires i <= |arguments| && Arguments(env, policy, arguments[..i]).Err?
    ensures Arguments(env, policy, arguments) == Arguments(env, policy, arguments[..i])
  {
    if i == |arguments| {
      assert arguments[..i] == arguments;
    } else {
      var shorter := arguments[..|arguments| - 1];
      assert shorter[..i] == arguments[..i];
      ArgumentsErrorSticks(env, policy, shorter, i);
    }
  }

  /** `canonical_arguments`: a dict filled one argument at a time. */
  method CanonicalArguments(env: Interpreter, policy: ArgumentPolicy, arguments: seq<Entry>)
    returns (r: Result<seq<Entry>, BindingError>)
    ensures r == Arguments(env, policy, arguments)
  {
    var result: seq<Entry> := [];
    for i := 0 to |arguments|
      invariant Arguments(env, policy, arguments[..i]) == Ok(result)
    {
      assert arguments[..i + 1][..i] == arguments[..i];
      var applied := Apply(env, arguments[i].value, RuleFor(policy, arguments[i].key));
      if applied.Err? {
        ArgumentsErrorSticks(env, policy, arguments, i + 1);
        return Err(applied.error);
      }
      result := result + [Entry(arguments[i].key, applied.value)];
    }
    assert arguments[..|arguments|] == arguments;
    return Ok(result);
  }

  function Declared(policy: ArgumentPolicy): (r: seq<Entry>)
    ensures |r| == |policy|
    ensures forall i | 0 <= i < |policy| :: r[i] == Entry(policy[i].name, Str(RuleText(policy[i].how)))
  {
    seq(|policy|, i requires 0 <= i < |policy| => Entry(policy[i].name, Str(RuleText(policy[i].how))))
  }

  function Bound(arguments: seq<Entry>, policy: ArgumentPolicy): Value {
    Dict([Entry("arguments", Dict(arguments)), Entry("policy", Dict(SortEntries(Declared(policy))))])
  }

  /** The arguments and the policy that interpreted them, under one digest. */
  function DigestOf(env: Interpreter, policy: ArgumentPolicy, arguments: seq<Entry>): Result<string, BindingError> {
    match Arguments(env, policy, arguments)
    case Err(e) => Err(e)
    case Ok(applied) =>
      match Digest(env.p, env.sha, Bound(applied, policy))
      case Err(e) => Err(NotCanonical(e))
      case Ok(d) => Ok(d)
  }

  /** Would the two calls bind to one approval? */
  function Equivalent(env: Interpreter, policy: ArgumentPolicy, first: seq<Entry>, second: seq<Entry>)
    : Result<bool, BindingError>
  {
    match DigestOf(env, policy, first)
    case Err(e) => Err(e)
    case Ok(d) =>
      match DigestOf(env, policy, second)
      case Err(e) => Err(e)
      case Ok(d') => Ok(d == d')
  }
}
