/** What an approval is bound to (core/scope.py): the identity of every element of one execution. */
module Scope {
  import opened Wrappers
  import opened Json
  import opened Canonical
  import opened Binding

  datatype ResourceIdentity = ResourceIdentity(kind: string, requested: string, locator: string, fingerprint: string)

  datatype PolicyBinding = PolicyBinding(policyId: string, version: string, contentDigest: string)

  /** `fields` is the allow-list of the context specification. */
  datatype ExecutionScope = ExecutionScope(
    runId: string,
    actorId: string,
    toolId: string,
    operation: string,
    arguments: seq<Entry>,
    resources: seq<ResourceIdentity>,
    policy: Option<PolicyBinding>,
    context: seq<Entry>,
    fields: seq<string>,
    rules: ArgumentPolicy)

  datatype ScopeError = BadArguments(binding: BindingError) | MissingContext | Malformed(why: Error) | Unresolvable

  // ------------------------------------------------------------------ context

  predicate AllPresent(fields: seq<string>, context: seq<Entry>) {
    forall i | 0 <= i < |fields| :: Lookup(context, fields[i]).Some?
  }

  function Pairs(fields: seq<string>, context: seq<Entry>): (r: seq<Entry>)
    requires AllPresent(fields, context)
    ensures |r| == |fields|
    ensures forall i | 0 <= i < |fields| :: r[i] == Entry(fields[i], Lookup(context, fields[i]).value)
  {
    seq(|fields|, i requires 0 <= i < |fields| => Entry(fields[i], Lookup(context, fields[i]).value))
  }

  function ContextDigest(env: Interpreter, fields: seq<string>, context: seq<Entry>): Result<string, ScopeError> {
    if !AllPresent(fields, context) then Err(MissingContext)
    else
      match Digest(env.p, env.sha, Dict(DictOf(Pairs(fields, context))))
      case Err(e) => Err(Malformed(e))
      case Ok(d) => Ok(d)
  }

  // ------------------------------------------------------------------ digest

  function ResourceValue(r: ResourceIdentity): Value {
    Dict([Entry("kind", Str(r.kind)), Entry("requested", Str(r.requested)),
          Entry("locator", Str(r.locator)), Entry("fingerprint", Str(r.fingerprint))])
  }

  function ResourceValues(resources: seq<ResourceIdentity>): (r: seq<Value>)
    ensures |r| == |resources| && forall i | 0 <= i < |resources| :: r[i] == ResourceValue(resources[i])
  {
    seq(|resources|, i requires 0 <= i < |resources| => ResourceValue(resources[i]))
  }

  function PolicyValue(policy: Option<PolicyBinding>): Value {
    match policy
    case None => Null
    case Some(b) => Dict([Entry("policy_id", Str(b.policyId)), Entry("version", Str(b.version)),
                          Entry("content_digest", Str(b.contentDigest))])
  }

  function ScopeFields(scope: ExecutionScope, arguments: string, context: string): seq<Entry> {
    [Entry("run_id", Str(scope.runId)), Entry("actor_id", Str(scope.actorId)),
     Entry("tool_id", Str(scope.toolId)), Entry("operation", Str(scope.operation)),
     Entry("arguments", Str(arguments)), Entry("resources", List(ResourceValues(scope.resources))),
     Entry("policy", PolicyValue(scope.policy)), Entry("context", Str(context))]
  }

  function ScopeDigest(env: Interpreter, scope: ExecutionScope): Result<string, ScopeError> {
    match DigestOf(env, scope.rules, scope.arguments)
    case Err(e) => Err(BadArguments(e))
    case Ok(arguments) =>
      match ContextDigest(env, scope.fields, scope.context)
      case Err(e) => Err(e)
      case Ok(context) =>
        match Digest(env.p, env.sha, Dict(ScopeFields(scope, arguments, context)))
        case Err(e) => Err(Malformed(e))
        case Ok(d) => Ok(d)
  }

  // ------------------------------------------------------------------ rebind

  /** A resolution finds a locator and a fingerprint, or nothing it can pin. */
  datatype Found = Found(locator: string, fingerprint: string)

  /** The world as it is now: what a path and a URL resolve to. */
  datatype World = World(path: string -> Option<Found>, url: string -> Option<Found>)

  function Identify(kind: string, requested: string, found: Option<Found>): Result<ResourceIdentity, ScopeError> {
    match found
    case None => Err(Unresolvable)
    case Some(f) => Ok(ResourceIdentity(kind, requested, f.locator, f.fingerprint))
  }

  /** Resolution starts from what was requested, never from what was found before. */
  function Resolve(world: World, r: ResourceIdentity): Result<ResourceIdentity, ScopeError> {
    if r.kind == "path" then Identify("path", r.requested, world.path(r.requested))
    else if r.kind == "url" then Identify("url", r.requested, world.url(r.requested))
    else Ok(r)
  }

  function ResolveAll(world: World, resources: seq<ResourceIdentity>): Result<seq<ResourceIdentity>, ScopeError> {
    if resources == [] then Ok([])
    else
      match ResolveAll(world, resources[..|resources| - 1])
      case Err(e) => Err(e)
      case Ok(done) =>
        match Resolve(world, resources[|resources| - 1])
        case Err(e) => Err(e)
        case Ok(r) => Ok(done + [r])
  }

  function Rebound(world: World, scope: ExecutionScope): Result<ExecutionScope, ScopeError> {
    match ResolveAll(world, scope.resources)
    case Err(e) => Err(e)
    case Ok(resources) => Ok(scope.(resources := resources))
  }

  lemma {:induction false} ResolveErrorSticks(world: World, resources: seq<ResourceIdentity>, i: nat)
    requires i <= |resources| && ResolveAll(world, resources[..i]).Err?
    ensures ResolveAll(world, resources) == ResolveAll(world, resources[..i])
  {
    if i == |resources| {
      assert resources[..i] == resources;
    } else {
      var shorter := resources[..|resources| - 1];
      assert shorter[..i] == resources[..i];
      ResolveErrorSticks(world, shorter, i);
    }
  }

  /** `rebind`: the resources are resolved one after the other; everything else is kept. */
  method Rebind(world: World, scope: ExecutionScope) returns (r: Result<ExecutionScope, ScopeError>)
    ensures r == Rebound(world, scope)
  {
    var refreshed: seq<ResourceIdentity> := [];
    for i := 0 to |scope.resources|
      invariant ResolveAll(world, scope.resources[..i]) == Ok(refreshed)
    {
      assert scope.resources[..i + 1][..i] == scope.resources[..i];
      var resolved := Resolve(world, scope.resources[i]);
      if resolved.Err? {
        ResolveErrorSticks(world, scope.resources, i + 1);
        return Err(resolved.error);
      }
      refreshed := refreshed + [resolved.value];
    }
    assert scope.resources[..|scope.resources|] == scope.resources;
    return Ok(scope.(resources := refreshed));
  }
}
