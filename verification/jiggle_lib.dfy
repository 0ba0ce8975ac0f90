/** The earlier Jiggle container of lib/Jiggle.php: the same registry and
    memoizing resolver, without a trail and so without cycle detection. It is
    modelled on acyclic registries only, witnessed by a rank that strictly
    decreases along every declared dependency. */
module JiggleLib {
  import opened Registry

  /** The container: registrations, memoized values and a log of factory
      invocations. */
  datatype State = State(unresolved: map<string, Entry>, resolved: map<string, Value>, log: seq<string>)

  const Empty := State(map[], map[], [])

  /** `__set`: registers `name`, refusing a name that is already registered. */
  function Set(s: State, name: string, e: Entry): (r: Result<State>)
    ensures r.Err? <==> name in s.unresolved
    ensures r.Err? ==> r.error == AlreadyExists(name)
    ensures r.Ok? ==> r.value.unresolved.Keys == s.unresolved.Keys + {name}
    ensures r.Ok? ==> r.value.unresolved[name] == e
    ensures r.Ok? ==> forall k :: k in s.unresolved ==> r.value.unresolved[k] == s.unresolved[k]
    ensures r.Ok? ==> r.value.resolved == s.resolved && r.value.log == s.log
  {
    if name in s.unresolved then Err(AlreadyExists(name))
    else Ok(s.(unresolved := s.unresolved[name := e]))
  }

  /** The rank of a name: one above `rank` for a registered name, zero for a
      missing one. */
  function Height(u: map<string, Entry>, rank: string -> nat, name: string): nat
  {
    if name in u then rank(name) + 1 else 0
  }

  /** `rank` witnesses that the registry has no dependency cycle: every
      declared parameter sits strictly below the factory that declares it. */
  ghost predicate Ranked(u: map<string, Entry>, rank: string -> nat)
  {
    forall n, i :: n in u && 0 <= i < |Deps(u[n])| ==> Height(u, rank, Deps(u[n])[i]) < Height(u, rank, n)
  }

  /** `resolveDep`: returns the container in which the name is memoized, for
      `Get` and `FetchDeps` to read its value from. */
  function Resolve(s: State, name: string, ghost rank: string -> nat): (r: Result<State>)
    requires Ranked(s.unresolved, rank)
    decreases Height(s.unresolved, rank, name), 1
    ensures name in s.resolved ==> r == Ok(s)
    ensures name !in s.resolved && name !in s.unresolved ==> r == Err(Missing(name))
    ensures r.Err? ==> r.error.Missing?
    ensures r.Ok? ==> && r.value.unresolved == s.unresolved
                      && Extends(s.resolved, r.value.resolved)
                      && name in r.value.resolved
                      && s.log <= r.value.log
  {
    if name in s.resolved then Ok(s)
    else if name !in s.unresolved then Err(Missing(name))
    else
      match s.unresolved[name]
      case Plain(v) => Ok(s.(resolved := s.resolved[name := v]))
      case Factory(params, f) =>
        assert forall i :: 0 <= i < |params| ==> Height(s.unresolved, rank, params[i]) < Height(s.unresolved, rank, name) by {
          forall i | 0 <= i < |params|
            ensures Height(s.unresolved, rank, params[i]) < Height(s.unresolved, rank, name)
          {
            assert Deps(s.unresolved[name])[i] == params[i];
          }
        }
        match FetchDeps(s, params, rank, Height(s.unresolved, rank, name))
        case Err(e) => Err(e)
        case Ok((after, args)) =>
          Ok(after.(resolved := after.resolved[name := f(args)], log := after.log + [name]))
  }

  /** The loop over the factory's parameters, each fetched with `$this->{$param}`
      (which lands in `__get`), collecting the memoized values. */
  function FetchDeps(s: State, params: seq<string>, ghost rank: string -> nat, ghost bound: nat)
    : (r: Result<(State, seq<Value>)>)
    requires Ranked(s.unresolved, rank)
    requires forall i :: 0 <= i < |params| ==> Height(s.unresolved, rank, params[i]) < bound
    decreases bound, 0, |params|
    ensures r.Err? ==> r.error.Missing?
    ensures r.Ok? ==> && r.value.0.unresolved == s.unresolved
                      && Extends(s.resolved, r.value.0.resolved)
                      && s.log <= r.value.0.log
                      && AllIn(params, r.value.0.resolved)
                      && r.value.1 == Lookup(r.value.0.resolved, params)
  {
    if |params| == 0 then Ok((s, []))
    else
      match Resolve(s, params[0], rank)
      case Err(e) => Err(e)
      case Ok(s1) =>
        match FetchDeps(s1, params[1..], rank, bound)
        case Err(e) => Err(e)
        case Ok((s2, rest)) =>
          assert AllIn(params, s2.resolved) by {
            forall i | 0 <= i < |params| ensures params[i] in s2.resolved {
              if i > 0 { assert params[i] == params[1..][i - 1]; }
            }
          }
          Ok((s2, [s2.resolved[params[0]]] + rest))
  }

  /** `__get`. */
  function Get(s: State, name: string, ghost rank: string -> nat): (r: Result<(Value, State)>)
    requires Ranked(s.unresolved, rank)
    ensures name in s.resolved ==> r == Ok((s.resolved[name], s))
    ensures name !in s.resolved && name !in s.unresolved ==> r.Err? && r.error == Missing(name)
    ensures r.Err? <==> Resolve(s, name, rank).Err?
    ensures r.Ok? ==> r.value.1 == Resolve(s, name, rank).value && r.value.0 == r.value.1.resolved[name]
  {
    match Resolve(s, name, rank)
    case Err(e) => Err(e)
    case Ok(s') => Ok((s'.resolved[name], s'))
  }

  /** Without a trail nothing stands in the way of a memoized name: a second
      get of a name that resolved returns the same value and changes nothing,
      and so does every get after it. */
  lemma GetIsIdempotent(s: State, name: string, rank: string -> nat)
    requires Ranked(s.unresolved, rank)
    ensures Get(s, name, rank).Ok? ==>
              var s1 := Get(s, name, rank).value.1;
              Ranked(s1.unresolved, rank) && Get(s1, name, rank) == Get(s, name, rank)
  {
  }
}
