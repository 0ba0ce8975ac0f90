/** The Jiggle container of src/Jiggle.php: a registry of named values and
    factories, resolved lazily and memoized, with a trail of the names being
    resolved that detects circular dependencies. */
module Jiggle {
  import opened Registry

  /** The container: what was registered, what has been resolved, the trail of
      names currently being resolved, and a log of every factory invocation
      (by the name it was registered under), oldest first. */
  datatype State = State(
    unresolved: map<string, Entry>,
    resolved: map<string, Value>,
    trail: seq<string>,
    log: seq<string>)

  const Empty := State(map[], map[], [], [])

  /** PHP's `array_pop`: drops the last element, and leaves an empty array alone. */
  function Pop(t: seq<string>): (r: seq<string>)
    ensures |t| > 0 ==> r + [t[|t| - 1]] == t
    ensures |t| == 0 ==> r == t
  {
    if |t| == 0 then t else t[..|t| - 1]
  }

  /** `__set`: registers `name`, refusing a name that is already registered. */
  function Set(s: State, name: string, e: Entry): (r: Result<State>)
    ensures r.Err? <==> name in s.unresolved
    ensures r.Err? ==> r.error == AlreadyExists(name)
    ensures r.Ok? ==> r.value.unresolved.Keys == s.unresolved.Keys + {name}
    ensures r.Ok? ==> r.value.unresolved[name] == e
    ensures r.Ok? ==> forall k :: k in s.unresolved ==> r.value.unresolved[k] == s.unresolved[k]
    ensures r.Ok? ==> r.value.resolved == s.resolved && r.value.trail == s.trail && r.value.log == s.log
  {
    if name in s.unresolved then Err(AlreadyExists(name))
    else Ok(s.(unresolved := s.unresolved[name := e]))
  }

  /** `replace`: swaps the registration of a name that has not been resolved yet. */
  function Replace(s: State, name: string, e: Entry): (r: Result<State>)
    ensures name !in s.unresolved ==> r.Err? && r.error == DoesNotExist(name)
    ensures name in s.unresolved && name in s.resolved ==> r.Err? && r.error == ReplaceResolved(name)
    ensures r.Ok? <==> name in s.unresolved && name !in s.resolved
    ensures r.Ok? ==> r.value.unresolved.Keys == s.unresolved.Keys
    ensures r.Ok? ==> r.value.unresolved[name] == e
    ensures r.Ok? ==> forall k :: k in s.unresolved && k != name ==> r.value.unresolved[k] == s.unresolved[k]
    ensures r.Ok? ==> r.value.resolved == s.resolved && r.value.trail == s.trail && r.value.log == s.log
  {
    if name !in s.unresolved then Err(DoesNotExist(name))
    else if name in s.resolved then Err(ReplaceResolved(name))
    else Ok(s.(unresolved := s.unresolved[name := e]))
  }

  /** The names set of a trail. */
  function Elems(t: seq<string>): set<string>
  {
    set x | x in t
  }

  /** Registered names not on the trail: every nested resolution happens after
      one more registered name has been pushed, so this shrinks. */
  function Pending(s: State): nat
  {
    |s.unresolved.Keys - Elems(s.trail)|
  }

  lemma SubsetCard(a: set<string>, b: set<string>)
    requires a <= b
    ensures |a| <= |b|
  {
    if a != {} {
      var x :| x in a;
      SubsetCard(a - {x}, b - {x});
    }
  }

  lemma PendingMonotone(s: State, s': State)
    requires s'.unresolved == s.unresolved
    requires s.trail <= s'.trail
    ensures Pending(s') <= Pending(s)
  {
    SubsetCard(s'.unresolved.Keys - Elems(s'.trail), s.unresolved.Keys - Elems(s.trail));
  }

  lemma PendingPush(s: State, name: string)
    requires name in s.unresolved && name !in s.trail
    ensures Pending(s.(trail := s.trail + [name])) < Pending(s)
  {
    var before := s.unresolved.Keys - Elems(s.trail);
    var after := s.unresolved.Keys - Elems(s.trail + [name]);
    assert after == before - {name};
  }

  /** `resolveDep`: returns the container in which the name is memoized, for
      `Get` and `FetchDeps` to read its value from. With `popOnMemo` false this
      is the code as written: the memo fast path pushes `name` and returns
      before the pop, so `name` stays on the trail. With `popOnMemo` true the
      fast path leaves the trail as it found it. */
  function Resolve(s: State, name: string, popOnMemo: bool): (r: Result<State>)
    decreases Pending(s), 1
    ensures name in s.trail ==> r.Err? && r.error == Circular(s.trail, name)
    ensures name !in s.trail && name in s.resolved ==>
              r == Ok(if popOnMemo then s else s.(trail := s.trail + [name]))
    ensures name !in s.trail && name !in s.resolved && name !in s.unresolved ==>
              r.Err? && r.error == Missing(name)
    ensures r.Err? ==> r.error.Missing? || r.error.Circular?
    ensures r.Ok? ==> && r.value.unresolved == s.unresolved
                      && Extends(s.resolved, r.value.resolved)
                      && name in r.value.resolved
                      && s.trail <= r.value.trail
                      && s.log <= r.value.log
    ensures r.Ok? && name !in s.resolved ==> name in s.unresolved
  {
    if name in s.trail then Err(Circular(s.trail, name))
    else
      var pushed := s.(trail := s.trail + [name]);
      if name in s.resolved then Ok(if popOnMemo then s else pushed)
      else if name !in s.unresolved then Err(Missing(name))
      else
        match s.unresolved[name]
        case Plain(v) =>
          Ok(pushed.(resolved := pushed.resolved[name := v], trail := Pop(pushed.trail)))
        case Factory(params, f) =>
          PendingPush(s, name);
          match FetchDeps(pushed, params, popOnMemo)
          case Err(e) => Err(e)
          case Ok((after, args)) =>
            Ok(after.(resolved := after.resolved[name := f(args)], trail := Pop(after.trail), log := after.log + [name]))
  }

  /** `fetchDepsFromSignature`: a `__get` of every parameter name, in
      declaration order, collecting the memoized values. */
  function FetchDeps(s: State, params: seq<string>, popOnMemo: bool): (r: Result<(State, seq<Value>)>)
    decreases Pending(s), 2, |params|
    ensures r.Err? ==> r.error.Missing? || r.error.Circular?
    ensures r.Ok? ==> && r.value.0.unresolved == s.unresolved
                      && Extends(s.resolved, r.value.0.resolved)
                      && s.trail <= r.value.0.trail
                      && s.log <= r.value.0.log
                      && AllIn(params, r.value.0.resolved)
                      && r.value.1 == Lookup(r.value.0.resolved, params)
  {
    if |params| == 0 then Ok((s, []))
    else
      match Resolve(s, params[0], popOnMemo)
      case Err(e) => Err(e)
      case Ok(s1) =>
        PendingMonotone(s, s1);
        match FetchDeps(s1, params[1..], popOnMemo)
        case Err(e) => Err(e)
        case Ok((s2, rest)) =>
          assert AllIn(params, s2.resolved) by {
            forall i | 0 <= i < |params| ensures params[i] in s2.resolved {
              if i > 0 { assert params[i] == params[1..][i - 1]; }
            }
          }
          Ok((s2, [s2.resolved[params[0]]] + rest))
  }

  /** `__get` as written. */
  function Get(s: State, name: string): (r: Result<(Value, State)>)
    ensures name in s.trail ==> r.Err? && r.error == Circular(s.trail, name)
    ensures name !in s.trail && name in s.resolved ==> r == Ok((s.resolved[name], s.(trail := s.trail + [name])))
    ensures name !in s.trail && name !in s.resolved && name !in s.unresolved ==> r.Err? && r.error == Missing(name)
    ensures r.Ok? <==> Resolve(s, name, false).Ok?
    ensures r.Ok? ==> r.value.1 == Resolve(s, name, false).value && r.value.0 == r.value.1.resolved[name]
  {
    match Resolve(s, name, false)
    case Err(e) => Err(e)
    case Ok(s') => Ok((s'.resolved[name], s'))
  }

  /** `__get` with the memo fast path repaired so that it leaves the trail alone. */
  function GetRepaired(s: State, name: string): (r: Result<(Value, State)>)
    ensures name in s.trail ==> r.Err? && r.error == Circular(s.trail, name)
    ensures name !in s.trail && name in s.resolved ==> r == Ok((s.resolved[name], s))
    ensures name !in s.trail && name !in s.resolved && name !in s.unresolved ==> r.Err? && r.error == Missing(name)
    ensures r.Ok? <==> Resolve(s, name, true).Ok?
    ensures r.Ok? ==> r.value.1 == Resolve(s, name, true).value && r.value.0 == r.value.1.resolved[name]
  {
    match Resolve(s, name, true)
    case Err(e) => Err(e)
    case Ok(s') => Ok((s'.resolved[name], s'))
  }

  /** `create`: builds a class, injecting its constructor parameters by name;
      a class without a constructor is built with no lookups at all. */
  function Create(s: State, c: Class): (r: Result<(Value, State)>)
    ensures c.ctor.None? ==> r == Ok((c.build([]), s))
    ensures c.ctor.Some? && r.Ok? ==>
              && AllIn(c.ctor.value, r.value.1.resolved)
              && r.value.0 == c.build(Lookup(r.value.1.resolved, c.ctor.value))
              && r.value.1.unresolved == s.unresolved
              && Extends(s.resolved, r.value.1.resolved)
  {
    match c.ctor
    case None => Ok((c.build([]), s))
    case Some(params) =>
      match FetchDeps(s, params, false)
      case Err(e) => Err(e)
      case Ok((s', args)) => Ok((c.build(args), s'))
  }

  function CtorParams(c: Class): seq<string>
  {
    match c.ctor
    case None => []
    case Some(params) => params
  }

  /** `createFactory`: a factory that builds the class when the registration
      is resolved. The PHP closure declares no parameters and calls `create`,
      which looks up the constructor parameters while the name being resolved
      is on the trail; here the factory declares the constructor's parameters
      itself, which makes the same lookups in the same order. The one visible
      difference is the invocation log: the closure is entered before those
      lookups run any factory, while this factory is logged after them. */
  function CreateFactory(c: Class): (e: Entry)
    ensures e.Factory? && e.params == CtorParams(c)
    ensures forall args :: e.f(args) == c.build(args)
  {
    Factory(CtorParams(c), c.build)
  }
}
