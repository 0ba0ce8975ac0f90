/** What the trail-based resolver of src/Jiggle.php guarantees: every
    successful resolution only adds to the memo, memoizes exactly what the
    registrations produce, runs each factory at most once, and keeps the entry
    trail as a prefix; the repaired fast path also restores the trail. */
module JiggleProofs {
  import opened Registry
  import opened Jiggle

  /** `k`'s factory ran between `s` and `s'`: `k` was not memoized before, is
      memoized after, and is registered with a factory. */
  ghost predicate Invoked(s: State, s': State, k: string)
  {
    k !in s.resolved && k in s'.resolved && k in s.unresolved && s.unresolved[k].Factory?
  }

  /** What any successful resolution does to the container. */
  ghost predicate Grows(s: State, s': State)
  {
    && s'.unresolved == s.unresolved
    && Extends(s.resolved, s'.resolved)
    && s.trail <= s'.trail
    && s.log <= s'.log
    && (forall k :: k in s'.resolved && k !in s.resolved ==>
          k !in s.trail && Memoizes(s.unresolved, s'.resolved, k))
    && (forall i :: |s.log| <= i < |s'.log| ==> Invoked(s, s', s'.log[i]))
    && (forall i, j :: |s.log| <= i < j < |s'.log| ==> s'.log[i] != s'.log[j])
  }

  lemma GrowsTrans(a: State, b: State, c: State)
    requires Grows(a, b) && Grows(b, c)
    ensures Grows(a, c)
  {
    forall k | k in c.resolved && k !in a.resolved
      ensures k !in a.trail && Memoizes(a.unresolved, c.resolved, k)
    {
      if k in b.resolved {
        MemoizesStable(a.unresolved, b.resolved, c.resolved, k);
      } else {
        assert k !in b.trail;
      }
    }
    forall i | |a.log| <= i < |c.log| ensures Invoked(a, c, c.log[i]) {
      if i < |b.log| {
        assert c.log[i] == b.log[i];
      }
    }
    forall i, j | |a.log| <= i < j < |c.log| ensures c.log[i] != c.log[j] {
      if i < |b.log| <= j {
        assert c.log[i] == b.log[i];
        assert Invoked(b, c, c.log[j]);
      } else if j < |b.log| {
        assert c.log[i] == b.log[i] && c.log[j] == b.log[j];
      }
    }
  }

  /** A successful resolution grows the container; a plain registration
      resolved for the first time is pushed and popped, leaving the trail as
      it was; a factory resolved for the first time is invoked; and with the
      repaired fast path the trail always ends as it began. */
  lemma {:induction false} ResolveGrows(s: State, name: string, popOnMemo: bool)
    ensures Resolve(s, name, popOnMemo).Ok? ==> Grows(s, Resolve(s, name, popOnMemo).value)
    ensures Resolve(s, name, popOnMemo).Ok? && popOnMemo ==> Resolve(s, name, popOnMemo).value.trail == s.trail
    ensures Resolve(s, name, popOnMemo).Ok? && name !in s.resolved && s.unresolved[name].Plain? ==>
              Resolve(s, name, popOnMemo).value.trail == s.trail
    ensures Resolve(s, name, popOnMemo).Ok? && name !in s.resolved && s.unresolved[name].Factory? ==>
              Invoked(s, Resolve(s, name, popOnMemo).value, name) && name in Resolve(s, name, popOnMemo).value.log
    decreases Pending(s), 1
  {
    var r := Resolve(s, name, popOnMemo);
    if r.Ok? && name !in s.trail && name !in s.resolved && name in s.unresolved {
      var pushed := s.(trail := s.trail + [name]);
      match s.unresolved[name]
      case Plain(v) =>
        assert Pop(pushed.trail) == s.trail;
      case Factory(params, f) =>
        PendingPush(s, name);
        FetchDepsGrows(pushed, params, popOnMemo);
        var fetched := FetchDeps(pushed, params, popOnMemo);
        FactoryStepGrows(s, name, params, f, fetched.value.0, fetched.value.1);
    }
  }

  /** The last step of a first resolution through a factory: after its
      parameters were fetched into `after`, the result is stored, the trail
      popped and the invocation logged. */
  lemma FactoryStepGrows(s: State, name: string, params: seq<string>, f: seq<Value> -> Value,
                         after: State, args: seq<Value>)
    requires name !in s.trail && name !in s.resolved
    requires name in s.unresolved && s.unresolved[name] == Factory(params, f)
    requires Grows(s.(trail := s.trail + [name]), after)
    requires AllIn(params, after.resolved) && args == Lookup(after.resolved, params)
    ensures var out := after.(resolved := after.resolved[name := f(args)], trail := Pop(after.trail), log := after.log + [name]);
            && Grows(s, out)
            && Invoked(s, out, name)
            && name in out.log
            && (after.trail == s.trail + [name] ==> out.trail == s.trail)
  {
    var pushed := s.(trail := s.trail + [name]);
    var out := after.(resolved := after.resolved[name := f(args)], trail := Pop(after.trail), log := after.log + [name]);
    assert name !in after.resolved;
    assert Extends(after.resolved, out.resolved);
    assert Lookup(out.resolved, params) == args;
    assert Memoizes(s.unresolved, out.resolved, name);
    assert s.trail <= out.trail by {
      assert |after.trail| >= |pushed.trail|;
      assert out.trail == after.trail[..|after.trail| - 1];
      assert pushed.trail <= after.trail;
    }
    forall k | k in out.resolved && k !in s.resolved
      ensures k !in s.trail && Memoizes(s.unresolved, out.resolved, k)
    {
      if k != name {
        MemoizesStable(s.unresolved, after.resolved, out.resolved, k);
      }
    }
    forall i | |s.log| <= i < |out.log| ensures Invoked(s, out, out.log[i]) {
      if i < |after.log| {
        assert Invoked(pushed, after, after.log[i]);
      }
    }
    forall i, j | |s.log| <= i < j < |out.log| ensures out.log[i] != out.log[j] {
      if j == |after.log| {
        assert Invoked(pushed, after, after.log[i]);
      }
    }
    assert out.log[|after.log|] == name;
  }

  lemma {:induction false} FetchDepsGrows(s: State, params: seq<string>, popOnMemo: bool)
    ensures FetchDeps(s, params, popOnMemo).Ok? ==> Grows(s, FetchDeps(s, params, popOnMemo).value.0)
    ensures FetchDeps(s, params, popOnMemo).Ok? && popOnMemo ==> FetchDeps(s, params, popOnMemo).value.0.trail == s.trail
    decreases Pending(s), 2, |params|
  {
    if |params| > 0 && Resolve(s, params[0], popOnMemo).Ok? {
      var s1 := Resolve(s, params[0], popOnMemo).value;
      ResolveGrows(s, params[0], popOnMemo);
      PendingMonotone(s, s1);
      FetchDepsGrows(s1, params[1..], popOnMemo);
      if FetchDeps(s1, params[1..], popOnMemo).Ok? {
        GrowsTrans(s, s1, FetchDeps(s1, params[1..], popOnMemo).value.0);
      }
    }
  }

  /** The container invariant: every memoized value is what its registration
      produces, and every logged factory invocation is of a memoized name,
      with no name logged twice (each factory has run at most once). */
  ghost predicate Valid(s: State)
  {
    && (forall k :: k in s.resolved ==> Memoizes(s.unresolved, s.resolved, k))
    && (forall i :: 0 <= i < |s.log| ==>
          s.log[i] in s.resolved && s.log[i] in s.unresolved && s.unresolved[s.log[i]].Factory?)
    && (forall i, j :: 0 <= i < j < |s.log| ==> s.log[i] != s.log[j])
  }

  lemma GrowsKeepsValid(s: State, s': State)
    requires Valid(s) && Grows(s, s')
    ensures Valid(s')
  {
    forall k | k in s'.resolved ensures Memoizes(s'.unresolved, s'.resolved, k) {
      if k in s.resolved {
        MemoizesStable(s.unresolved, s.resolved, s'.resolved, k);
      }
    }
    forall i | 0 <= i < |s'.log|
      ensures s'.log[i] in s'.resolved && s'.log[i] in s'.unresolved && s'.unresolved[s'.log[i]].Factory?
    {
      if i < |s.log| {
        assert s'.log[i] == s.log[i];
      } else {
        assert Invoked(s, s', s'.log[i]);
      }
    }
    forall i, j | 0 <= i < j < |s'.log| ensures s'.log[i] != s'.log[j] {
      if j < |s.log| {
        assert s'.log[i] == s.log[i] && s'.log[j] == s.log[j];
      } else if i < |s.log| {
        assert s'.log[i] == s.log[i];
        assert Invoked(s, s', s'.log[j]);
      }
    }
  }

  /** A successful resolution keeps the invariant, and the value it leaves
      memoized for the name is exactly what the name's registration produces
      from the memoized values of its declared parameters. */
  lemma ResolveProduces(s: State, name: string, popOnMemo: bool)
    requires Valid(s)
    ensures Resolve(s, name, popOnMemo).Ok? ==>
              && name in s.unresolved
              && Produces(s.unresolved[name], Resolve(s, name, popOnMemo).value.resolved,
                          Resolve(s, name, popOnMemo).value.resolved[name])
              && Valid(Resolve(s, name, popOnMemo).value)
  {
    ResolveGrows(s, name, popOnMemo);
    var r := Resolve(s, name, popOnMemo);
    if r.Ok? {
      GrowsKeepsValid(s, r.value);
      assert Memoizes(r.value.unresolved, r.value.resolved, name);
    }
  }

  /** `__set` keeps the invariant. */
  lemma SetKeepsValid(s: State, name: string, e: Entry)
    requires Valid(s)
    ensures Set(s, name, e).Ok? ==> Valid(Set(s, name, e).value)
  {
    if name !in s.unresolved {
      var t := Set(s, name, e).value;
      forall k | k in t.resolved ensures Memoizes(t.unresolved, t.resolved, k) {
        assert Memoizes(s.unresolved, s.resolved, k);
      }
    }
  }

  /** `replace` keeps the invariant: it only touches a name not yet memoized. */
  lemma ReplaceKeepsValid(s: State, name: string, e: Entry)
    requires Valid(s)
    ensures Replace(s, name, e).Ok? ==> Valid(Replace(s, name, e).value)
  {
    if name in s.unresolved && name !in s.resolved {
      var t := Replace(s, name, e).value;
      forall k | k in t.resolved ensures Memoizes(t.unresolved, t.resolved, k) {
        assert Memoizes(s.unresolved, s.resolved, k);
      }
    }
  }

  /** After a `replace`, the first get of the name sees the replacement: a
      plain replacement is returned as is, a factory replacement's result is
      that factory applied to its injected parameters. */
  lemma ReplaceThenGet(s: State, name: string, e: Entry)
    requires Valid(s) && name !in s.trail
    requires Replace(s, name, e).Ok?
    ensures var t := Replace(s, name, e).value;
            && (e.Plain? ==> Get(t, name).Ok? && Get(t, name).value.0 == e.v)
            && (Get(t, name).Ok? ==> Produces(e, Get(t, name).value.1.resolved, Get(t, name).value.0))
  {
    var t := Replace(s, name, e).value;
    ReplaceKeepsValid(s, name, e);
    ResolveProduces(t, name, false);
  }

  /** After a `__set`, which runs no factory, the first get of the name sees
      the registration: a plain value is returned as is, a factory's result is
      that factory applied to its injected parameters. */
  lemma SetThenGet(s: State, name: string, e: Entry)
    requires Valid(s) && name !in s.trail
    requires Set(s, name, e).Ok?
    ensures var t := Set(s, name, e).value;
            && t.log == s.log
            && (e.Plain? ==> Get(t, name).Ok? && Get(t, name).value.0 == e.v && Get(t, name).value.1.log == s.log)
            && (Get(t, name).Ok? ==> Produces(e, Get(t, name).value.1.resolved, Get(t, name).value.0))
  {
    var t := Set(s, name, e).value;
    assert s.resolved.Keys <= s.unresolved.Keys by {
      forall k | k in s.resolved ensures k in s.unresolved {
        assert Memoizes(s.unresolved, s.resolved, k);
      }
    }
    SetKeepsValid(s, name, e);
    ResolveProduces(t, name, false);
  }

  /** With the repaired fast path, a successful get leaves the trail as it
      found it, so getting the same name again succeeds with the same value,
      changes nothing and runs no factory, however often it is repeated. */
  lemma RepairedGetsRepeat(s: State, name: string)
    ensures GetRepaired(s, name).Ok? ==> GetRepaired(s, name).value.1.trail == s.trail
    ensures GetRepaired(s, name).Ok? ==>
              GetRepaired(GetRepaired(s, name).value.1, name) == GetRepaired(s, name)
  {
    ResolveGrows(s, name, true);
  }

  /** As written, a get answered from the memo leaves the name on the trail,
      so the next get of that same name is refused as circular. */
  lemma MemoHitLeavesNameOnTrail(s: State, name: string)
    requires name !in s.trail && name in s.resolved
    ensures Get(s, name).Ok? && Get(s, name).value.1.trail == s.trail + [name]
    ensures Get(Get(s, name).value.1, name) == Err(Circular(s.trail + [name], name))
  {
  }

  /** Resolving a name registered with `createFactory(c)` runs `create(c)`
      while the name is on the trail, then memoizes the instance under the
      name, logs one factory invocation and pops the trail. */
  lemma CreateFactoryMatchesCreate(s: State, name: string, c: Class)
    requires name !in s.trail && name !in s.resolved && name in s.unresolved
    requires s.unresolved[name] == CreateFactory(c)
    ensures var r := Get(s, name);
            var cr := Create(s.(trail := s.trail + [name]), c);
            && (r.Ok? <==> cr.Ok?)
            && (r.Err? ==> r.error == cr.error)
            && (r.Ok? ==> && r.value.0 == cr.value.0
                          && r.value.1.resolved == cr.value.1.resolved[name := cr.value.0]
                          && r.value.1.log == cr.value.1.log + [name]
                          && r.value.1.trail == Pop(cr.value.1.trail))
  {
  }

  /** `create` keeps the invariant: the constructor's parameter lookups are
      resolutions like any other, and the instance itself is not memoized. */
  lemma CreateKeepsValid(s: State, c: Class)
    requires Valid(s)
    ensures Create(s, c).Ok? ==> Valid(Create(s, c).value.1)
  {
    if c.ctor.Some? {
      FetchDepsGrows(s, c.ctor.value, false);
      if FetchDeps(s, c.ctor.value, false).Ok? {
        GrowsKeepsValid(s, FetchDeps(s, c.ctor.value, false).value.0);
      }
    }
  }

  /** One call on the container's public surface. */
  datatype Op =
    | SetOp(name: string, e: Entry)
    | ReplaceOp(name: string, e: Entry)
    | GetOp(name: string)
    | CreateOp(c: Class)

  /** One call, with the get done by the chosen resolver (`create` runs as
      written). */
  function Step(s: State, op: Op, popOnMemo: bool): Result<State>
  {
    match op
    case SetOp(name, e) => Set(s, name, e)
    case ReplaceOp(name, e) => Replace(s, name, e)
    case GetOp(name) => Resolve(s, name, popOnMemo)
    case CreateOp(c) =>
      match Create(s, c)
      case Err(e) => Err(e)
      case Ok((_, s')) => Ok(s')
  }

  /** Runs the calls in order, stopping at the first exception. */
  function Run(s: State, ops: seq<Op>, popOnMemo: bool): Result<State>
    decreases |ops|
  {
    if |ops| == 0 then Ok(s)
    else
      match Step(s, ops[0], popOnMemo)
      case Err(e) => Err(e)
      case Ok(s1) => Run(s1, ops[1..], popOnMemo)
  }

  /** Over any run of sets, replaces, gets and creates that raises no
      exception, the invariant holds throughout: no factory ever runs twice, and everything
      memoized is what its registration produces. */
  lemma {:induction false} RunKeepsValid(s: State, ops: seq<Op>, popOnMemo: bool)
    requires Valid(s)
    ensures Run(s, ops, popOnMemo).Ok? ==> Valid(Run(s, ops, popOnMemo).value)
    decreases |ops|
  {
    if |ops| > 0 {
      match ops[0] {
        case SetOp(name, e) => SetKeepsValid(s, name, e);
        case ReplaceOp(name, e) => ReplaceKeepsValid(s, name, e);
        case GetOp(name) => ResolveProduces(s, name, popOnMemo);
        case CreateOp(c) => CreateKeepsValid(s, c);
      }
      var r := Step(s, ops[0], popOnMemo);
      if r.Ok? {
        RunKeepsValid(r.value, ops[1..], popOnMemo);
      }
    }
  }

  /** Starting from an empty container, every factory runs at most once over
      the container's life, and only for a name that is memoized afterwards. */
  lemma FactoriesRunAtMostOnce(ops: seq<Op>, popOnMemo: bool)
    ensures Run(Empty, ops, popOnMemo).Ok? ==>
              var log := Run(Empty, ops, popOnMemo).value.log;
              forall i, j :: 0 <= i < j < |log| ==> log[i] != log[j]
  {
    RunKeepsValid(Empty, ops, popOnMemo);
  }
}
