/** How the earlier trail-less container of lib/Jiggle.php relates to the
    trail-based one of src/Jiggle.php. On an acyclic registry the trail never
    fires, and the two resolve every name to the same value, memoize the same
    values and run the same factories in the same order; this holds for the
    trail-based resolver whose memo fast path leaves the trail alone. */
module LibAgreement {
  import opened Registry
  import Jiggle
  import JiggleProofs
  import JiggleLib

  /** The trail-less view of a trail-based container. */
  function Strip(s: Jiggle.State): JiggleLib.State
  {
    JiggleLib.State(s.unresolved, s.resolved, s.log)
  }

  /** A trail-less container seen as a trail-based one with an empty trail. */
  function Dress(ls: JiggleLib.State): Jiggle.State
  {
    Jiggle.State(ls.unresolved, ls.resolved, [], ls.log)
  }

  function StripResult(r: Result<Jiggle.State>): Result<JiggleLib.State>
  {
    match r
    case Ok(s) => Ok(Strip(s))
    case Err(e) => Err(e)
  }

  function StripFetched(r: Result<(Jiggle.State, seq<Value>)>): Result<(JiggleLib.State, seq<Value>)>
  {
    match r
    case Ok((s, args)) => Ok((Strip(s), args))
    case Err(e) => Err(e)
  }

  /** Both versions of `__set` register alike: they refuse the same names
      with the same error, and otherwise leave the same registrations, memo
      and log. */
  lemma SetAgrees(s: Jiggle.State, name: string, e: Entry)
    ensures StripResult(Jiggle.Set(s, name, e)) == JiggleLib.Set(Strip(s), name, e)
  {
    if name !in s.unresolved {
      assert Strip(Jiggle.Set(s, name, e).value).unresolved == JiggleLib.Set(Strip(s), name, e).value.unresolved;
    }
  }

  /** Every name on the trail ranks above `h`. */
  ghost predicate TrailAbove(s: Jiggle.State, rank: string -> nat, h: nat)
  {
    forall i :: 0 <= i < |s.trail| ==> h < JiggleLib.Height(s.unresolved, rank, s.trail[i])
  }

  lemma {:induction false} ResolveAgrees(s: Jiggle.State, name: string, rank: string -> nat)
    requires JiggleLib.Ranked(s.unresolved, rank)
    requires TrailAbove(s, rank, JiggleLib.Height(s.unresolved, rank, name))
    ensures StripResult(Jiggle.Resolve(s, name, true)) == JiggleLib.Resolve(Strip(s), name, rank)
    decreases JiggleLib.Height(s.unresolved, rank, name), 1
  {
    var u := s.unresolved;
    var h := JiggleLib.Height(u, rank, name);
    forall i | 0 <= i < |s.trail| ensures s.trail[i] != name {
      assert h < JiggleLib.Height(u, rank, s.trail[i]);
    }
    if name !in s.resolved && name in u && u[name].Factory? {
      var params := u[name].params;
      var pushed := s.(trail := s.trail + [name]);
      Jiggle.PendingPush(s, name);
      forall i | 0 <= i < |params| ensures JiggleLib.Height(u, rank, params[i]) < h {
        assert Deps(u[name])[i] == params[i];
      }
      assert TrailAbove(pushed, rank, h - 1);
      FetchAgrees(pushed, params, rank, h);
      assert Strip(pushed) == Strip(s);
    }
  }

  lemma {:induction false} FetchAgrees(s: Jiggle.State, params: seq<string>, rank: string -> nat, bound: nat)
    requires JiggleLib.Ranked(s.unresolved, rank)
    requires forall i :: 0 <= i < |params| ==> JiggleLib.Height(s.unresolved, rank, params[i]) < bound
    requires bound > 0 && TrailAbove(s, rank, bound - 1)
    ensures StripFetched(Jiggle.FetchDeps(s, params, true)) == JiggleLib.FetchDeps(Strip(s), params, rank, bound)
    decreases bound, 0, |params|
  {
    if |params| > 0 {
      ResolveAgrees(s, params[0], rank);
      var r := Jiggle.Resolve(s, params[0], true);
      if r.Ok? {
        JiggleProofs.ResolveGrows(s, params[0], true);
        FetchAgrees(r.value, params[1..], rank, bound);
      }
    }
  }

  /** On an acyclic registry, starting with an empty trail, a get by the
      trail-less container and a get by the repaired trail-based one succeed
      together, yield the same value and the same memo and invocation log,
      and fail together with the same error, which is never a cycle. */
  lemma GetAgrees(s: Jiggle.State, name: string, rank: string -> nat)
    requires JiggleLib.Ranked(s.unresolved, rank)
    requires s.trail == []
    ensures var r := Jiggle.GetRepaired(s, name);
            var lr := JiggleLib.Get(Strip(s), name, rank);
            && (r.Ok? <==> lr.Ok?)
            && (r.Ok? ==> r.value.0 == lr.value.0 && Strip(r.value.1) == lr.value.1 && r.value.1.trail == [])
            && (r.Err? ==> r.error == lr.error && r.error.Missing?)
  {
    ResolveAgrees(s, name, rank);
    JiggleProofs.ResolveGrows(s, name, true);
  }

  /** The trail-less container keeps the same invariant as the trail-based
      one: on an acyclic registry a successful get returns what the name's
      registration produces, and no factory is ever run twice. */
  lemma LibGetProduces(ls: JiggleLib.State, name: string, rank: string -> nat)
    requires JiggleLib.Ranked(ls.unresolved, rank)
    requires JiggleProofs.Valid(Dress(ls))
    ensures var lr := JiggleLib.Get(ls, name, rank);
            lr.Ok? ==> && name in ls.unresolved
                       && Produces(ls.unresolved[name], lr.value.1.resolved, lr.value.0)
                       && JiggleProofs.Valid(Dress(lr.value.1))
  {
    var s := Dress(ls);
    assert Strip(s) == ls;
    ResolveAgrees(s, name, rank);
    JiggleProofs.ResolveProduces(s, name, true);
    JiggleProofs.ResolveGrows(s, name, true);
    var lr := JiggleLib.Get(ls, name, rank);
    if lr.Ok? {
      assert Dress(lr.value.1) == Jiggle.Resolve(s, name, true).value;
    }
  }
}
