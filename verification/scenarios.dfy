/** The scenarios of test/JiggleTest.php replayed on the model, plus the two
    inputs that show the trail left behind by the memo fast path. */
module Scenarios {
  import opened Registry
  import opened Jiggle

  /** A factory of two integer parameters that returns their sum. */
  function Sum(args: seq<Value>): Value
  {
    if |args| == 2 && args[0].Int? && args[1].Int? then Int(args[0].n + args[1].n) else Int(0)
  }

  /** The factory `function($b) { return $b; }`. */
  function First(args: seq<Value>): Value
  {
    if |args| > 0 then args[0] else Int(0)
  }

  /** The factory `function() { return 42; }`. */
  function Answer(args: seq<Value>): Value
  {
    Int(42)
  }

  /** `new D3($d1, $d2)`; its `sum()` adds the two fields. */
  function NewD3(args: seq<Value>): Value
  {
    Object("D3", args)
  }

  function NewD4(args: seq<Value>): Value
  {
    Object("D4", [])
  }

  const D3 := Class("D3", Some(["d1", "d2"]), NewD3)
  const D4 := Class("D4", None, NewD4)

  /** Magic injection into a factory: with d1 = 42 and d2 a factory of its
      single parameter d1 returning it, getting d2 gives 42. */
  lemma WiringExample()
    ensures var s1 := Set(Empty, "d1", Plain(Int(42)));
            var s2 := Set(s1.value, "d2", Factory(["d1"], First));
            && s2.Ok?
            && Get(s2.value, "d2").Ok?
            && Get(s2.value, "d2").value.0 == Int(42)
            && Get(s2.value, "d2").value.1.log == ["d2"]
  {
    var u := map["d1" := Plain(Int(42)), "d2" := Factory(["d1"], First)];
    var s := Empty.(unresolved := u);
    assert Set(Set(Empty, "d1", Plain(Int(42))).value, "d2", Factory(["d1"], First)) == Ok(s);
    var pushed := s.(trail := ["d2"]);
    var a := pushed.(resolved := map["d1" := Int(42)]);
    assert s.trail + ["d2"] == pushed.trail;
    assert Resolve(pushed, "d1", false) == Ok(a);
    assert FetchDeps(a, [], false) == Ok((a, []));
    assert ["d1"][1..] == [];
    var fp := FetchDeps(pushed, ["d1"], false);
    assert fp.Ok? && fp.value.0 == a && fp.value.1 == [Int(42)];
    assert First([Int(42)]) == Int(42);
    assert Pop(["d2"]) == [];
    assert Resolve(s, "d2", false) == Ok(a.(resolved := a.resolved["d2" := Int(42)], trail := [], log := [] + ["d2"]));
  }

  /** Factory injection: with d1 = 40 and d2 = 2, a factory of (d1, d2) gets
      40 and 2 injected, in that order, and runs once. */
  lemma InjectionExample()
    ensures var s1 := Set(Empty, "d1", Plain(Int(40)));
            var s2 := Set(s1.value, "d2", Plain(Int(2)));
            var s3 := Set(s2.value, "d3", Factory(["d1", "d2"], Sum));
            && s3.Ok?
            && s3.value.log == []
            && Get(s3.value, "d3").Ok?
            && Get(s3.value, "d3").value.0 == Int(42)
            && Get(s3.value, "d3").value.1.log == ["d3"]
            && Get(s3.value, "d3").value.1.trail == []
  {
    var u := map["d1" := Plain(Int(40)), "d2" := Plain(Int(2)), "d3" := Factory(["d1", "d2"], Sum)];
    var s3 := Empty.(unresolved := u);
    assert Set(Set(Set(Empty, "d1", Plain(Int(40))).value, "d2", Plain(Int(2))).value,
               "d3", Factory(["d1", "d2"], Sum)) == Ok(s3);
    var pushed := s3.(trail := ["d3"]);
    var a := pushed.(resolved := map["d1" := Int(40)]);
    var b := pushed.(resolved := map["d1" := Int(40), "d2" := Int(2)]);
    assert Resolve(pushed, "d1", false) == Ok(a);
    assert Resolve(a, "d2", false) == Ok(b);
    assert FetchDeps(b, [], false) == Ok((b, []));
    assert ["d2"][1..] == [];
    var fa := FetchDeps(a, ["d2"], false);
    assert fa.Ok?;
    assert fa.value.0 == b;
    assert fa.value.1 == [Int(2)];
    assert FetchDeps(a, ["d2"], false) == Ok((b, [Int(2)]));
    assert ["d1", "d2"][1..] == ["d2"];
    var fp := FetchDeps(pushed, ["d1", "d2"], false);
    assert fp.Ok?;
    assert fp.value.0 == b;
    assert fp.value.1 == [Int(40), Int(2)];
    assert s3.trail + ["d3"] == ["d3"];
    assert Sum([Int(40), Int(2)]) == Int(42);
    assert Pop(["d3"]) == [];
    var r := Resolve(s3, "d3", false);
    assert r == Ok(b.(resolved := b.resolved["d3" := Int(42)], trail := [], log := [] + ["d3"]));
    assert r.value.resolved["d3"] == Int(42);
    assert r.value.log == ["d3"];
    assert r.value.trail == [];
  }

  /** The registry a -> b, b -> c, c -> d, d -> b of the cycle test. */
  function CycleRegistry(): map<string, Entry>
  {
    map["a" := Factory(["b"], First), "b" := Factory(["c"], First),
        "c" := Factory(["d"], First), "d" := Factory(["b"], First)]
  }

  /** The inner half of the cycle: once a and b are on the trail, c leads
      through d back to b. */
  lemma CycleFromC()
    ensures Resolve(Empty.(unresolved := CycleRegistry(), trail := ["a", "b"]), "c", false)
            == Err(Circular(["a", "b", "c", "d"], "b"))
  {
    var s := Empty.(unresolved := CycleRegistry());
    var sd := s.(trail := ["a", "b", "c", "d"]);
    assert Resolve(sd, "b", false) == Err(Circular(["a", "b", "c", "d"], "b"));
    assert FetchDeps(sd, ["b"], false) == Err(Circular(["a", "b", "c", "d"], "b"));
    var sc := s.(trail := ["a", "b", "c"]);
    assert sc.trail + ["d"] == sd.trail;
    assert Resolve(sc, "d", false) == Err(Circular(["a", "b", "c", "d"], "b"));
    assert FetchDeps(sc, ["d"], false) == Err(Circular(["a", "b", "c", "d"], "b"));
    var sb := s.(trail := ["a", "b"]);
    assert sb.trail + ["c"] == sc.trail;
  }

  lemma CycleFromA()
    ensures Resolve(Empty.(unresolved := CycleRegistry()), "a", false) == Err(Circular(["a", "b", "c", "d"], "b"))
  {
    var s := Empty.(unresolved := CycleRegistry());
    CycleFromC();
    var sb := s.(trail := ["a", "b"]);
    assert FetchDeps(sb, ["c"], false) == Err(Circular(["a", "b", "c", "d"], "b"));
    var sa := s.(trail := ["a"]);
    assert sa.trail + ["b"] == sb.trail;
    assert Resolve(sa, "b", false) == Err(Circular(["a", "b", "c", "d"], "b"));
    assert FetchDeps(sa, ["b"], false) == Err(Circular(["a", "b", "c", "d"], "b"));
    assert s.trail + ["a"] == sa.trail;
  }

  /** Circular dependencies: a -> b, b -> c, c -> d, d -> b. Getting a fails
      with the path a -> b -> c -> d -> b. */
  lemma CycleExample()
    ensures Get(Empty.(unresolved := CycleRegistry()), "a") == Err(Circular(["a", "b", "c", "d"], "b"))
    ensures Message(Circular(["a", "b", "c", "d"], "b")) == "Circular dependencies: a -> b -> c -> d -> b!"
  {
    CycleFromA();
    CyclePath();
  }

  lemma CycleJoin()
    ensures Join(["a", "b", "c", "d"], " -> ") == "a -> b -> c -> d"
  {
    assert Join(["d"], " -> ") == "d";
    assert ["c", "d"][1..] == ["d"];
    assert Join(["c", "d"], " -> ") == "c -> d";
    assert ["b", "c", "d"][1..] == ["c", "d"];
    assert Join(["b", "c", "d"], " -> ") == "b -> c -> d";
    assert ["a", "b", "c", "d"][1..] == ["b", "c", "d"];
  }

  lemma CyclePath()
    ensures Message(Circular(["a", "b", "c", "d"], "b")) == "Circular dependencies: a -> b -> c -> d -> b!"
  {
    CycleJoin();
  }

  /** A fresh container has nothing to give. */
  lemma MissingExample()
    ensures Get(Empty, "a") == Err(Missing("a"))
    ensures Message(Missing("a")) == "Dependency is missing: a!"
  {
  }

  /** Setting `a` twice fails; the first registration stays. */
  lemma DuplicateExample()
    ensures var s := Set(Empty, "a", Plain(Bool(true)));
            && s.Ok?
            && Set(s.value, "a", Plain(Bool(false))) == Err(AlreadyExists("a"))
            && Get(s.value, "a").Ok? && Get(s.value, "a").value.0 == Bool(true)
  {
  }

  /** `replace` before the first get is seen by it; after it, it is refused. */
  lemma ReplaceExample()
    ensures var s := Set(Empty, "d1", Plain(Int(21))).value;
            var t := Replace(s, "d1", Plain(Int(42)));
            && t.Ok?
            && Get(t.value, "d1").Ok? && Get(t.value, "d1").value.0 == Int(42)
            && Replace(Get(t.value, "d1").value.1, "d1", Plain(Int(7))) == Err(ReplaceResolved("d1"))
            && Replace(s, "d2", Plain(Int(7))) == Err(DoesNotExist("d2"))
  {
  }

  /** Factories run once: two gets of a registered factory give 42 twice and
      a log with one invocation. The trail is left holding the name after
      the second get, so a third get is refused as circular. */
  lemma ThirdGetFails()
    ensures var s := Set(Empty, "d1", Factory([], Answer)).value;
            var g1 := Get(s, "d1");
            && g1.Ok? && g1.value.0 == Int(42) && g1.value.1.log == ["d1"] && g1.value.1.trail == []
            && var g2 := Get(g1.value.1, "d1");
               && g2.Ok? && g2.value.0 == Int(42) && g2.value.1.log == ["d1"] && g2.value.1.trail == ["d1"]
               && Get(g2.value.1, "d1") == Err(Circular(["d1"], "d1"))
               && Message(Get(g2.value.1, "d1").error) == "Circular dependencies: d1 -> d1!"
  {
    var s := Empty.(unresolved := map["d1" := Factory([], Answer)]);
    assert Set(Empty, "d1", Factory([], Answer)) == Ok(s);
    var pushed := s.(trail := ["d1"]);
    assert s.trail + ["d1"] == pushed.trail;
    assert FetchDeps(pushed, [], false) == Ok((pushed, []));
    assert Pop(["d1"]) == [];
    var s1 := s.(resolved := map["d1" := Int(42)], log := ["d1"]);
    assert Resolve(s, "d1", false) == Ok(s1);
    var s2 := s1.(trail := ["d1"]);
    assert s1.trail + ["d1"] == s2.trail;
    assert Resolve(s1, "d1", false) == Ok(s2);
  }

  /** With the repaired fast path the same three gets all succeed and the
      factory still runs once. */
  lemma RepairedThreeGets()
    ensures var s := Set(Empty, "d1", Factory([], Answer)).value;
            var g1 := GetRepaired(s, "d1");
            && g1.Ok? && g1.value.0 == Int(42) && g1.value.1.log == ["d1"]
            && GetRepaired(g1.value.1, "d1") == g1
            && GetRepaired(GetRepaired(g1.value.1, "d1").value.1, "d1") == g1
  {
    var s := Empty.(unresolved := map["d1" := Factory([], Answer)]);
    assert Set(Empty, "d1", Factory([], Answer)) == Ok(s);
    var pushed := s.(trail := ["d1"]);
    assert s.trail + ["d1"] == pushed.trail;
    assert FetchDeps(pushed, [], true) == Ok((pushed, []));
    assert Pop(["d1"]) == [];
    var s1 := s.(resolved := map["d1" := Int(42)], log := ["d1"]);
    assert Resolve(s, "d1", true) == Ok(s1);
  }

  /** Constructor injection through `createFactory`: d3 built as D3(40, 2). */
  lemma CreateFactoryExample()
    ensures var s := Empty.(unresolved := map["d1" := Plain(Int(40)), "d2" := Plain(Int(2)), "d3" := CreateFactory(D3)]);
            && Get(s, "d3").Ok?
            && Get(s, "d3").value.0 == Object("D3", [Int(40), Int(2)])
            && Sum(Get(s, "d3").value.0.fields) == Int(42)
  {
    var s := Empty.(unresolved := map["d1" := Plain(Int(40)), "d2" := Plain(Int(2)), "d3" := CreateFactory(D3)]);
    assert CreateFactory(D3) == Factory(["d1", "d2"], NewD3);
    var pushed := s.(trail := ["d3"]);
    var a := pushed.(resolved := map["d1" := Int(40)]);
    var b := pushed.(resolved := map["d1" := Int(40), "d2" := Int(2)]);
    assert Resolve(pushed, "d1", false) == Ok(a);
    assert Resolve(a, "d2", false) == Ok(b);
    assert FetchDeps(b, [], false) == Ok((b, []));
    assert ["d2"][1..] == [];
    var fa := FetchDeps(a, ["d2"], false);
    assert fa.Ok? && fa.value.0 == b && fa.value.1 == [Int(2)];
    assert ["d1", "d2"][1..] == ["d2"];
    var fp := FetchDeps(pushed, ["d1", "d2"], false);
    assert fp.Ok? && fp.value.0 == b && fp.value.1 == [Int(40), Int(2)];
    assert s.trail + ["d3"] == ["d3"];
    assert Pop(["d3"]) == [];
    var v := Object("D3", [Int(40), Int(2)]);
    assert Resolve(s, "d3", false) == Ok(b.(resolved := b.resolved["d3" := v], trail := [], log := [] + ["d3"]));
  }

  /** A class without a constructor is built with no lookups, even in an
      empty container. */
  lemma CreateWithoutConstructor()
    ensures Create(Empty, D4) == Ok((Object("D4", []), Empty))
  {
  }

  /** The acyclic registry x, w(x), y(x, w), z(y), a(y, z). */
  function Diamond(): map<string, Entry>
  {
    map["x" := Plain(Int(1)), "w" := Factory(["x"], First), "y" := Factory(["x", "w"], Sum),
        "z" := Factory(["y"], First), "a" := Factory(["y", "z"], Sum)]
  }

  /** One step of `resolveDep` on a plain entry met for the first time. */
  lemma PlainStep(s: State, name: string, popOnMemo: bool, v: Value)
    requires name !in s.trail && name !in s.resolved
    requires name in s.unresolved && s.unresolved[name] == Plain(v)
    ensures Resolve(s, name, popOnMemo) == Ok(s.(resolved := s.resolved[name := v]))
  {
    assert Pop(s.trail + [name]) == s.trail;
  }

  /** One step of `resolveDep` on a factory met for the first time. */
  lemma FactoryStep(s: State, name: string, popOnMemo: bool, params: seq<string>, f: seq<Value> -> Value,
                    after: State, args: seq<Value>)
    requires name !in s.trail && name !in s.resolved
    requires name in s.unresolved && s.unresolved[name] == Factory(params, f)
    requires FetchDeps(s.(trail := s.trail + [name]), params, popOnMemo) == Ok((after, args))
    ensures Resolve(s, name, popOnMemo)
            == Ok(after.(resolved := after.resolved[name := f(args)], trail := Pop(after.trail), log := after.log + [name]))
  {
  }

  /** A factory whose parameter lookups fail fails the same way. */
  lemma FactoryFails(s: State, name: string, popOnMemo: bool, params: seq<string>, f: seq<Value> -> Value, e: Error)
    requires name !in s.trail && name !in s.resolved
    requires name in s.unresolved && s.unresolved[name] == Factory(params, f)
    requires FetchDeps(s.(trail := s.trail + [name]), params, popOnMemo) == Err(e)
    ensures Resolve(s, name, popOnMemo) == Err(e)
  {
  }

  lemma FetchNil(s: State, popOnMemo: bool)
    ensures FetchDeps(s, [], popOnMemo) == Ok((s, []))
  {
  }

  /** One step of the parameter loop: the first lookup, then the rest. */
  lemma FetchStep(s: State, params: seq<string>, popOnMemo: bool, s1: State, s2: State, rest: seq<Value>)
    requires |params| > 0
    requires Resolve(s, params[0], popOnMemo) == Ok(s1)
    requires FetchDeps(s1, params[1..], popOnMemo) == Ok((s2, rest))
    ensures FetchDeps(s, params, popOnMemo) == Ok((s2, [s2.resolved[params[0]]] + rest))
  {
  }

  /** A failing lookup ends the parameter loop with its error. */
  lemma FetchHeadFails(s: State, params: seq<string>, popOnMemo: bool, e: Error)
    requires |params| > 0
    requires Resolve(s, params[0], popOnMemo) == Err(e)
    ensures FetchDeps(s, params, popOnMemo) == Err(e)
  {
  }

  lemma FetchTailFails(s: State, params: seq<string>, popOnMemo: bool, s1: State, e: Error)
    requires |params| > 0
    requires Resolve(s, params[0], popOnMemo) == Ok(s1)
    requires FetchDeps(s1, params[1..], popOnMemo) == Err(e)
    ensures FetchDeps(s, params, popOnMemo) == Err(e)
  {
  }

  /** Resolving x under a and y memoizes it and pops it again. */
  lemma DiamondX(popOnMemo: bool)
    ensures var s := Empty.(unresolved := Diamond());
            Resolve(s.(trail := ["a", "y"]), "x", popOnMemo) == Ok(s.(resolved := map["x" := Int(1)], trail := ["a", "y"]))
  {
    var s := Empty.(unresolved := Diamond());
    PlainStep(s.(trail := ["a", "y"]), "x", popOnMemo, Int(1));
  }

  /** As written, resolving w under a and y, with x already memoized, runs w
      once; w's lookup of x is answered from the memo and pushes x, so the
      pop that follows removes x and leaves w on the trail. */
  lemma DiamondAsWrittenW()
    ensures var s := Empty.(unresolved := Diamond());
            Resolve(s.(resolved := map["x" := Int(1)], trail := ["a", "y"]), "w", false)
            == Ok(s.(resolved := map["x" := Int(1), "w" := Int(1)], trail := ["a", "y", "w"], log := ["w"]))
  {
    var s := Empty.(unresolved := Diamond());
    var x1 := s.(resolved := map["x" := Int(1)], trail := ["a", "y"]);
    var pw := x1.(trail := ["a", "y", "w"]);
    var pwx := x1.(trail := ["a", "y", "w", "x"]);
    assert x1.trail + ["w"] == pw.trail;
    assert pw.trail + ["x"] == pwx.trail;
    assert Resolve(pw, "x", false) == Ok(pwx);
    FetchNil(pwx, false);
    assert ["x"][1..] == [];
    FetchStep(pw, ["x"], false, pwx, pwx, []);
    assert [pwx.resolved["x"]] + [] == [Int(1)];
    FactoryStep(x1, "w", false, ["x"], First, pwx, [Int(1)]);
    assert Pop(["a", "y", "w", "x"]) == ["a", "y", "w"];
    assert pwx.log + ["w"] == ["w"];
    assert pwx.resolved["w" := Int(1)] == map["x" := Int(1), "w" := Int(1)];
  }

  /** With the repaired fast path, the same step runs w once and pops
      exactly w. */
  lemma DiamondRepairedW()
    ensures var s := Empty.(unresolved := Diamond());
            Resolve(s.(resolved := map["x" := Int(1)], trail := ["a", "y"]), "w", true)
            == Ok(s.(resolved := map["x" := Int(1), "w" := Int(1)], trail := ["a", "y"], log := ["w"]))
  {
    var s := Empty.(unresolved := Diamond());
    var x1 := s.(resolved := map["x" := Int(1)], trail := ["a", "y"]);
    var pw := x1.(trail := ["a", "y", "w"]);
    assert x1.trail + ["w"] == pw.trail;
    assert Resolve(pw, "x", true) == Ok(pw);
    FetchNil(pw, true);
    assert ["x"][1..] == [];
    FetchStep(pw, ["x"], true, pw, pw, []);
    assert [pw.resolved["x"]] + [] == [Int(1)];
    FactoryStep(x1, "w", true, ["x"], First, pw, [Int(1)]);
    assert Pop(["a", "y", "w"]) == ["a", "y"];
    assert pw.log + ["w"] == ["w"];
    assert pw.resolved["w" := Int(1)] == map["x" := Int(1), "w" := Int(1)];
  }

  /** The lookups of y's parameters x and w, under a and y: both memoized,
      with 1 and 1 injected, and the trail as the w step leaves it. */
  lemma DiamondFetchY(popOnMemo: bool)
    ensures var s := Empty.(unresolved := Diamond());
            FetchDeps(s.(trail := ["a", "y"]), ["x", "w"], popOnMemo)
            == Ok((s.(resolved := map["x" := Int(1), "w" := Int(1)], trail := if popOnMemo then ["a", "y"] else ["a", "y", "w"], log := ["w"]),
                   [Int(1), Int(1)]))
  {
    var s := Empty.(unresolved := Diamond());
    var x1 := s.(resolved := map["x" := Int(1)], trail := ["a", "y"]);
    var w1 := s.(resolved := map["x" := Int(1), "w" := Int(1)], trail := if popOnMemo then ["a", "y"] else ["a", "y", "w"], log := ["w"]);
    DiamondX(popOnMemo);
    if popOnMemo { DiamondRepairedW(); } else { DiamondAsWrittenW(); }
    assert Resolve(x1, "w", popOnMemo) == Ok(w1);
    FetchNil(w1, popOnMemo);
    assert ["w"][1..] == [];
    FetchStep(x1, ["w"], popOnMemo, w1, w1, []);
    assert [w1.resolved["w"]] + [] == [Int(1)];
    assert ["x", "w"][1..] == ["w"];
    FetchStep(s.(trail := ["a", "y"]), ["x", "w"], popOnMemo, x1, w1, [Int(1)]);
    assert [w1.resolved["x"]] + [Int(1)] == [Int(1), Int(1)];
  }

  /** Resolving y under a memoizes x, runs w and y once each and injects
      1 + 1. As written it leaves y on the trail: w's lookup of x was answered
      from the memo and pushed x, and the pops that followed removed x and w
      instead of w and y. With the repaired fast path only a is left. */
  lemma DiamondY(popOnMemo: bool)
    ensures var s := Empty.(unresolved := Diamond());
            Resolve(s.(trail := ["a"]), "y", popOnMemo)
            == Ok(s.(resolved := map["x" := Int(1), "w" := Int(1), "y" := Int(2)],
                     trail := if popOnMemo then ["a"] else ["a", "y"], log := ["w", "y"]))
  {
    var s := Empty.(unresolved := Diamond());
    var pa := s.(trail := ["a"]);
    var w1 := s.(resolved := map["x" := Int(1), "w" := Int(1)], trail := if popOnMemo then ["a", "y"] else ["a", "y", "w"], log := ["w"]);
    assert pa.trail + ["y"] == ["a", "y"];
    DiamondFetchY(popOnMemo);
    FactoryStep(pa, "y", popOnMemo, ["x", "w"], Sum, w1, [Int(1), Int(1)]);
    assert Sum([Int(1), Int(1)]) == Int(2);
    assert w1.log + ["y"] == ["w", "y"];
    assert w1.resolved["y" := Int(2)] == map["x" := Int(1), "w" := Int(1), "y" := Int(2)];
    assert Pop(["a", "y", "w"]) == ["a", "y"];
    assert Pop(["a", "y"]) == ["a"];
  }

  /** As written, with y memoized but left on the trail, z's lookup of y is
      refused as circular. */
  lemma DiamondAsWrittenZ()
    ensures var s := Empty.(unresolved := Diamond());
            var y1 := s.(resolved := map["x" := Int(1), "w" := Int(1), "y" := Int(2)], trail := ["a", "y"], log := ["w", "y"]);
            Resolve(y1, "z", false) == Err(Circular(["a", "y", "z"], "y"))
  {
    var s := Empty.(unresolved := Diamond());
    var y1 := s.(resolved := map["x" := Int(1), "w" := Int(1), "y" := Int(2)], trail := ["a", "y"], log := ["w", "y"]);
    var pz := y1.(trail := ["a", "y", "z"]);
    assert y1.trail + ["z"] == pz.trail;
    assert Resolve(pz, "y", false) == Err(Circular(["a", "y", "z"], "y"));
    FetchHeadFails(pz, ["y"], false, Circular(["a", "y", "z"], "y"));
    FactoryFails(y1, "z", false, ["y"], First, Circular(["a", "y", "z"], "y"));
  }

  /** As written, a's parameter loop memoizes y and then fails on z. */
  lemma DiamondAsWrittenFetchA()
    ensures var s := Empty.(unresolved := Diamond());
            FetchDeps(s.(trail := ["a"]), ["y", "z"], false) == Err(Circular(["a", "y", "z"], "y"))
  {
    var s := Empty.(unresolved := Diamond());
    var pa := s.(trail := ["a"]);
    var y1 := s.(resolved := map["x" := Int(1), "w" := Int(1), "y" := Int(2)], trail := ["a", "y"], log := ["w", "y"]);
    var e := Circular(["a", "y", "z"], "y");
    DiamondY(false);
    assert Resolve(pa, "y", false) == Ok(y1);
    DiamondAsWrittenZ();
    assert ["y", "z"][1..] == ["z"];
    FetchHeadFails(y1, ["z"], false, e);
    FetchTailFails(pa, ["y", "z"], false, y1, e);
  }

  /** The registry x, w(x), y(x, w), z(y), a(y, z) has no cycle, yet as
      written the very first get of a is refused as circular: z's lookup of y
      finds y still on the trail. */
  lemma FalseCycleOnAcyclicRegistry()
    ensures Get(Empty.(unresolved := Diamond()), "a") == Err(Circular(["a", "y", "z"], "y"))
    ensures Message(Circular(["a", "y", "z"], "y")) == "Circular dependencies: a -> y -> z -> y!"
  {
    var s := Empty.(unresolved := Diamond());
    assert s.trail + ["a"] == ["a"];
    DiamondAsWrittenFetchA();
    FactoryFails(s, "a", false, ["y", "z"], Sum, Circular(["a", "y", "z"], "y"));
    DiamondPath();
  }

  lemma DiamondJoin()
    ensures Join(["a", "y", "z"], " -> ") == "a -> y -> z"
  {
    assert Join(["z"], " -> ") == "z";
    assert ["y", "z"][1..] == ["z"];
    assert Join(["y", "z"], " -> ") == "y -> z";
    assert ["a", "y", "z"][1..] == ["y", "z"];
  }

  lemma DiamondPath()
    ensures Message(Circular(["a", "y", "z"], "y")) == "Circular dependencies: a -> y -> z -> y!"
  {
    DiamondJoin();
  }

  /** With the repaired fast path, z's lookup of the memoized y leaves the
      trail alone and z resolves to 2. */
  lemma DiamondRepairedZ()
    ensures var s := Empty.(unresolved := Diamond());
            var y1 := s.(resolved := map["x" := Int(1), "w" := Int(1), "y" := Int(2)], trail := ["a"], log := ["w", "y"]);
            Resolve(y1, "z", true)
            == Ok(y1.(resolved := map["x" := Int(1), "w" := Int(1), "y" := Int(2), "z" := Int(2)], log := ["w", "y", "z"]))
  {
    var s := Empty.(unresolved := Diamond());
    var y1 := s.(resolved := map["x" := Int(1), "w" := Int(1), "y" := Int(2)], trail := ["a"], log := ["w", "y"]);
    var pz := y1.(trail := ["a", "z"]);
    assert y1.trail + ["z"] == pz.trail;
    assert Resolve(pz, "y", true) == Ok(pz);
    FetchNil(pz, true);
    assert ["y"][1..] == [];
    FetchStep(pz, ["y"], true, pz, pz, []);
    assert [pz.resolved["y"]] + [] == [Int(2)];
    FactoryStep(y1, "z", true, ["y"], First, pz, [Int(2)]);
    assert Pop(["a", "z"]) == ["a"];
    assert pz.log + ["z"] == ["w", "y", "z"];
    assert pz.resolved["z" := Int(2)] == map["x" := Int(1), "w" := Int(1), "y" := Int(2), "z" := Int(2)];
  }

  /** With the repaired fast path, a's parameter loop memoizes y and then z,
      injecting 2 and 2. */
  lemma DiamondRepairedFetchA()
    ensures var s := Empty.(unresolved := Diamond());
            FetchDeps(s.(trail := ["a"]), ["y", "z"], true)
            == Ok((s.(resolved := map["x" := Int(1), "w" := Int(1), "y" := Int(2), "z" := Int(2)], trail := ["a"], log := ["w", "y", "z"]),
                   [Int(2), Int(2)]))
  {
    var s := Empty.(unresolved := Diamond());
    var pa := s.(trail := ["a"]);
    var y1 := s.(resolved := map["x" := Int(1), "w" := Int(1), "y" := Int(2)], trail := ["a"], log := ["w", "y"]);
    var z1 := y1.(resolved := map["x" := Int(1), "w" := Int(1), "y" := Int(2), "z" := Int(2)], log := ["w", "y", "z"]);
    DiamondY(true);
    assert Resolve(pa, "y", true) == Ok(y1);
    DiamondRepairedZ();
    FetchNil(z1, true);
    assert ["z"][1..] == [];
    FetchStep(y1, ["z"], true, z1, z1, []);
    assert [z1.resolved["z"]] + [] == [Int(2)];
    assert ["y", "z"][1..] == ["z"];
    FetchStep(pa, ["y", "z"], true, y1, z1, [Int(2)]);
    assert [z1.resolved["y"]] + [Int(2)] == [Int(2), Int(2)];
  }

  /** The repaired resolution of a: y + z = 2 + 2, memoized, with the trail
      popped back to empty. */
  lemma DiamondRepairedA()
    ensures Resolve(Empty.(unresolved := Diamond()), "a", true)
            == Ok(Empty.(unresolved := Diamond(),
                         resolved := map["x" := Int(1), "w" := Int(1), "y" := Int(2), "z" := Int(2), "a" := Int(4)],
                         log := ["w", "y", "z", "a"]))
  {
    var s := Empty.(unresolved := Diamond());
    var z1 := s.(resolved := map["x" := Int(1), "w" := Int(1), "y" := Int(2), "z" := Int(2)], trail := ["a"], log := ["w", "y", "z"]);
    assert s.trail + ["a"] == ["a"];
    DiamondRepairedFetchA();
    FactoryStep(s, "a", true, ["y", "z"], Sum, z1, [Int(2), Int(2)]);
    assert Sum([Int(2), Int(2)]) == Int(4);
    assert Pop(["a"]) == [];
    assert z1.log + ["a"] == ["w", "y", "z", "a"];
    assert z1.resolved["a" := Int(4)] == map["x" := Int(1), "w" := Int(1), "y" := Int(2), "z" := Int(2), "a" := Int(4)];
  }

  /** The repaired resolver gets a = y + z = 2 + 2 from the same registry,
      running each of w, y, z and a once and leaving the trail empty. */
  lemma DiamondRepaired()
    ensures GetRepaired(Empty.(unresolved := Diamond()), "a")
            == Ok((Int(4), Empty.(unresolved := Diamond(),
                                  resolved := map["x" := Int(1), "w" := Int(1), "y" := Int(2), "z" := Int(2), "a" := Int(4)],
                                  log := ["w", "y", "z", "a"])))
  {
    DiamondRepairedA();
  }
}
