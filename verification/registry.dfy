/** Values, registrations, errors and memo helpers shared by both versions of the
    Jiggle container (the trail-based resolver and the earlier trail-less one). */
module Registry {

  /** A PHP value the container hands out. There is no null: PHP's `isset` would
      treat a null entry as absent, and the model leaves that case out. */
  datatype Value =
    | Int(n: int)
    | Bool(b: bool)
    | Str(s: string)
    | Object(cls: string, fields: seq<Value>)

  /** What a name is registered with. A callable becomes a `Factory` carrying the
      names of its declared parameters in declaration order (what reflection
      reports) and the function itself; anything else is a `Plain` value. */
  datatype Entry =
    | Plain(v: Value)
    | Factory(params: seq<string>, f: seq<Value> -> Value)

  /** A class `create` can build: its constructor's parameter names, if it
      declares a constructor, and the construction itself. */
  datatype Class = Class(name: string, ctor: Option<seq<string>>, build: seq<Value> -> Value)

  datatype Option<T> = None | Some(value: T)

  /** The exceptions the container throws. */
  datatype Error =
    | AlreadyExists(name: string)
    | DoesNotExist(name: string)
    | ReplaceResolved(name: string)
    | Missing(name: string)
    | Circular(trail: seq<string>, name: string)

  datatype Result<T> = Ok(value: T) | Err(error: Error)

  /** The combined length of a list of strings. */
  function TotalLength(xs: seq<string>): nat
  {
    if |xs| == 0 then 0 else |xs[0]| + TotalLength(xs[1..])
  }

  /** PHP's `implode(sep, xs)`. */
  function Join(xs: seq<string>, sep: string): string
  {
    if |xs| == 0 then ""
    else if |xs| == 1 then xs[0]
    else xs[0] + sep + Join(xs[1..], sep)
  }

  /** The ends of `implode`: nothing for no strings, the string itself for
      one, and otherwise it opens with the first string and its length is
      theirs plus one separator per gap. With `JoinSnoc`, which says how one
      more string is appended, this fixes the whole join by induction. */
  lemma {:induction false} JoinShape(xs: seq<string>, sep: string)
    ensures |xs| == 0 ==> Join(xs, sep) == ""
    ensures |xs| == 1 ==> Join(xs, sep) == xs[0]
    ensures |xs| > 0 ==> xs[0] <= Join(xs, sep)
    ensures |xs| > 0 ==> |Join(xs, sep)| == TotalLength(xs) + (|xs| - 1) * |sep|
  {
    if |xs| > 1 {
      JoinShape(xs[1..], sep);
    }
  }

  /** The kinds of exception, which the message's opening text tells apart. */
  datatype Kind = AlreadyExistsKind | DoesNotExistKind | ReplaceResolvedKind | MissingKind | CircularKind

  function KindOf(e: Error): Kind
  {
    match e
    case AlreadyExists(_) => AlreadyExistsKind
    case DoesNotExist(_) => DoesNotExistKind
    case ReplaceResolved(_) => ReplaceResolvedKind
    case Missing(_) => MissingKind
    case Circular(_, _) => CircularKind
  }

  /** The fixed text that opens the message of each kind of error. `Message`
      spells these texts out again, and `MessageShape` proves the two agree. */
  function Prefix(k: Kind): string
  {
    match k
    case AlreadyExistsKind => "Dependency allready exists: "
    case DoesNotExistKind => "Dependency does not exist: "
    case ReplaceResolvedKind => "Could replace resolved Dependency: "
    case MissingKind => "Dependency is missing: "
    case CircularKind => "Circular dependencies: "
  }

  /** What follows the opening text: the offending name, or for a cycle the
      trail followed by the name that closed it. */
  function Detail(e: Error): string
  {
    match e
    case Circular(trail, name) => Join(trail, " -> ") + " -> " + name
    case _ => e.name
  }

  lemma Framed(p: string, d: string)
    ensures var m := p + d + "!";
            p <= m && |m| > |p| && m[|m| - 1] == '!' && m[|p|..|m| - 1] == d
  {
    var m := p + d + "!";
    assert m[..|p|] == p;
    assert m[|p|..|m| - 1] == d;
  }

  lemma Ends(a: string, b: string)
    ensures (a + b)[|a|..] == b
  {
  }

  /** The exception message for each error. */
  function Message(e: Error): string
  {
    match e
    case AlreadyExists(name) => "Dependency allready exists: " + name + "!"
    case DoesNotExist(name) => "Dependency does not exist: " + name + "!"
    case ReplaceResolved(name) => "Could replace resolved Dependency: " + name + "!"
    case Missing(name) => "Dependency is missing: " + name + "!"
    case Circular(trail, name) => "Circular dependencies: " + Join(trail, " -> ") + " -> " + name + "!"
  }

  /** Regrouping a cycle message around its path. */
  lemma Regroup(p: string, j: string, sep: string, n: string)
    ensures p + j + sep + n + "!" == p + (j + sep + n) + "!"
  {
  }

  /** Every message is its kind's opening text, its detail and "!". */
  lemma MessageParts(e: Error)
    ensures Message(e) == Prefix(KindOf(e)) + Detail(e) + "!"
  {
    if e.Circular? {
      Regroup("Circular dependencies: ", Join(e.trail, " -> "), " -> ", e.name);
    }
  }

  /** Each exception message is its kind's opening text, then the offending
      name (for a cycle, the path that closes it, ending in the repeated
      name), then "!". */
  lemma MessageShape(e: Error)
    ensures var m := Message(e);
            && Prefix(KindOf(e)) <= m && |m| > |Prefix(KindOf(e))| && m[|m| - 1] == '!'
            && (!e.Circular? ==> m[|Prefix(KindOf(e))|..|m| - 1] == e.name)
            && (e.Circular? ==> |m| >= |e.name| + 5 && m[|m| - |e.name| - 5..] == " -> " + e.name + "!")
  {
    MessageParts(e);
    Framed(Prefix(KindOf(e)), Detail(e));
    if e.Circular? {
      var q := Prefix(KindOf(e)) + Join(e.trail, " -> ");
      assert Message(e) == q + (" -> " + e.name + "!");
      Ends(q, " -> " + e.name + "!");
    }
  }

  /** The characters that tell the opening texts apart: the first, second and
      twelfth. */
  function Signature(m: string): (char, char, char)
    requires |m| > 11
  {
    (m[0], m[1], m[11])
  }

  lemma SignatureOfPrefix(k: Kind, m: string)
    requires Prefix(k) <= m
    ensures |m| > 11 && Signature(m) == Signature(Prefix(k))
  {
  }

  /** No two kinds' opening texts can both open the same message. */
  lemma PrefixesExclusive(k1: Kind, k2: Kind, m: string)
    requires Prefix(k1) <= m && Prefix(k2) <= m
    ensures k1 == k2
  {
    SignatureOfPrefix(k1, m);
    SignatureOfPrefix(k2, m);
  }

  /** Reads a single-name error back from its message; a cycle message, whose
      path cannot be split back into names, reads as none. */
  function ErrorOf(m: string): Option<Error>
  {
    if |m| == 0 || m[|m| - 1] != '!' then None
    else if Prefix(AlreadyExistsKind) <= m then Some(AlreadyExists(m[|Prefix(AlreadyExistsKind)|..|m| - 1]))
    else if Prefix(DoesNotExistKind) <= m then Some(DoesNotExist(m[|Prefix(DoesNotExistKind)|..|m| - 1]))
    else if Prefix(ReplaceResolvedKind) <= m then Some(ReplaceResolved(m[|Prefix(ReplaceResolvedKind)|..|m| - 1]))
    else if Prefix(MissingKind) <= m then Some(Missing(m[|Prefix(MissingKind)|..|m| - 1]))
    else None
  }

  /** Each single-name exception message names its error unambiguously: the
      kind and the name can be read back from the text. A cycle message is
      never mistaken for one of them. */
  lemma MessageDecodes(e: Error)
    ensures !e.Circular? ==> ErrorOf(Message(e)) == Some(e)
    ensures e.Circular? ==> ErrorOf(Message(e)) == None
  {
    var m := Message(e);
    MessageShape(e);
    forall k | Prefix(k) <= m ensures k == KindOf(e) {
      PrefixesExclusive(k, KindOf(e), m);
    }
  }

  /** Appending one name to a non-empty list adds one separator and the name. */
  lemma {:induction false} JoinSnoc(xs: seq<string>, x: string, sep: string)
    requires |xs| > 0
    ensures Join(xs + [x], sep) == Join(xs, sep) + sep + x
  {
    if |xs| == 1 {
      assert (xs + [x])[1..] == [x];
    } else {
      assert (xs + [x])[1..] == xs[1..] + [x];
      JoinSnoc(xs[1..], x, sep);
    }
  }

  /** The cycle message spells out the whole path: the trail followed by the
      name that closed the cycle. */
  lemma CycleMessageIsPath(trail: seq<string>, name: string)
    requires |trail| > 0
    ensures Message(Circular(trail, name)) == "Circular dependencies: " + Join(trail + [name], " -> ") + "!"
  {
    JoinSnoc(trail, name, " -> ");
    Regroup("Circular dependencies: ", Join(trail, " -> "), " -> ", name);
  }

  /** The names of the dependencies an entry asks to have injected. */
  function Deps(e: Entry): seq<string>
  {
    match e
    case Plain(_) => []
    case Factory(params, _) => params
  }

  predicate AllIn(names: seq<string>, m: map<string, Value>)
  {
    forall i :: 0 <= i < |names| ==> names[i] in m
  }

  /** The values memoized for `names`, in order. */
  function Lookup(m: map<string, Value>, names: seq<string>): (vs: seq<Value>)
    requires AllIn(names, m)
    ensures |vs| == |names|
    ensures forall i :: 0 <= i < |names| ==> vs[i] == m[names[i]]
  {
    if |names| == 0 then [] else [m[names[0]]] + Lookup(m, names[1..])
  }

  /** Every memoized value of `m` is still there, unchanged, in `m'`. */
  ghost predicate Extends(m: map<string, Value>, m': map<string, Value>)
  {
    forall k :: k in m ==> k in m' && m'[k] == m[k]
  }

  /** `v` is what entry `e` produces given the memo `res`: a plain value is
      used as is; a factory is applied to the memoized values of its declared
      parameters, in declaration order. */
  ghost predicate Produces(e: Entry, res: map<string, Value>, v: Value)
  {
    match e
    case Plain(w) => v == w
    case Factory(params, f) => AllIn(params, res) && v == f(Lookup(res, params))
  }

  /** The memo holds for `k` exactly what `k`'s registration produces. */
  ghost predicate Memoizes(u: map<string, Entry>, res: map<string, Value>, k: string)
  {
    k in u && k in res && Produces(u[k], res, res[k])
  }

  /** Growing the memo never disturbs what an entry already memoizes. */
  lemma ProducesStable(e: Entry, res: map<string, Value>, res': map<string, Value>, v: Value)
    requires Produces(e, res, v)
    requires Extends(res, res')
    ensures Produces(e, res', v)
  {
    match e
    case Plain(_) =>
    case Factory(params, f) =>
      assert Lookup(res', params) == Lookup(res, params);
  }

  lemma MemoizesStable(u: map<string, Entry>, res: map<string, Value>, res': map<string, Value>, k: string)
    requires Memoizes(u, res, k)
    requires Extends(res, res')
    ensures Memoizes(u, res', k)
  {
    ProducesStable(u[k], res, res', res[k]);
  }
}
