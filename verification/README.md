# Jiggle dependency-resolution engine in Dafny

Jiggle is a small PHP dependency-injection container. Each dependency is registered under a name, either as a plain value or as a factory. A factory's declared parameter names say which other dependencies it wants injected. Resolution works like this:
- A get resolves a name lazily.
- A factory is called with its parameters resolved by name, in declaration order.
- The result is memoized, so each factory runs at most once.
- A trail of the names being resolved detects circular dependencies.

`create` and `createFactory` apply the same name-based injection to class constructors.

The model is functional. An immutable `Jiggle.State` holds four things:
- the registrations (`unresolved`);
- the memo (`resolved`);
- the trail;
- a log of factory invocations, which stands in for call counters.

This state is threaded through the mutually recursive `Jiggle.Resolve` (`resolveDep`, which returns the container in which the name is memoized; `Get` and `FetchDeps` read the value from it) and `Jiggle.FetchDeps` (`fetchDepsFromSignature`). Both return a `Result`, and an exception becomes an `Err`. Reflection on a callable becomes a `Factory(params, f)`: `params` is the ordered list of declared parameter names and `f` is a function of the injected values.

The project has these modules:
- `Registry` (registry.dfy): values, entries, errors, the exception messages, and the memo predicates `Produces` and `Memoizes`.
- `Jiggle` (jiggle.dfy): the trail-based container of src/Jiggle.php.
- `JiggleProofs` (jiggle_proofs.dfy): the properties of the trail-based container. These are:
  - growth of the memo;
  - the invariant `Valid`: everything memoized is what its registration produces, and no factory is logged twice;
  - trail prefixes;
  - the fast-path trail behaviour.
- `JiggleLib` (jiggle_lib.dfy): the earlier, trail-less container of lib/Jiggle.php. It has no cycle detection, so it is modelled only on registries ranked acyclic by a ghost `rank`.
- `LibAgreement` (lib_agreement.dfy): on ranked registries, the trail-less resolver and the trail-based resolver with a repaired fast path agree step for step.
- `Scenarios` (scenarios.dfy): the container's test cases replayed as concrete lemmas, plus the inputs that expose the trail defect below.

`Resolve` takes a flag `popOnMemo`:
- `false` is the code as written. The memo fast path pushes the name onto the trail and returns before the `array_pop`, so the name stays on the trail.
- `true` is the repaired fast path, which leaves the trail alone.

`Get` and `Create` use the code as written. `GetRepaired` uses the repaired fast path.

Here the code departs from its evident intent. The trail is meant to hold only the names still being resolved: its one use is the cycle check, and every other successful path pops what it pushed. So the evident intent is that a memoized name is returned with no trail change, and that repeated gets of a resolved name keep succeeding. The model follows the code, and the repaired resolver models the intent (see Findings).

## Model

| member | source | states |
|---|---|---|
| Jiggle.Set | src/Jiggle.php:36-41 | Registering fails with "already exists" exactly when the name is registered. Otherwise it adds only that name with that entry, keeps every other registration, and leaves the memo, trail and invocation log untouched, so no factory runs. |
| Jiggle.Replace | src/Jiggle.php:26-34 | An unregistered name fails with "does not exist". A memoized name fails with "replace resolved". Replacement succeeds exactly when the name is registered and not yet resolved. It then overwrites only that entry and changes nothing else. |
| Jiggle.Pop | src/Jiggle.php:78 | `array_pop` removes exactly the last name of a non-empty trail and leaves an empty trail alone. |
| Jiggle.Resolve | src/Jiggle.php:54-79 | A name on the trail fails as circular, with the trail at entry. A memoized name is returned as is; as written its name stays pushed, repaired the trail is unchanged. A name neither memoized nor registered fails as missing. The only errors are missing and circular. On success the registrations are unchanged, the memo only grows and holds the name, and the entry trail and log are prefixes of the new ones. |
| Jiggle.FetchDeps | src/Jiggle.php:81-87 | On success every declared parameter is memoized, and the argument list is exactly the memoized values of the parameters, in declaration order. The memo only grows, and the trail and log only extend. |
| Jiggle.Get | src/Jiggle.php:43-47 | Succeeds exactly when the resolution does and returns the value memoized for the name. A memo hit returns the stored value and leaves the name on the trail. |
| Jiggle.GetRepaired | src/Jiggle.php:43-47 | The same get with the repaired fast path: a memo hit returns the stored value and leaves the container unchanged. |
| Jiggle.Create | src/Jiggle.php:9-17 | A class without a constructor is built from no arguments, with no lookups and no state change. Otherwise, on success, the constructor's parameters are all memoized and the instance is built from their memoized values in declaration order. |
| Registry.JoinShape | src/Jiggle.php:56 | `implode` of no names is empty and of one name is that name; otherwise it opens with the first name, and its length is the names' total plus one separator per gap. Together with `JoinSnoc` this determines the join by induction: the names in order with one separator between each adjacent pair. |
| Registry.JoinSnoc | src/Jiggle.php:56 | Joining one more name onto a non-empty list adds exactly one separator and that name at the end. |
| Registry.MessageShape | src/Jiggle.php:26-64 | Every exception message is its kind's fixed opening text, then the offending name, then "!". A cycle message ends with " -> ", the repeated name and "!". The texts are those at src/Jiggle.php lines 28, 31, 38, 57 and 64, which lib/Jiggle.php repeats at lines 10 and 24. |
| Registry.MessageDecodes | src/Jiggle.php:26-64 | The messages are unambiguous: the kind and the name of every single-name error can be read back from its text, and a cycle message is never read as one of them. |
| Registry.CycleMessageIsPath | src/Jiggle.php:55-57 | The circular-dependency message spells the whole path: the trail followed by the repeated name, joined by " -> ". |
| JiggleProofs.ResolveGrows | src/Jiggle.php:54-79 | A successful resolution grows the container: every newly memoized name was off the trail and memoizes what its registration produces, and every new log entry is a distinct factory newly memoized. A first-time plain value leaves the trail as it was. A first-time factory is invoked and logged. With the repaired fast path the trail always ends as it began. |
| JiggleProofs.FetchDepsGrows | src/Jiggle.php:81-87 | Fetching the parameters grows the container in the same sense; with the repaired fast path the trail ends as it began. |
| JiggleProofs.FactoryStepGrows | src/Jiggle.php:66-78 | The last step of a factory resolution stores f(args) under the name, logs one invocation of it, and keeps the entry trail a prefix; after a balanced fetch it restores the entry trail. |
| JiggleProofs.ResolveProduces | src/Jiggle.php:66-75 | On a valid container, a successful resolution memoizes for the name exactly what its registration produces: a plain value verbatim, or the factory applied to its parameters' memoized values in order. The container stays valid. |
| JiggleProofs.SetKeepsValid | src/Jiggle.php:36-41 | Registering keeps the container invariant. |
| JiggleProofs.ReplaceKeepsValid | src/Jiggle.php:26-34 | Replacing keeps the container invariant. |
| JiggleProofs.CreateKeepsValid | src/Jiggle.php:9-17 | `create` keeps the container invariant: its constructor lookups are ordinary resolutions, and the instance is not memoized. |
| JiggleProofs.SetThenGet | src/Jiggle.php:36-47 | After registering, no factory has run. The first get returns a plain value verbatim without logging, and in general returns what the new registration produces. |
| JiggleProofs.ReplaceThenGet | src/Jiggle.php:26-47 | After a replace, the first get sees the replacement: a plain replacement verbatim, in general what the replacement produces. |
| JiggleProofs.MemoHitLeavesNameOnTrail | src/Jiggle.php:59-62 | As written, a get answered from the memo leaves the name on the trail, and the next get of the same name fails as circular. |
| JiggleProofs.RepairedGetsRepeat | src/Jiggle.php:59-62 | With the repaired fast path, a successful get leaves the trail unchanged, and getting the same name again returns the identical value and state. |
| JiggleProofs.CreateFactoryMatchesCreate | src/Jiggle.php:19-24 | Getting a name registered with createFactory(c) succeeds or fails exactly as create(c) with the name on the trail, and with the same error. On success it yields create's instance, memoized under the name, with one more logged invocation and the trail popped. |
| JiggleProofs.RunKeepsValid | src/Jiggle.php:9-79 | Over any exception-free sequence of sets, replaces, gets and creates, the invariant holds throughout: everything memoized is what its registration produces, and no factory is logged twice. Gets may use either fast path, while creates always run as written; the invariant does not depend on the trail. |
| JiggleProofs.FactoriesRunAtMostOnce | src/Jiggle.php:61-75 | From an empty container, across any exception-free sequence of sets, replaces, gets and creates, each factory is invoked at most once, whichever fast path the gets use; creates run as written. |
| JiggleLib.Set | lib/Jiggle.php:8-13 | Registering fails with "already exists" exactly when the name is registered. Otherwise it adds only that name and leaves the memo and log untouched. |
| JiggleLib.Resolve | lib/Jiggle.php:20-40 | On a ranked (acyclic) registry: a memoized name returns the container unchanged; an unknown name fails as missing, the only possible error. A success memoizes the name, only grows the memo and extends the log. |
| LibAgreement.SetAgrees | lib/Jiggle.php:8-13 | The two versions of `__set` agree: they refuse the same names with the same error, and otherwise leave the same registrations, memo and log. |
| JiggleLib.FetchDeps | lib/Jiggle.php:30-33 | On success every parameter is memoized, and the argument list is their memoized values in declaration order. |
| JiggleLib.Get | lib/Jiggle.php:15-18 | A memoized name returns the stored value and changes nothing. An unknown name fails as missing. |
| JiggleLib.GetIsIdempotent | lib/Jiggle.php:15-22 | With no trail, a second get of a name that resolved returns the same value and changes nothing. |
| LibAgreement.ResolveAgrees | lib/Jiggle.php:20-40 | On a ranked registry whose trail ranks above the name, the trail-less resolution equals the repaired trail-based resolution with the trail forgotten: the same error, or the same memo and log. |
| LibAgreement.FetchAgrees | lib/Jiggle.php:30-33 | Fetching parameters agrees between the two resolvers in the same sense. |
| LibAgreement.GetAgrees | lib/Jiggle.php:15-40 | From an empty trail on a ranked registry, both gets succeed or fail together, with the same value, memo and log, and the same error, which is always "missing" and never a cycle. The repaired trail ends empty. |
| LibAgreement.LibGetProduces | lib/Jiggle.php:26-38 | The trail-less get returns what the name's registration produces and keeps the container invariant. |
| Scenarios.WiringExample | test/JiggleTest.php:50-59 | With d1 = 42 and d2 a factory of its single parameter d1 returning it, getting d2 injects 42, returns 42 and runs d2's factory once. |
| Scenarios.InjectionExample | src/Jiggle.php:66-87 | With d1 = 40, d2 = 2 and d3 a factory of (d1, d2), getting d3 injects 40 and 2 in order, gives 42, runs the factory once and leaves the trail empty. |
| Scenarios.CycleExample | test/JiggleTest.php:135-146 | The chain a to b, b to c, c to d, d to b fails with "Circular dependencies: a -> b -> c -> d -> b!". |
| Scenarios.MissingExample | test/JiggleTest.php:148-155 | An empty container fails a get with "Dependency is missing: a!". |
| Scenarios.DuplicateExample | test/JiggleTest.php:157-165 | Setting a twice fails as already existing, and the first registration stays. |
| Scenarios.ReplaceExample | src/Jiggle.php:26-34 | A replace before the first get is seen by it. A replace after it is refused, and so is a replace of an unregistered name. |
| Scenarios.ThirdGetFails | test/JiggleTest.php:103-113 | Two gets of a factory give 42 twice with one invocation. The second leaves d1 on the trail, and a third get fails with "Circular dependencies: d1 -> d1!". |
| Scenarios.RepairedThreeGets | test/JiggleTest.php:103-113 | With the repaired fast path, repeated gets all return the first result, with one invocation. |
| Scenarios.CreateFactoryExample | test/JiggleTest.php:85-93 | A createFactory registration of D3 with d1 = 40 and d2 = 2 builds D3(40, 2), whose sum is 42. |
| Scenarios.CreateWithoutConstructor | test/JiggleTest.php:95-101 | A class without a constructor is built with no lookups, even in an empty container. |
| Scenarios.FalseCycleOnAcyclicRegistry | src/Jiggle.php:54-79 | On the acyclic registry x, w(x), y(x, w), z(y), a(y, z), the first get of a fails with "Circular dependencies: a -> y -> z -> y!". |
| Scenarios.DiamondRepaired | src/Jiggle.php:54-79 | With the repaired fast path, the same get returns 4 and runs w, y, z and a once each, leaving the trail empty. |

## Left out

- `__call` (src/Jiggle.php:49-52): it calls a resolved value with caller-supplied arguments, which is a foreign call.
- PHP reflection (`ReflectionFunction`, `ReflectionClass`, `newInstanceArgs`). It is represented by an explicit list of parameter names and a function of the injected values.
- Callables that are strings or arrays, and `is_callable` in general: a registration is tagged `Plain` or `Factory` instead.
- Reference semantics (`&`) and mutation through returned references. This is PHP aliasing, not resolution logic.
- Factories that capture the container and re-enter `__get`. Factories are pure functions of their injected arguments, and an invocation log replaces the tests' call counters.
- `null` values, which `isset` treats as absent: values have no null. JiggleProofs.FactoriesRunAtMostOnce depends on this, because in PHP a factory that returns null fails the `isset` at src/Jiggle.php:61 and runs again on every get.
- The state after an exception, including the unpopped trail on the throw paths: errors are returned without a state.
- Jiggle.CreateFactory: the PHP closure declares no parameters and calls `create` when invoked; the model's factory declares the constructor's parameters instead. The lookups are the same, in the same order, with the name on the trail, but the invocation is logged after the dependencies' factories rather than before them. JiggleProofs.CreateFactoryMatchesCreate states how such a registration relates to `create`.
- Jiggle.Create: the instance's constructor is a pure function of its arguments, and class names are not resolved to classes.
- JiggleLib.Resolve: requires the whole registry to be ranked acyclic. When a requested name reaches a cycle, the parameter lookup `$this->{$name}` at lib/Jiggle.php:32 comes back to a name whose `__get` is still running. PHP's per-object, per-name `__get` guard then stops it from re-entering `__get`, and the name is read as a new public property holding null. The factories on the cycle receive null and no error is raised. This is not modelled. The requirement also excludes registries whose cycle the request never reaches: with p(q), q(p) and a = 1, the PHP code returns 1 for a, but the model says nothing about that registry.
- Jiggle.Resolve: names are compared exactly, whereas `in_array` at src/Jiggle.php:55 compares loosely, so in PHP numeric-string names such as "1" and "01" collide in the cycle check. Factory parameters are PHP identifiers and cannot be numeric, so only top-level names are affected.
- The trail-less container's parameter lookup `$this->{$param}` would read a private property named `unresolvedDeps` or `resolvedDeps` instead of a dependency; parameter names are assumed not to collide with them.
- JiggleProofs.ResolveGrows: after a factory resolution with the fast path as written, the exit trail is stated only to extend the entry trail, not its exact contents.

## Findings

| source | as written | input that shows it | evidently intended | confidence | as-written member | corrected member |
|---|---|---|---|---|---|---|
| src/Jiggle.php:59-62 | The memo fast path pushes the name onto the trail and returns before the `array_pop` at line 78, so a memoized name stays on the trail. | A parameterless factory d1 fetched three times: the third get fails with "Circular dependencies: d1 -> d1!". | A memo hit leaves the trail unchanged, so repeated gets keep succeeding. | not executed; follows from the proved model | Scenarios.ThirdGetFails | JiggleProofs.RepairedGetsRepeat |
| src/Jiggle.php:59-78 | The leaked name shifts every later pop of the same top-level resolution, so a later sibling dependency meets a name that has already resolved as if it were still being resolved. | The acyclic registry x = 1, w(x), y(x, w), z(y), a(y, z): the first get of a fails with "Circular dependencies: a -> y -> z -> y!". | An acyclic registry never reports a cycle; missing names are the only failure. | not executed; follows from the proved model | Scenarios.FalseCycleOnAcyclicRegistry | LibAgreement.GetAgrees |
