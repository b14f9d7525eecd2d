# Aura.Invoker named-parameter invocation, modelled in Dafny

Aura.Invoker's `InvokerTrait` lets a class call one of an object's methods, or a
closure, with an array of **named** parameters instead of a positional argument
list. `invokeMethod` first checks that the method is callable. If it is not, it
throws `BadMethodCallException` with the message `Class::method`. Both
operations then walk the target's declared parameters in declaration order and
build the positional argument list. Each parameter gets the caller's value
under its name when `isset` holds for that value. Otherwise it gets the
declared default, or `null` when there is no default. The list is then passed
to `invokeArgs`.

This project models that resolution step and the callability guard as pure
functions. Then it proves what they promise.

- `wrappers.dfy` (`Wrappers`): `Option` for declared defaults and `Result`
  for the guard's failure.
- `values.dfy` (`PhpValues`): PHP values with an explicit `Null`. It also
  holds the named-parameter array `ParamMap` and `Isset`, which is PHP's
  `isset($params[$name])`: the key is present and its value is not null.
- `resolution.dfy` (`Resolution`): declared parameters (`Param`) and the
  slot-by-slot resolution law (`Resolves`). It has the recursive `Resolve`,
  the imperative `ResolveArguments` that mirrors the `foreach`, and the
  lemmas: characterization, concatenation, declaration order, frame, undeclared
  keys and the null quirk.
- `invoker.dfy` (`Invoker`): `InvokeMethod`, `InvokeClosure`, their parity
  and worked examples.

Reflection, `is_callable` and `get_class` reach the model as inputs. Those
inputs are the declared parameter sequence, a boolean and the class name.

The trait's own documentation and its code disagree in two places. The model
follows the code in both.

- The docblock of `invokeMethod` (src/InvokerTrait.php:38-39) says the array
  keys are matched to the method's parameter names. Line 63 (and line 88)
  tests `isset` instead, which is false for a key whose value is `null`. So an
  explicit `null` in the array counts as absent, and the default (or `null`)
  is used instead (`Resolution.ResolveNullIsUnset`).
- The same docblock (src/InvokerTrait.php:33-36) says `$object` may be a
  closure, and that `$method` is then ignored. The code at lines 50-53 makes
  no such exception. A closure goes through the same `is_callable` guard,
  with class name `Closure`. When that guard fails, `Invoker.InvokeMethod`
  fails with `Closure::method` whatever the declared parameters are, where
  the docblock's intent would be the `invokeClosure` argument list
  (`Invoker.ClosureThroughInvokeMethodIsGuarded`).

## Model

| member | source | states |
|---|---|---|
| PhpValues.Isset | src/InvokerTrait.php:63 | PHP `isset($params[$name])`. It is false for a missing key, false for a key whose value is `null`, and true for a key holding any other value. |
| Resolution.ArgumentFor | src/InvokerTrait.php:63-70 | The value bound to one declared parameter. It is the caller's value when `isset` holds for the name. Otherwise it is the declared default, or `null` when there is no default. |
| Resolution.Names | src/InvokerTrait.php:62-63 | The set of declared parameter names. It contains every declared name and nothing else. |
| Resolution.Resolve | src/InvokerTrait.php:59-72 | The argument list has exactly one entry per declared parameter, so a signature with no parameters yields `[]` whatever the array holds. Entry `i` is the caller's value when `isset` holds for parameter `i`'s name. Otherwise it is that parameter's default, or `null` when it has none. |
| Resolution.ResolveArguments | src/InvokerTrait.php:59-72 | The `foreach` that starts from `[]` and appends one argument per declared parameter yields a list obeying the resolution law, equal to `Resolve`. |
| Resolution.ResolveCharacterized | src/InvokerTrait.php:62-72 | A list obeys the slot-by-slot resolution law if and only if it is the list the loop builds, so the law fixes the result completely. |
| Resolution.ResolveAppend | src/InvokerTrait.php:62-72 | Resolving `ps + qs` gives the resolution of `ps` followed by that of `qs`. The arguments of earlier parameters never depend on later ones. |
| Resolution.ResolveFollowsDeclarationOrder | src/InvokerTrait.php:62-72 | Reordering the declared parameters reorders the arguments the same way. Argument `i` depends only on parameter `i` and the array, never on the order of the array's keys. |
| Resolution.ResolveFrame | src/InvokerTrait.php:62-63 | Two arrays give the same list when they agree, for every declared name, on whether `isset` holds and on the value when it does. |
| Resolution.ResolveIgnoresUndeclared | src/InvokerTrait.php:62-63 | Adding, changing or removing an entry whose key names no declared parameter leaves the argument list unchanged. |
| Resolution.ResolveRestrictedToDeclared | src/InvokerTrait.php:62-63 | Dropping every key that names no declared parameter leaves the argument list unchanged. |
| Resolution.ResolveNullIsUnset | src/InvokerTrait.php:63-70 | Mapping a name to `null` resolves exactly as leaving the name out, so the default (or `null`) is used. |
| Invoker.TargetName | src/InvokerTrait.php:51 | The exception message. It is exactly the class name, then `::`, then the method name, and its length is the sum of their lengths plus two. |
| Invoker.InvokeMethod | src/InvokerTrait.php:44-72 | It fails if and only if the method is not callable. The failure is `BadMethodCallException` whose message is the class name, then `::`, then the method name. On success the list obeys the resolution law for the method's declared parameters. |
| Invoker.InvokeClosure | src/InvokerTrait.php:78-97 | There is no callability check. The list obeys the resolution law for the closure's declared parameters. |
| Invoker.MethodClosureParity | src/InvokerTrait.php:87-97 | For the same declared parameters and array, a callable `invokeMethod` succeeds with exactly the list `invokeClosure` builds. |
| Invoker.UncallableIgnoresArguments | src/InvokerTrait.php:50-53 | The not-callable failure depends only on the class and method names. It is raised before any resolution, whatever the signature or the array. |
| Invoker.ClosureThroughInvokeMethodIsGuarded | src/InvokerTrait.php:33-53 | A closure passed to `invokeMethod` with a method name that is not callable fails with `Closure::method`. It does not get the `invokeClosure` argument list, although the docblock says the method name is ignored for closures. |
| Invoker.ExampleDefaultFills | src/InvokerTrait.php:87-97 | `f(a, b = 5)` called with `{a: 1}` gets `[1, 5]`. |
| Invoker.ExampleExtraKeyIgnored | src/InvokerTrait.php:87-97 | `f(a, b = 5)` called with `{a: 1, c: 99}` gets `[1, 5]`. |
| Invoker.ExampleMissingIsNull | src/InvokerTrait.php:87-97 | `f(x, y)` called with `{x: 10}` gets `[10, null]`. |
| Invoker.ExampleNullTakesDefault | src/InvokerTrait.php:88-95 | `f(a = 5)` called with `{a: null}` gets `[5]`, not `[null]`. |
| Invoker.ExampleNotCallable | src/InvokerTrait.php:50-53 | Class `Foo` without a callable `bar` fails with the message `Foo::bar`. |

## Left out

- Invoker.InvokeMethod: "fails if and only if not callable" assumes reflection succeeds on a callable target. `is_callable` is also true for a name served only by `__call`. For such a name `new ReflectionMethod` (src/InvokerTrait.php:56) throws `ReflectionException`, which passes through `invokeMethod` unmodelled. Reflection failures in general are not modelled.
- Reflection (`ReflectionMethod`, `ReflectionFunction`, `getParameters`, `isDefaultValueAvailable`, `getDefaultValue`) is a foreign call. The declared parameter sequence, with each default as an `Option`, is an input. Which defaults PHP reports as available is reflection's business.
- `is_callable([$object, $method])` is a boolean input. What it decides (existence, visibility, `__call`) is not modelled.
- `get_class($object)` is a string input, the class name.
- `invokeArgs`, the invoked body's return value and anything it throws are native dispatch. Each operation stops at the argument list that would be passed.
- Variadic and by-reference parameters get nothing special in the code, so the model treats them as ordinary declared parameters. Type checking or coercion of values is not modelled either.
- The `$params = []` default argument is not modelled: callers pass the array explicitly, with `map[]` for none.
- PHP turns numeric string keys into integer keys. The model keys the array by string only. A parameter name cannot be numeric, so no declared name can match such a key either way.
