/** The invoker: call an object method or a closure with named parameters.
    Reflection, `is_callable`, `get_class` and the final `invokeArgs` are
    outside the model; their results arrive here as arguments, and each
    operation ends with the argument list that would be passed on. */
module Invoker {
  import opened Wrappers
  import opened PhpValues
  import opened Resolution

  /** The only exception the invoker raises itself. */
  datatype BadMethodCall = BadMethodCallException(message: string)

  /** The diagnostic message: the receiver's class name, `::`, the method name. */
  function TargetName(className: string, methodName: string): (msg: string)
    ensures |msg| == |className| + 2 + |methodName|
    ensures msg[..|className|] == className
    ensures msg[|className|..|className| + 2] == "::"
    ensures msg[|className| + 2..] == methodName
  {
    className + "::" + methodName
  }

  /** `invokeMethod`: when the method is not callable, fail with
      `Class::method` before any resolution; otherwise resolve the named
      parameters against the method's declared parameters `ps`. */
  function InvokeMethod(className: string, methodName: string, isCallable: bool,
                        ps: seq<Param>, params: ParamMap): (r: Result<seq<Value>, BadMethodCall>)
    ensures r.Failure? <==> !isCallable
    ensures r.Failure? ==>
              && |r.error.message| == |className| + 2 + |methodName|
              && r.error.message[..|className|] == className
              && r.error.message[|className|..|className| + 2] == "::"
              && r.error.message[|className| + 2..] == methodName
    ensures r.Success? ==> Resolves(ps, params, r.value)
  {
    if !isCallable then
      Failure(BadMethodCallException(TargetName(className, methodName)))
    else
      Success(Resolve(ps, params))
  }

  /** `invokeClosure`: no callability check; resolve the named parameters
      against the closure's declared parameters `ps`. */
  function InvokeClosure(ps: seq<Param>, params: ParamMap): (args: seq<Value>)
    ensures Resolves(ps, params, args)
  {
    Resolve(ps, params)
  }

  /** Method/closure parity: on a callable method, `invokeMethod` resolves
      the same signature and array to the same list as `invokeClosure`. */
  lemma MethodClosureParity(className: string, methodName: string, ps: seq<Param>, params: ParamMap)
    ensures InvokeMethod(className, methodName, true, ps, params) == Success(InvokeClosure(ps, params))
  {
  }

  /** The failure is raised before resolution: it depends on the class and
      method names alone, not on the signature or the caller's array. */
  lemma UncallableIgnoresArguments(className: string, methodName: string,
                                   ps: seq<Param>, params: ParamMap,
                                   ps': seq<Param>, params': ParamMap)
    ensures InvokeMethod(className, methodName, false, ps, params)
         == InvokeMethod(className, methodName, false, ps', params')
  {
  }

  /** A closure passed to `invokeMethod` is not treated as a closure: it
      takes the same callability guard as any object, with its class name
      `Closure`, and when the guard fails the result is the exception rather
      than the argument list `invokeClosure` would build. */
  lemma ClosureThroughInvokeMethodIsGuarded(methodName: string, ps: seq<Param>, params: ParamMap)
    ensures InvokeMethod("Closure", methodName, false, ps, params)
         == Failure(BadMethodCallException("Closure::" + methodName))
    ensures InvokeMethod("Closure", methodName, false, ps, params) != Success(InvokeClosure(ps, params))
  {
    assert TargetName("Closure", methodName) == "Closure" + "::" + methodName;
    assert "Closure" + "::" == "Closure::";
  }

  /** Worked example: `f(a, b = 5)` called with `{a: 1}` gets `[1, 5]`. */
  lemma ExampleDefaultFills()
    ensures InvokeClosure([Param("a", None), Param("b", Some(Int(5)))], map["a" := Int(1)])
         == [Int(1), Int(5)]
  {
  }

  /** Worked example: `f(a, b = 5)` called with `{a: 1, c: 99}` still gets `[1, 5]`. */
  lemma ExampleExtraKeyIgnored()
    ensures InvokeClosure([Param("a", None), Param("b", Some(Int(5)))], map["a" := Int(1), "c" := Int(99)])
         == [Int(1), Int(5)]
  {
  }

  /** Worked example: `f(x, y)` called with `{x: 10}` gets `[10, null]`. */
  lemma ExampleMissingIsNull()
    ensures InvokeClosure([Param("x", None), Param("y", None)], map["x" := Int(10)]) == [Int(10), Null]
  {
  }

  /** Worked example: `f(a = 5)` called with `{a: null}` gets `[5]`, not `[null]`. */
  lemma ExampleNullTakesDefault()
    ensures InvokeClosure([Param("a", Some(Int(5)))], map["a" := Null]) == [Int(5)]
  {
  }

  /** Worked example: an object of class `Foo` without a callable `bar`. */
  lemma ExampleNotCallable()
    ensures InvokeMethod("Foo", "bar", false, [], map[]) == Failure(BadMethodCallException("Foo::bar"))
  {
    assert TargetName("Foo", "bar") == "Foo::bar";
  }
}
