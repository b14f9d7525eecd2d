/** Named-parameter resolution: turning the caller's array of named values
    into the positional argument list a target's declared signature expects.
    This is the `foreach` loop shared by `invokeMethod` and `invokeClosure`. */
module Resolution {
  import opened Wrappers
  import opened PhpValues

  /** One declared parameter as reflection reports it: its name and, when a
      default value is available, that default. A declared default of `null`
      is `Some(Null)`. */
  datatype Param = Param(name: string, default: Option<Value>)

  /** The value bound to one declared parameter: the caller's value when it
      is set, else the declared default, else null. */
  function ArgumentFor(p: Param, params: ParamMap): (v: Value)
    ensures Isset(params, p.name) ==> v == params[p.name]
    ensures !Isset(params, p.name) && p.default.Some? ==> v == p.default.value
    ensures !Isset(params, p.name) && p.default.None? ==> v == Null
  {
    if Isset(params, p.name) then params[p.name]
    else if p.default.Some? then p.default.value
    else Null
  }

  /** The resolution law, stated slot by slot: one argument per declared
      parameter, and argument `i` is the caller's non-null value for
      parameter `i`'s name, or failing that its default, or failing that null. */
  ghost predicate Resolves(ps: seq<Param>, params: ParamMap, args: seq<Value>)
  {
    && |args| == |ps|
    && (forall i :: 0 <= i < |ps| && Isset(params, ps[i].name) ==>
          args[i] == params[ps[i].name])
    && (forall i :: 0 <= i < |ps| && !Isset(params, ps[i].name) && ps[i].default.Some? ==>
          args[i] == ps[i].default.value)
    && (forall i :: 0 <= i < |ps| && !Isset(params, ps[i].name) && ps[i].default.None? ==>
          args[i] == Null)
  }

  /** The names of the declared parameters. */
  ghost function Names(ps: seq<Param>): (names: set<string>)
    ensures forall i :: 0 <= i < |ps| ==> ps[i].name in names
    ensures forall n :: n in names ==> exists i :: 0 <= i < |ps| && ps[i].name == n
  {
    set i | 0 <= i < |ps| :: ps[i].name
  }

  /** The argument list for signature `ps`, built by appending one argument
      per declared parameter in declaration order. */
  function Resolve(ps: seq<Param>, params: ParamMap): (args: seq<Value>)
    ensures Resolves(ps, params, args)
    decreases |ps|
  {
    if |ps| == 0 then []
    else Resolve(ps[..|ps| - 1], params) + [ArgumentFor(ps[|ps| - 1], params)]
  }

  /** The `foreach` loop itself: start from an empty array and append the
      argument of each declared parameter in turn. */
  method ResolveArguments(ps: seq<Param>, params: ParamMap) returns (args: seq<Value>)
    ensures Resolves(ps, params, args)
    ensures args == Resolve(ps, params)
  {
    args := [];
    for k := 0 to |ps|
      invariant args == Resolve(ps[..k], params)
    {
      assert ps[..k + 1][..k] == ps[..k];
      args := args + [ArgumentFor(ps[k], params)];
    }
    assert ps[..|ps|] == ps;
  }

  /** The slot-by-slot law determines the argument list completely: a list
      obeys it exactly when it is the one `Resolve` builds. */
  lemma ResolveCharacterized(ps: seq<Param>, params: ParamMap, args: seq<Value>)
    ensures Resolves(ps, params, args) <==> args == Resolve(ps, params)
  {
  }

  /** Resolution distributes over concatenation of signatures: the arguments
      of the first parameters do not depend on the parameters that follow. */
  lemma ResolveAppend(ps: seq<Param>, qs: seq<Param>, params: ParamMap)
    ensures Resolve(ps + qs, params) == Resolve(ps, params) + Resolve(qs, params)
  {
  }

  /** Arguments follow declaration order: if signature `qs` lists, at each
      position `j`, the parameter that `ps` declares at `perm[j]`, then
      argument `j` for `qs` is argument `perm[j]` for `ps`. In particular the
      order of the caller's keys plays no part. */
  lemma ResolveFollowsDeclarationOrder(ps: seq<Param>, qs: seq<Param>, perm: seq<nat>, params: ParamMap)
    requires |perm| == |qs|
    requires forall j :: 0 <= j < |qs| ==> perm[j] < |ps| && qs[j] == ps[perm[j]]
    ensures |Resolve(qs, params)| == |perm|
    ensures forall j :: 0 <= j < |qs| ==> Resolve(qs, params)[j] == Resolve(ps, params)[perm[j]]
  {
  }

  /** Two parameter arrays that agree, for every declared name, on whether
      the name is set and on its value when it is. */
  ghost predicate AgreeOn(ps: seq<Param>, m: ParamMap, m': ParamMap)
  {
    forall i :: 0 <= i < |ps| ==>
      && (Isset(m, ps[i].name) <==> Isset(m', ps[i].name))
      && (Isset(m, ps[i].name) ==> m[ps[i].name] == m'[ps[i].name])
  }

  /** Frame: resolution reads the caller's array only through `isset` and
      the values of declared names. */
  lemma ResolveFrame(ps: seq<Param>, m: ParamMap, m': ParamMap)
    requires AgreeOn(ps, m, m')
    ensures Resolve(ps, m) == Resolve(ps, m')
  {
  }

  /** Adding, changing or removing an entry whose key names no declared
      parameter leaves the argument list unchanged. */
  lemma ResolveIgnoresUndeclared(ps: seq<Param>, m: ParamMap, k: string, v: Value)
    requires k !in Names(ps)
    ensures Resolve(ps, m[k := v]) == Resolve(ps, m)
    ensures Resolve(ps, m - {k}) == Resolve(ps, m)
  {
  }

  /** Dropping every undeclared key at once changes nothing either. */
  lemma ResolveRestrictedToDeclared(ps: seq<Param>, m: ParamMap)
    ensures Resolve(ps, map k | k in m && k in Names(ps) :: m[k]) == Resolve(ps, m)
  {
  }

  /** The `isset` quirk: an explicit null under a name counts exactly as if
      the name were missing, so the default (or null) is used instead. */
  lemma ResolveNullIsUnset(ps: seq<Param>, m: ParamMap, k: string)
    ensures Resolve(ps, m[k := Null]) == Resolve(ps, m - {k})
  {
  }
}
