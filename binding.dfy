/** How a request's `params` (JSON-RPC) or `arguments` (debug adapter) are bound
    to the parameters of the handler registered for it: `_convert_params`, which
    both protocols define alike except for the name of the catch-all parameter.
    The conversion of the raw JSON value into the handler's parameter type
    (`from_dict`) is not part of this model: its result enters only through the
    names of its attributes, and an argument is described by where its value
    comes from rather than by the value itself. */
module Binding {
  import opened Wrappers
  import opened JsonValue

  /** `inspect.Parameter.kind`. */
  datatype ParamKind = PositionalOnly | PositionalOrKeyword | VarPositional | KeywordOnly | VarKeyword

  /** One parameter of the handler's signature. */
  datatype Parameter = Parameter(name: string, kind: ParamKind)

  /** Where the value of an argument comes from. */
  datatype Arg =
    | Attribute(name: string)  // the attribute `name` of the converted object
    | Converted                // the converted object itself
    | Member(name: string)     // the member `name` of the raw JSON object
    | Whole                    // the raw JSON value itself

  /** The positional and the keyword arguments the handler is called with. */
  datatype Call = Call(args: seq<Arg>, kwArgs: map<string, Arg>)

  predicate HasVarKeyword(sig: seq<Parameter>) {
    exists i :: 0 <= i < |sig| && sig[i].kind == VarKeyword
  }

  /** Some parameter is called `name`. */
  predicate Named(sig: seq<Parameter>, name: string) {
    exists i :: 0 <= i < |sig| && sig[i].name == name
  }

  /** Some parameter called `name` can be passed by keyword. */
  predicate NamedKeyword(sig: seq<Parameter>, name: string) {
    exists i :: 0 <= i < |sig| && sig[i].name == name && sig[i].kind != PositionalOnly
  }

  /** Some parameter called `name` is positional-only. */
  predicate NamedPositional(sig: seq<Parameter>, name: string) {
    exists i :: 0 <= i < |sig| && sig[i].name == name && sig[i].kind == PositionalOnly
  }

  /** The member names of the raw value when it is a JSON object. */
  function Keys(params: Json): set<string> {
    if params.JObject? then params.fields.Keys else {}
  }

  /** The walk over the signature: the arguments so far, whether the converted
      object was bound to the catch-all parameter, and the attribute names that
      were bound to a parameter of their own name. */
  datatype Walked = Walked(args: seq<Arg>, kwArgs: map<string, Arg>, added: bool, used: set<string>)

  /** Where parameter `v` takes its value from, if anywhere: an attribute of
      the same name first, then the converted object for the catch-all name,
      then a member of the raw object. */
  function Source(catchAll: string, attrs: set<string>, keys: set<string>, name: string): Option<Arg> {
    if name in attrs then Some(Attribute(name))
    else if name == catchAll then Some(Converted)
    else if name in keys then Some(Member(name))
    else None
  }

  /** One parameter of the walk. */
  function Step(catchAll: string, attrs: set<string>, keys: set<string>, w: Walked, v: Parameter): Walked {
    match Source(catchAll, attrs, keys, v.name)
    case None => w
    case Some(a) =>
      var w' := if v.kind == PositionalOnly then w.(args := w.args + [a]) else w.(kwArgs := w.kwArgs[v.name := a]);
      if a.Attribute? then w'.(used := w.used + {v.name})
      else if a.Converted? then w'.(added := true)
      else w'
  }

  /** The walk over the first `|sig|` parameters. */
  function Walk(catchAll: string, attrs: set<string>, keys: set<string>, sig: seq<Parameter>): Walked
    decreases |sig|
  {
    if sig == [] then Walked([], map[], false, {})
    else Step(catchAll, attrs, keys, Walk(catchAll, attrs, keys, sig[..|sig| - 1]), sig[|sig| - 1])
  }

  /** The names left for a `**kwargs` parameter and where each takes its value from. */
  function Leftover(attrs: set<string>, keys: set<string>, used: set<string>): map<string, Arg> {
    map r | r in (attrs + keys) - used :: if r in attrs then Attribute(r) else Member(r)
  }

  lemma WalkNext(catchAll: string, attrs: set<string>, keys: set<string>, sig: seq<Parameter>, i: nat)
    requires i < |sig|
    ensures Walk(catchAll, attrs, keys, sig[..i + 1]) == Step(catchAll, attrs, keys, Walk(catchAll, attrs, keys, sig[..i]), sig[i])
  {
    assert sig[..i + 1][..i] == sig[..i];
  }

  lemma LeftoverGrows(attrs: set<string>, keys: set<string>, used: set<string>, r: string)
    requires r in used && r in attrs + keys
    ensures Leftover(attrs, keys, used - {r}) == Leftover(attrs, keys, used)[r := if r in attrs then Attribute(r) else Member(r)]
  {
  }

  /** The call `_convert_params` builds, for a handler with signature `sig`,
      a parameter type when `typed`, a converted object with attributes `attrs`,
      and the raw value `params`; `catchAll` is `"params"` for JSON-RPC and
      `"arguments"` for the debug adapter. */
  function CallFor(catchAll: string, sig: seq<Parameter>, typed: bool, attrs: set<string>, params: Json): Call {
    if params.JNull? then Call([], map[])
    else if !typed then
      if params.JObject? then Call([], map k | k in params.fields.Keys :: Member(k)) else Call([Whole], map[])
    else
      var keys := Keys(params);
      var w := Walk(catchAll, attrs, keys, sig);
      if HasVarKeyword(sig) then
        var kw := w.kwArgs + Leftover(attrs, keys, w.used);
        Call(w.args, if w.added then kw else kw[catchAll := Converted])
      else Call(w.args, w.kwArgs)
  }

  /** The loop of `_convert_params` over the names left in `rest`: each is
      bound to the attribute of that name, or else to the member of that name. */
  method BindRest(kwArgs: map<string, Arg>, rest: set<string>, attrs: set<string>, keys: set<string>)
    returns (kw: map<string, Arg>)
    requires rest <= attrs + keys
    ensures kw == kwArgs + Leftover(attrs, keys, (attrs + keys) - rest)
  {
    kw := kwArgs;
    ghost var used := (attrs + keys) - rest;
    var todo := rest;
    while todo != {}
      invariant todo <= rest
      invariant kw == kwArgs + Leftover(attrs, keys, used + todo)
      decreases todo
    {
      var r :| r in todo;
      LeftoverGrows(attrs, keys, used + todo, r);
      if r in attrs {
        kw := kw[r := Attribute(r)];
      } else if r in keys {
        kw := kw[r := Member(r)];
      }
      assert (used + todo) - {r} == used + (todo - {r});
      todo := todo - {r};
    }
    assert used + todo == used;
  }

  /** `_convert_params`. */
  method ConvertParams(catchAll: string, sig: seq<Parameter>, typed: bool, attrs: set<string>, params: Json)
    returns (args: seq<Arg>, kwArgs: map<string, Arg>)
    ensures Call(args, kwArgs) == CallFor(catchAll, sig, typed, attrs, params)
  {
    if params.JNull? {
      return [], map[];
    }
    if !typed {
      if params.JObject? {
        return [], map k | k in params.fields.Keys :: Member(k);
      }
      return [Whole], map[];
    }
    var keys := Keys(params);
    var hasVarKw := HasVarKeyword(sig);
    args, kwArgs := [], map[];
    var added := false;
    var rest := attrs + keys;
    var i := 0;
    while i < |sig|
      invariant i <= |sig|
      invariant Walk(catchAll, attrs, keys, sig[..i]) == Walked(args, kwArgs, added, (attrs + keys) - rest)
      invariant rest <= attrs + keys
    {
      WalkNext(catchAll, attrs, keys, sig, i);
      var v := sig[i];
      if v.name in attrs {
        if v.kind == PositionalOnly {
          args := args + [Attribute(v.name)];
        } else {
          kwArgs := kwArgs[v.name := Attribute(v.name)];
        }
        rest := rest - {v.name};
      } else if v.name == catchAll {
        if v.kind == PositionalOnly {
          args := args + [Converted];
        } else {
          kwArgs := kwArgs[v.name := Converted];
        }
        added := true;
      } else if v.name in keys {
        if v.kind == PositionalOnly {
          args := args + [Member(v.name)];
        } else {
          kwArgs := kwArgs[v.name := Member(v.name)];
        }
      }
      i := i + 1;
    }
    assert sig[..|sig|] == sig;
    ghost var w := Walk(catchAll, attrs, keys, sig);
    assert w == Walked(args, kwArgs, added, (attrs + keys) - rest);
    if hasVarKw {
      kwArgs := BindRest(kwArgs, rest, attrs, keys);
      if !added {
        kwArgs := kwArgs[catchAll := Converted];
      }
    }
  }

  /** The positional arguments, defined front to back: the value of each
      positional-only parameter that has one, in signature order. */
  function PositionalBindings(catchAll: string, attrs: set<string>, keys: set<string>, sig: seq<Parameter>): seq<Arg>
  {
    if sig == [] then []
    else
      var src := Source(catchAll, attrs, keys, sig[0].name);
      (if sig[0].kind == PositionalOnly && src.Some? then [src.value] else [])
        + PositionalBindings(catchAll, attrs, keys, sig[1..])
  }

  lemma {:induction false} PositionalBindingsAppend(catchAll: string, attrs: set<string>, keys: set<string>, sig: seq<Parameter>, v: Parameter)
    ensures PositionalBindings(catchAll, attrs, keys, sig + [v])
         == PositionalBindings(catchAll, attrs, keys, sig) + PositionalBindings(catchAll, attrs, keys, [v])
    decreases |sig|
  {
    if sig == [] {
      assert sig + [v] == [v];
    } else {
      assert (sig + [v])[1..] == sig[1..] + [v];
      PositionalBindingsAppend(catchAll, attrs, keys, sig[1..], v);
    }
  }

  /** The positional arguments are the values of the positional-only
      parameters, in the order of the signature. */
  lemma {:induction false} WalkArgs(catchAll: string, attrs: set<string>, keys: set<string>, sig: seq<Parameter>)
    ensures Walk(catchAll, attrs, keys, sig).args == PositionalBindings(catchAll, attrs, keys, sig)
    decreases |sig|
  {
    if sig != [] {
      var init := sig[..|sig| - 1];
      WalkArgs(catchAll, attrs, keys, init);
      assert init + [sig[|sig| - 1]] == sig;
      PositionalBindingsAppend(catchAll, attrs, keys, init, sig[|sig| - 1]);
    }
  }

  /** A name is bound by keyword exactly when a parameter of that name can be
      passed by keyword and has a value, and it is bound to that value. */
  lemma {:induction false} WalkKeywords(catchAll: string, attrs: set<string>, keys: set<string>, sig: seq<Parameter>, k: string)
    ensures var w := Walk(catchAll, attrs, keys, sig);
      && (k in w.kwArgs <==> NamedKeyword(sig, k) && Source(catchAll, attrs, keys, k).Some?)
      && (k in w.kwArgs ==> w.kwArgs[k] == Source(catchAll, attrs, keys, k).value)
    decreases |sig|
  {
    if sig != [] {
      var init := sig[..|sig| - 1];
      WalkKeywords(catchAll, attrs, keys, init, k);
      if NamedKeyword(sig, k) && !NamedKeyword(init, k) {
        assert sig[|sig| - 1].name == k;
      }
      if NamedKeyword(init, k) {
        var i :| 0 <= i < |init| && init[i].name == k && init[i].kind != PositionalOnly;
        assert sig[i] == init[i];
      }
    }
  }

  /** The attribute names removed from the rest are those of the parameters. */
  lemma {:induction false} WalkUsed(catchAll: string, attrs: set<string>, keys: set<string>, sig: seq<Parameter>, k: string)
    ensures k in Walk(catchAll, attrs, keys, sig).used <==> k in attrs && Named(sig, k)
    decreases |sig|
  {
    if sig != [] {
      var init := sig[..|sig| - 1];
      WalkUsed(catchAll, attrs, keys, init, k);
      if Named(sig, k) && !Named(init, k) {
        assert sig[|sig| - 1].name == k;
      }
      if Named(init, k) {
        var i :| 0 <= i < |init| && init[i].name == k;
        assert sig[i] == init[i];
      }
    }
  }

  /** The converted object was bound to a parameter exactly when a parameter
      carries the catch-all name and the object has no attribute of that name. */
  lemma {:induction false} WalkAdded(catchAll: string, attrs: set<string>, keys: set<string>, sig: seq<Parameter>)
    ensures Walk(catchAll, attrs, keys, sig).added <==> catchAll !in attrs && Named(sig, catchAll)
    decreases |sig|
  {
    if sig != [] {
      var init := sig[..|sig| - 1];
      WalkAdded(catchAll, attrs, keys, init);
      if Named(sig, catchAll) && !Named(init, catchAll) {
        assert sig[|sig| - 1].name == catchAll;
      }
      if Named(init, catchAll) {
        var i :| 0 <= i < |init| && init[i].name == catchAll;
        assert sig[i] == init[i];
      }
    }
  }

  /** Without a type for the parameters, a JSON object is passed member by
      member as keywords and any other value as the only positional argument. */
  lemma Untyped(catchAll: string, sig: seq<Parameter>, attrs: set<string>, params: Json, k: string)
    requires !params.JNull?
    ensures var c := CallFor(catchAll, sig, false, attrs, params);
      && (params.JObject? ==> c.args == [] && (k in c.kwArgs <==> k in params.fields) && (k in c.kwArgs ==> c.kwArgs[k] == Member(k)))
      && (!params.JObject? ==> c == Call([Whole], map[]))
  {
  }

  /** Without `**kwargs`, the handler receives exactly its own parameters:
      positional-only ones in order, the others by name, each from the
      attribute of its name, else the converted object for the catch-all name,
      else the member of its name. */
  lemma WithoutVarKeyword(catchAll: string, sig: seq<Parameter>, attrs: set<string>, params: Json, k: string)
    requires !params.JNull? && !HasVarKeyword(sig)
    ensures var c := CallFor(catchAll, sig, true, attrs, params);
      var src := Source(catchAll, attrs, Keys(params), k);
      && c.args == PositionalBindings(catchAll, attrs, Keys(params), sig)
      && (k in c.kwArgs <==> NamedKeyword(sig, k) && src.Some?)
      && (k in c.kwArgs ==> c.kwArgs[k] == src.value)
  {
    WalkArgs(catchAll, attrs, Keys(params), sig);
    WalkKeywords(catchAll, attrs, Keys(params), sig, k);
  }

  /** With `**kwargs`, every attribute and member name reaches the handler by
      keyword unless a positional-only parameter of that name exists, and every
      keyword but the catch-all one takes its value by the same precedence as a
      named parameter does. */
  lemma WithVarKeyword(catchAll: string, sig: seq<Parameter>, attrs: set<string>, params: Json, k: string)
    requires !params.JNull? && HasVarKeyword(sig)
    ensures var c := CallFor(catchAll, sig, true, attrs, params);
      var src := Source(catchAll, attrs, Keys(params), k);
      && c.args == PositionalBindings(catchAll, attrs, Keys(params), sig)
      && (k in attrs + Keys(params) && !NamedPositional(sig, k) ==> k in c.kwArgs)
      && (k in c.kwArgs && k != catchAll ==> src.Some? && c.kwArgs[k] == src.value)
  {
    var keys := Keys(params);
    WalkArgs(catchAll, attrs, keys, sig);
    WalkKeywords(catchAll, attrs, keys, sig, k);
    WalkUsed(catchAll, attrs, keys, sig, k);
    if k in attrs && Named(sig, k) && !NamedPositional(sig, k) {
      var i :| 0 <= i < |sig| && sig[i].name == k;
      assert sig[i].kind != PositionalOnly;
    }
  }

  /** With `**kwargs`, the catch-all keyword carries the converted object,
      even over an attribute of that name bound to a parameter of that name,
      unless the converted object was already bound to such a parameter; in
      that case a member of that name in the raw object replaces it. */
  lemma CatchAllKeyword(catchAll: string, sig: seq<Parameter>, attrs: set<string>, params: Json)
    requires !params.JNull? && HasVarKeyword(sig)
    ensures var c := CallFor(catchAll, sig, true, attrs, params);
      && (catchAll in attrs || !Named(sig, catchAll) ==> catchAll in c.kwArgs && c.kwArgs[catchAll] == Converted)
      && (catchAll !in attrs && Named(sig, catchAll) && catchAll in Keys(params) ==>
            catchAll in c.kwArgs && c.kwArgs[catchAll] == Member(catchAll))
  {
    var keys := Keys(params);
    WalkAdded(catchAll, attrs, keys, sig);
    WalkUsed(catchAll, attrs, keys, sig, catchAll);
  }
}
