/** The `kos` schema extensions of schema/kos.js: the `reaction`
    extension's `transform`, which sorts a reaction's input and output
    references into its capability bounds, and the `resolve` guards of the
    `interface`, `reaction`, `data`, `node` and `extends` extensions.

    The schema tree of the YANG compiler is modelled by what these hooks
    read from it: the expression list of the `input` and `output`
    statements, the number of plain data nodes under them, the tags of the
    `if-feature` statements, and the lookup tables that `lookup` and
    `locate` consult. */
module KosSchema {
  import opened Wrappers
  import opened Values

  /** A schema node, named by its data path. */
  type SchemaId = string

  /** An expression under `input` or `output`: its keyword, its argument
      and, when present, the argument of its `require-instance`
      sub-statement. */
  datatype Expr = Expr(kind: string, tag: string, requireInstance: Option<Value>)

  /** What `lookup('grouping', t)`, `locate(t)`, `lookup('feature', t)` and
      `lookup('kos:interface', t)` find; a missing key is `undefined`. */
  datatype Env = Env(
    groupings: map<string, SchemaId>,
    nodes: map<string, SchemaId>,
    features: map<string, SchemaId>,
    interfaces: map<string, Iface>)

  /** An interface definition; `tag` is what `extends` overwrites on its
      clone. */
  datatype Iface = Iface(id: SchemaId, tag: string)

  /** `self.bounds`.  A reference that did not resolve is `undefined`
      (`None`), which the Sets hold like any other value. */
  datatype Bounds = Bounds(
    depends: map<string, Option<SchemaId>>,
    required: set<Option<SchemaId>>,
    consumes: set<Option<SchemaId>>,
    produces: set<Option<SchemaId>>)

  /** The filter `/^kos:(data|node)$/` on an expression's keyword. */
  predicate IsDataRef(e: Expr) {
    e.kind == "kos:data" || e.kind == "kos:node"
  }

  function Find<T>(m: map<string, T>, key: string): (r: Option<T>)
    ensures r.Some? <==> key in m
    ensures r.Some? ==> r.value == m[key]
  {
    if key in m then Some(m[key]) else None
  }

  /** `extract(node).schema`: a `kos:node` is located, a `kos:data` is a
      grouping lookup. */
  function Target(e: Expr, env: Env): Option<SchemaId> {
    if e.kind == "kos:node" then Find(env.nodes, e.tag)
    else if e.kind == "kos:data" then Find(env.groupings, e.tag)
    else None
  }

  /** `extract(node).required`: the `require-instance` argument, checked for
      truthiness. */
  predicate Required(e: Expr) {
    e.requireInstance.Some? && Truthy(e.requireInstance.value)
  }

  /** The specification of the bounds, one Set per destination. */
  function RequiresOf(inputs: seq<Expr>, env: Env): set<Option<SchemaId>> {
    set e | e in inputs && IsDataRef(e) && Required(e) :: Target(e, env)
  }

  function ConsumesOf(inputs: seq<Expr>, env: Env): set<Option<SchemaId>> {
    set e | e in inputs && IsDataRef(e) && !Required(e) :: Target(e, env)
  }

  function ProducesOf(outputs: seq<Expr>, env: Env): set<Option<SchemaId>> {
    set e | e in outputs && IsDataRef(e) :: Target(e, env)
  }

  function DependsOf(features: seq<string>, env: Env): map<string, Option<SchemaId>> {
    map f | f in features :: Find(env.features, f)
  }

  /** The reaction `transform`: every feature tag maps to its looked-up
      feature; each data reference among the inputs goes to `requires` when
      its `require-instance` is set and to `consumes` otherwise; each data
      reference among the outputs goes to `produces`. */
  method Transform(inputs: seq<Expr>, outputs: seq<Expr>, features: seq<string>, env: Env)
    returns (b: Bounds)
    ensures b.depends == DependsOf(features, env)
    ensures b.required == RequiresOf(inputs, env)
    ensures b.consumes == ConsumesOf(inputs, env)
    ensures b.produces == ProducesOf(outputs, env)
  {
    var depends: map<string, Option<SchemaId>> := map[];
    var i := 0;
    while i < |features|
      invariant 0 <= i <= |features|
      invariant depends == DependsOf(features[..i], env)
    {
      depends := depends[features[i] := Find(env.features, features[i])];
      assert features[..i + 1] == features[..i] + [features[i]];
      i := i + 1;
    }
    assert features[..i] == features;

    var required: set<Option<SchemaId>> := {};
    var consumes: set<Option<SchemaId>> := {};
    i := 0;
    while i < |inputs|
      invariant 0 <= i <= |inputs|
      invariant required == RequiresOf(inputs[..i], env)
      invariant consumes == ConsumesOf(inputs[..i], env)
    {
      var e := inputs[i];
      assert inputs[..i + 1] == inputs[..i] + [e];
      if IsDataRef(e) {
        if Required(e) {
          required := required + {Target(e, env)};
        } else {
          consumes := consumes + {Target(e, env)};
        }
      }
      i := i + 1;
    }
    assert inputs[..i] == inputs;

    var produces: set<Option<SchemaId>> := {};
    i := 0;
    while i < |outputs|
      invariant 0 <= i <= |outputs|
      invariant produces == ProducesOf(outputs[..i], env)
    {
      var e := outputs[i];
      assert outputs[..i + 1] == outputs[..i] + [e];
      if IsDataRef(e) {
        produces := produces + {Target(e, env)};
      }
      i := i + 1;
    }
    assert outputs[..i] == outputs;

    b := Bounds(depends, required, consumes, produces);
  }

  /** Every data reference among the inputs lands in exactly the Set its
      `require-instance` selects, and the two Sets hold nothing else. */
  lemma InputsArePartitioned(inputs: seq<Expr>, env: Env, e: Expr)
    requires e in inputs && IsDataRef(e)
    ensures Required(e) ==> Target(e, env) in RequiresOf(inputs, env)
    ensures !Required(e) ==> Target(e, env) in ConsumesOf(inputs, env)
  {
  }

  lemma InputsAreCovered(inputs: seq<Expr>, env: Env, s: Option<SchemaId>)
    ensures s in RequiresOf(inputs, env) + ConsumesOf(inputs, env) <==>
            exists e :: e in inputs && IsDataRef(e) && Target(e, env) == s
  {
  }

  /** `require-instance` on an output has no effect on `produces`. */
  lemma {:induction false} OutputsIgnoreRequireInstance(outputs: seq<Expr>, env: Env, i: nat, ri: Option<Value>)
    requires i < |outputs|
    ensures ProducesOf(outputs[i := outputs[i].(requireInstance := ri)], env) == ProducesOf(outputs, env)
  {
    var o2 := outputs[i := outputs[i].(requireInstance := ri)];
    forall s | s in ProducesOf(o2, env) ensures s in ProducesOf(outputs, env) {
      var e :| e in o2 && IsDataRef(e) && Target(e, env) == s;
      var j :| 0 <= j < |o2| && o2[j] == e;
      assert IsDataRef(outputs[j]) && Target(outputs[j], env) == s;
    }
    forall s | s in ProducesOf(outputs, env) ensures s in ProducesOf(o2, env) {
      var e :| e in outputs && IsDataRef(e) && Target(e, env) == s;
      var j :| 0 <= j < |outputs| && outputs[j] == e;
      assert IsDataRef(o2[j]) && Target(o2[j], env) == s;
    }
  }

  /** Expressions of any other keyword contribute nothing. */
  lemma OtherKindsAreIgnored(inputs: seq<Expr>, outputs: seq<Expr>, env: Env, x: Expr)
    requires !IsDataRef(x)
    ensures RequiresOf(inputs + [x], env) == RequiresOf(inputs, env)
    ensures ConsumesOf(inputs + [x], env) == ConsumesOf(inputs, env)
    ensures ProducesOf(outputs + [x], env) == ProducesOf(outputs, env)
  {
  }

  // ---------------------------------------------------------------------
  // resolve guards
  // ---------------------------------------------------------------------

  /** The `resolve` of `reaction` and of `interface`: input and output may
      hold only `kos` references, not plain data nodes.  The arguments are
      the lengths of `input.nodes` and `output.nodes`. */
  function ResolveIo(inputNodes: nat, outputNodes: nat): (r: Result<(), string>)
    ensures r.Ok? <==> inputNodes == 0 && outputNodes == 0
    ensures r.Throw? ==> r.error == "cannot contain data nodes in reaction input/output"
  {
    if inputNodes > 0 || outputNodes > 0 then
      Throw("cannot contain data nodes in reaction input/output")
    else Ok(())
  }

  /** `data` resolve: the grouping named by the tag must exist. */
  function ResolveData(tag: string, env: Env): (r: Result<(), string>)
    ensures r.Ok? <==> tag in env.groupings
    ensures r.Throw? ==> r.error == "unable to resolve " + tag + " grouping definition"
  {
    if tag in env.groupings then Ok(())
    else Throw("unable to resolve " + tag + " grouping definition")
  }

  /** `node` resolve: the data node named by the tag must be locatable. */
  function ResolveNode(tag: string, env: Env): (r: Result<(), string>)
    ensures r.Ok? <==> tag in env.nodes
    ensures r.Throw? ==> r.error == "unable to resolve " + tag + " data node"
  {
    if tag in env.nodes then Ok(())
    else Throw("unable to resolve " + tag + " data node")
  }

  /** `extends` resolve: a clone of the named interface, carrying the tag,
      is appended to the parent's extensions. */
  function ResolveExtends(tag: string, env: Env, parentExtends: seq<Iface>): (r: Result<seq<Iface>, string>)
    ensures r.Ok? <==> tag in env.interfaces
    ensures r.Ok? ==> r.value == parentExtends + [Iface(env.interfaces[tag].id, tag)]
    ensures r.Throw? ==> r.error == "unable to resolve " + tag + " interface"
  {
    if tag !in env.interfaces then Throw("unable to resolve " + tag + " interface")
    else
      var iface := env.interfaces[tag].(tag := tag);
      Ok(parentExtends + [iface])
  }

  /** The resolve of a `kos` reference under input or output. */
  function ResolveRef(e: Expr, env: Env): Result<(), string> {
    if e.kind == "kos:data" then ResolveData(e.tag, env)
    else if e.kind == "kos:node" then ResolveNode(e.tag, env)
    else Ok(())
  }

  /** Once every reference has resolved, the bounds hold no `undefined`:
      the resolve guards and `transform` agree on what a reference names. */
  lemma ResolvedBoundsAreDefined(inputs: seq<Expr>, outputs: seq<Expr>, env: Env)
    requires forall e :: e in inputs ==> ResolveRef(e, env).Ok?
    requires forall e :: e in outputs ==> ResolveRef(e, env).Ok?
    ensures None !in RequiresOf(inputs, env)
    ensures None !in ConsumesOf(inputs, env)
    ensures None !in ProducesOf(outputs, env)
  {
  }
}
