/** State diff/merge and capability gating of lib/generator.js.  A
    Generator is a Link (its `layer`) with a persisted state object, a core
    reaction and a schema. */
module Generators {
  import opened Wrappers
  import opened Values
  import opened Pulses
  import opened Links

  /** `merge(prev, next, { arrayMerge: (d, s) => s })`: two objects merge
      key by key, recursively; anything else, arrays included, is replaced
      by the new value. */
  function DeepMerge(t: Value, s: Value): (r: Value)
    ensures !(t.Obj? && s.Obj?) ==> r == s
    ensures t.Obj? && s.Obj? ==>
      r.Obj? && r.fields.Keys == t.fields.Keys + s.fields.Keys &&
      (forall k :: k in t.fields && k !in s.fields ==> r.fields[k] == t.fields[k]) &&
      (forall k :: k in s.fields && k !in t.fields ==> r.fields[k] == s.fields[k]) &&
      (forall k :: k in s.fields && k in t.fields ==> r.fields[k] == DeepMerge(t.fields[k], s.fields[k]))
    decreases s
  {
    if t.Obj? && s.Obj? then
      Obj(map k | k in t.fields.Keys + s.fields.Keys ::
            if k in s.fields then
              (if k in t.fields then DeepMerge(t.fields[k], s.fields[k]) else s.fields[k])
            else t.fields[k])
    else s
  }

  /** Array fields are replaced, never concatenated. */
  lemma ArraysAreReplaced(t: Value, s: Value, k: string)
    requires t.Obj? && s.Obj? && k in s.fields && s.fields[k].Arr?
    ensures DeepMerge(t, s).fields[k] == s.fields[k]
  {
  }

  /** Merging a value into itself changes nothing. */
  lemma {:induction false} MergeSelf(v: Value)
    ensures DeepMerge(v, v) == v
    decreases v
  {
    if v.Obj? {
      forall k | k in v.fields ensures DeepMerge(v.fields[k], v.fields[k]) == v.fields[k] {
        MergeSelf(v.fields[k]);
      }
      assert DeepMerge(v, v).fields == v.fields;
    }
  }

  /** Merging the same update twice is merging it once. */
  lemma {:induction false} MergeIdempotent(t: Value, s: Value)
    ensures DeepMerge(DeepMerge(t, s), s) == DeepMerge(t, s)
    decreases s
  {
    if t.Obj? && s.Obj? {
      var m := DeepMerge(t, s);
      forall k | k in s.fields
        ensures DeepMerge(m.fields[k], s.fields[k]) == m.fields[k]
      {
        if k in t.fields {
          MergeIdempotent(t.fields[k], s.fields[k]);
        } else {
          MergeSelf(s.fields[k]);
        }
      }
      assert DeepMerge(m, s).fields == m.fields;
    } else {
      MergeSelf(s);
    }
  }

  /** Some key of the update reads differently in the previous state
      (`deep-equal` is modelled as structural equality). */
  predicate Differs(prev: map<string, Value>, update: map<string, Value>) {
    exists k :: k in update && Lookup(prev, k) != update[k]
  }

  /** When no key differs, merging would change nothing a reader can see:
      every key reads the same as before.  Skipping the merge is sound. */
  lemma SkippedMergeIsInvisible(prev: map<string, Value>, update: map<string, Value>, k: string)
    requires !Differs(prev, update)
    ensures Lookup(DeepMerge(Obj(prev), Obj(update)).fields, k) == Lookup(prev, k)
  {
    if k in update && k in prev {
      MergeSelf(prev[k]);
    }
  }

  /** Gives a pulse's schema, identified with its topic. */
  function SchemaOf(p: Pulse): Key {
    p.topic
  }

  /** A candidate for the `core` setter: a reaction (as a child node), or
      anything else. */
  datatype CoreCandidate = ReactionCore(node: Node) | NotReaction

  /** A candidate for the `schema` setter: a Yang schema, with the nodes
      its `apply` joins to the layer (each with its tag and whether it is a
      reaction), or anything else. */
  datatype SchemaCandidate = YangSchema(name: string, applied: seq<Node>) | NotYang

  /** The i-th node is the first one tagged `core`. */
  predicate FirstCoreAt(nodes: seq<Node>, i: int) {
    0 <= i < |nodes| && nodes[i].tag == Some("core") &&
    forall j :: 0 <= j < i ==> nodes[j].tag != Some("core")
  }

  /** `this.nodes.find(n => n.tag === 'core')`: the first node of the layer
      tagged `core`, in insertion order. */
  function FindCore(nodes: seq<Node>): (r: Option<Node>)
    ensures r.None? <==> forall i :: 0 <= i < |nodes| ==> nodes[i].tag != Some("core")
    ensures r.Some? ==> exists i :: FirstCoreAt(nodes, i) && r.value == nodes[i]
  {
    if nodes == [] then None
    else if nodes[0].tag == Some("core") then
      assert FirstCoreAt(nodes, 0);
      Some(nodes[0])
    else
      var r := FindCore(nodes[1..]);
      assert forall i :: 0 < i < |nodes| ==> nodes[1..][i - 1] == nodes[i];
      if r.Some? then
        ghost var i :| FirstCoreAt(nodes[1..], i) && r.value == nodes[1..][i];
        assert FirstCoreAt(nodes, i + 1);
        r
      else r
  }

  /** What the `core` setter is given after a schema is applied: the node
      `find` returned when it is a Reaction, anything else otherwise. */
  function CoreOf(found: Option<Node>): (c: CoreCandidate)
    ensures c.ReactionCore? <==> found.Some? && found.value.isReaction
    ensures c.ReactionCore? ==> Some(c.node) == found
  {
    if found.Some? && found.value.isReaction then ReactionCore(found.value) else NotReaction
  }

  /** A later node never displaces an earlier core: the search of `a + b`
      finds the core of `a` when `a` has one, and that of `b` otherwise. */
  lemma {:induction false} FindCoreAppend(a: seq<Node>, b: seq<Node>)
    ensures FindCore(a + b) == if FindCore(a).Some? then FindCore(a) else FindCore(b)
    decreases |a|
  {
    if a != [] {
      assert (a + b)[1..] == a[1..] + b;
      FindCoreAppend(a[1..], b);
    } else {
      assert a + b == b;
    }
  }

  /** The layer after `apply` joins each node in turn: a node whose id is
      already a member is refused, as `add` refuses it.  The old layer
      stays a prefix and only applied nodes are appended; JoinAllIds gives
      the ids. */
  function JoinAll(nodes: seq<Node>, xs: seq<Node>): (r: seq<Node>)
    ensures |nodes| <= |r| && r[..|nodes|] == nodes
    ensures forall n :: n in r[|nodes|..] ==> n in xs
  {
    if xs == [] then nodes
    else
      var front := JoinAll(nodes, xs[..|xs| - 1]);
      var x := xs[|xs| - 1];
      assert forall n :: n in front[|nodes|..] ==> n in xs;
      if x.id in Ids(front) then front
      else
        assert (front + [x])[|nodes|..] == front[|nodes|..] + [x];
        front + [x]
  }

  /** Joining adds exactly the applied ids. */
  lemma {:induction false} JoinAllIds(nodes: seq<Node>, xs: seq<Node>)
    ensures Ids(JoinAll(nodes, xs)) == Ids(nodes) + set x | x in xs :: x.id
    decreases |xs|
  {
    if xs != [] {
      var front := JoinAll(nodes, xs[..|xs| - 1]);
      var x := xs[|xs| - 1];
      JoinAllIds(nodes, xs[..|xs| - 1]);
      assert xs == xs[..|xs| - 1] + [x];
      assert (set y | y in xs :: y.id) == (set y | y in xs[..|xs| - 1] :: y.id) + {x.id};
      assert Ids(front + [x]) == Ids(front) + {x.id};
    }
  }

  /** Joining keeps the ids of the layer distinct. */
  lemma {:induction false} JoinAllDistinct(nodes: seq<Node>, xs: seq<Node>)
    requires DistinctIds(nodes)
    ensures DistinctIds(JoinAll(nodes, xs))
    decreases |xs|
  {
    if xs != [] {
      var front := JoinAll(nodes, xs[..|xs| - 1]);
      var x := xs[|xs| - 1];
      JoinAllDistinct(nodes, xs[..|xs| - 1]);
      if x.id !in Ids(front) {
        assert forall i :: 0 <= i < |front| ==> front[i] in front;
      }
    }
  }

  /** One step of the join loop: the next node is appended unless its id is
      already a member. */
  lemma JoinAllStep(nodes: seq<Node>, xs: seq<Node>, i: nat)
    requires i < |xs|
    ensures JoinAll(nodes, xs[..i + 1]) ==
      (if xs[i].id in Ids(JoinAll(nodes, xs[..i])) then JoinAll(nodes, xs[..i])
       else JoinAll(nodes, xs[..i]) + [xs[i]])
  {
    assert xs[..i + 1][..i] == xs[..i];
  }

  /** Changing the schema of a generator that already has a core keeps
      that core: the search runs over the whole layer, the old nodes first. */
  lemma SchemaChangeKeepsCore(nodes: seq<Node>, xs: seq<Node>)
    requires FindCore(nodes).Some?
    ensures FindCore(JoinAll(nodes, xs)) == FindCore(nodes)
  {
    var r := JoinAll(nodes, xs);
    assert r == nodes + r[|nodes|..];
    FindCoreAppend(nodes, r[|nodes|..]);
  }

  class Generator {
    const layer: Link
    var state: map<string, Value>
    var stateSet: bool
    var core: Option<Node>
    var schema: Option<string>
    /** The states sent with the `'save'` events, in order. */
    var saved: seq<map<string, Value>>

    /** The object before its constructor body runs: an empty layer, no
        state, core or schema.  `NewGenerator` completes construction. */
    constructor (id: NodeId)
      ensures fresh(layer) && layer.Valid() && layer.nodes == [] && layer.id == id && layer.isLayer
      ensures !stateSet && state == map[] && saved == [] && core.None? && schema.None?
    {
      layer := new Link(id, None, true);
      state := map[];
      stateSet := false;
      core, schema := None, None;
      saved := [];
    }

    /** The `state` setter with an object: the first assignment stores it,
        later ones copy its keys over the state, leaving other keys alone. */
    method AssignState(x: map<string, Value>)
      modifies this`state, this`stateSet
      ensures stateSet
      ensures !old(stateSet) ==> state == x
      ensures old(stateSet) ==> state == old(state) + x
      ensures old(stateSet) ==> forall k :: k in old(state) && k !in x ==> state[k] == old(state)[k]
    {
      if !stateSet {
        state := x;
        stateSet := true;
      } else {
        state := state + x;
      }
    }

    /** `save(state, emit)`.
        - A value that is not an object is ignored; `null` throws.
        - When every key of the update reads the same in the previous state,
          nothing changes and no `'save'` event fires.
        - Otherwise the state becomes the deep merge, with arrays replaced,
          and `'save'` fires once with the new state when `emit` is set. */
    method Save(s: Value, emit: bool) returns (r: Result<(), string>)
      requires stateSet
      modifies this`state, this`saved, this`stateSet
      ensures stateSet
      ensures s.Null? ==> r.Throw? && state == old(state) && saved == old(saved)
      ensures !(s.Obj? || s.Arr? || s.Null?) ==> r.Ok? && state == old(state) && saved == old(saved)
      ensures (s.Obj? || s.Arr?) && !Differs(old(state), OwnEntries(s)) ==>
        r.Ok? && state == old(state) && saved == old(saved)
      ensures (s.Obj? || s.Arr?) && Differs(old(state), OwnEntries(s)) ==>
        r.Ok? &&
        state == old(state) + OwnEntries(DeepMerge(Obj(old(state)), s)) &&
        saved == old(saved) + (if emit then [state] else [])
      ensures s.Obj? && Differs(old(state), OwnEntries(s)) ==>
        state == DeepMerge(Obj(old(state)), s).fields
    {
      if s.Null? {
        return Throw("Cannot convert undefined or null to object");
      }
      if !(s.Obj? || s.Arr?) {
        return Ok(());
      }
      var diff := AnyDiffers(state, OwnEntries(s));
      if diff {
        ghost var prev := state;
        var merged := DeepMerge(Obj(state), s);
        if s.Obj? {
          assert prev + merged.fields == merged.fields;
        }
        AssignState(OwnEntries(merged));
        if emit {
          saved := saved + [state];
        }
      }
      r := Ok(());
    }

    /** `incoming(pulse)`: passes iff the layer's `consumes` holds the
        pulse's schema. */
    method Incoming(p: Pulse) returns (pass: bool)
      requires layer.Valid()
      modifies layer`consumesMemo
      ensures layer.Valid()
      ensures pass <==> exists i :: 0 <= i < |layer.nodes| && SchemaOf(p) in layer.nodes[i].consumes
    {
      var consumes := layer.Consumes();
      pass := SchemaOf(p) in consumes;
    }

    /** `outgoing(pulse)`: passes iff the layer's `produces` holds the
        pulse's schema. */
    method Outgoing(p: Pulse) returns (pass: bool)
      requires layer.Valid()
      modifies layer`producesMemo
      ensures layer.Valid()
      ensures pass <==> exists i :: 0 <= i < |layer.nodes| && SchemaOf(p) in layer.nodes[i].produces
    {
      var produces := layer.Produces();
      pass := SchemaOf(p) in produces;
    }

    /** The `core` setter: anything but a reaction is refused and nothing
        changes; a reaction becomes the core and joins the layer. */
    method SetCore(x: CoreCandidate) returns (r: Result<(), string>)
      requires layer.Valid()
      modifies this`core, layer
      ensures layer.Valid()
      ensures x.NotReaction? ==>
        r == Throw("Generator core must be an instance of Reaction") &&
        core == old(core) && layer.nodes == old(layer.nodes)
      ensures x.ReactionCore? ==>
        r.Ok? && core == Some(x.node) &&
        layer.nodes == (if x.node.id in old(Ids(layer.nodes)) then old(layer.nodes)
                        else old(layer.nodes) + [x.node])
    {
      if x.NotReaction? {
        return Throw("Generator core must be an instance of Reaction");
      }
      core := Some(x.node);
      var _ := layer.Add(x.node);
      r := Ok(());
    }

    /** The `schema` setter: anything but a Yang schema is refused and
        nothing changes; otherwise the schema is stored and applied, which
        joins its nodes to the layer, and the first node of the whole layer
        tagged `core` goes through the `core` setter, which refuses a
        missing or non-reaction core. */
    method SetSchema(x: SchemaCandidate) returns (r: Result<(), string>)
      requires layer.Valid()
      modifies this`core, this`schema, layer
      ensures layer.Valid()
      ensures x.NotYang? ==>
        r == Throw("Generator schema must be an instance of Yang") &&
        schema == old(schema) && core == old(core) && layer.nodes == old(layer.nodes)
      ensures x.YangSchema? ==>
        schema == Some(x.name) && layer.nodes == JoinAll(old(layer.nodes), x.applied) &&
        (r.Ok? <==> CoreOf(FindCore(layer.nodes)).ReactionCore?) &&
        (r.Ok? ==> core == FindCore(layer.nodes)) &&
        (r.Throw? ==> core == old(core))
    {
      if x.NotYang? {
        return Throw("Generator schema must be an instance of Yang");
      }
      schema := Some(x.name);
      ghost var before := layer.nodes;
      var i := 0;
      while i < |x.applied|
        invariant i <= |x.applied| && layer.Valid() && core == old(core)
        invariant schema == Some(x.name) && layer.nodes == JoinAll(before, x.applied[..i])
      {
        JoinAllStep(before, x.applied, i);
        var _ := layer.Add(x.applied[i]);
        i := i + 1;
      }
      assert x.applied[..i] == x.applied;
      var found := FindCore(layer.nodes);
      if found.Some? {
        assert found.value in layer.nodes;
      }
      r := SetCore(CoreOf(found));
    }

    /** `feed(topic, ...values)`: writes a new pulse from this generator to
        the core; with no core the property read throws. */
    method Feed(topic: Key, values: seq<Value>) returns (r: Result<Pulse, string>)
      ensures core.None? ==> r.Throw?
      ensures core.Some? ==> (r.Ok? && r.value.topic == topic &&
        r.value.origin == Some(layer.id) && r.value.payload == values &&
        forall n :: !r.value.Has(n))
    {
      if core.None? {
        return Throw("Cannot read properties of undefined (reading 'write')");
      }
      r := Ok(NewPulse(topic, Some(layer.id)).Add(values));
    }

    /** `join(parent)`: a `Neural.Layer` parent is joined as a Link joins;
        anything else, a plain Link included, is returned as it is, with
        nothing changed. */
    method Join(target: Ref) returns (r: Result<Ref, string>)
      requires target.ToLink? ==> target.link.Valid()
      modifies layer`parent
      modifies if target.ToLink? then {target.link} else {}
      ensures !(target.ToLink? && target.link.isLayer) ==>
        r == Ok(target) && layer.parent == old(layer.parent) &&
        (target.ToLink? ==> target.link.nodes == old(target.link.nodes))
      ensures target.ToLink? && target.link.isLayer ==> (r == Ok(target) && target.link.Valid() &&
        (target != old(layer.parent) ==> layer.parent == target) &&
        target.link.nodes == (if layer.id in old(Ids(target.link.nodes)) || target == old(layer.parent)
                              then old(target.link.nodes)
                              else old(target.link.nodes) + [old(layer.AsNode())]))
    {
      if !(target.ToLink? && target.link.isLayer) {
        return Ok(target);
      }
      r := layer.Join(target);
    }
  }

  /** The diff loop of `save`: visits the keys of the update until one
      reads differently in the previous state. */
  method AnyDiffers(prev: map<string, Value>, update: map<string, Value>) returns (diff: bool)
    ensures diff <==> Differs(prev, update)
  {
    var keys := update.Keys;
    diff := false;
    while keys != {}
      invariant keys <= update.Keys
      invariant forall k :: k in update && k !in keys ==> Lookup(prev, k) == update[k]
      decreases keys
    {
      var k :| k in keys;
      if Lookup(prev, k) != update[k] {
        diff := true;
        break;
      }
      keys := keys - {k};
    }
  }

  /** `new Generator(schema, state)`: the schema setter runs first, and a
      refused schema (or core) makes the constructor throw; then the state
      setter stores the given object, or `{}`. */
  method NewGenerator(id: NodeId, x: SchemaCandidate, initial: Option<map<string, Value>>)
    returns (r: Result<Generator, string>)
    ensures r.Throw? <==> x.NotYang? || !CoreOf(FindCore(JoinAll([], x.applied))).ReactionCore?
    ensures r.Ok? ==>
      fresh(r.value) && r.value.layer.Valid() && r.value.layer.id == id &&
      r.value.stateSet && r.value.state == (if initial.Some? then initial.value else map[]) &&
      r.value.schema == Some(x.name) && r.value.core == FindCore(JoinAll([], x.applied)) &&
      r.value.saved == []
  {
    var g := new Generator(id);
    var s := g.SetSchema(x);
    if s.Throw? {
      return Throw(s.error);
    }
    g.AssignState(if initial.Some? then initial.value else map[]);
    r := Ok(g);
  }
}
