/** The composition node of lib/neural/link.js.  A Link holds a set of
    child nodes, caches the unions of their `consumes` and `produces`, keeps
    a reference to the Link it has joined, and drains its outflow into its
    readable side.  Children are modelled as values: their id, their
    capability sets and their tag; membership is by id. */
module Links {
  import opened Wrappers
  import opened Pulses
  import opened Dataflows

  /** A child as the Link sees it: its id, its capability sets, and the two
      things a generator asks of its nodes, the `tag` (`None` when
      undefined) and whether it is a Reaction. */
  datatype Node = Node(id: NodeId, consumes: set<Key>, produces: set<Key>,
                       tag: Option<string>, isReaction: bool)

  /** What `kParent` holds, or what `join` is given: `undefined`, `null`, a
      Link, or some other object. */
  datatype Ref = Undef | Null | ToLink(link: Link) | Foreign

  function Ids(nodes: seq<Node>): set<NodeId> {
    set n | n in nodes :: n.id
  }

  predicate DistinctIds(nodes: seq<Node>) {
    forall i, j :: 0 <= i < j < |nodes| ==> nodes[i].id != nodes[j].id
  }

  /** The union of the children's `consumes`. */
  function UnionConsumes(nodes: seq<Node>): (u: set<Key>)
    ensures forall k :: k in u <==> exists i :: 0 <= i < |nodes| && k in nodes[i].consumes
  {
    if nodes == [] then {}
    else
      var front := nodes[..|nodes| - 1];
      var u := UnionConsumes(front) + nodes[|nodes| - 1].consumes;
      assert forall i :: 0 <= i < |front| ==> front[i] == nodes[i];
      u
  }

  /** The union of the children's `produces`. */
  function UnionProduces(nodes: seq<Node>): (u: set<Key>)
    ensures forall k :: k in u <==> exists i :: 0 <= i < |nodes| && k in nodes[i].produces
  {
    if nodes == [] then {}
    else
      var front := nodes[..|nodes| - 1];
      var u := UnionProduces(front) + nodes[|nodes| - 1].produces;
      assert forall i :: 0 <= i < |front| ==> front[i] == nodes[i];
      u
  }

  /** The children without the one with id `id`. */
  function Without(nodes: seq<Node>, id: NodeId): (r: seq<Node>)
    ensures forall n :: n in r <==> n in nodes && n.id != id
    ensures |r| <= |nodes|
  {
    if nodes == [] then []
    else (if nodes[0].id == id then [] else [nodes[0]]) + Without(nodes[1..], id)
  }

  /** `remove` undoes `add`: removing a node just added gives back the
      children as they were. */
  lemma {:induction false} RemoveUndoesAdd(nodes: seq<Node>, n: Node)
    requires n.id !in Ids(nodes)
    ensures Without(nodes + [n], n.id) == nodes
    decreases |nodes|
  {
    if nodes == [] {
      assert [n][1..] == [];
    } else {
      assert (nodes + [n])[1..] == nodes[1..] + [n];
      assert nodes[0].id != n.id;
      assert Ids(nodes[1..]) <= Ids(nodes);
      RemoveUndoesAdd(nodes[1..], n);
      assert nodes == [nodes[0]] + nodes[1..];
    }
  }

  lemma {:induction false} WithoutAbsent(nodes: seq<Node>, id: NodeId)
    requires id !in Ids(nodes)
    ensures Without(nodes, id) == nodes
    decreases |nodes|
  {
    if nodes != [] {
      assert Ids(nodes[1..]) <= Ids(nodes);
      WithoutAbsent(nodes[1..], id);
      assert nodes == [nodes[0]] + nodes[1..];
    }
  }

  lemma {:induction false} WithoutKeepsDistinct(nodes: seq<Node>, id: NodeId)
    requires DistinctIds(nodes)
    ensures DistinctIds(Without(nodes, id)) && id !in Ids(Without(nodes, id))
    ensures Ids(Without(nodes, id)) == Ids(nodes) - {id}
    decreases |nodes|
  {
    if nodes != [] {
      WithoutKeepsDistinct(nodes[1..], id);
      var rest := Without(nodes[1..], id);
      forall m | m in rest ensures m.id != nodes[0].id {
        assert m in nodes[1..];
      }
      assert Ids(nodes) == {nodes[0].id} + Ids(nodes[1..]);
    }
  }

  /** How many chunks the drain moves: at least one when there is one, and
      then until the readable side reaches the high-water mark. */
  function DrainCount(buffered: nat, waiting: nat, highWaterMark: nat): nat {
    if waiting == 0 then 0
    else if highWaterMark <= buffered + 1 then 1
    else if waiting < highWaterMark - buffered then waiting
    else highWaterMark - buffered
  }

  /** After a Link has joined itself, no chain of ancestors can end at a
      Link without a parent: the `root` getter (and `error`, which reports
      to the root) recurses without end on such a Link. */
  lemma {:induction false} SelfParentHasNoRoot(a: Link, chain: seq<Link>)
    requires a.parent == ToLink(a)
    requires |chain| > 0 && chain[0] == a
    requires forall i :: 0 <= i < |chain| - 1 ==> chain[i].parent == ToLink(chain[i + 1])
    ensures chain[|chain| - 1].parent.ToLink?
    decreases |chain|
  {
    if |chain| > 1 {
      assert chain[0].parent == ToLink(chain[1]);
      SelfParentHasNoRoot(a, chain[1..]);
    }
  }

  class Link {
    const id: NodeId
    const highWaterMark: nat
    /** Whether this node was built as a `Neural.Layer`, the subclass of
        Link that generators extend (lib/neural/layer.js is not part of this
        model; only the `instanceof` test on it is). */
    const isLayer: bool
    /** `kNodes`, in insertion order. */
    var nodes: seq<Node>
    /** `kNodes.consumes` and `kNodes.produces`: `None` once cleared. */
    var consumesMemo: Option<set<Key>>
    var producesMemo: Option<set<Key>>
    /** The children wired by `connect`: the inflow pipes into each and each
        pipes into the outflow. */
    var connected: set<NodeId>
    var parent: Ref
    var outflow: seq<Chunk>
    var readable: seq<Chunk>

    predicate Valid()
      reads this
    {
      DistinctIds(nodes) && connected == Ids(nodes) &&
      (consumesMemo.Some? ==> consumesMemo.value == UnionConsumes(nodes)) &&
      (producesMemo.Some? ==> producesMemo.value == UnionProduces(nodes))
    }

    constructor (id: NodeId, highWaterMark: Option<nat>, isLayer: bool)
      ensures Valid() && this.id == id && this.isLayer == isLayer && parent == Undef
      ensures this.highWaterMark == if highWaterMark.Some? then highWaterMark.value
                                    else DEFAULT_HIGH_WATERMARK
      ensures nodes == [] && consumesMemo.None? && producesMemo.None?
      ensures outflow == [] && readable == []
    {
      this.id := id;
      this.isLayer := isLayer;
      this.highWaterMark := if highWaterMark.Some? then highWaterMark.value
                            else DEFAULT_HIGH_WATERMARK;
      nodes := [];
      consumesMemo, producesMemo := None, None;
      connected := {};
      parent := Undef;
      outflow, readable := [], [];
    }

    /** This Link as a child of another: its id and its current unions; a
        Link has no tag and is not a Reaction. */
    function AsNode(): Node
      reads this
    {
      Node(id, UnionConsumes(nodes), UnionProduces(nodes), None, false)
    }

    /** `add(node)`: a member is refused with nothing changed; otherwise the
        node is inserted, both caches are cleared, it is connected, and the
        result is true. */
    method Add(n: Node) returns (added: bool)
      requires Valid()
      modifies this`nodes, this`consumesMemo, this`producesMemo, this`connected
      ensures Valid()
      ensures added <==> n.id !in old(Ids(nodes))
      ensures !added ==> nodes == old(nodes) && consumesMemo == old(consumesMemo) &&
                         producesMemo == old(producesMemo) && connected == old(connected)
      ensures added ==> nodes == old(nodes) + [n] && consumesMemo.None? && producesMemo.None? &&
                        connected == old(connected) + {n.id}
    {
      if n.id in Ids(nodes) {
        return false;
      }
      nodes := nodes + [n];
      consumesMemo, producesMemo := None, None;
      connected := connected + {n.id};
      added := true;
    }

    /** `remove(node)`: the inverse of `add`; a non-member is refused with
        nothing changed. */
    method Remove(n: Node) returns (removed: bool)
      requires Valid()
      modifies this`nodes, this`consumesMemo, this`producesMemo, this`connected
      ensures Valid()
      ensures removed <==> n.id in old(Ids(nodes))
      ensures !removed ==> nodes == old(nodes) && consumesMemo == old(consumesMemo) &&
                           producesMemo == old(producesMemo) && connected == old(connected)
      ensures removed ==> nodes == Without(old(nodes), n.id) && consumesMemo.None? &&
                          producesMemo.None? && connected == old(connected) - {n.id}
    {
      if n.id !in Ids(nodes) {
        return false;
      }
      WithoutKeepsDistinct(nodes, n.id);
      nodes := Without(nodes, n.id);
      consumesMemo, producesMemo := None, None;
      connected := connected - {n.id};
      removed := true;
    }

    /** The `consumes` getter: the union of the children's `consumes`,
        recomputed only when the cache has been cleared. */
    method Consumes() returns (c: set<Key>)
      requires Valid()
      modifies this`consumesMemo
      ensures Valid()
      ensures c == UnionConsumes(nodes) && consumesMemo == Some(c)
      ensures old(consumesMemo).Some? ==> consumesMemo == old(consumesMemo)
    {
      if consumesMemo.None? {
        consumesMemo := Some(UnionConsumes(nodes));
      }
      c := consumesMemo.value;
    }

    /** The `produces` getter, likewise. */
    method Produces() returns (p: set<Key>)
      requires Valid()
      modifies this`producesMemo
      ensures Valid()
      ensures p == UnionProduces(nodes) && producesMemo == Some(p)
      ensures old(producesMemo).Some? ==> producesMemo == old(producesMemo)
    {
      if producesMemo.None? {
        producesMemo := Some(UnionProduces(nodes));
      }
      p := producesMemo.value;
    }

    /** `join(parent)`: joining the current parent changes nothing; joining
        anything but a Link throws and leaves the parent as it was;
        otherwise this Link is added to the parent, and then the parent is
        set. */
    method Join(target: Ref) returns (r: Result<Ref, string>)
      requires target.ToLink? ==> target.link.Valid()
      modifies this`parent
      modifies if target.ToLink? then {target.link} else {}
      ensures target.ToLink? ==> target.link.Valid()
      ensures target == old(parent) ==>
        r == Ok(target) && parent == old(parent) &&
        (target.ToLink? ==> target.link.nodes == old(target.link.nodes))
      ensures target != old(parent) && !target.ToLink? ==>
        r == Throw("Link can only join another instanceof Link") && parent == old(parent)
      ensures target != old(parent) && target.ToLink? ==>
        r == Ok(target) && parent == target && target.link.Valid() &&
        target.link.nodes == (if id in old(Ids(target.link.nodes)) then old(target.link.nodes)
                              else old(target.link.nodes) + [old(AsNode())])
    {
      if parent == target {
        return Ok(target);
      }
      if !target.ToLink? {
        return Throw("Link can only join another instanceof Link");
      }
      var me := AsNode();
      var _ := target.link.Add(me);
      parent := target;
      r := Ok(target);
    }

    /** `leave()`: this Link is removed from its parent's children and the
        parent becomes `null`. */
    method Leave()
      requires parent.ToLink? ==> parent.link.Valid()
      modifies this`parent
      modifies if parent.ToLink? then {parent.link} else {}
      ensures parent == Null
      ensures old(parent).ToLink? ==>
        old(parent).link.Valid() && old(parent).link.nodes == Without(old(parent.link.nodes), id)
    {
      if parent.ToLink? {
        var p := parent.link;
        if id !in Ids(p.nodes) {
          WithoutAbsent(p.nodes, id);
        }
        var _ := p.Remove(AsNode());
      }
      parent := Null;
    }

    /** `root`: the topmost Link reached by following parent links, given
        the chain of ancestors that leads to it. */
    method Root(ghost chain: seq<Link>) returns (r: Link)
      requires |chain| > 0 && chain[0] == this
      requires forall i :: 0 <= i < |chain| - 1 ==> chain[i].parent == ToLink(chain[i + 1])
      requires !chain[|chain| - 1].parent.ToLink?
      ensures r == chain[|chain| - 1] && !r.parent.ToLink?
    {
      r := this;
      ghost var i := 0;
      while r.parent.ToLink?
        invariant 0 <= i < |chain| && r == chain[i]
        invariant i < |chain| - 1 ==> r.parent == ToLink(chain[i + 1])
        invariant i == |chain| - 1 ==> !r.parent.ToLink?
        decreases |chain| - i
      {
        r := r.parent.link;
        i := i + 1;
      }
    }

    /** `join` does not look for cycles: a Link may be given itself as its
        parent, and then the Link is its own parent. */
    method JoinItself() returns (r: Result<Ref, string>)
      requires Valid() && parent != ToLink(this)
      modifies this
      ensures r == Ok(ToLink(this)) && parent == ToLink(this)
      ensures Valid() && id in Ids(nodes)
    {
      r := Join(ToLink(this));
    }

    /** `_read()`: chunks move from the outflow to the readable side until
        the outflow is empty or the push reports the readable side full. */
    method Drain()
      modifies this`outflow, this`readable
      ensures var k := DrainCount(|old(readable)|, |old(outflow)|, highWaterMark);
        k <= |old(outflow)| &&
        readable == old(readable) + old(outflow)[..k] && outflow == old(outflow)[k..]
      ensures outflow == [] || |readable| >= highWaterMark
    {
      ghost var k := DrainCount(|readable|, |outflow|, highWaterMark);
      ghost var moved := 0;
      while outflow != []
        invariant moved <= k <= |old(outflow)|
        invariant readable == old(readable) + old(outflow)[..moved]
        invariant outflow == old(outflow)[moved..]
        invariant moved < k || outflow == []
        decreases |outflow|
      {
        var chunk := outflow[0];
        outflow := outflow[1..];
        readable := readable + [chunk];
        assert old(outflow)[..moved + 1] == old(outflow)[..moved] + [chunk];
        moved := moved + 1;
        if |readable| >= highWaterMark {
          break;
        }
      }
    }
  }
}
