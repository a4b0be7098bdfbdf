/** The knowledge graph in place: a node list with its index, undirected edges, a window. */
module Graph {
  import opened Claims
  import opened CoOccurrence

  /** An undirected edge between two node numbers. */
  datatype Edge = Edge(a: nat, b: nat, weight: nat)

  predicate Touches(e: Edge, a: nat, b: nat) {
    (e.a == a && e.b == b) || (e.a == b && e.b == a)
  }

  /** `find_edge`, which ignores direction. */
  function EdgeIndex(edges: seq<Edge>, a: nat, b: nat): (i: nat)
    ensures i <= |edges|
    ensures i < |edges| ==> Touches(edges[i], a, b)
    ensures forall j | 0 <= j < i :: !Touches(edges[j], a, b)
  {
    if edges == [] || Touches(edges[0], a, b) then 0 else 1 + EdgeIndex(edges[1..], a, b)
  }

  function EdgeWeight(edges: seq<Edge>, a: nat, b: nat): nat {
    var i := EdgeIndex(edges, a, b);
    if i < |edges| then edges[i].weight else 0
  }

  /** No parallel edges and no dangling ends. */
  predicate Simple(edges: seq<Edge>, nodes: nat) {
    && (forall i | 0 <= i < |edges| :: edges[i].a < nodes && edges[i].b < nodes)
    && forall i, j | 0 <= i < j < |edges| :: !Touches(edges[j], edges[i].a, edges[i].b)
  }

  predicate Loopless(edges: seq<Edge>) {
    forall i | 0 <= i < |edges| :: edges[i].a != edges[i].b
  }

  function Reinforced(edges: seq<Edge>, a: nat, b: nat): seq<Edge> {
    var i := EdgeIndex(edges, a, b);
    if i < |edges| then edges[i := edges[i].(weight := edges[i].weight + 1)] else edges + [Edge(a, b, 1)]
  }

  function Restored(edges: seq<Edge>, a: nat, b: nat, weight: nat): seq<Edge> {
    var i := EdgeIndex(edges, a, b);
    if i < |edges| then edges[i := edges[i].(weight := weight)] else edges + [Edge(a, b, weight)]
  }

  lemma SetEdgeAt(edges: seq<Edge>, a: nat, b: nat, weight: nat, c: nat, d: nat)
    ensures EdgeWeight(Restored(edges, a, b, weight), c, d)
         == if Touches(Edge(a, b, 0), c, d) then weight else EdgeWeight(edges, c, d)
  {
    var i, after := EdgeIndex(edges, a, b), Restored(edges, a, b, weight);
    var j, k := EdgeIndex(edges, c, d), EdgeIndex(after, c, d);
    assert forall m | 0 <= m < |edges| :: Touches(after[m], c, d) == Touches(edges[m], c, d);
    if i == |edges| {
      assert Touches(after[i], c, d) == Touches(Edge(a, b, 0), c, d);
    }
    if j < |edges| {
      assert k == j;
    } else if i == |edges| && Touches(Edge(a, b, 0), c, d) {
      assert k == i;
    } else {
      assert k == |after|;
    }
    if Touches(Edge(a, b, 0), c, d) {
      assert j == i;
    } else {
      assert j < |edges| ==> j != i;
    }
  }

  lemma SetEdge(edges: seq<Edge>, nodes: nat, a: nat, b: nat, weight: nat)
    requires Simple(edges, nodes) && a < nodes && b < nodes
    ensures Simple(Restored(edges, a, b, weight), nodes)
    ensures Loopless(edges) && a != b ==> Loopless(Restored(edges, a, b, weight))
  {
  }

  // ---------- weights between entities ----------

  predicate Inverse(nodes: seq<Entity>, index: map<Entity, nat>) {
    && (forall e | e in index :: index[e] < |nodes| && nodes[index[e]] == e)
    && forall i | 0 <= i < |nodes| :: nodes[i] in index && index[nodes[i]] == i
  }

  function WeightIn(edges: seq<Edge>, index: map<Entity, nat>, x: Entity, y: Entity): nat {
    if x in index && y in index then EdgeWeight(edges, index[x], index[y]) else 0
  }

  lemma PairIsTouch(nodes: seq<Entity>, index: map<Entity, nat>, a: nat, b: nat, x: Entity, y: Entity)
    requires Inverse(nodes, index) && a < |nodes| && b < |nodes|
    ensures IsPair(nodes[a], nodes[b], x, y) <==> x in index && y in index && Touches(Edge(a, b, 0), index[x], index[y])
  {
  }

  lemma RestoredWeight(nodes: seq<Entity>, index: map<Entity, nat>, edges: seq<Edge>, a: nat, b: nat, weight: nat,
                       x: Entity, y: Entity)
    requires Inverse(nodes, index) && a < |nodes| && b < |nodes|
    ensures WeightIn(Restored(edges, a, b, weight), index, x, y)
         == if IsPair(nodes[a], nodes[b], x, y) then weight else WeightIn(edges, index, x, y)
  {
    PairIsTouch(nodes, index, a, b, x, y);
    if x in index && y in index {
      SetEdgeAt(edges, a, b, weight, index[x], index[y]);
    }
  }

  lemma ReinforcedWeight(nodes: seq<Entity>, index: map<Entity, nat>, edges: seq<Edge>, a: nat, b: nat, x: Entity, y: Entity)
    requires Inverse(nodes, index) && a < |nodes| && b < |nodes|
    ensures Reinforced(edges, a, b) == Restored(edges, a, b, EdgeWeight(edges, a, b) + 1)
    ensures WeightIn(Reinforced(edges, a, b), index, x, y)
         == WeightIn(edges, index, x, y) + if IsPair(nodes[a], nodes[b], x, y) then 1 else 0
  {
    RestoredWeight(nodes, index, edges, a, b, EdgeWeight(edges, a, b) + 1, x, y);
    PairIsTouch(nodes, index, a, b, x, y);
    if IsPair(nodes[a], nodes[b], x, y) {
      assert EdgeIndex(edges, index[x], index[y]) == EdgeIndex(edges, a, b);
    }
  }

  lemma ReinforcedWeights(nodes: seq<Entity>, index: map<Entity, nat>, edges: seq<Edge>, a: nat, b: nat)
    requires Inverse(nodes, index) && Simple(edges, |nodes|) && a < |nodes| && b < |nodes|
    ensures Simple(Reinforced(edges, a, b), |nodes|)
    ensures Loopless(edges) && a != b ==> Loopless(Reinforced(edges, a, b))
    ensures forall x, y :: WeightIn(Reinforced(edges, a, b), index, x, y)
                       == WeightIn(edges, index, x, y) + if IsPair(nodes[a], nodes[b], x, y) then 1 else 0
  {
    SetEdge(edges, |nodes|, a, b, EdgeWeight(edges, a, b) + 1);
    ReinforcedWeight(nodes, index, edges, a, b, nodes[a], nodes[b]);
    forall x, y
      ensures WeightIn(Reinforced(edges, a, b), index, x, y)
           == WeightIn(edges, index, x, y) + if IsPair(nodes[a], nodes[b], x, y) then 1 else 0
    {
      ReinforcedWeight(nodes, index, edges, a, b, x, y);
    }
  }

  class KnowledgeGraph {
    var nodes: seq<Entity>
    var edges: seq<Edge>
    var index: map<Entity, nat>
    var recent: seq<Recent>

    /** The index is the inverse of the node list, the edges are simple, and whatever the
        window holds has a node. */
    ghost predicate Valid()
      reads this
    {
      && Inverse(nodes, index) && Simple(edges, |nodes|)
      && forall r | r in recent :: r.entity in index
    }

    function Weight(x: Entity, y: Entity): nat
      reads this
    {
      WeightIn(edges, index, x, y)
    }

    constructor ()
      ensures Valid() && recent == [] && nodes == [] && edges == []
      ensures Loopless(edges)
      ensures forall x, y :: Weight(x, y) == 0
    {
      nodes, edges, index, recent := [], [], map[], [];
    }

    method NodeFor(entity: Entity) returns (node: nat)
      requires Valid()
      modifies this`nodes, this`index
      ensures Valid() && entity in index && index[entity] == node
      ensures nodes == if entity in old(index) then old(nodes) else old(nodes) + [entity]
      ensures entity in old(index) ==> index == old(index)
      ensures forall e | e in old(index) :: e in index && index[e] == old(index[e])
      ensures forall x, y :: Weight(x, y) == old(Weight(x, y))
    {
      if entity in index {
        return index[entity];
      }
      node := |nodes|;
      nodes := nodes + [entity];
      index := index[entity := node];
    }

    method Reinforce(a: nat, b: nat)
      requires Valid() && a < |nodes| && b < |nodes|
      modifies this`edges
      ensures Valid() && (Loopless(old(edges)) && a != b ==> Loopless(edges))
      ensures forall x, y :: Weight(x, y) == old(Weight(x, y)) + if IsPair(nodes[a], nodes[b], x, y) then 1 else 0
    {
      ReinforcedWeights(nodes, index, edges, a, b);
      ghost var after := Reinforced(edges, a, b);
      var i := EdgeIndex(edges, a, b);
      if i < |edges| {
        edges := edges[i := edges[i].(weight := edges[i].weight + 1)];
      } else {
        edges := edges + [Edge(a, b, 1)];
      }
      assert edges == after;
    }

    method RestoreEdge(from: Entity, to: Entity, weight: nat)
      requires Valid()
      modifies this`nodes, this`index, this`edges
      ensures Valid() && (Loopless(old(edges)) && from != to ==> Loopless(edges))
      ensures forall x, y :: Weight(x, y) == if IsPair(from, to, x, y) then weight else old(Weight(x, y))
      ensures from in old(index) && to in old(index) ==> nodes == old(nodes) && index == old(index)
    {
      hide WeightIn, IsPair, Simple, Loopless;
      var a := NodeFor(from);
      var b := NodeFor(to);
      SetEdge(edges, |nodes|, a, b, weight);
      forall x, y
        ensures WeightIn(Restored(edges, a, b, weight), index, x, y)
             == if IsPair(from, to, x, y) then weight else WeightIn(edges, index, x, y)
      {
        RestoredWeight(nodes, index, edges, a, b, weight, x, y);
      }
      var i := EdgeIndex(edges, a, b);
      if i < |edges| {
        edges := edges[i := edges[i].(weight := weight)];
      } else {
        edges := edges + [Edge(a, b, weight)];
      }
    }

    /** Link one entity to another; nothing is linked to itself. */
    method LinkOne(entity: Entity, node: nat, neighbour: Entity)
      requires Valid() && entity in index && index[entity] == node
      modifies this`nodes, this`index, this`edges
      ensures Valid() && forall e | e in old(index) :: e in index && index[e] == old(index[e])
      ensures Loopless(old(edges)) ==> Loopless(edges)
      ensures forall x, y ::
        Weight(x, y) == old(Weight(x, y)) + if neighbour != entity && IsPair(entity, neighbour, x, y) then 1 else 0
    {
      if neighbour == entity { return; }
      var other := NodeFor(neighbour);
      Reinforce(node, other);
    }

    /** Link one entity to every other entity of the window. */
    method LinkAll(entity: Entity, window: seq<Recent>)
      requires Valid() && forall r | r in window :: r.entity in index
      modifies this`nodes, this`index, this`edges
      ensures Valid() && entity in index && forall e | e in old(index) :: e in index
      ensures Loopless(old(edges)) ==> Loopless(edges)
      ensures forall x, y :: Weight(x, y) == old(Weight(x, y)) + Links(window, entity, x, y)
    {
      var node := NodeFor(entity);
      for i := 0 to |window|
        invariant Valid() && entity in index && index[entity] == node
        invariant Loopless(old(edges)) ==> Loopless(edges)
        invariant forall e | e in old(index) :: e in index
        invariant forall x, y :: Weight(x, y) == old(Weight(x, y)) + Links(window[..i], entity, x, y)
      {
        assert window[..i + 1][..i] == window[..i];
        LinkOne(entity, node, window[i].entity);
      }
      assert window[..|window|] == window;
    }

    /** Fold one event into the graph. */
    method Observe(o: Observation)
      requires Valid()
      modifies this
      ensures Valid() && recent == NextRecent(old(recent), o)
      ensures Loopless(old(edges)) ==> Loopless(edges)
      ensures forall x, y :: Weight(x, y) == old(Weight(x, y)) + if o.entities == [] then 0 else Gain(old(recent), o, x, y)
    {
      if o.entities == [] { return; }
      var kept := Retained(recent, o.at);
      RetainedMembers(recent, o.at);
      recent := kept;
      for i := 0 to |o.entities|
        invariant Valid() && recent == kept && (Loopless(old(edges)) ==> Loopless(edges))
        invariant forall e | e in o.entities[..i] :: e in index
        invariant forall x, y :: Weight(x, y) == old(Weight(x, y)) + AllLinks(Window(kept), o.entities[..i], x, y)
      {
        assert o.entities[..i + 1][..i] == o.entities[..i];
        LinkAll(o.entities[i], Window(recent));
      }
      assert o.entities[..|o.entities|] == o.entities;
      TaggedMembers(o.entities, o.at);
      recent := recent + Tagged(o.entities, o.at);
    }
  }

  lemma {:induction false} RetainedMembers(recent: seq<Recent>, at: nat)
    ensures forall r | r in Retained(recent, at) :: r in recent
  {
    if recent != [] {
      assert recent == [recent[0]] + recent[1..];
      RetainedMembers(recent[1..], at);
    }
  }

  lemma {:induction false} TaggedMembers(es: seq<Entity>, at: nat)
    ensures forall r | r in Tagged(es, at) :: r.entity in es
  {
    if es != [] {
      assert es == es[..|es| - 1] + [es[|es| - 1]];
      TaggedMembers(es[..|es| - 1], at);
    }
  }

  /** Ingest: one event after another into an empty graph. */
  method ObserveAll(log: seq<Observation>) returns (g: KnowledgeGraph)
    ensures fresh(g) && g.Valid() && Loopless(g.edges) && g.recent == RecentAfter(log)
    ensures forall x, y :: g.Weight(x, y) == WeightAfter(log, x, y)
    ensures InTime(log) ==> forall x, y :: g.Weight(x, y) == |Pairs(log, x, y)|
  {
    g := new KnowledgeGraph();
    for i := 0 to |log|
      invariant fresh(g) && g.Valid() && Loopless(g.edges) && g.recent == RecentAfter(log[..i])
      invariant forall x, y :: g.Weight(x, y) == WeightAfter(log[..i], x, y)
    {
      assert log[..i + 1][..i] == log[..i];
      g.Observe(log[i]);
    }
    assert log[..|log|] == log;
    if InTime(log) {
      forall x, y
        ensures g.Weight(x, y) == |Pairs(log, x, y)|
      {
        IncrementalIsBatch(log, x, y);
      }
    }
  }
}
