/** Mirroring the graph to two keyed tables and back, in whatever order the rows return. */
module GraphStore {
  import opened Claims
  import opened Ordering
  import opened Briefing
  import opened CoOccurrence
  import opened Graph

  function KindName(kind: EntityKind): string {
    match kind
    case File => "file"
    case Command => "command"
    case Repo => "repo"
    case Error => "error"
    case IntentEntity => "intent"
  }

  function ParseKind(s: string): Option<EntityKind> {
    if s == "file" then Some(File)
    else if s == "command" then Some(Command)
    else if s == "repo" then Some(Repo)
    else if s == "error" then Some(Error)
    else if s == "intent" then Some(IntentEntity)
    else None
  }

  function KeyOf(e: Entity): string {
    KindName(e.kind) + ":" + e.name
  }

  datatype NodeRow = NodeRow(key: string, kind: string, name: string)

  datatype EdgeRow = EdgeRow(fromKey: string, toKey: string, weight: nat)

  /** A detached edge of a snapshot. */
  datatype Tie = Tie(from: Entity, to: Entity, weight: nat)

  function NodeRowOf(e: Entity): NodeRow {
    NodeRow(KeyOf(e), KindName(e.kind), e.name)
  }

  function EdgeRowOf(t: Tie): EdgeRow {
    EdgeRow(KeyOf(t.from), KeyOf(t.to), t.weight)
  }

  /** Edges of the graph as a snapshot lists them. */
  function Ties(nodes: seq<Entity>, edges: seq<Edge>): seq<Tie>
    requires Simple(edges, |nodes|)
  {
    if edges == [] then []
    else
      var e := edges[|edges| - 1];
      Ties(nodes, edges[..|edges| - 1]) + [Tie(nodes[e.a], nodes[e.b], e.weight)]
  }

  predicate SameEnds(r: EdgeRow, s: EdgeRow) {
    r.fromKey == s.fromKey && r.toKey == s.toKey
  }

  /** INSERT OR REPLACE. */
  function Upsert(rows: seq<EdgeRow>, row: EdgeRow): seq<EdgeRow> {
    Filter((r: EdgeRow) => !SameEnds(r, row), rows) + [row]
  }

  function UpsertAll(ties: seq<Tie>): seq<EdgeRow> {
    if ties == [] then [] else Upsert(UpsertAll(ties[..|ties| - 1]), EdgeRowOf(ties[|ties| - 1]))
  }

  // ---------- what a load makes of rows ----------

  /** Entities by key; a row whose kind is not understood is skipped. */
  function Known(rows: seq<NodeRow>): map<string, Entity> {
    if rows == [] then map[]
    else
      var before, r := Known(rows[..|rows| - 1]), rows[|rows| - 1];
      if ParseKind(r.kind).Some? then before[r.key := Entity(ParseKind(r.kind).value, r.name)] else before
  }

  /** Some row that is understood names the entity. */
  predicate Loads(rows: seq<NodeRow>, e: Entity) {
    exists r | r in rows :: ParseKind(r.kind) == Some(e.kind) && r.name == e.name
  }

  /** The row joins an entity to itself. */
  predicate IsLoop(known: map<string, Entity>, r: EdgeRow) {
    r.fromKey in known && r.toKey in known && known[r.fromKey] == known[r.toKey]
  }

  predicate NoLoops(known: map<string, Entity>, rows: seq<EdgeRow>) {
    forall r | r in rows :: !IsLoop(known, r)
  }

  predicate Ends(known: map<string, Entity>, r: EdgeRow, x: Entity, y: Entity) {
    r.fromKey in known && r.toKey in known && IsPair(known[r.fromKey], known[r.toKey], x, y)
  }

  /** The newest row that joins the two entities. */
  function RowWeight(known: map<string, Entity>, rows: seq<EdgeRow>, x: Entity, y: Entity): nat {
    if rows == [] then 0
    else if Ends(known, rows[|rows| - 1], x, y) then rows[|rows| - 1].weight
    else RowWeight(known, rows[..|rows| - 1], x, y)
  }

  predicate HasKey(rows: seq<NodeRow>, key: string) {
    exists r | r in rows :: r.key == key
  }

  lemma NodeRowsPush(es: seq<Entity>, e: Entity)
    ensures Map(NodeRowOf, es + [e]) == Map(NodeRowOf, es) + [NodeRowOf(e)]
  {
    MapConcat(NodeRowOf, es, [e]);
  }

  predicate DistinctEntities(es: seq<Entity>) {
    forall i, j | 0 <= i < j < |es| :: es[i] != es[j]
  }

  class GraphTables {
    var nodeRows: seq<NodeRow>
    var edgeRows: seq<EdgeRow>

    constructor ()
    {
      nodeRows, edgeRows := [], [];
    }

    /** Clear and refill both tables in one transaction; a repeated node key rolls back. */
    method Save(entities: seq<Entity>, ties: seq<Tie>) returns (ok: bool)
      modifies this
      ensures ok <==> DistinctEntities(entities)
      ensures ok ==> nodeRows == Map(NodeRowOf, entities) && edgeRows == UpsertAll(ties)
      ensures !ok ==> nodeRows == old(nodeRows) && edgeRows == old(edgeRows)
    {
      var nodes: seq<NodeRow>;
      ok, nodes := InsertNodes(entities);
      if !ok { return; }
      var rows := InsertEdges(ties);
      nodeRows, edgeRows := nodes, rows;
    }
  }

  method InsertNodes(entities: seq<Entity>) returns (ok: bool, rows: seq<NodeRow>)
    ensures ok <==> DistinctEntities(entities)
    ensures ok ==> rows == Map(NodeRowOf, entities)
  {
    rows := [];
    for i := 0 to |entities|
      invariant rows == Map(NodeRowOf, entities[..i]) && DistinctEntities(entities[..i])
    {
      KeyTaken(entities[..i], entities[i]);
      assert entities[..i + 1] == entities[..i] + [entities[i]];
      if HasKey(rows, KeyOf(entities[i])) {
        Repeats(entities, i);
        return false, [];
      }
      NodeRowsPush(entities[..i], entities[i]);
      rows := rows + [NodeRowOf(entities[i])];
    }
    assert entities[..|entities|] == entities;
    return true, rows;
  }

  method InsertEdges(ties: seq<Tie>) returns (rows: seq<EdgeRow>)
    ensures rows == UpsertAll(ties)
  {
    rows := [];
    for i := 0 to |ties|
      invariant rows == UpsertAll(ties[..i])
    {
      assert ties[..i + 1][..i] == ties[..i];
      rows := Upsert(rows, EdgeRowOf(ties[i]));
    }
    assert ties[..|ties|] == ties;
  }

  lemma Repeats(es: seq<Entity>, i: nat)
    requires i < |es| && es[i] in es[..i]
    ensures !DistinctEntities(es)
  {
    var j :| 0 <= j < i && es[..i][j] == es[i];
    assert es[j] == es[i];
  }

  /** The first query: a node for every row that is understood, and the entities by key. */
  method LoadEntities(nodeRows: seq<NodeRow>) returns (g: KnowledgeGraph, known: map<string, Entity>)
    ensures fresh(g) && g.Valid() && g.recent == [] && g.edges == [] && known == Known(nodeRows)
    ensures forall e :: e in g.index <==> Loads(nodeRows, e)
    ensures forall k | k in known :: known[k] in g.index
  {
    g := new KnowledgeGraph();
    known := map[];
    for i := 0 to |nodeRows|
      invariant fresh(g) && g.Valid() && g.recent == [] && g.edges == [] && known == Known(nodeRows[..i])
      invariant forall e :: e in g.index <==> Loads(nodeRows[..i], e)
      invariant forall k | k in known :: known[k] in g.index
    {
      LoadsPush(nodeRows[..i], nodeRows[i]);
      assert nodeRows[..i + 1] == nodeRows[..i] + [nodeRows[i]];
      var kind := ParseKind(nodeRows[i].kind);
      if kind.None? { continue; }
      var entity := Entity(kind.value, nodeRows[i].name);
      var _ := g.NodeFor(entity);
      known := known[nodeRows[i].key := entity];
    }
    assert nodeRows[..|nodeRows|] == nodeRows;
  }

  method RestoreRow(g: KnowledgeGraph, known: map<string, Entity>, r: EdgeRow)
    requires g.Valid() && forall k | k in known :: known[k] in g.index
    modifies g`nodes, g`index, g`edges
    ensures g.Valid() && g.index == old(g.index)
    ensures forall x, y :: g.Weight(x, y) == if Ends(known, r, x, y) then r.weight else old(g.Weight(x, y))
    ensures Loopless(old(g.edges)) && !IsLoop(known, r) ==> Loopless(g.edges)
  {
    if r.fromKey !in known || r.toKey !in known { return; }
    g.RestoreEdge(known[r.fromKey], known[r.toKey], r.weight);
  }

  /** Rebuild a graph from rows in the order the two queries return them. */
  method Load(nodeRows: seq<NodeRow>, edgeRows: seq<EdgeRow>) returns (g: KnowledgeGraph)
    ensures fresh(g) && g.Valid() && g.recent == []
    ensures forall e :: e in g.index <==> Loads(nodeRows, e)
    ensures forall x, y :: g.Weight(x, y) == RowWeight(Known(nodeRows), edgeRows, x, y)
    ensures NoLoops(Known(nodeRows), edgeRows) ==> Loopless(g.edges)
  {
    var known;
    g, known := LoadEntities(nodeRows);
    ghost var index := g.index;
    for i := 0 to |edgeRows|
      invariant fresh(g) && g.Valid() && g.recent == [] && g.index == index
      invariant forall x, y :: g.Weight(x, y) == RowWeight(known, edgeRows[..i], x, y)
      invariant NoLoops(known, edgeRows) ==> Loopless(g.edges)
    {
      assert edgeRows[..i + 1][..i] == edgeRows[..i];
      assert edgeRows[i] in edgeRows;
      RestoreRow(g, known, edgeRows[i]);
    }
    assert edgeRows[..|edgeRows|] == edgeRows;
  }

  lemma LoadsPush(rows: seq<NodeRow>, r: NodeRow)
    ensures forall e :: Loads(rows + [r], e) <==> Loads(rows, e) || (ParseKind(r.kind) == Some(e.kind) && r.name == e.name)
  {
    forall e
      ensures Loads(rows + [r], e) <==> Loads(rows, e) || (ParseKind(r.kind) == Some(e.kind) && r.name == e.name)
    {
      assert r in rows + [r] && forall x | x in rows :: x in rows + [r];
    }
  }

  // ---------- keys ----------

  lemma {:induction false} SplitAtColon(a: string, b: string, n: string, m: string)
    requires ':' !in a && ':' !in b && a + ":" + n == b + ":" + m
    ensures a == b && n == m
  {
    var s, t := a + ":" + n, b + ":" + m;
    forall i | 0 <= i < |a|
      ensures s[i] != ':'
    {
      assert s[i] == a[i] && a[i] in a;
    }
    forall i | 0 <= i < |b|
      ensures t[i] != ':'
    {
      assert t[i] == b[i] && b[i] in b;
    }
    assert s[|a|] == ':' && t[|b|] == ':';
    assert |a| == |b|;
    assert s[..|a|] == a && s[|a| + 1..] == n && t[..|b|] == b && t[|b| + 1..] == m;
  }

  /** Keys tell entities apart, whatever their names contain. */
  lemma KeysDiffer(e: Entity, f: Entity)
    ensures KeyOf(e) == KeyOf(f) <==> e == f
    ensures ParseKind(KindName(e.kind)) == Some(e.kind)
  {
    if KeyOf(e) == KeyOf(f) {
      SplitAtColon(KindName(e.kind), KindName(f.kind), e.name, f.name);
    }
  }

  lemma KeyTaken(es: seq<Entity>, e: Entity)
    ensures HasKey(Map(NodeRowOf, es), KeyOf(e)) <==> e in es
  {
    if HasKey(Map(NodeRowOf, es), KeyOf(e)) {
      var r :| r in Map(NodeRowOf, es) && r.key == KeyOf(e);
      MapMembers(NodeRowOf, es, r);
      var f :| f in es && NodeRowOf(f) == r;
      KeysDiffer(e, f);
    }
    if e in es {
      MapMembers(NodeRowOf, es, NodeRowOf(e));
    }
  }

  // ---------- the round trip ----------

  predicate IsRowOf(r: NodeRow, es: seq<Entity>) {
    exists e | e in es :: r == NodeRowOf(e)
  }

  /** Node rows that are those of the entities `es`, in any order. */
  predicate RowsOfEntities(rows: seq<NodeRow>, es: seq<Entity>) {
    && (forall r | r in rows :: IsRowOf(r, es))
    && forall e | e in es :: NodeRowOf(e) in rows
  }

  lemma {:induction false} KnownEntries(rows: seq<NodeRow>, es: seq<Entity>)
    requires forall r | r in rows :: IsRowOf(r, es)
    ensures forall k | k in Known(rows) :: Known(rows)[k] in es && k == KeyOf(Known(rows)[k])
    ensures forall r | r in rows :: r.key in Known(rows)
  {
    if rows != [] {
      var init, last := rows[..|rows| - 1], rows[|rows| - 1];
      assert rows == init + [last];
      KnownEntries(init, es);
      assert last in rows && IsRowOf(last, es);
      var e :| e in es && last == NodeRowOf(e);
      KeysDiffer(e, e);
    }
  }

  lemma KnownIsIdentity(rows: seq<NodeRow>, es: seq<Entity>, e: Entity)
    requires RowsOfEntities(rows, es) && e in es
    ensures KeyOf(e) in Known(rows) && Known(rows)[KeyOf(e)] == e
  {
    KnownEntries(rows, es);
    assert NodeRowOf(e) in rows;
    KeysDiffer(e, Known(rows)[KeyOf(e)]);
  }

  lemma {:induction false} RowWeightOf(known: map<string, Entity>, rows: seq<EdgeRow>, x: Entity, y: Entity)
    ensures (forall r | r in rows :: !Ends(known, r, x, y)) ==> RowWeight(known, rows, x, y) == 0
    ensures (exists r | r in rows :: Ends(known, r, x, y)) ==>
      exists r | r in rows :: Ends(known, r, x, y) && RowWeight(known, rows, x, y) == r.weight
  {
    if rows != [] {
      var init, last := rows[..|rows| - 1], rows[|rows| - 1];
      assert rows == init + [last];
      RowWeightOf(known, init, x, y);
    }
  }

  lemma {:induction false} TiesFacts(nodes: seq<Entity>, edges: seq<Edge>)
    requires Simple(edges, |nodes|)
    ensures |Ties(nodes, edges)| == |edges|
    ensures forall i | 0 <= i < |edges| ::
      Ties(nodes, edges)[i] == Tie(nodes[edges[i].a], nodes[edges[i].b], edges[i].weight)
  {
    if edges != [] {
      TiesFacts(nodes, edges[..|edges| - 1]);
    }
  }

  lemma {:induction false} UpsertAllPlain(ties: seq<Tie>)
    requires forall i, j | 0 <= i < j < |ties| :: ties[i].from != ties[j].from || ties[i].to != ties[j].to
    ensures |UpsertAll(ties)| == |ties| && forall i | 0 <= i < |ties| :: UpsertAll(ties)[i] == EdgeRowOf(ties[i])
  {
    if ties != [] {
      var init, last := ties[..|ties| - 1], ties[|ties| - 1];
      UpsertAllPlain(init);
      NewEnds(init, last, UpsertAll(init));
      KeepsAll((r: EdgeRow) => !SameEnds(r, EdgeRowOf(last)), UpsertAll(init));
    }
  }

  lemma NewEnds(ties: seq<Tie>, last: Tie, rows: seq<EdgeRow>)
    requires forall i | 0 <= i < |ties| :: ties[i].from != last.from || ties[i].to != last.to
    requires |rows| == |ties| && forall i | 0 <= i < |ties| :: rows[i] == EdgeRowOf(ties[i])
    ensures forall r | r in rows :: !SameEnds(r, EdgeRowOf(last))
  {
    forall r | r in rows
      ensures !SameEnds(r, EdgeRowOf(last))
    {
      var i :| 0 <= i < |rows| && rows[i] == r;
      KeysDiffer(ties[i].from, last.from);
      KeysDiffer(ties[i].to, last.to);
    }
  }

  lemma {:induction false} KeepsAll<T>(keep: T -> bool, xs: seq<T>)
    requires forall x | x in xs :: keep(x)
    ensures Filter(keep, xs) == xs
  {
    if xs != [] {
      assert xs == [xs[0]] + xs[1..];
      KeepsAll(keep, xs[1..]);
    }
  }

  /** Rows that are those of the edges, in any order. */
  predicate RowsOfEdges(rows: seq<EdgeRow>, nodes: seq<Entity>, edges: seq<Edge>)
    requires Simple(edges, |nodes|)
  {
    && (forall r | r in rows :: exists i | 0 <= i < |edges| :: r == EdgeRowAt(nodes, edges, i))
    && forall i | 0 <= i < |edges| :: EdgeRowAt(nodes, edges, i) in rows
  }

  function EdgeRowAt(nodes: seq<Entity>, edges: seq<Edge>, i: nat): EdgeRow
    requires Simple(edges, |nodes|) && i < |edges|
  {
    EdgeRow(KeyOf(nodes[edges[i].a]), KeyOf(nodes[edges[i].b]), edges[i].weight)
  }

  lemma TiesDistinct(nodes: seq<Entity>, index: map<Entity, nat>, edges: seq<Edge>)
    requires Inverse(nodes, index) && Simple(edges, |nodes|)
    ensures |Ties(nodes, edges)| == |edges|
    ensures forall i, j | 0 <= i < j < |edges| ::
      Ties(nodes, edges)[i].from != Ties(nodes, edges)[j].from || Ties(nodes, edges)[i].to != Ties(nodes, edges)[j].to
  {
    TiesFacts(nodes, edges);
    forall i, j | 0 <= i < j < |edges|
      ensures Ties(nodes, edges)[i].from != Ties(nodes, edges)[j].from || Ties(nodes, edges)[i].to != Ties(nodes, edges)[j].to
    {
      assert !Touches(edges[j], edges[i].a, edges[i].b);
    }
  }

  lemma SavedRows(nodes: seq<Entity>, index: map<Entity, nat>, edges: seq<Edge>)
    requires Inverse(nodes, index) && Simple(edges, |nodes|)
    ensures DistinctEntities(nodes)
    ensures RowsOfEntities(Map(NodeRowOf, nodes), nodes)
    ensures RowsOfEdges(UpsertAll(Ties(nodes, edges)), nodes, edges)
  {
    forall r
      ensures r in Map(NodeRowOf, nodes) <==> IsRowOf(r, nodes)
    {
      MapMembers(NodeRowOf, nodes, r);
    }
    TiesDistinct(nodes, index, edges);
    TiesFacts(nodes, edges);
    UpsertAllPlain(Ties(nodes, edges));
    var rows := UpsertAll(Ties(nodes, edges));
    forall i | 0 <= i < |edges|
      ensures EdgeRowAt(nodes, edges, i) in rows && rows[i] == EdgeRowAt(nodes, edges, i)
    {
      assert rows[i] == EdgeRowOf(Ties(nodes, edges)[i]);
    }
  }

  lemma EndsAreTouches(nodes: seq<Entity>, index: map<Entity, nat>, edges: seq<Edge>, nodeRows: seq<NodeRow>,
                       i: nat, x: Entity, y: Entity)
    requires Inverse(nodes, index) && Simple(edges, |nodes|) && RowsOfEntities(nodeRows, nodes) && i < |edges|
    ensures Ends(Known(nodeRows), EdgeRowAt(nodes, edges, i), x, y)
            <==> x in index && y in index && Touches(edges[i], index[x], index[y])
  {
    KnownIsIdentity(nodeRows, nodes, nodes[edges[i].a]);
    KnownIsIdentity(nodeRows, nodes, nodes[edges[i].b]);
    PairIsTouch(nodes, index, edges[i].a, edges[i].b, x, y);
  }

  lemma RowsWeigh(nodes: seq<Entity>, index: map<Entity, nat>, edges: seq<Edge>, nodeRows: seq<NodeRow>,
                  edgeRows: seq<EdgeRow>, x: Entity, y: Entity)
    requires Inverse(nodes, index) && Simple(edges, |nodes|)
    requires RowsOfEntities(nodeRows, nodes) && RowsOfEdges(edgeRows, nodes, edges)
    ensures RowWeight(Known(nodeRows), edgeRows, x, y) == WeightIn(edges, index, x, y)
  {
    var known := Known(nodeRows);
    RowWeightOf(known, edgeRows, x, y);
    forall i | 0 <= i < |edges|
      ensures Ends(known, EdgeRowAt(nodes, edges, i), x, y)
              <==> x in index && y in index && Touches(edges[i], index[x], index[y])
    {
      EndsAreTouches(nodes, index, edges, nodeRows, i, x, y);
    }
    if !(x in index && y in index && EdgeIndex(edges, index[x], index[y]) < |edges|) {
      forall r | r in edgeRows
        ensures !Ends(known, r, x, y)
      {
        var i :| 0 <= i < |edges| && r == EdgeRowAt(nodes, edges, i);
      }
    } else {
      assert EdgeRowAt(nodes, edges, EdgeIndex(edges, index[x], index[y])) in edgeRows;
      var r :| r in edgeRows && Ends(known, r, x, y) && RowWeight(known, edgeRows, x, y) == r.weight;
      var i :| 0 <= i < |edges| && r == EdgeRowAt(nodes, edges, i);
      OnlyEdge(edges, |nodes|, i, index[x], index[y]);
    }
  }

  lemma OnlyEdge(edges: seq<Edge>, nodes: nat, i: nat, a: nat, b: nat)
    requires Simple(edges, nodes) && i < |edges| && Touches(edges[i], a, b)
    ensures EdgeIndex(edges, a, b) == i
  {
    var j := EdgeIndex(edges, a, b);
    assert j <= i;
  }

  lemma SavedLoads(nodes: seq<Entity>, index: map<Entity, nat>, nodeRows: seq<NodeRow>, x: Entity)
    requires Inverse(nodes, index) && RowsOfEntities(nodeRows, nodes)
    ensures x in index <==> Loads(nodeRows, x)
  {
    if x in index {
      assert NodeRowOf(x) in nodeRows;
      KeysDiffer(x, x);
    }
    if Loads(nodeRows, x) {
      var r :| r in nodeRows && ParseKind(r.kind) == Some(x.kind) && r.name == x.name;
      assert IsRowOf(r, nodes);
      var e :| e in nodes && r == NodeRowOf(e);
      KeysDiffer(e, e);
      assert e == x;
    }
  }

  lemma SavedLoopless(nodes: seq<Entity>, index: map<Entity, nat>, edges: seq<Edge>, nodeRows: seq<NodeRow>,
                      edgeRows: seq<EdgeRow>, r: EdgeRow)
    requires Inverse(nodes, index) && Simple(edges, |nodes|) && Loopless(edges) && r in edgeRows
    requires RowsOfEntities(nodeRows, nodes) && RowsOfEdges(edgeRows, nodes, edges)
    ensures !IsLoop(Known(nodeRows), r)
  {
    var i :| 0 <= i < |edges| && r == EdgeRowAt(nodes, edges, i);
    KnownIsIdentity(nodeRows, nodes, nodes[edges[i].a]);
    KnownIsIdentity(nodeRows, nodes, nodes[edges[i].b]);
  }

  /** Saving a graph never fails, and loading the rows in any order gives every entity its
      node, every pair of entities its weight, and no entity a link to itself. */
  lemma SaveThenLoad(nodes: seq<Entity>, index: map<Entity, nat>, edges: seq<Edge>, nodeRows: seq<NodeRow>,
                     edgeRows: seq<EdgeRow>, x: Entity, y: Entity)
    requires Inverse(nodes, index) && Simple(edges, |nodes|)
    requires multiset(nodeRows) == multiset(Map(NodeRowOf, nodes))
    requires multiset(edgeRows) == multiset(UpsertAll(Ties(nodes, edges)))
    ensures DistinctEntities(nodes)
    ensures RowWeight(Known(nodeRows), edgeRows, x, y) == WeightIn(edges, index, x, y)
    ensures x in index <==> KeyOf(x) in Known(nodeRows) && Known(nodeRows)[KeyOf(x)] == x
    ensures x in index <==> Loads(nodeRows, x)
    ensures Loopless(edges) ==> NoLoops(Known(nodeRows), edgeRows)
  {
    SavedRows(nodes, index, edges);
    SameMembers(nodeRows, Map(NodeRowOf, nodes));
    SameMembers(edgeRows, UpsertAll(Ties(nodes, edges)));
    RowsWeigh(nodes, index, edges, nodeRows, edgeRows, x, y);
    SavedLoads(nodes, index, nodeRows, x);
    forall r | r in edgeRows && Loopless(edges)
      ensures !IsLoop(Known(nodeRows), r)
    {
      SavedLoopless(nodes, index, edges, nodeRows, edgeRows, r);
    }
    if x in index {
      KnownIsIdentity(nodeRows, nodes, x);
    }
    KnownEntries(nodeRows, nodes);
  }
}
