/**
 Eager loading in `sqlAll` of the Metric query.  The metrics are read first; the
 graph they belong to (M2O) and their histograms, counters and gauges (O2M) are
 read by one further query each and attached through a map from ids to nodes.
 That hash join is proved to compute the plain relational join.
 */
module EagerLoad {
  import opened Wrappers

  datatype Edge = Histograms | Counters | Gauges

  /** A row of the metrics table. */
  datatype MetricRow = MetricRow(id: int, graph: Option<int>)

  /** A row of the histograms, counters or gauges table, with its metric as foreign key. */
  datatype Child = Child(id: int, metric: Option<int>)

  datatype Graph = Graph(id: int, title: string)

  datatype LoadError = NilForeignKey(id: int) | UnexpectedForeignKey(fk: int)

  /** The entity the query returns, whose Edges the loading fills. */
  class Metric {
    const id: int
    var fk: Option<int>             // graph_metrics, None unless foreign keys were selected
    var graph: Option<Graph>
    var children: map<Edge, seq<Child>>

    constructor (row: MetricRow, withFKs: bool)
      ensures id == row.id && fk == (if withFKs then row.graph else None)
      ensures graph == None && children == NoChildren()
    {
      id := row.id;
      fk := if withFKs then row.graph else None;
      graph, children := None, NoChildren();
    }
  }

  function NoChildren(): map<Edge, seq<Child>> {
    map[Histograms := [], Counters := [], Gauges := []]
  }

  // ---------- The queries behind the edges ----------

  /** The child rows a query with its own conditions yields, in its order, and its limit. */
  datatype ChildQuery = ChildQuery(rows: seq<Child>, limit: Option<nat>)

  datatype GraphQuery = GraphQuery(rows: seq<Graph>, limit: Option<nat>)

  function Limited<T>(rows: seq<T>, limit: Option<nat>): seq<T> {
    if limit.Some? && limit.value < |rows| then rows[..limit.value] else rows
  }

  function WithKeyIn(rows: seq<Child>, keys: set<int>): seq<Child> {
    if rows == [] then []
    else
      var last := rows[|rows| - 1];
      WithKeyIn(rows[..|rows| - 1], keys)
        + if last.metric.Some? && last.metric.value in keys then [last] else []
  }

  function WithIdIn(rows: seq<Graph>, keys: set<int>): seq<Graph> {
    if rows == [] then []
    else
      WithIdIn(rows[..|rows| - 1], keys) + if rows[|rows| - 1].id in keys then [rows[|rows| - 1]] else []
  }

  /** query.Where(fk IN (fks...)).All(ctx) */
  function AllChildren(q: ChildQuery, fks: seq<int>): seq<Child> {
    Limited(WithKeyIn(q.rows, set k | k in fks), q.limit)
  }

  function AllGraphs(q: GraphQuery, ids: seq<int>): seq<Graph> {
    Limited(WithIdIn(q.rows, set k | k in ids), q.limit)
  }

  /** The rows whose foreign key is k, in order. */
  function ChildrenOf(rows: seq<Child>, k: int): seq<Child> {
    if rows == [] then []
    else
      ChildrenOf(rows[..|rows| - 1], k)
        + if rows[|rows| - 1].metric == Some(k) then [rows[|rows| - 1]] else []
  }

  lemma ChildrenOfSnoc(rows: seq<Child>, c: Child, k: int)
    ensures ChildrenOf(rows + [c], k) == ChildrenOf(rows, k) + if c.metric == Some(k) then [c] else []
  {
    assert (rows + [c])[..|rows|] == rows;
  }

  // ---------- The join loops ----------

  /** Every neighbour has a foreign key, and it is one of the ids asked for. */
  predicate Expected(neighbors: seq<Child>, ids: set<int>) {
    forall k | 0 <= k < |neighbors| :: neighbors[k].metric.Some? && neighbors[k].metric.value in ids
  }

  ghost function Ids(nodes: seq<Metric>): set<int> {
    set i | 0 <= i < |nodes| :: nodes[i].id
  }

  /** Every id of a node, and nothing else, leads to a node with this id. */
  ghost predicate IsIndex(nodes: seq<Metric>, nodeids: map<int, Metric>) {
    nodeids.Keys == Ids(nodes) && forall id | id in nodeids :: nodeids[id] in nodes && nodeids[id].id == id
  }

  /** nodeids: the last node with each id. */
  method IndexNodes(nodes: seq<Metric>) returns (fks: seq<int>, nodeids: map<int, Metric>)
    ensures |fks| == |nodes| && forall i | 0 <= i < |nodes| :: fks[i] == nodes[i].id
    ensures IsIndex(nodes, nodeids) && Ids(nodes) == set k | k in fks
  {
    fks, nodeids := [], map[];
    for i := 0 to |nodes|
      invariant |fks| == i && forall j | 0 <= j < i :: fks[j] == nodes[j].id
      invariant nodeids.Keys == (set j | 0 <= j < i :: nodes[j].id)
      invariant forall id | id in nodeids :: nodeids[id] in nodes && nodeids[id].id == id
    {
      fks := fks + [nodes[i].id];
      nodeids := nodeids[nodes[i].id := nodes[i]];
    }
    assert forall i | 0 <= i < |nodes| :: fks[i] in fks;
  }

  predicate DistinctIds(nodes: seq<Metric>) {
    forall i, j | 0 <= i < j < |nodes| :: nodes[i].id != nodes[j].id
  }

  /** On edge e every node holds its share of ns, and its other edges are as in `base`. */
  ghost predicate Attached(nodes: seq<Metric>, base: seq<map<Edge, seq<Child>>>, e: Edge, ns: seq<Child>)
    requires |base| == |nodes|
    reads (set n | n in nodes)`children
  {
    forall i | 0 <= i < |nodes| :: nodes[i].children == base[i][e := ChildrenOf(ns, nodes[i].id)]
  }

  ghost function ChildrenNow(nodes: seq<Metric>): (now: seq<map<Edge, seq<Child>>>)
    reads (set n | n in nodes)`children
    ensures |now| == |nodes| && forall i | 0 <= i < |nodes| :: now[i] == nodes[i].children
  {
    if nodes == [] then [] else ChildrenNow(nodes[..|nodes| - 1]) + [nodes[|nodes| - 1].children]
  }

  /** node.Edges gets one neighbour more. */
  method AttachOne(nodes: seq<Metric>, node: Metric, e: Edge, n: Child,
                   ghost base: seq<map<Edge, seq<Child>>>, ghost ns: seq<Child>)
    requires DistinctIds(nodes) && node in nodes && n.metric == Some(node.id)
    requires |base| == |nodes| && Attached(nodes, base, e, ns) && e in node.children
    modifies node`children
    ensures Attached(nodes, base, e, ns + [n])
  {
    node.children := node.children[e := node.children[e] + [n]];
    forall i | 0 <= i < |nodes|
      ensures nodes[i].children == base[i][e := ChildrenOf(ns + [n], nodes[i].id)]
    {
      ChildrenOfSnoc(ns, n, nodes[i].id);
      if nodes[i].id != node.id {
        assert ChildrenOf(ns + [n], nodes[i].id) == ChildrenOf(ns, nodes[i].id);
      }
    }
  }

  /** One round of the loop: the foreign key is looked up, and the neighbour attached. */
  method AttachNext(nodes: seq<Metric>, nodeids: map<int, Metric>, e: Edge, n: Child,
                    ghost base: seq<map<Edge, seq<Child>>>, ghost ns: seq<Child>)
    returns (err: Option<LoadError>)
    requires DistinctIds(nodes) && IsIndex(nodes, nodeids)
    requires |base| == |nodes| && Attached(nodes, base, e, ns)
    modifies (set n | n in nodes)`children
    ensures err.None? <==> n.metric.Some? && n.metric.value in Ids(nodes)
    ensures err.None? ==> Attached(nodes, base, e, ns + [n])
  {
    if n.metric.None? {
      return Some(NilForeignKey(n.id));
    }
    if n.metric.value !in nodeids {
      return Some(UnexpectedForeignKey(n.metric.value));
    }
    var fk := n.metric.value;
    var node := nodeids[fk];
    assert node in nodes && node.id == fk;
    AttachOne(nodes, node, e, n, base, ns);
    err := None;
  }

  /**
   The loop that attaches the neighbours of one edge.  With distinct ids every
   node gets, in their order, the neighbours whose foreign key is its id; the
   loop fails exactly when some neighbour's foreign key is missing or unexpected,
   and it touches no other edge.
   */
  method Attach(nodes: seq<Metric>, nodeids: map<int, Metric>, e: Edge, neighbors: seq<Child>)
    returns (err: Option<LoadError>)
    requires DistinctIds(nodes) && IsIndex(nodes, nodeids)
    requires forall i | 0 <= i < |nodes| :: e in nodes[i].children && nodes[i].children[e] == []
    modifies (set n | n in nodes)`children
    ensures err.None? <==> Expected(neighbors, Ids(nodes))
    ensures err.None? ==> Attached(nodes, old(ChildrenNow(nodes)), e, neighbors)
  {
    err := None;
    ghost var base := ChildrenNow(nodes);
    for k := 0 to |neighbors|
      invariant err.None? && Expected(neighbors[..k], Ids(nodes))
      invariant Attached(nodes, base, e, neighbors[..k])
    {
      err := AttachNext(nodes, nodeids, e, neighbors[k], base, neighbors[..k]);
      if err.Some? { return; }
      assert neighbors[..k + 1] == neighbors[..k] + [neighbors[k]];
    }
    assert neighbors[..|neighbors|] == neighbors;
  }

  // ---------- The hash join is the relational join ----------

  /** The neighbours a query yields have expected foreign keys, so the error branches cannot be taken. */
  lemma {:induction false} WithKeyInIsExpected(rows: seq<Child>, keys: set<int>)
    ensures Expected(WithKeyIn(rows, keys), keys)
  {
    if rows != [] {
      WithKeyInIsExpected(rows[..|rows| - 1], keys);
    }
  }

  lemma {:induction false} KeyedChildren(rows: seq<Child>, keys: set<int>, k: int)
    ensures ChildrenOf(WithKeyIn(rows, keys), k) == if k in keys then ChildrenOf(rows, k) else []
  {
    if rows != [] {
      var init, last := rows[..|rows| - 1], rows[|rows| - 1];
      KeyedChildren(init, keys, k);
      if last.metric.Some? && last.metric.value in keys {
        ChildrenOfSnoc(WithKeyIn(init, keys), last, k);
      } else {
        assert WithKeyIn(rows, keys) == WithKeyIn(init, keys);
      }
    }
  }

  function SumOfShares(ids: seq<int>, ns: seq<Child>): nat {
    if ids == [] then 0 else SumOfShares(ids[..|ids| - 1], ns) + |ChildrenOf(ns, ids[|ids| - 1])|
  }

  predicate NoRepeats(ids: seq<int>) {
    forall i, j | 0 <= i < j < |ids| :: ids[i] != ids[j]
  }

  lemma {:induction false} ShareOfOne(ids: seq<int>, ns: seq<Child>, n: Child)
    requires NoRepeats(ids)
    ensures SumOfShares(ids, ns + [n])
         == SumOfShares(ids, ns) + if n.metric.Some? && n.metric.value in ids then 1 else 0
  {
    if ids != [] {
      var m := |ids| - 1;
      ShareOfOne(ids[..m], ns, n);
      ChildrenOfSnoc(ns, n, ids[m]);
      assert ids == ids[..m] + [ids[m]];
    }
  }

  /**
   With distinct ids the shares of the nodes add up to all the neighbours, so that
   none of them is attached twice or left out.
   */
  lemma {:induction false} SharesPartition(ids: seq<int>, ns: seq<Child>)
    requires NoRepeats(ids) && Expected(ns, set k | k in ids)
    ensures SumOfShares(ids, ns) == |ns|
  {
    if ns == [] {
      NothingToShare(ids);
    } else {
      var m := |ns| - 1;
      SharesPartition(ids, ns[..m]);
      assert ns == ns[..m] + [ns[m]];
      ShareOfOne(ids, ns[..m], ns[m]);
    }
  }

  /** A node's share holds exactly the neighbours with its id as foreign key. */
  lemma {:induction false} ShareMembers(ns: seq<Child>, k: int, n: Child)
    ensures n in ChildrenOf(ns, k) <==> n in ns && n.metric == Some(k)
  {
    if ns != [] {
      ShareMembers(ns[..|ns| - 1], k, n);
      assert ns == ns[..|ns| - 1] + [ns[|ns| - 1]];
    }
  }

  lemma {:induction false} NothingToShare(ids: seq<int>)
    ensures SumOfShares(ids, []) == 0
  {
    if ids != [] {
      NothingToShare(ids[..|ids| - 1]);
    }
  }

  /** Positions of a list, in order. */
  predicate Increasing(pos: seq<nat>) {
    forall i, j | 0 <= i < j < |pos| :: pos[i] < pos[j]
  }

  /** These are the positions of the rows with this foreign key, all of them and in order. */
  ghost predicate PositionsOf(ns: seq<Child>, k: int, pos: seq<nat>) {
    && Increasing(pos) && (forall i | 0 <= i < |pos| :: pos[i] < |ns| && ns[pos[i]].metric == Some(k))
    && forall p: nat | p < |ns| && ns[p].metric == Some(k) :: p in pos
  }

  /** A share lists the neighbours with its key in the order of the query, each as often as it is there. */
  lemma {:induction false} ShareKeepsOrder(ns: seq<Child>, k: int) returns (pos: seq<nat>)
    ensures PositionsOf(ns, k, pos) && |pos| == |ChildrenOf(ns, k)|
    ensures forall i | 0 <= i < |pos| :: ChildrenOf(ns, k)[i] == ns[pos[i]]
  {
    if ns == [] {
      pos := [];
    } else {
      var n := |ns| - 1;
      pos := ShareKeepsOrder(ns[..n], k);
      if ns[n].metric == Some(k) {
        pos := pos + [n];
      }
    }
  }

  /** Loading one O2M edge. */
  method LoadChildren(nodes: seq<Metric>, e: Edge, q: ChildQuery) returns (err: Option<LoadError>)
    requires DistinctIds(nodes)
    requires forall i | 0 <= i < |nodes| :: e in nodes[i].children && nodes[i].children[e] == []
    modifies (set n | n in nodes)`children
    ensures err.None?
    ensures forall i | 0 <= i < |nodes| ::
              nodes[i].children == old(nodes[i].children)[e := ChildrenOf(Neighbors(q, Ids(nodes)), nodes[i].id)]
  {
    var fks, nodeids := IndexNodes(nodes);
    var neighbors := AllChildren(q, fks);
    assert neighbors == Neighbors(q, Ids(nodes));
    WithKeyInIsExpected(q.rows, Ids(nodes));
    err := Attach(nodes, nodeids, e, neighbors);
  }

  ghost function Neighbors(q: ChildQuery, ids: set<int>): seq<Child> {
    Limited(WithKeyIn(q.rows, ids), q.limit)
  }

  /** Without a limit on the edge's query, a node's share is the plain join: the child rows with its id as key. */
  lemma ShareIsJoin(q: ChildQuery, ids: set<int>, k: int)
    requires k in ids && q.limit.None?
    ensures ChildrenOf(Neighbors(q, ids), k) == ChildrenOf(q.rows, k)
  {
    KeyedChildren(q.rows, ids, k);
  }

  lemma {:induction false} ChildrenOfConcat(a: seq<Child>, b: seq<Child>, k: int)
    ensures ChildrenOf(a + b, k) == ChildrenOf(a, k) + ChildrenOf(b, k)
  {
    if b == [] {
      assert a + b == a;
    } else {
      var n := |b| - 1;
      ChildrenOfConcat(a, b[..n], k);
      assert a + b == (a + b[..n]) + [b[n]] && b == b[..n] + [b[n]];
      ChildrenOfSnoc(a + b[..n], b[n], k);
      ChildrenOfSnoc(b[..n], b[n], k);
    }
  }

  /** The limit of an edge's query, if it has one, lets through so many rows. */
  predicate LetsThrough(limit: Option<nat>, n: nat) {
    limit.None? || n <= limit.value
  }

  /** Every node's share is its part of the plain join. */
  ghost predicate SharesAreJoin(q: ChildQuery, ids: set<int>) {
    forall k | k in ids :: ChildrenOf(Neighbors(q, ids), k) == ChildrenOf(q.rows, k)
  }

  /** That is so if and only if the edge's query has no limit below the number of rows with one of the ids as key. */
  lemma SharesAreJoinIff(q: ChildQuery, ids: set<int>)
    ensures SharesAreJoin(q, ids) <==> LetsThrough(q.limit, |WithKeyIn(q.rows, ids)|)
  {
    var keyed := WithKeyIn(q.rows, ids);
    WithKeyInIsExpected(q.rows, ids);
    if LetsThrough(q.limit, |keyed|) {
      forall k | k in ids ensures ChildrenOf(Neighbors(q, ids), k) == ChildrenOf(q.rows, k) {
        KeyedChildren(q.rows, ids, k);
      }
    } else {
      var n, k := q.limit.value, keyed[q.limit.value].metric.value;
      assert keyed == keyed[..n] + keyed[n..];
      ChildrenOfConcat(keyed[..n], keyed[n..], k);
      ShareMembers(keyed[n..], k, keyed[n]);
      KeyedChildren(q.rows, ids, k);
    }
  }

  // ---------- The graph of a metric ----------

  /** The last graph with id k. */
  function GraphWith(rows: seq<Graph>, k: int): Option<Graph> {
    if rows == [] then None
    else if rows[|rows| - 1].id == k then Some(rows[|rows| - 1])
    else GraphWith(rows[..|rows| - 1], k)
  }

  function GraphFor(rows: seq<Graph>, fk: Option<int>): Option<Graph> {
    if fk.Some? then GraphWith(rows, fk.value) else None
  }

  lemma GraphWithSnoc(rows: seq<Graph>, g: Graph, k: int)
    ensures GraphWith(rows + [g], k) == if g.id == k then Some(g) else GraphWith(rows, k)
  {
    assert (rows + [g])[..|rows|] == rows;
  }

  /** nodeids of the M2O edge: all nodes that share a foreign key, under that key. */
  predicate GroupedByKey(nodes: seq<Metric>, ids: seq<int>, nodeids: map<int, seq<Metric>>)
    reads (set n | n in nodes)`fk
  {
    && nodeids.Keys == (set k | k in ids)
    && (forall i | 0 <= i < |nodes| && nodes[i].fk.Some? ::
          nodes[i].fk.value in nodeids && nodes[i] in nodeids[nodes[i].fk.value])
    && (forall k | k in nodeids :: nodeids[k] != [])
    && (forall k, n | k in nodeids && n in nodeids[k] :: n in nodes && n.fk == Some(k))
  }

  lemma GroupedKeys(nodes: seq<Metric>, ids: seq<int>, nodeids: map<int, seq<Metric>>)
    requires GroupedByKey(nodes, ids, nodeids)
    ensures nodeids.Keys == KeysOf(nodes)
  {
    forall k | k in nodeids ensures k in KeysOf(nodes) {
      var n := nodeids[k][0];
      assert n in nodes && n.fk == Some(k);
    }
  }

  method GroupByKey(nodes: seq<Metric>) returns (ids: seq<int>, nodeids: map<int, seq<Metric>>)
    ensures GroupedByKey(nodes, ids, nodeids)
  {
    ids, nodeids := [], map[];
    for i := 0 to |nodes|
      invariant GroupedByKey(nodes[..i], ids, nodeids)
    {
      if nodes[i].fk.Some? {
        var k := nodes[i].fk.value;
        ids := ids + [k];
        nodeids := nodeids[k := (if k in nodeids then nodeids[k] else []) + [nodes[i]]];
      }
      assert nodes[..i + 1] == nodes[..i] + [nodes[i]];
    }
    assert nodes[..|nodes|] == nodes;
  }

  /** Every node holds the last of the graphs gs with its key. */
  ghost predicate Linked(nodes: seq<Metric>, gs: seq<Graph>)
    reads nodes
  {
    forall i | 0 <= i < |nodes| :: nodes[i].graph == GraphFor(gs, nodes[i].fk)
  }

  /** The inner loop: one graph is linked to all nodes that share its id as key. */
  method LinkOne(nodes: seq<Metric>, sharing: seq<Metric>, g: Graph, ghost gs: seq<Graph>)
    requires Linked(nodes, gs)
    requires forall n | n in nodes :: n in sharing <==> n.fk == Some(g.id)
    modifies (set n | n in sharing)`graph
    ensures Linked(nodes, gs + [g])
  {
    for i := 0 to |sharing|
      invariant forall n | n in nodes && n in sharing[..i] :: n.graph == Some(g)
      invariant forall n | n in nodes && n !in sharing :: n.graph == old(n.graph)
    {
      sharing[i].graph := Some(g);
    }
    forall i | 0 <= i < |nodes| ensures nodes[i].graph == GraphFor(gs + [g], nodes[i].fk) {
      assert nodes[i] in nodes;
      if nodes[i].fk.Some? {
        GraphWithSnoc(gs, g, nodes[i].fk.value);
      }
    }
  }

  lemma {:induction false} WithIdInIsExpected(rows: seq<Graph>, keys: set<int>)
    ensures forall k | 0 <= k < |WithIdIn(rows, keys)| :: WithIdIn(rows, keys)[k].id in keys
  {
    if rows != [] {
      WithIdInIsExpected(rows[..|rows| - 1], keys);
    }
  }

  ghost function KeysOf(nodes: seq<Metric>): set<int>
    reads (set n | n in nodes)`fk
  {
    set i | 0 <= i < |nodes| && nodes[i].fk.Some? :: nodes[i].fk.value
  }

  /** Loading the M2O edge. */
  method LoadGraph(nodes: seq<Metric>, q: GraphQuery) returns (err: Option<LoadError>)
    requires forall i | 0 <= i < |nodes| :: nodes[i].graph == None
    modifies (set n | n in nodes)`graph
    ensures err.None?
    ensures Linked(nodes, Limited(WithIdIn(q.rows, KeysOf(nodes)), q.limit))
  {
    err := None;
    var ids, nodeids := GroupByKey(nodes);
    var neighbors := AllGraphs(q, ids);
    GroupedKeys(nodes, ids, nodeids);
    WithIdInIsExpected(q.rows, KeysOf(nodes));
    err := LinkAll(nodes, ids, nodeids, neighbors);
  }

  /** The outer loop: it fails exactly when a graph was returned that no node asked for. */
  method LinkAll(nodes: seq<Metric>, ghost ids: seq<int>, nodeids: map<int, seq<Metric>>, neighbors: seq<Graph>)
    returns (err: Option<LoadError>)
    requires GroupedByKey(nodes, ids, nodeids) && Linked(nodes, [])
    modifies (set n | n in nodes)`graph
    ensures err.None? <==> forall k | 0 <= k < |neighbors| :: neighbors[k].id in nodeids
    ensures err.None? ==> Linked(nodes, neighbors)
  {
    err := None;
    for k := 0 to |neighbors|
      invariant Linked(nodes, neighbors[..k]) && forall j | 0 <= j < k :: neighbors[j].id in nodeids
    {
      var n := neighbors[k];
      if n.id !in nodeids {
        return Some(UnexpectedForeignKey(n.id));
      }
      LinkOne(nodes, nodeids[n.id], n, neighbors[..k]);
      assert neighbors[..k + 1] == neighbors[..k] + [n];
    }
    assert neighbors[..|neighbors|] == neighbors;
  }

  lemma {:induction false} KeyedGraph(rows: seq<Graph>, keys: set<int>, k: int)
    requires k in keys
    ensures GraphWith(WithIdIn(rows, keys), k) == GraphWith(rows, k)
  {
    if rows != [] {
      var init, last := rows[..|rows| - 1], rows[|rows| - 1];
      KeyedGraph(init, keys, k);
      if last.id in keys {
        GraphWithSnoc(WithIdIn(init, keys), last, k);
      } else {
        assert WithIdIn(rows, keys) == WithIdIn(init, keys);
      }
    }
  }

  predicate UniqueGraphs(rows: seq<Graph>) {
    forall i, j | 0 <= i < j < |rows| :: rows[i].id != rows[j].id
  }

  lemma {:induction false} GraphWithIsLookup(rows: seq<Graph>, k: int, g: Graph)
    requires UniqueGraphs(rows)
    ensures GraphWith(rows, k) == Some(g) <==> g in rows && g.id == k
    ensures GraphWith(rows, k).None? ==> forall h | h in rows :: h.id != k
  {
    if rows != [] {
      GraphWithIsLookup(rows[..|rows| - 1], k, g);
      assert rows == rows[..|rows| - 1] + [rows[|rows| - 1]];
    }
  }

  /**
   Without a limit on the edge's query, a node with foreign key k holds graph g if
   and only if g is the row of the graphs table with id k, however many nodes share
   the key and however often it stands in the IN list.
   */
  lemma LinkIsLookup(q: GraphQuery, keys: set<int>, k: int, g: Graph)
    requires k in keys && q.limit.None? && UniqueGraphs(q.rows)
    ensures GraphFor(Limited(WithIdIn(q.rows, keys), q.limit), Some(k)) == Some(g) <==> g in q.rows && g.id == k
    ensures GraphFor(Limited(WithIdIn(q.rows, keys), q.limit), Some(k)).None? ==> forall h | h in q.rows :: h.id != k
  {
    KeyedGraph(q.rows, keys, k);
    GraphWithIsLookup(q.rows, k, g);
  }

  lemma {:induction false} WithIdInIsUnique(rows: seq<Graph>, keys: set<int>)
    requires UniqueGraphs(rows)
    ensures UniqueGraphs(WithIdIn(rows, keys))
    ensures forall g | g in WithIdIn(rows, keys) :: g in rows
  {
    if rows != [] {
      var init, last := rows[..|rows| - 1], rows[|rows| - 1];
      WithIdInIsUnique(init, keys);
      assert forall g | g in init :: g.id != last.id;
      assert forall k | 0 <= k < |WithIdIn(init, keys)| :: WithIdIn(init, keys)[k] in init;
    }
  }

  /** Every key is linked to the row with this id, when there is one. */
  ghost predicate LinksAreLookup(q: GraphQuery, keys: set<int>) {
    forall k | k in keys :: GraphWith(Limited(WithIdIn(q.rows, keys), q.limit), k) == GraphWith(q.rows, k)
  }

  /** That is so if and only if the edge's query has no limit below the number of graphs asked for that exist. */
  lemma LinksAreLookupIff(q: GraphQuery, keys: set<int>)
    requires UniqueGraphs(q.rows)
    ensures LinksAreLookup(q, keys) <==> LetsThrough(q.limit, |WithIdIn(q.rows, keys)|)
  {
    var found := WithIdIn(q.rows, keys);
    WithIdInIsExpected(q.rows, keys);
    if LetsThrough(q.limit, |found|) {
      forall k | k in keys ensures GraphWith(Limited(found, q.limit), k) == GraphWith(q.rows, k) {
        KeyedGraph(q.rows, keys, k);
      }
    } else {
      var n := q.limit.value;
      var g := found[n];
      WithIdInIsUnique(q.rows, keys);
      KeyedGraph(q.rows, keys, g.id);
      GraphWithIsLookup(found, g.id, g);
      GraphWithIsLookup(found[..n], g.id, g);
    }
  }

  // ---------- sqlAll ----------

  datatype MetricQuery = MetricQuery(
    rows: seq<MetricRow>,            // what the query itself yields
    withFKs: bool,
    withGraph: Option<GraphQuery>,
    withHistograms: Option<ChildQuery>,
    withCounters: Option<ChildQuery>,
    withGauges: Option<ChildQuery>)

  predicate PrimaryKey(rows: seq<MetricRow>) {
    forall i, j | 0 <= i < j < |rows| :: rows[i].id != rows[j].id
  }

  /** ScanValues and Assign: one new node a row, with its foreign key if it was selected. */
  method ScanNodes(rows: seq<MetricRow>, withFKs: bool) returns (nodes: seq<Metric>)
    ensures |nodes| == |rows| && fresh(nodes)
    ensures forall i | 0 <= i < |nodes| ::
              && nodes[i].id == rows[i].id && nodes[i].fk == (if withFKs then rows[i].graph else None)
              && nodes[i].graph == None && nodes[i].children == NoChildren()
  {
    nodes := [];
    for i := 0 to |rows|
      invariant |nodes| == i && fresh(nodes)
      invariant forall j | 0 <= j < i ::
                  && nodes[j].id == rows[j].id && nodes[j].fk == (if withFKs then rows[j].graph else None)
                  && nodes[j].graph == None && nodes[j].children == NoChildren()
    {
      var node := new Metric(rows[i], withFKs);
      nodes := nodes + [node];
    }
  }

  ghost function RowIds(rows: seq<MetricRow>): set<int> {
    set i | 0 <= i < |rows| :: rows[i].id
  }

  ghost function RowKeys(rows: seq<MetricRow>): set<int> {
    set i | 0 <= i < |rows| && rows[i].graph.Some? :: rows[i].graph.value
  }

  /** What an O2M edge of a metric must hold: nothing unless it was asked for, else the metric's share. */
  ghost function Share(with: Option<ChildQuery>, rows: seq<MetricRow>, id: int): seq<Child> {
    if with.None? then [] else ChildrenOf(Neighbors(with.value, RowIds(rows)), id)
  }

  /** What the graph of a metric must be. */
  ghost function Link(with: Option<GraphQuery>, rows: seq<MetricRow>, fk: Option<int>): Option<Graph> {
    if with.None? then None else GraphFor(Limited(WithIdIn(with.value.rows, RowKeys(rows)), with.value.limit), fk)
  }

  method LoadIfAsked(nodes: seq<Metric>, e: Edge, with: Option<ChildQuery>, ghost rows: seq<MetricRow>)
    returns (err: Option<LoadError>)
    requires DistinctIds(nodes) && Ids(nodes) == RowIds(rows)
    requires forall i | 0 <= i < |nodes| :: e in nodes[i].children && nodes[i].children[e] == []
    modifies (set n | n in nodes)`children
    ensures err.None?
    ensures forall i | 0 <= i < |nodes| ::
              nodes[i].children == old(nodes[i].children)[e := Share(with, rows, nodes[i].id)]
  {
    err := None;
    if with.Some? {
      err := LoadChildren(nodes, e, with.value);
    }
  }

  ghost function Shares(q: MetricQuery, id: int): map<Edge, seq<Child>> {
    map[Histograms := Share(q.withHistograms, q.rows, id),
        Counters := Share(q.withCounters, q.rows, id),
        Gauges := Share(q.withGauges, q.rows, id)]
  }

  /** The three O2M edges, one after the other. */
  method LoadEdges(nodes: seq<Metric>, q: MetricQuery) returns (err: Option<LoadError>)
    requires DistinctIds(nodes) && Ids(nodes) == RowIds(q.rows)
    requires forall i | 0 <= i < |nodes| :: nodes[i].children == NoChildren()
    modifies (set n | n in nodes)`children
    ensures err.None?
    ensures forall i | 0 <= i < |nodes| :: nodes[i].children == Shares(q, nodes[i].id)
  {
    err := LoadIfAsked(nodes, Histograms, q.withHistograms, q.rows);
    if err.Some? { return; }
    err := LoadIfAsked(nodes, Counters, q.withCounters, q.rows);
    if err.Some? { return; }
    err := LoadIfAsked(nodes, Gauges, q.withGauges, q.rows);
  }

  /**
   sqlAll never fails, and every metric comes back with the graph and with the
   histograms, counters and gauges that the join gives it, each edge loaded as if
   it were the only one.
   */
  method SqlAll(q: MetricQuery) returns (nodes: seq<Metric>, err: Option<LoadError>)
    requires PrimaryKey(q.rows)
    ensures err.None? && |nodes| == |q.rows|
    ensures forall i | 0 <= i < |q.rows| ::
              && nodes[i].id == q.rows[i].id
              && nodes[i].fk == (if q.withFKs || q.withGraph.Some? then q.rows[i].graph else None)
              && nodes[i].graph == Link(q.withGraph, q.rows, q.rows[i].graph)
              && nodes[i].children == map[Histograms := Share(q.withHistograms, q.rows, q.rows[i].id),
                                          Counters := Share(q.withCounters, q.rows, q.rows[i].id),
                                          Gauges := Share(q.withGauges, q.rows, q.rows[i].id)]
  {
    var withFKs := q.withFKs || q.withGraph.Some?;
    err := None;
    nodes := ScanNodes(q.rows, withFKs);
    if |nodes| == 0 {
      return;
    }
    assert Ids(nodes) == RowIds(q.rows);
    if q.withGraph.Some? {
      assert KeysOf(nodes) == RowKeys(q.rows);
      err := LoadGraph(nodes, q.withGraph.value);
      if err.Some? { return [], err; }
    }
    err := LoadEdges(nodes, q);
    if err.Some? { return [], err; }
  }
}
