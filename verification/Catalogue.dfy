/**
 The catalogue of groups, graphs and metrics that the master keeps for the
 executors: three tables filled by find-or-create, and the tree of metrics that
 a driver declares.  Rows are numbered by their position in the table.
 */
module Catalogue {

  datatype GroupRow = GroupRow(name: string, app: int)
  datatype GraphRow = GraphRow(title: string, dim: string, group: nat)
  datatype MetricRow = MetricRow(title: string, mtype: string, graph: nat)

  datatype Tables = Tables(groups: seq<GroupRow>, graphs: seq<GraphRow>, metrics: seq<MetricRow>)

  // ---------- The declared tree ----------

  datatype Metric = Metric(title: string, mtype: string)
  datatype Graph = Graph(title: string, dim: string, metrics: seq<Metric>)
  datatype Group = Group(name: string, graphs: seq<Graph>)

  /** Where something is declared: a group, a graph under its group, a metric under its graph. */
  datatype Path =
    | GroupPath(group: string)
    | GraphPath(group: string, graph: string, dim: string)
    | MetricPath(group: string, graph: string, dim: string, title: string, mtype: string)

  /** The paths of a tree in the order in which Setup visits them; each costs one call to the master. */
  function Flatten(groups: seq<Group>): seq<Path> {
    if groups == [] then [] else
      var n := |groups| - 1;
      Flatten(groups[..n]) + [GroupPath(groups[n].name)] + FlattenGraphs(groups[n].name, groups[n].graphs)
  }

  function FlattenGraphs(group: string, graphs: seq<Graph>): seq<Path> {
    if graphs == [] then [] else
      var n := |graphs| - 1;
      FlattenGraphs(group, graphs[..n]) + [GraphPath(group, graphs[n].title, graphs[n].dim)]
        + FlattenMetrics(group, graphs[n], graphs[n].metrics)
  }

  function FlattenMetrics(group: string, graph: Graph, metrics: seq<Metric>): seq<Path> {
    if metrics == [] then [] else
      var n := |metrics| - 1;
      FlattenMetrics(group, graph, metrics[..n])
        + [MetricPath(group, graph.title, graph.dim, metrics[n].title, metrics[n].mtype)]
  }

  /** The tree declares path p. */
  ghost predicate Declares(groups: seq<Group>, p: Path) {
    match p
    case GroupPath(g) => exists group | group in groups :: group.name == g
    case GraphPath(g, gr, d) =>
      exists group, graph | group in groups && graph in group.graphs ::
        group.name == g && graph.title == gr && graph.dim == d
    case MetricPath(g, gr, d, t, ty) =>
      exists group, graph | group in groups && graph in group.graphs ::
        group.name == g && graph.title == gr && graph.dim == d && Metric(t, ty) in graph.metrics
  }

  lemma {:induction false} FlattenMetricsIsTree(group: string, graph: Graph, metrics: seq<Metric>, p: Path)
    ensures p in FlattenMetrics(group, graph, metrics) <==>
              p.MetricPath? && p.group == group && p.graph == graph.title && p.dim == graph.dim
              && Metric(p.title, p.mtype) in metrics
  {
    if metrics != [] {
      var n := |metrics| - 1;
      FlattenMetricsIsTree(group, graph, metrics[..n], p);
      assert metrics == metrics[..n] + [metrics[n]];
    }
  }

  lemma {:induction false} FlattenGraphsIsTree(group: string, graphs: seq<Graph>, p: Path)
    ensures p in FlattenGraphs(group, graphs) <==>
              && !p.GroupPath? && p.group == group
              && exists graph | graph in graphs ::
                   graph.title == p.graph && graph.dim == p.dim
                   && (p.MetricPath? ==> Metric(p.title, p.mtype) in graph.metrics)
  {
    if graphs != [] {
      var n := |graphs| - 1;
      FlattenGraphsIsTree(group, graphs[..n], p);
      FlattenMetricsIsTree(group, graphs[n], graphs[n].metrics, p);
      assert graphs == graphs[..n] + [graphs[n]];
    }
  }

  /** The flattened list holds exactly the paths of the tree. */
  lemma {:induction false} FlattenIsTree(groups: seq<Group>, p: Path)
    ensures p in Flatten(groups) <==> Declares(groups, p)
  {
    if groups != [] {
      var n := |groups| - 1;
      FlattenIsTree(groups[..n], p);
      FlattenGraphsIsTree(groups[n].name, groups[n].graphs, p);
      assert groups == groups[..n] + [groups[n]];
    }
  }

  function PathsOfGroup(group: Group): seq<Path> {
    [GroupPath(group.name)] + FlattenGraphs(group.name, group.graphs)
  }

  lemma Regroup<T>(x: seq<T>, y: seq<T>, z: seq<T>)
    ensures x + y + z == x + (y + z)
  {
  }

  lemma FlattenSnoc(groups: seq<Group>, group: Group)
    ensures Flatten(groups + [group]) == Flatten(groups) + PathsOfGroup(group)
  {
    assert (groups + [group])[..|groups|] == groups;
  }

  /** The walk takes groups, graphs and metrics in their declared order, each with all that is under it. */
  lemma {:induction false} FlattenKeepsOrder(a: seq<Group>, b: seq<Group>)
    ensures Flatten(a + b) == Flatten(a) + Flatten(b)
  {
    if b == [] {
      assert a + b == a;
    } else {
      var n := |b| - 1;
      FlattenKeepsOrder(a, b[..n]);
      FlattenSnoc(a + b[..n], b[n]);
      FlattenSnoc(b[..n], b[n]);
      Regroup(Flatten(a), Flatten(b[..n]), PathsOfGroup(b[n]));
      assert a + b == (a + b[..n]) + [b[n]] && b == b[..n] + [b[n]];
    }
  }

  function PathsOfGraph(group: string, graph: Graph): seq<Path> {
    [GraphPath(group, graph.title, graph.dim)] + FlattenMetrics(group, graph, graph.metrics)
  }

  lemma GraphsSnoc(group: string, graphs: seq<Graph>, graph: Graph)
    ensures FlattenGraphs(group, graphs + [graph]) == FlattenGraphs(group, graphs) + PathsOfGraph(group, graph)
  {
    assert (graphs + [graph])[..|graphs|] == graphs;
  }

  lemma {:induction false} GraphsKeepOrder(group: string, a: seq<Graph>, b: seq<Graph>)
    ensures FlattenGraphs(group, a + b) == FlattenGraphs(group, a) + FlattenGraphs(group, b)
  {
    if b == [] {
      assert a + b == a;
    } else {
      var n := |b| - 1;
      GraphsKeepOrder(group, a, b[..n]);
      GraphsSnoc(group, a + b[..n], b[n]);
      GraphsSnoc(group, b[..n], b[n]);
      Regroup(FlattenGraphs(group, a), FlattenGraphs(group, b[..n]), PathsOfGraph(group, b[n]));
      assert a + b == (a + b[..n]) + [b[n]] && b == b[..n] + [b[n]];
    }
  }

  lemma {:induction false} MetricsKeepOrder(group: string, graph: Graph, ms: seq<Metric>)
    ensures var ps := FlattenMetrics(group, graph, ms);
            |ps| == |ms| && forall k | 0 <= k < |ms| ::
              ps[k] == MetricPath(group, graph.title, graph.dim, ms[k].title, ms[k].mtype)
  {
    if ms != [] {
      MetricsKeepOrder(group, graph, ms[..|ms| - 1]);
    }
  }

  /** A group or graph comes first, then what is under it. */
  lemma ParentsComeFirst(group: Group, graph: Graph)
    ensures Flatten([group]) == [GroupPath(group.name)] + FlattenGraphs(group.name, group.graphs)
    ensures FlattenGraphs(group.name, [graph]) ==
            [GraphPath(group.name, graph.title, graph.dim)] + FlattenMetrics(group.name, graph, graph.metrics)
  {
    assert [group][..0] == [] && [graph][..0] == [];
  }

  // ---------- Find or create ----------

  predicate Distinct<T(==)>(s: seq<T>) {
    forall i, j | 0 <= i < j < |s| :: s[i] != s[j]
  }

  /** The position of x, or the length when there is none. */
  function IndexOf<T(==)>(s: seq<T>, x: T): (i: nat)
    ensures i <= |s| && (i < |s| ==> s[i] == x)
    ensures i == |s| <==> x !in s
  {
    if s == [] then 0 else if s[0] == x then 0 else IndexOf(s[1..], x) + 1
  }

  /** The table after find-or-create of row x, and the number of the row. */
  function FindOrCreate<T(==)>(s: seq<T>, x: T): (r: (seq<T>, nat))
    ensures s <= r.0 && r.1 < |r.0| && r.0[r.1] == x
    ensures x in s ==> r.0 == s
    ensures x !in s ==> r.0 == s + [x]
    ensures Distinct(s) ==> Distinct(r.0)
  {
    var i := IndexOf(s, x);
    (if i < |s| then s else s + [x], i)
  }

  /** Every row's parent is there. */
  predicate Resolved(t: Tables) {
    && (forall i | 0 <= i < |t.graphs| :: t.graphs[i].group < |t.groups|)
    && (forall i | 0 <= i < |t.metrics| :: t.metrics[i].graph < |t.graphs|)
  }

  predicate NoTwins(t: Tables) {
    Distinct(t.groups) && Distinct(t.graphs) && Distinct(t.metrics)
  }

  /** A walk over the paths of a tree: the tables, and the ids of the group and graph visited last. */
  datatype Walk = Walk(t: Tables, group: nat, graph: nat, metric: nat)

  function Visit(w: Walk, app: int, p: Path): Walk {
    match p
    case GroupPath(name) =>
      var (rows, id) := FindOrCreate(w.t.groups, GroupRow(name, app));
      w.(t := w.t.(groups := rows), group := id)
    case GraphPath(_, title, dim) =>
      var (rows, id) := FindOrCreate(w.t.graphs, GraphRow(title, dim, w.group));
      w.(t := w.t.(graphs := rows), graph := id)
    case MetricPath(_, _, _, title, mtype) =>
      var (rows, id) := FindOrCreate(w.t.metrics, MetricRow(title, mtype, w.graph));
      w.(t := w.t.(metrics := rows), metric := id)
  }

  function VisitAll(w: Walk, app: int, ps: seq<Path>): Walk {
    if ps == [] then w else Visit(VisitAll(w, app, ps[..|ps| - 1]), app, ps[|ps| - 1])
  }

  /** The same for a group, where the lookup filters on the requested application and the row is the job's. */
  function LookUpGroup(groups: seq<GroupRow>, jobApp: int, reqApp: int, name: string): (seq<GroupRow>, nat) {
    if reqApp == jobApp then FindOrCreate(groups, GroupRow(name, jobApp))
    else (groups + [GroupRow(name, jobApp)], |groups|)
  }

  // ---------- The master's methods ----------

  /** The catalogue side of the master: the tables and the application of the current job. */
  class MetricLog {
    var t: Tables
    var jobApp: int

    constructor (app: int)
      ensures t == Tables([], [], []) && jobApp == app
    {
      t, jobApp := Tables([], [], []), app;
    }

    /** The lookup filters on the requested application, the row is created for the job's. */
    method FindCreateGroup(reqApp: int, name: string) returns (id: nat)
      modifies `t
      ensures (t.groups, id) == LookUpGroup(old(t).groups, jobApp, reqApp, name)
      ensures t == old(t).(groups := t.groups)
    {
      id := if reqApp == jobApp then IndexOf(t.groups, GroupRow(name, jobApp)) else |t.groups|;
      if id == |t.groups| {
        t := t.(groups := t.groups + [GroupRow(name, jobApp)]);
      }
    }

    method FindCreateGraph(title: string, dim: string, group: nat) returns (id: nat)
      modifies `t
      ensures (t.graphs, id) == FindOrCreate(old(t).graphs, GraphRow(title, dim, group))
      ensures t == old(t).(graphs := t.graphs)
    {
      id := IndexOf(t.graphs, GraphRow(title, dim, group));
      if id == |t.graphs| {
        t := t.(graphs := t.graphs + [GraphRow(title, dim, group)]);
      }
    }

    method FindCreateMetric(title: string, mtype: string, graph: nat) returns (id: nat)
      modifies `t
      ensures (t.metrics, id) == FindOrCreate(old(t).metrics, MetricRow(title, mtype, graph))
      ensures t == old(t).(metrics := t.metrics)
    {
      id := IndexOf(t.metrics, MetricRow(title, mtype, graph));
      if id == |t.metrics| {
        t := t.(metrics := t.metrics + [MetricRow(title, mtype, graph)]);
      }
    }
  }

  // ---------- Which application a path belongs to ----------

  /** Row p of application app is in the tables. */
  predicate HasGroup(t: Tables, i: nat, app: int, name: string) {
    i < |t.groups| && t.groups[i] == GroupRow(name, app)
  }

  predicate HasGraph(t: Tables, i: nat, app: int, group: string, title: string, dim: string) {
    && i < |t.graphs| && t.graphs[i] == GraphRow(title, dim, t.graphs[i].group)
    && HasGroup(t, t.graphs[i].group, app, group)
  }

  predicate HasMetric(t: Tables, i: nat, app: int, p: Path)
    requires p.MetricPath?
  {
    && i < |t.metrics| && t.metrics[i] == MetricRow(p.title, p.mtype, t.metrics[i].graph)
    && HasGraph(t, t.metrics[i].graph, app, p.group, p.graph, p.dim)
  }

  /** Row i of the table that p is about has path p in the catalogue of app. */
  predicate IsRowOf(t: Tables, i: nat, app: int, p: Path) {
    match p
    case GroupPath(g) => HasGroup(t, i, app, g)
    case GraphPath(g, gr, d) => HasGraph(t, i, app, g, gr, d)
    case MetricPath(_, _, _, _, _) => HasMetric(t, i, app, p)
  }

  ghost predicate HasPath(t: Tables, app: int, p: Path) {
    exists i: nat :: IsRowOf(t, i, app, p)
  }

  // ---------- The walk keeps the tables exact ----------

  /** The name of the last group in a list of paths, if there is one. */
  function LastGroup(ps: seq<Path>): seq<string> {
    if ps == [] then []
    else if ps[|ps| - 1].GroupPath? then [ps[|ps| - 1].group]
    else LastGroup(ps[..|ps| - 1])
  }

  /** The last graph under the last group, if there is one. */
  function LastGraph(ps: seq<Path>): seq<(string, string)> {
    if ps == [] then []
    else match ps[|ps| - 1]
      case GroupPath(_) => []
      case GraphPath(_, title, dim) => [(title, dim)]
      case MetricPath(_, _, _, _, _) => LastGraph(ps[..|ps| - 1])
  }

  /** Every graph follows its own group and every metric its own graph. */
  predicate Scoped(ps: seq<Path>) {
    ps == [] ||
    (Scoped(ps[..|ps| - 1]) && InScope(ps[..|ps| - 1], ps[|ps| - 1]))
  }

  predicate InScope(ps: seq<Path>, p: Path) {
    match p
    case GroupPath(_) => true
    case GraphPath(g, _, _) => LastGroup(ps) == [g]
    case MetricPath(g, gr, d, _, _) => LastGroup(ps) == [g] && LastGraph(ps) == [(gr, d)]
  }

  lemma ScopedSnoc(ps: seq<Path>, p: Path)
    requires Scoped(ps) && InScope(ps, p)
    ensures Scoped(ps + [p])
    ensures LastGroup(ps + [p]) == if p.GroupPath? then [p.group] else LastGroup(ps)
    ensures LastGraph(ps + [p]) == match p
                                   case GroupPath(_) => []
                                   case GraphPath(_, gr, d) => [(gr, d)]
                                   case MetricPath(_, _, _, _, _) => LastGraph(ps)
  {
    assert (ps + [p])[..|ps|] == ps;
  }

  lemma {:induction false} MetricsAreScoped(ps: seq<Path>, group: string, graph: Graph, metrics: seq<Metric>)
    requires Scoped(ps) && LastGroup(ps) == [group] && LastGraph(ps) == [(graph.title, graph.dim)]
    ensures var qs := ps + FlattenMetrics(group, graph, metrics);
            Scoped(qs) && LastGroup(qs) == LastGroup(ps) && LastGraph(qs) == LastGraph(ps)
  {
    if metrics == [] {
      assert ps + [] == ps;
    } else {
      var n := |metrics| - 1;
      var p := MetricPath(group, graph.title, graph.dim, metrics[n].title, metrics[n].mtype);
      MetricsAreScoped(ps, group, graph, metrics[..n]);
      ScopedSnoc(ps + FlattenMetrics(group, graph, metrics[..n]), p);
      assert ps + FlattenMetrics(group, graph, metrics) == ps + FlattenMetrics(group, graph, metrics[..n]) + [p];
    }
  }

  lemma GraphIsScoped(ps: seq<Path>, group: string, graph: Graph)
    requires Scoped(ps) && LastGroup(ps) == [group]
    ensures var qs := ps + [GraphPath(group, graph.title, graph.dim)] + FlattenMetrics(group, graph, graph.metrics);
            Scoped(qs) && LastGroup(qs) == [group]
  {
    ScopedSnoc(ps, GraphPath(group, graph.title, graph.dim));
    MetricsAreScoped(ps + [GraphPath(group, graph.title, graph.dim)], group, graph, graph.metrics);
  }

  lemma {:induction false} GraphsAreScoped(ps: seq<Path>, group: string, graphs: seq<Graph>)
    requires Scoped(ps) && LastGroup(ps) == [group]
    ensures Scoped(ps + FlattenGraphs(group, graphs)) && LastGroup(ps + FlattenGraphs(group, graphs)) == [group]
  {
    if graphs == [] {
      assert ps + FlattenGraphs(group, graphs) == ps;
    } else {
      var n := |graphs| - 1;
      GraphsAreScoped(ps, group, graphs[..n]);
      GraphIsScoped(ps + FlattenGraphs(group, graphs[..n]), group, graphs[n]);
      LastGraphLast(ps, group, graphs);
    }
  }

  lemma LastGraphLast(ps: seq<Path>, group: string, graphs: seq<Graph>)
    requires graphs != []
    ensures var n := |graphs| - 1;
            ps + FlattenGraphs(group, graphs)
            == (ps + FlattenGraphs(group, graphs[..n])) + [GraphPath(group, graphs[n].title, graphs[n].dim)]
               + FlattenMetrics(group, graphs[n], graphs[n].metrics)
  {
  }

  lemma {:induction false} FlattenIsScoped(groups: seq<Group>)
    ensures Scoped(Flatten(groups))
  {
    if groups != [] {
      var n := |groups| - 1;
      FlattenIsScoped(groups[..n]);
      ScopedSnoc(Flatten(groups[..n]), GroupPath(groups[n].name));
      GraphsAreScoped(Flatten(groups[..n]) + [GroupPath(groups[n].name)], groups[n].name, groups[n].graphs);
    }
  }

  lemma {:induction false} PrefixIsScoped(ps: seq<Path>, k: nat)
    requires Scoped(ps) && k <= |ps|
    ensures Scoped(ps[..k])
  {
    if k == |ps| {
      assert ps[..k] == ps;
    } else {
      PrefixIsScoped(ps[..|ps| - 1], k);
      assert ps[..|ps| - 1][..k] == ps[..k];
    }
  }

  /** The ids the walk holds are those of the group and the graph it is in. */
  ghost predicate WalkOk(w: Walk, app: int, ps: seq<Path>) {
    && NoTwins(w.t) && Resolved(w.t)
    && (LastGroup(ps) != [] ==> HasGroup(w.t, w.group, app, LastGroup(ps)[0]))
    && (LastGraph(ps) != [] ==>
          LastGroup(ps) != [] && w.graph < |w.t.graphs|
          && w.t.graphs[w.graph] == GraphRow(LastGraph(ps)[0].0, LastGraph(ps)[0].1, w.group))
  }

  /** The id a visit leaves for its path. */
  function IdOf(w: Walk, p: Path): nat {
    match p
    case GroupPath(_) => w.group
    case GraphPath(_, _, _) => w.graph
    case MetricPath(_, _, _, _, _) => w.metric
  }

  lemma VisitKeepsWalkOk(w: Walk, app: int, ps: seq<Path>, p: Path)
    requires WalkOk(w, app, ps) && InScope(ps, p)
    ensures WalkOk(Visit(w, app, p), app, ps + [p])
    ensures IsRowOf(Visit(w, app, p).t, IdOf(Visit(w, app, p), p), app, p)
  {
    assert (ps + [p])[..|ps|] == ps;
  }

  /** Tables only grow at their ends. */
  predicate Grows(t: Tables, t': Tables) {
    t.groups <= t'.groups && t.graphs <= t'.graphs && t.metrics <= t'.metrics
  }

  lemma RowsStay(t: Tables, t': Tables, i: nat, app: int, p: Path)
    requires Resolved(t) && Grows(t, t') && IsRowOf(t, i, app, p)
    ensures IsRowOf(t', i, app, p)
  {
  }

  /** A visit gives path p a row and gives no other path one. */
  lemma VisitAddsOnly(w: Walk, app: int, ps: seq<Path>, p: Path, i: nat, other: int, q: Path)
    requires WalkOk(w, app, ps) && InScope(ps, p)
    requires IsRowOf(Visit(w, app, p).t, i, other, q)
    ensures IsRowOf(w.t, i, other, q) || (other == app && q == p)
  {
  }

  lemma VisitIsExact(w: Walk, app: int, ps: seq<Path>, p: Path, other: int, q: Path)
    requires WalkOk(w, app, ps) && InScope(ps, p)
    ensures HasPath(Visit(w, app, p).t, other, q) <==> HasPath(w.t, other, q) || (other == app && q == p)
  {
    var w' := Visit(w, app, p);
    VisitKeepsWalkOk(w, app, ps, p);
    if HasPath(w.t, other, q) {
      var i: nat :| IsRowOf(w.t, i, other, q);
      RowsStay(w.t, w'.t, i, other, q);
    }
    if HasPath(w'.t, other, q) {
      var i: nat :| IsRowOf(w'.t, i, other, q);
      VisitAddsOnly(w, app, ps, p, i, other, q);
    }
  }

  /** After a walk the catalogue holds what it held before and exactly the visited paths. */
  lemma {:induction false} WalkIsExact(w: Walk, app: int, ps: seq<Path>, other: int, q: Path)
    requires NoTwins(w.t) && Resolved(w.t) && Scoped(ps)
    ensures WalkOk(VisitAll(w, app, ps), app, ps)
    ensures HasPath(VisitAll(w, app, ps).t, other, q) <==> HasPath(w.t, other, q) || (other == app && q in ps)
  {
    if ps != [] {
      var n := |ps| - 1;
      WalkIsExact(w, app, ps[..n], other, q);
      VisitIsExact(VisitAll(w, app, ps[..n]), app, ps[..n], ps[n], other, q);
      VisitKeepsWalkOk(VisitAll(w, app, ps[..n]), app, ps[..n], ps[n]);
      assert ps == ps[..n] + [ps[n]];
    }
  }

  // ---------- The catalogue over any number of calls ----------

  /** One Setup call of some application: its tree and how many of its calls to the master succeeded. */
  datatype SetupCall = SetupCall(app: int, groups: seq<Group>, answered: nat)

  function Visited(call: SetupCall): seq<Path> {
    if call.answered < |Flatten(call.groups)| then Flatten(call.groups)[..call.answered] else Flatten(call.groups)
  }

  /** The tables after a sequence of Setup calls, of any applications, on the empty catalogue. */
  function TablesAfter(calls: seq<SetupCall>): Tables {
    if calls == [] then Tables([], [], []) else
      var call := calls[|calls| - 1];
      VisitAll(Walk(TablesAfter(calls[..|calls| - 1]), 0, 0, 0), call.app, Visited(call)).t
  }

  ghost predicate DeclaredBy(calls: seq<SetupCall>, app: int, p: Path) {
    exists call | call in calls :: call.app == app && p in Visited(call)
  }

  lemma VisitedIsScoped(call: SetupCall)
    ensures Scoped(Visited(call))
  {
    FlattenIsScoped(call.groups);
    if call.answered < |Flatten(call.groups)| {
      PrefixIsScoped(Flatten(call.groups), call.answered);
    }
  }

  lemma DeclaredByLast(calls: seq<SetupCall>, app: int, p: Path)
    requires calls != []
    ensures var n := |calls| - 1;
            DeclaredBy(calls, app, p) <==>
              DeclaredBy(calls[..n], app, p) || (calls[n].app == app && p in Visited(calls[n]))
  {
    assert calls == calls[..|calls| - 1] + [calls[|calls| - 1]];
  }

  lemma {:induction false} CatalogueHoldsDeclared(calls: seq<SetupCall>, app: int, p: Path)
    ensures NoTwins(TablesAfter(calls)) && Resolved(TablesAfter(calls))
    ensures HasPath(TablesAfter(calls), app, p) <==> DeclaredBy(calls, app, p)
  {
    if calls != [] {
      var n := |calls| - 1;
      CatalogueHoldsDeclared(calls[..n], app, p);
      VisitedIsScoped(calls[n]);
      WalkIsExact(Walk(TablesAfter(calls[..n]), 0, 0, 0), calls[n].app, Visited(calls[n]), app, p);
      DeclaredByLast(calls, app, p);
    }
  }

  predicate SameTable(p: Path, q: Path) {
    p.GroupPath? == q.GroupPath? && p.GraphPath? == q.GraphPath?
  }

  /** In tables without twins a path has one row, and a row has one application and one path. */
  lemma RowsAndPathsMatch(t: Tables, i: nat, j: nat, app: int, other: int, p: Path, q: Path)
    requires NoTwins(t) && Resolved(t)
    ensures IsRowOf(t, i, app, p) && IsRowOf(t, j, app, p) ==> i == j
    ensures (IsRowOf(t, i, app, p) && IsRowOf(t, i, other, q) && SameTable(p, q)) ==> app == other && p == q
  {
  }

  /** Every row has a path, because every parent resolves. */
  function PathOfGroup(t: Tables, i: nat): (int, Path)
    requires i < |t.groups|
  {
    (t.groups[i].app, GroupPath(t.groups[i].name))
  }

  function PathOfGraph(t: Tables, i: nat): (int, Path)
    requires Resolved(t) && i < |t.graphs|
  {
    var (app, p) := PathOfGroup(t, t.graphs[i].group);
    (app, GraphPath(p.group, t.graphs[i].title, t.graphs[i].dim))
  }

  function PathOfMetric(t: Tables, i: nat): (int, Path)
    requires Resolved(t) && i < |t.metrics|
  {
    var (app, p) := PathOfGraph(t, t.metrics[i].graph);
    (app, MetricPath(p.group, p.graph, p.dim, t.metrics[i].title, t.metrics[i].mtype))
  }

  /**
   After any sequence of Setup calls, complete or cut short, of any applications,
   every parent resolves, every metric row has a declared path of its application,
   and every declared path of an application has exactly one row.
   */
  lemma CatalogueIsExact(calls: seq<SetupCall>, i: nat, app: int, p: Path)
    ensures Resolved(TablesAfter(calls))
    ensures i < |TablesAfter(calls).groups| ==>
              var (a, q) := PathOfGroup(TablesAfter(calls), i);
              IsRowOf(TablesAfter(calls), i, a, q) && DeclaredBy(calls, a, q)
    ensures i < |TablesAfter(calls).graphs| ==>
              var (a, q) := PathOfGraph(TablesAfter(calls), i);
              IsRowOf(TablesAfter(calls), i, a, q) && DeclaredBy(calls, a, q)
    ensures i < |TablesAfter(calls).metrics| ==>
              var (a, q) := PathOfMetric(TablesAfter(calls), i);
              IsRowOf(TablesAfter(calls), i, a, q) && DeclaredBy(calls, a, q)
    ensures DeclaredBy(calls, app, p) ==>
              exists k: nat :: IsRowOf(TablesAfter(calls), k, app, p)
                               && forall l: nat | IsRowOf(TablesAfter(calls), l, app, p) :: l == k
  {
    var t := TablesAfter(calls);
    CatalogueHoldsDeclared(calls, app, p);
    if i < |t.groups| {
      CatalogueHoldsDeclared(calls, PathOfGroup(t, i).0, PathOfGroup(t, i).1);
      assert IsRowOf(t, i, PathOfGroup(t, i).0, PathOfGroup(t, i).1);
    }
    if i < |t.graphs| {
      CatalogueHoldsDeclared(calls, PathOfGraph(t, i).0, PathOfGraph(t, i).1);
      assert IsRowOf(t, i, PathOfGraph(t, i).0, PathOfGraph(t, i).1);
    }
    if i < |t.metrics| {
      CatalogueHoldsDeclared(calls, PathOfMetric(t, i).0, PathOfMetric(t, i).1);
      assert IsRowOf(t, i, PathOfMetric(t, i).0, PathOfMetric(t, i).1);
    }
    if DeclaredBy(calls, app, p) {
      var k: nat :| IsRowOf(t, k, app, p);
      forall l: nat | IsRowOf(t, l, app, p) ensures l == k {
        RowsAndPathsMatch(t, k, l, app, app, p, p);
      }
    }
  }

  ghost predicate AllThere(t: Tables, app: int, ps: seq<Path>) {
    forall p | p in ps :: HasPath(t, app, p)
  }

  lemma AllButLastThere(t: Tables, app: int, ps: seq<Path>)
    requires AllThere(t, app, ps) && ps != []
    ensures AllThere(t, app, ps[..|ps| - 1]) && HasPath(t, app, ps[|ps| - 1])
  {
    forall p | p in ps[..|ps| - 1] ensures HasPath(t, app, p) {
      assert p in ps;
    }
  }

  /** A second walk over paths that all have rows changes no table. */
  lemma {:induction false} RepeatedWalk(w: Walk, app: int, ps: seq<Path>)
    requires NoTwins(w.t) && Resolved(w.t) && Scoped(ps)
    requires AllThere(w.t, app, ps)
    ensures VisitAll(w, app, ps).t == w.t && WalkOk(VisitAll(w, app, ps), app, ps)
  {
    if ps != [] {
      var n := |ps| - 1;
      AllButLastThere(w.t, app, ps);
      RepeatedWalk(w, app, ps[..n]);
      RevisitChangesNothing(VisitAll(w, app, ps[..n]), app, ps[..n], ps[n]);
      assert ps == ps[..n] + [ps[n]];
    }
  }

  lemma RevisitChangesNothing(w: Walk, app: int, ps: seq<Path>, p: Path)
    requires WalkOk(w, app, ps) && InScope(ps, p) && HasPath(w.t, app, p)
    ensures Visit(w, app, p).t == w.t && WalkOk(Visit(w, app, p), app, ps + [p])
  {
    VisitKeepsWalkOk(w, app, ps, p);
    var i: nat :| IsRowOf(w.t, i, app, p);
    if !p.GroupPath? {
      assert HasGroup(w.t, w.group, app, p.group);
    }
  }

  /**
   Two successive requests for one group get the same row if and only if the
   requested application is the current job's; otherwise each request adds a twin.
   */
  lemma GroupIsFoundAgainIff(groups: seq<GroupRow>, jobApp: int, reqApp: int, name: string)
    ensures var first := LookUpGroup(groups, jobApp, reqApp, name);
            var second := LookUpGroup(first.0, jobApp, reqApp, name);
            && (second.1 == first.1 <==> reqApp == jobApp)
            && (reqApp == jobApp ==> second.0 == first.0)
            && (reqApp != jobApp ==> !Distinct(second.0))
  {
    if reqApp != jobApp {
      var once := groups + [GroupRow(name, jobApp)];
      var twice := once + [GroupRow(name, jobApp)];
      assert twice[|groups|] == twice[|groups| + 1];
    } else {
      var first := FindOrCreate(groups, GroupRow(name, jobApp));
      SameIndex(groups, GroupRow(name, jobApp));
    }
  }

  // ---------- A Setup for any application ----------

  /** A visit when the application requested is not necessarily that of the current job. */
  function VisitFor(w: Walk, jobApp: int, reqApp: int, p: Path): Walk {
    match p
    case GroupPath(name) =>
      var (rows, id) := LookUpGroup(w.t.groups, jobApp, reqApp, name);
      w.(t := w.t.(groups := rows), group := id)
    case _ => Visit(w, jobApp, p)
  }

  function VisitAllFor(w: Walk, jobApp: int, reqApp: int, ps: seq<Path>): Walk {
    if ps == [] then w
    else VisitFor(VisitAllFor(w, jobApp, reqApp, ps[..|ps| - 1]), jobApp, reqApp, ps[|ps| - 1])
  }

  /** The group rows that the group paths of a walk stand for, one each. */
  function GroupRows(ps: seq<Path>, jobApp: int): seq<GroupRow> {
    if ps == [] then []
    else
      GroupRows(ps[..|ps| - 1], jobApp)
        + if ps[|ps| - 1].GroupPath? then [GroupRow(ps[|ps| - 1].group, jobApp)] else []
  }

  /** For the job's own application this is the walk of Setup. */
  lemma {:induction false} OwnWalk(w: Walk, app: int, ps: seq<Path>)
    ensures VisitAllFor(w, app, app, ps) == VisitAll(w, app, ps)
  {
    if ps != [] {
      OwnWalk(w, app, ps[..|ps| - 1]);
    }
  }

  /** For another one every group path adds its row, and only groups can get twins. */
  lemma {:induction false} ForeignWalk(w: Walk, jobApp: int, reqApp: int, ps: seq<Path>)
    requires reqApp != jobApp && NoTwins(w.t)
    ensures var t := VisitAllFor(w, jobApp, reqApp, ps).t;
            t.groups == w.t.groups + GroupRows(ps, jobApp) && Distinct(t.graphs) && Distinct(t.metrics)
  {
    if ps != [] {
      ForeignWalk(w, jobApp, reqApp, ps[..|ps| - 1]);
    }
  }

  /** The group paths name rows that are new and differ from each other. */
  predicate NamesAreNew(t: Tables, jobApp: int, ps: seq<Path>) {
    && Distinct(GroupRows(ps, jobApp))
    && forall row | row in GroupRows(ps, jobApp) :: row !in t.groups
  }

  lemma DistinctConcat<T>(a: seq<T>, b: seq<T>)
    requires Distinct(a)
    ensures Distinct(a + b) <==> Distinct(b) && forall x | x in b :: x !in a
  {
    if Distinct(a + b) {
      PartsAreDistinct(a, b);
    } else {
      var i, j :| 0 <= i < j < |a + b| && (a + b)[i] == (a + b)[j];
      assert j >= |a| && (a + b)[j] == b[j - |a|];
      assert if i < |a| then (a + b)[i] in a else (a + b)[i] == b[i - |a|];
    }
  }

  lemma PartsAreDistinct<T>(a: seq<T>, b: seq<T>)
    requires Distinct(a + b)
    ensures Distinct(b) && forall x | x in b :: x !in a
  {
    assert forall i | 0 <= i < |b| :: (a + b)[|a| + i] == b[i];
    forall x | x in b ensures x !in a {
      var j :| 0 <= j < |b| && b[j] == x;
      assert (a + b)[|a| + j] == x;
      forall i | 0 <= i < |a| ensures a[i] != x {
        assert (a + b)[i] == a[i];
      }
    }
  }

  /**
   A whole Setup leaves a catalogue without twins if and only if it is for the
   current job's application, or all its groups are new and differently named.
   */
  lemma SetupHasNoTwinsIff(t: Tables, jobApp: int, reqApp: int, groups: seq<Group>)
    requires NoTwins(t) && Resolved(t)
    ensures NoTwins(VisitAllFor(Walk(t, 0, 0, 0), jobApp, reqApp, Flatten(groups)).t) <==>
            reqApp == jobApp || NamesAreNew(t, jobApp, Flatten(groups))
  {
    var w, ps := Walk(t, 0, 0, 0), Flatten(groups);
    if reqApp == jobApp {
      OwnWalk(w, jobApp, ps);
      FlattenIsScoped(groups);
      WalkIsExact(w, jobApp, ps, jobApp, GroupPath(""));
    } else {
      ForeignWalk(w, jobApp, reqApp, ps);
      DistinctConcat(t.groups, GroupRows(ps, jobApp));
    }
  }

  lemma FirstGroupRow(groups: seq<Group>, jobApp: int)
    requires groups != []
    ensures GroupRow(groups[|groups| - 1].name, jobApp) in GroupRows(Flatten(groups), jobApp)
  {
    FlattenIsTree(groups, GroupPath(groups[|groups| - 1].name));
    RowOfPath(Flatten(groups), jobApp, groups[|groups| - 1].name);
  }

  lemma {:induction false} RowOfPath(ps: seq<Path>, jobApp: int, name: string)
    requires GroupPath(name) in ps
    ensures GroupRow(name, jobApp) in GroupRows(ps, jobApp)
  {
    var n := |ps| - 1;
    assert ps == ps[..n] + [ps[n]];
    if ps[n] != GroupPath(name) {
      RowOfPath(ps[..n], jobApp, name);
    }
  }

  /**
   Of a tree with at least one group, a second Setup leaves no twins if and only if
   it is for the job's own application.
   */
  lemma RepeatedSetupHasNoTwinsIff(t: Tables, jobApp: int, reqApp: int, groups: seq<Group>)
    requires NoTwins(t) && Resolved(t) && groups != []
    ensures var once := VisitAllFor(Walk(t, 0, 0, 0), jobApp, reqApp, Flatten(groups)).t;
            NoTwins(VisitAllFor(Walk(once, 0, 0, 0), jobApp, reqApp, Flatten(groups)).t) <==> reqApp == jobApp
  {
    var w, ps := Walk(t, 0, 0, 0), Flatten(groups);
    if reqApp == jobApp {
      OwnWalk(w, jobApp, ps);
      FlattenIsScoped(groups);
      WalkIsExact(w, jobApp, ps, jobApp, GroupPath(""));
      SetupHasNoTwinsIff(VisitAll(w, jobApp, ps).t, jobApp, reqApp, groups);
    } else {
      ForeignWalk(w, jobApp, reqApp, ps);
      FirstGroupRow(groups, jobApp);
      TwiceIsTwin(t.groups, GroupRows(ps, jobApp), GroupRow(groups[|groups| - 1].name, jobApp));
      SecondForeignWalk(VisitAllFor(w, jobApp, reqApp, ps), jobApp, reqApp, ps);
    }
  }

  lemma {:induction false} SecondForeignWalk(w: Walk, jobApp: int, reqApp: int, ps: seq<Path>)
    requires reqApp != jobApp
    ensures forall v: Walk | v.t == w.t ::
              VisitAllFor(v, jobApp, reqApp, ps).t.groups == w.t.groups + GroupRows(ps, jobApp)
  {
    if ps != [] {
      SecondForeignWalk(w, jobApp, reqApp, ps[..|ps| - 1]);
    }
  }

  lemma TwiceIsTwin<T>(a: seq<T>, b: seq<T>, x: T)
    requires x in b
    ensures !Distinct(a + b + b)
  {
    var j :| 0 <= j < |b| && b[j] == x;
    assert (a + b + b)[|a| + j] == (a + b + b)[|a| + |b| + j];
  }

  lemma {:induction false} SameIndex<T>(s: seq<T>, x: T)
    ensures IndexOf(FindOrCreate(s, x).0, x) == FindOrCreate(s, x).1
  {
    if s != [] && s[0] != x {
      SameIndex(s[1..], x);
      assert x !in s ==> (s + [x])[1..] == s[1..] + [x];
    }
  }
}
