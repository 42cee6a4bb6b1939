/**
 The mutation objects behind the update builders.  An edge mutation collects ids
 to add and to remove and a cleared flag; `sqlSave` compiles the mutation of a
 Metric into an update spec, and the meaning of that spec is what matters.
 */
module Mutation {
  import opened Int64
  import opened Wrappers

  // ---------- One edge ----------

  datatype EdgeOp = Add(ids: seq<int>) | Remove(ids: seq<int>) | Clear | Reset

  /** The fields of one O2M edge; None is the nil map, which the code keeps apart from an empty one. */
  datatype EdgeState = EdgeState(added: Option<set<int>>, removed: Option<set<int>>, cleared: bool)

  const NOTHING := EdgeState(None, None, false)

  function SetOf(ids: seq<int>): set<int> {
    set id | id in ids
  }

  function Members(ids: Option<set<int>>): set<int> {
    if ids.Some? then ids.value else {}
  }

  function ApplyOp(s: EdgeState, op: EdgeOp): EdgeState {
    match op
    case Add(ids) => s.(added := Some(Members(s.added) + SetOf(ids)))
    case Remove(ids) => s.(removed := Some(Members(s.removed) + SetOf(ids)))
    case Clear => s.(cleared := true)
    case Reset => NOTHING
  }

  function ApplyOps(ops: seq<EdgeOp>): EdgeState {
    if ops == [] then NOTHING else ApplyOp(ApplyOps(ops[..|ops| - 1]), ops[|ops| - 1])
  }

  class EdgeMutation {
    var added: Option<set<int>>
    var removed: Option<set<int>>
    var cleared: bool
    ghost var ops: seq<EdgeOp>    // every call so far

    ghost function State(): EdgeState
      reads this
    {
      EdgeState(added, removed, cleared)
    }

    ghost predicate Valid()
      reads this
    {
      State() == ApplyOps(ops)
    }

    constructor ()
      ensures Valid() && ops == []
    {
      added, removed, cleared, ops := None, None, false, [];
    }

    ghost method Record(op: EdgeOp)
      requires State() == ApplyOp(ApplyOps(ops), op)
      modifies `ops
      ensures Valid() && ops == old(ops) + [op]
    {
      assert (ops + [op])[..|ops|] == ops;
      ops := ops + [op];
    }

    method AddIDs(ids: seq<int>)
      requires Valid()
      modifies this
      ensures Valid() && ops == old(ops) + [Add(ids)]
    {
      if added.None? {
        added := Some({});
      }
      for i := 0 to |ids|
        invariant added.Some? && added.value == Members(old(added)) + SetOf(ids[..i])
        invariant removed == old(removed) && cleared == old(cleared) && ops == old(ops)
      {
        added := Some(added.value + {ids[i]});
        assert ids[..i + 1] == ids[..i] + [ids[i]];
      }
      assert ids[..|ids|] == ids;
      Record(Add(ids));
    }

    method RemoveIDs(ids: seq<int>)
      requires Valid()
      modifies this
      ensures Valid() && ops == old(ops) + [Remove(ids)]
    {
      if removed.None? {
        removed := Some({});
      }
      for i := 0 to |ids|
        invariant removed.Some? && removed.value == Members(old(removed)) + SetOf(ids[..i])
        invariant added == old(added) && cleared == old(cleared) && ops == old(ops)
      {
        removed := Some(removed.value + {ids[i]});
        assert ids[..i + 1] == ids[..i] + [ids[i]];
      }
      assert ids[..|ids|] == ids;
      Record(Remove(ids));
    }

    method ClearEdge()
      requires Valid()
      modifies this
      ensures Valid() && ops == old(ops) + [Clear]
    {
      cleared := true;
      Record(Clear);
    }

    method ResetEdge()
      requires Valid()
      modifies this
      ensures Valid() && ops == old(ops) + [Reset]
    {
      added, cleared, removed := None, false, None;
      Record(Reset);
    }
  }

  // ---------- What a list of calls leaves ----------

  /** The calls after the last Reset. */
  function SinceReset(ops: seq<EdgeOp>): seq<EdgeOp> {
    if ops == [] then []
    else if ops[|ops| - 1].Reset? then []
    else SinceReset(ops[..|ops| - 1]) + [ops[|ops| - 1]]
  }

  ghost predicate AddedIn(ops: seq<EdgeOp>, id: int) {
    exists op | op in ops :: op.Add? && id in op.ids
  }

  ghost predicate RemovedIn(ops: seq<EdgeOp>, id: int) {
    exists op | op in ops :: op.Remove? && id in op.ids
  }

  /** An edge remembers which calls were made since the last Reset, and nothing of their order. */
  lemma {:induction false} EdgeRemembers(ops: seq<EdgeOp>, id: int)
    ensures var s, since := ApplyOps(ops), SinceReset(ops);
            && (id in Members(s.added) <==> AddedIn(since, id))
            && (id in Members(s.removed) <==> RemovedIn(since, id))
            && (s.cleared <==> Clear in since)
            && (s.added.Some? <==> exists op | op in since :: op.Add?)
            && (s.removed.Some? <==> exists op | op in since :: op.Remove?)
  {
    if ops != [] && !ops[|ops| - 1].Reset? {
      EdgeRemembers(ops[..|ops| - 1], id);
    }
  }

  ghost predicate SameCalls(ops: seq<EdgeOp>, others: seq<EdgeOp>) {
    forall op :: op in ops <==> op in others
  }

  lemma SameCallsRemembered(ops: seq<EdgeOp>, others: seq<EdgeOp>, id: int)
    requires SameCalls(SinceReset(ops), SinceReset(others))
    ensures var s, t := ApplyOps(ops), ApplyOps(others);
            && (id in Members(s.added) <==> id in Members(t.added))
            && (id in Members(s.removed) <==> id in Members(t.removed))
            && s.cleared == t.cleared && s.added.Some? == t.added.Some? && s.removed.Some? == t.removed.Some?
  {
    EdgeRemembers(ops, id);
    EdgeRemembers(others, id);
  }

  /**
   Two lists of calls with the same calls since their last Resets, in whatever
   order and however often repeated, leave the same edge.
   */
  lemma OrderIsForgotten(ops: seq<EdgeOp>, others: seq<EdgeOp>)
    requires SameCalls(SinceReset(ops), SinceReset(others))
    ensures ApplyOps(ops) == ApplyOps(others)
  {
    var s, t := ApplyOps(ops), ApplyOps(others);
    SameCallsRemembered(ops, others, 0);
    forall id ensures (id in Members(s.added) <==> id in Members(t.added))
                      && (id in Members(s.removed) <==> id in Members(t.removed)) {
      SameCallsRemembered(ops, others, id);
    }
    assert Members(s.added) == Members(t.added);
    assert Members(s.removed) == Members(t.removed);
  }

  // ---------- The update spec ----------

  datatype EdgeName = GraphEdge | HistogramsEdge | CountersEdge | GaugesEdge

  /** An edge of a spec; in the Clear list an edge without target nodes clears everything. */
  datatype EdgeSpec = EdgeSpec(edge: EdgeName, nodes: seq<int>)

  datatype UpdateSpec = UpdateSpec(setType: seq<string>, clear: seq<EdgeSpec>, add: seq<EdgeSpec>)

  /** The set of neighbours on edge e after the Clear list has been carried out. */
  function Cleared(clear: seq<EdgeSpec>, e: EdgeName, before: set<int>): set<int> {
    if clear == [] then before
    else
      var rest := Cleared(clear[..|clear| - 1], e, before);
      var last := clear[|clear| - 1];
      if last.edge != e then rest else if last.nodes == [] then {} else rest - SetOf(last.nodes)
  }

  function Added(add: seq<EdgeSpec>, e: EdgeName, before: set<int>): set<int> {
    if add == [] then before
    else
      var rest := Added(add[..|add| - 1], e, before);
      var last := add[|add| - 1];
      if last.edge != e then rest else rest + SetOf(last.nodes)
  }

  /** What the database does with a spec: all clears first, then all adds. */
  function Carried(spec: UpdateSpec, e: EdgeName, before: set<int>): set<int> {
    Added(spec.add, e, Cleared(spec.clear, e, before))
  }

  /** What the mutation of an edge is for. */
  function Intended(s: EdgeState, before: set<int>): set<int> {
    (if s.cleared then {} else before - Members(s.removed)) + Members(s.added)
  }

  lemma ClearedSnoc(clear: seq<EdgeSpec>, c: EdgeSpec, e: EdgeName, before: set<int>)
    ensures Cleared(clear + [c], e, before) ==
            var rest := Cleared(clear, e, before);
            if c.edge != e then rest else if c.nodes == [] then {} else rest - SetOf(c.nodes)
  {
    assert (clear + [c])[..|clear|] == clear;
  }

  lemma AddedSnoc(add: seq<EdgeSpec>, c: EdgeSpec, e: EdgeName, before: set<int>)
    ensures Added(add + [c], e, before) ==
            var rest := Added(add, e, before); if c.edge != e then rest else rest + SetOf(c.nodes)
  {
    assert (add + [c])[..|add|] == add;
  }

  /** Ranging over a Go map: its keys in some order. */
  method InSomeOrder<T(==)>(ids: set<T>) returns (list: seq<T>)
    ensures |list| == |ids| && forall x :: x in list <==> x in ids
  {
    list := [];
    var rest := ids;
    while rest != {}
      invariant rest <= ids && forall x :: x in list <==> x in ids - rest
      invariant |list| + |rest| == |ids|
      decreases rest
    {
      var id :| id in rest;
      list := list + [id];
      rest := rest - {id};
    }
  }

  // ---------- sqlSave ----------

  predicate Untouched(spec: UpdateSpec, e: EdgeName) {
    && (forall k | 0 <= k < |spec.clear| :: spec.clear[k].edge != e)
    && (forall k | 0 <= k < |spec.add| :: spec.add[k].edge != e)
  }

  lemma {:induction false} UntouchedClear(clear: seq<EdgeSpec>, e: EdgeName, before: set<int>)
    requires forall k | 0 <= k < |clear| :: clear[k].edge != e
    ensures Cleared(clear, e, before) == before
  {
    if clear != [] {
      UntouchedClear(clear[..|clear| - 1], e, before);
    }
  }

  lemma {:induction false} UntouchedAdd(add: seq<EdgeSpec>, e: EdgeName, before: set<int>)
    requires forall k | 0 <= k < |add| :: add[k].edge != e
    ensures Added(add, e, before) == before
  {
    if add != [] {
      UntouchedAdd(add[..|add| - 1], e, before);
    }
  }

  function ClearSpecs(e: EdgeName, s: EdgeState, removed: seq<int>): seq<EdgeSpec> {
    if s.cleared then [EdgeSpec(e, [])] else if removed != [] then [EdgeSpec(e, removed)] else []
  }

  function AddSpecs(e: EdgeName, added: seq<int>): seq<EdgeSpec> {
    if added != [] then [EdgeSpec(e, added)] else []
  }

  /** The spec that gets edge e from state s, with the ids of its maps listed in some order. */
  function Compiled(spec: UpdateSpec, e: EdgeName, s: EdgeState, removed: seq<int>, added: seq<int>): UpdateSpec {
    spec.(clear := spec.clear + ClearSpecs(e, s, removed), add := spec.add + AddSpecs(e, added))
  }

  lemma ClearSpecsMean(clear: seq<EdgeSpec>, e: EdgeName, s: EdgeState, removed: seq<int>,
                       other: EdgeName, before: set<int>)
    requires SetOf(removed) == Members(s.removed)
    ensures Cleared(clear + ClearSpecs(e, s, removed), other, before) ==
            var rest := Cleared(clear, other, before);
            if other != e then rest else if s.cleared then {} else rest - Members(s.removed)
  {
    if ClearSpecs(e, s, removed) == [] {
      assert clear + [] == clear;
    } else {
      ClearedSnoc(clear, ClearSpecs(e, s, removed)[0], other, before);
    }
  }

  lemma AddSpecsMean(add: seq<EdgeSpec>, e: EdgeName, added: seq<int>, other: EdgeName, before: set<int>)
    ensures Added(add + AddSpecs(e, added), other, before) ==
            var rest := Added(add, other, before); if other != e then rest else rest + SetOf(added)
  {
    if added == [] {
      assert add + [] == add;
    } else {
      AddedSnoc(add, EdgeSpec(e, added), other, before);
    }
  }

  /** Compiling an edge has the intended effect on it, in any order of the ids, and none on other edges. */
  lemma CompiledMeansIntended(spec: UpdateSpec, e: EdgeName, s: EdgeState, removed: seq<int>, added: seq<int>,
                              other: EdgeName, before: set<int>)
    requires Untouched(spec, e) && SetOf(removed) == Members(s.removed) && SetOf(added) == Members(s.added)
    ensures Carried(Compiled(spec, e, s, removed, added), e, before) == Intended(s, before)
    ensures other != e ==>
              Carried(Compiled(spec, e, s, removed, added), other, before) == Carried(spec, other, before)
  {
    UntouchedClear(spec.clear, e, before);
    ClearSpecsMean(spec.clear, e, s, removed, e, before);
    ClearSpecsMean(spec.clear, e, s, removed, other, before);
    var after := Cleared(Compiled(spec, e, s, removed, added).clear, e, before);
    UntouchedAdd(spec.add, e, after);
    AddSpecsMean(spec.add, e, added, e, after);
    AddSpecsMean(spec.add, e, added, other, Cleared(spec.clear, other, before));
  }

  /** The graph of a metric after a spec: a cleared edge removes it, an added one replaces it. */
  function GraphAfter(spec: UpdateSpec, before: Option<int>): Option<int> {
    GraphAdded(spec.add, if exists c | c in spec.clear :: c.edge == GraphEdge then None else before)
  }

  function GraphAdded(add: seq<EdgeSpec>, before: Option<int>): Option<int> {
    if add == [] then before
    else
      var last := add[|add| - 1];
      if last.edge == GraphEdge && last.nodes != [] then Some(last.nodes[0])
      else GraphAdded(add[..|add| - 1], before)
  }

  lemma {:induction false} OtherAddsKeepGraph(add: seq<EdgeSpec>, more: seq<EdgeSpec>, before: Option<int>)
    requires forall k | 0 <= k < |more| :: more[k].edge != GraphEdge
    ensures GraphAdded(add + more, before) == GraphAdded(add, before)
  {
    if more == [] {
      assert add + more == add;
    } else {
      assert (add + more)[..|add| + |more| - 1] == add + more[..|more| - 1];
      OtherAddsKeepGraph(add, more[..|more| - 1], before);
    }
  }

  lemma CompiledKeepsGraph(spec: UpdateSpec, e: EdgeName, s: EdgeState, removed: seq<int>, added: seq<int>,
                           before: Option<int>)
    requires e != GraphEdge
    ensures GraphAfter(Compiled(spec, e, s, removed, added), before) == GraphAfter(spec, before)
  {
    OtherAddsKeepGraph(spec.add, AddSpecs(e, added),
                       if exists c | c in spec.clear :: c.edge == GraphEdge then None else before);
  }

  // ---------- The type and the graph of a metric ----------

  datatype MetricOp = SetType(typ: string) | ResetType | SetGraph(id: int) | ClearGraph | ResetGraph

  datatype MetricState = MetricState(typ: Option<string>, graph: Option<int>, clearedgraph: bool)

  function ApplyMetricOp(s: MetricState, op: MetricOp): MetricState {
    match op
    case SetType(typ) => s.(typ := Some(typ))
    case ResetType => s.(typ := None)
    case SetGraph(id) => s.(graph := Some(id))
    case ClearGraph => s.(clearedgraph := true)
    case ResetGraph => s.(graph := None, clearedgraph := false)
  }

  function ApplyMetricOps(ops: seq<MetricOp>): MetricState {
    if ops == [] then MetricState(None, None, false)
    else ApplyMetricOp(ApplyMetricOps(ops[..|ops| - 1]), ops[|ops| - 1])
  }

  /** The last call about the type, at position k, sets it. */
  predicate TypeSetAt(ops: seq<MetricOp>, k: nat) {
    k < |ops| && ops[k].SetType? && forall j | k < j < |ops| :: !ops[j].SetType? && !ops[j].ResetType?
  }

  /** The last call that sets or resets the graph, at position k, sets it. */
  predicate GraphSetAt(ops: seq<MetricOp>, k: nat) {
    k < |ops| && ops[k].SetGraph? && forall j | k < j < |ops| :: !ops[j].SetGraph? && !ops[j].ResetGraph?
  }

  /** The call at position k clears the graph, and no later one resets it. */
  predicate GraphClearedAt(ops: seq<MetricOp>, k: nat) {
    k < |ops| && ops[k].ClearGraph? && forall j | k < j < |ops| :: !ops[j].ResetGraph?
  }

  ghost predicate TypeIs(ops: seq<MetricOp>, typ: string) {
    exists k: nat :: TypeSetAt(ops, k) && ops[k].typ == typ
  }

  ghost predicate GraphIs(ops: seq<MetricOp>, id: int) {
    exists k: nat :: GraphSetAt(ops, k) && ops[k].id == id
  }

  ghost predicate GraphIsCleared(ops: seq<MetricOp>) {
    exists k: nat :: GraphClearedAt(ops, k)
  }

  /** What one more call does to the three positions. */
  lemma OneMoreCall(ops: seq<MetricOp>, op: MetricOp, typ: string, id: int)
    ensures TypeIs(ops + [op], typ) <==>
              if op.SetType? then op.typ == typ else !op.ResetType? && TypeIs(ops, typ)
    ensures GraphIs(ops + [op], id) <==>
              if op.SetGraph? then op.id == id else !op.ResetGraph? && GraphIs(ops, id)
    ensures GraphIsCleared(ops + [op]) <==> op.ClearGraph? || (!op.ResetGraph? && GraphIsCleared(ops))
  {
    TypeAfterCall(ops, op, typ);
    GraphAfterCall(ops, op, id);
    ClearedAfterCall(ops, op);
  }

  lemma TypeAfterCall(ops: seq<MetricOp>, op: MetricOp, typ: string)
    ensures TypeIs(ops + [op], typ) <==>
              if op.SetType? then op.typ == typ else !op.ResetType? && TypeIs(ops, typ)
  {
    var n := |ops|;
    if op.SetType? {
      assert TypeSetAt(ops + [op], n);
    }
    if k: nat :| TypeSetAt(ops, k) && ops[k].typ == typ && !op.SetType? && !op.ResetType? {
      assert TypeSetAt(ops + [op], k);
    }
    if k: nat :| TypeSetAt(ops + [op], k) && (ops + [op])[k].typ == typ && k < n {
      assert (ops + [op])[n] == op;
      assert forall j | k < j < n :: (ops + [op])[j] == ops[j];
      assert TypeSetAt(ops, k);
    }
  }

  lemma GraphAfterCall(ops: seq<MetricOp>, op: MetricOp, id: int)
    ensures GraphIs(ops + [op], id) <==>
              if op.SetGraph? then op.id == id else !op.ResetGraph? && GraphIs(ops, id)
  {
    var n := |ops|;
    if op.SetGraph? {
      assert GraphSetAt(ops + [op], n);
    }
    if k: nat :| GraphSetAt(ops, k) && ops[k].id == id && !op.SetGraph? && !op.ResetGraph? {
      assert GraphSetAt(ops + [op], k);
    }
    if k: nat :| GraphSetAt(ops + [op], k) && (ops + [op])[k].id == id && k < n {
      assert (ops + [op])[n] == op;
      assert forall j | k < j < n :: (ops + [op])[j] == ops[j];
      assert GraphSetAt(ops, k);
    }
  }

  lemma ClearedAfterCall(ops: seq<MetricOp>, op: MetricOp)
    ensures GraphIsCleared(ops + [op]) <==> op.ClearGraph? || (!op.ResetGraph? && GraphIsCleared(ops))
  {
    var n := |ops|;
    if op.ClearGraph? {
      assert GraphClearedAt(ops + [op], n);
    }
    if k: nat :| GraphClearedAt(ops, k) && !op.ResetGraph? {
      assert GraphClearedAt(ops + [op], k);
    }
    if k: nat :| GraphClearedAt(ops + [op], k) && k < n {
      assert (ops + [op])[n] == op;
      assert forall j | k < j < n :: (ops + [op])[j] == ops[j];
      assert GraphClearedAt(ops, k);
    }
  }

  /**
   The type and the graph are what was set last since their last Reset, and the
   graph is cleared exactly if it was cleared since its last Reset, set since or not.
   */
  lemma {:induction false} MetricRemembers(ops: seq<MetricOp>, typ: string, id: int)
    ensures var s := ApplyMetricOps(ops);
            && (s.typ == Some(typ) <==> TypeIs(ops, typ))
            && (s.graph == Some(id) <==> GraphIs(ops, id))
            && (s.clearedgraph <==> GraphIsCleared(ops))
  {
    if ops != [] {
      var n := |ops| - 1;
      MetricRemembers(ops[..n], typ, id);
      OneMoreCall(ops[..n], ops[n], typ, id);
      assert ops == ops[..n] + [ops[n]];
    }
  }

  /** What saving makes of the graph of a metric: one that was set wins over a cleared one. */
  function GraphIntended(s: MetricState, before: Option<int>): Option<int> {
    if s.graph.Some? then s.graph else if s.clearedgraph then None else before
  }

  /**
   After saving, a metric has graph id if and only if that was set last since the
   last Reset, or none was set, it was not cleared and it had this graph before.
   */
  lemma SavedGraph(ops: seq<MetricOp>, before: Option<int>, id: int)
    ensures GraphIntended(ApplyMetricOps(ops), before) == Some(id) <==>
              || GraphIs(ops, id)
              || (before == Some(id) && !GraphIsCleared(ops) && forall other :: !GraphIs(ops, other))
  {
    forall other ensures ApplyMetricOps(ops).graph == Some(other) <==> GraphIs(ops, other) {
      MetricRemembers(ops, "", other);
    }
    MetricRemembers(ops, "", id);
    var g := ApplyMetricOps(ops).graph;
    if g.Some? {
      assert GraphIs(ops, g.value);
    }
  }

  /** The fields of a MetricMutation that an update can set, and its four edges. */
  class MetricMutation {
    var typ: Option<string>
    var graph: Option<int>
    var clearedgraph: bool
    const histograms: EdgeMutation
    const counters: EdgeMutation
    const gauges: EdgeMutation
    ghost var ops: seq<MetricOp>    // every call about the type and the graph so far

    ghost function State(): MetricState
      reads this
    {
      MetricState(typ, graph, clearedgraph)
    }

    ghost predicate Valid()
      reads this
    {
      State() == ApplyMetricOps(ops)
    }

    constructor ()
      ensures Valid() && ops == []
      ensures fresh(histograms) && fresh(counters) && fresh(gauges)
      ensures histograms.Valid() && counters.Valid() && gauges.Valid()
      ensures histograms.ops == counters.ops == gauges.ops == []
      ensures histograms != counters && counters != gauges && histograms != gauges
    {
      typ, graph, clearedgraph, ops := None, None, false, [];
      histograms := new EdgeMutation();
      counters := new EdgeMutation();
      gauges := new EdgeMutation();
    }

    ghost method Record(op: MetricOp)
      requires State() == ApplyMetricOp(ApplyMetricOps(ops), op)
      modifies `ops
      ensures Valid() && ops == old(ops) + [op]
    {
      assert (ops + [op])[..|ops|] == ops;
      ops := ops + [op];
    }

    method SetType(s: string)
      requires Valid()
      modifies this
      ensures Valid() && ops == old(ops) + [MetricOp.SetType(s)]
    {
      typ := Some(s);
      Record(MetricOp.SetType(s));
    }

    method ResetType()
      requires Valid()
      modifies this
      ensures Valid() && ops == old(ops) + [MetricOp.ResetType]
    {
      typ := None;
      Record(MetricOp.ResetType);
    }

    method SetGraphID(id: int)
      requires Valid()
      modifies this
      ensures Valid() && ops == old(ops) + [SetGraph(id)]
    {
      graph := Some(id);
      Record(SetGraph(id));
    }

    method ClearGraph()
      requires Valid()
      modifies this
      ensures Valid() && ops == old(ops) + [MetricOp.ClearGraph]
    {
      clearedgraph := true;
      Record(MetricOp.ClearGraph);
    }

    method ResetGraph()
      requires Valid()
      modifies this
      ensures Valid() && ops == old(ops) + [MetricOp.ResetGraph]
    {
      graph, clearedgraph := None, false;
      Record(MetricOp.ResetGraph);
    }
  }

  /** The three ifs of sqlSave about one edge. */
  method CompileEdge(m: EdgeMutation, e: EdgeName, spec: UpdateSpec) returns (spec': UpdateSpec)
    requires Untouched(spec, e)
    ensures forall before :: Carried(spec', e, before) == Intended(m.State(), before)
    ensures forall other, before | other != e :: Carried(spec', other, before) == Carried(spec, other, before)
    ensures forall other | other != e && Untouched(spec, other) :: Untouched(spec', other)
    ensures e != GraphEdge ==> forall before :: GraphAfter(spec', before) == GraphAfter(spec, before)
    ensures EdgeSpec(e, []) in spec'.clear <==> m.cleared
    ensures spec'.setType == spec.setType
  {
    spec' := spec;
    ghost var s := m.State();
    if m.cleared {
      spec' := spec'.(clear := spec'.clear + [EdgeSpec(e, [])]);
    }
    var removed := InSomeOrder(Members(m.removed));
    if |removed| > 0 && !m.cleared {
      spec' := spec'.(clear := spec'.clear + [EdgeSpec(e, removed)]);
    }
    var added := InSomeOrder(Members(m.added));
    if |added| > 0 {
      spec' := spec'.(add := spec'.add + [EdgeSpec(e, added)]);
    }
    assert spec.clear + [] == spec.clear && spec.add + [] == spec.add;
    assert spec' == Compiled(spec, e, s, removed, added);
    assert SetOf(removed) == Members(s.removed) && SetOf(added) == Members(s.added);
    forall other, before
      ensures Carried(spec', e, before) == Intended(s, before)
      ensures other != e ==> Carried(spec', other, before) == Carried(spec, other, before)
    {
      CompiledMeansIntended(spec, e, s, removed, added, other, before);
    }
    if e != GraphEdge {
      forall before ensures GraphAfter(spec', before) == GraphAfter(spec, before) {
        CompiledKeepsGraph(spec, e, s, removed, added, before);
      }
    }
  }

  /** The part of sqlSave about the type and the graph. */
  method CompileGraph(m: MetricMutation) returns (spec: UpdateSpec)
    ensures spec.setType == if m.typ.Some? then [m.typ.value] else []
    ensures forall before :: GraphAfter(spec, before) == GraphIntended(m.State(), before)
    ensures forall e | e != GraphEdge :: Untouched(spec, e)
  {
    spec := UpdateSpec([], [], []);
    if m.typ.Some? {
      spec := spec.(setType := [m.typ.value]);
    }
    if m.clearedgraph {
      spec := spec.(clear := spec.clear + [EdgeSpec(GraphEdge, [])]);
      assert spec.clear[0].edge == GraphEdge;
    }
    if m.graph.Some? {
      spec := spec.(add := spec.add + [EdgeSpec(GraphEdge, [m.graph.value])]);
    }
  }

  /**
   sqlSave: carried out clears first, the spec sets the type if one was set, gives
   the metric the graph that was set or takes away one that was cleared, and does
   to each of the three sets of neighbours what its mutation intends.
   */
  method SqlSave(m: MetricMutation) returns (spec: UpdateSpec)
    ensures spec.setType == if m.typ.Some? then [m.typ.value] else []
    ensures forall before :: GraphAfter(spec, before) == GraphIntended(m.State(), before)
    ensures forall before :: Carried(spec, HistogramsEdge, before) == Intended(m.histograms.State(), before)
    ensures forall before :: Carried(spec, CountersEdge, before) == Intended(m.counters.State(), before)
    ensures forall before :: Carried(spec, GaugesEdge, before) == Intended(m.gauges.State(), before)
  {
    spec := CompileGraph(m);
    spec := CompileEdge(m.histograms, HistogramsEdge, spec);
    spec := CompileEdge(m.counters, CountersEdge, spec);
    spec := CompileEdge(m.gauges, GaugesEdge, spec);
  }

  /**
   What a list of calls on an edge, saved, does to a set of neighbours: an id is in
   it afterwards if and only if it was added since the last Reset, or it was there
   and since the last Reset neither it was removed nor the edge cleared.
   */
  lemma SavedEdge(ops: seq<EdgeOp>, before: set<int>, id: int)
    ensures id in Intended(ApplyOps(ops), before) <==>
              || AddedIn(SinceReset(ops), id)
              || (id in before && Clear !in SinceReset(ops) && !RemovedIn(SinceReset(ops), id))
  {
    EdgeRemembers(ops, id);
  }

  // ---------- Numeric fields ----------

  datatype NumOp = SetTo(v: int64) | AddBy(v: int64) | ResetField

  datatype NumState = NumState(value: Option<int64>, add: Option<int64>)

  function ApplyNum(s: NumState, op: NumOp): NumState {
    match op
    case SetTo(v) => NumState(Some(v), None)
    case AddBy(v) => s.(add := Some(if s.add.Some? then Wrap(s.add.value + v) else v))
    case ResetField => NumState(None, None)
  }

  function ApplyNums(ops: seq<NumOp>): NumState {
    if ops == [] then NumState(None, None) else ApplyNum(ApplyNums(ops[..|ops| - 1]), ops[|ops| - 1])
  }

  /** A numeric field of a mutation, such as count and addcount. */
  class NumericField {
    var value: Option<int64>
    var add: Option<int64>
    ghost var ops: seq<NumOp>

    ghost predicate Valid()
      reads this
    {
      NumState(value, add) == ApplyNums(ops)
    }

    constructor ()
      ensures Valid() && ops == []
    {
      value, add, ops := None, None, [];
    }

    method Set(v: int64)
      requires Valid()
      modifies this
      ensures Valid() && ops == old(ops) + [SetTo(v)]
    {
      value, add := Some(v), None;
      assert (ops + [SetTo(v)])[..|ops|] == ops;
      ops := ops + [SetTo(v)];
    }

    method Add(v: int64)
      requires Valid()
      modifies this
      ensures Valid() && ops == old(ops) + [AddBy(v)]
    {
      add := if add.Some? then Some(Wrap(add.value + v)) else Some(v);
      assert (ops + [AddBy(v)])[..|ops|] == ops;
      ops := ops + [AddBy(v)];
    }

    method ResetAll()
      requires Valid()
      modifies this
      ensures Valid() && ops == old(ops) + [ResetField]
    {
      value, add := None, None;
      assert (ops + [ResetField])[..|ops|] == ops;
      ops := ops + [ResetField];
    }
  }

  /** Position k holds the last Set or Reset: only Adds follow it. */
  predicate OnlyAddsAfter(ops: seq<NumOp>, k: int)
    requires -1 <= k < |ops|
  {
    (k == -1 || !ops[k].AddBy?) && forall j | k < j < |ops| :: ops[j].AddBy?
  }

  function SumOfAdds(ops: seq<NumOp>): int {
    if ops == [] then 0
    else SumOfAdds(ops[..|ops| - 1]) + if ops[|ops| - 1].AddBy? then ops[|ops| - 1].v else 0
  }

  lemma SumOfTail(ops: seq<NumOp>, k: int)
    requires -1 <= k && k + 1 < |ops| && ops[|ops| - 1].AddBy?
    ensures SumOfAdds(ops[k + 1..]) == SumOfAdds(ops[..|ops| - 1][k + 1..]) + ops[|ops| - 1].v
  {
    var n := |ops| - 1;
    assert ops[k + 1..][..n - k - 1] == ops[..n][k + 1..];
  }

  /** What AddX does to an add value that stands for `total`, or for nothing. */
  lemma AddOnce(s: NumState, v: int64, total: int)
    requires s.add == None ==> total == 0
    requires s.add.Some? ==> s.add == Some(Wrap(total))
    ensures ApplyNum(s, AddBy(v)).add == Some(Wrap(total + v))
  {
    WrapAdd(total, v);
  }

  /** With the last Set or Reset at position k, the field is set to what the Set at k says, or not set. */
  lemma {:induction false} FieldIsLastSet(ops: seq<NumOp>, k: int)
    requires -1 <= k < |ops| && OnlyAddsAfter(ops, k)
    ensures ApplyNums(ops).value == if k >= 0 && ops[k].SetTo? then Some(ops[k].v) else None
  {
    if k + 1 < |ops| {
      FieldIsLastSet(ops[..|ops| - 1], k);
    }
  }

  /** What the add value must be when the field's calls from position `from` on are Adds. */
  function AddDue(ops: seq<NumOp>, from: nat): Option<int64>
    requires from <= |ops|
  {
    if from == |ops| then None else Some(Wrap(DueTotal(ops, from)))
  }

  function DueTotal(ops: seq<NumOp>, from: nat): int
    requires from <= |ops|
  {
    SumOfAdds(ops[from..])
  }

  /** With the last Set or Reset at position k, it is increased by the sum of the Adds after k, if there are any. */
  lemma {:induction false} FieldAddsSinceSet(ops: seq<NumOp>, k: int)
    requires -1 <= k < |ops| && OnlyAddsAfter(ops, k)
    ensures ApplyNums(ops).add == AddDue(ops, k + 1)
  {
    var n := |ops| - 1;
    if k < n {
      FieldAddsSinceSet(ops[..n], k);
      OneMoreAdd(ops, k);
    }
  }

  lemma OneMoreAdd(ops: seq<NumOp>, k: int)
    requires -1 <= k && k + 1 < |ops| && ops[|ops| - 1].AddBy?
    requires ApplyNums(ops[..|ops| - 1]).add == AddDue(ops[..|ops| - 1], k + 1)
    ensures ApplyNums(ops).add == AddDue(ops, k + 1)
  {
    var n := |ops| - 1;
    var s, due := ApplyNums(ops[..n]), DueTotal(ops[..n], k + 1);
    assert DueTotal(ops, k + 1) == due + ops[n].v by {
      SumOfTail(ops, k);
    }
    assert s.add == None ==> due == 0;
    AddOnce(s, ops[n].v, due);
    assert ApplyNums(ops) == ApplyNum(s, ops[n]);
  }

  /**
   What any list of calls leaves of a numeric field: a position from which on there
   are only Adds, the value of the Set there if it is one, and the sum of these Adds.
   */
  lemma FieldRemembers(ops: seq<NumOp>) returns (k: int)
    ensures -1 <= k < |ops| && OnlyAddsAfter(ops, k)
    ensures ApplyNums(ops).value == if k >= 0 && ops[k].SetTo? then Some(ops[k].v) else None
    ensures ApplyNums(ops).add == AddDue(ops, k + 1)
  {
    k := LastSetOrReset(ops);
    FieldIsLastSet(ops, k);
    FieldAddsSinceSet(ops, k);
  }

  lemma {:induction false} LastSetOrReset(ops: seq<NumOp>) returns (k: int)
    ensures -1 <= k < |ops| && OnlyAddsAfter(ops, k)
  {
    k := |ops| - 1;
    if ops != [] && ops[k].AddBy? {
      var init := ops[..k];
      k := LastSetOrReset(init);
    }
  }
}
