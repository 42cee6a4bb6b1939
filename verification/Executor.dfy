/**
 The executor's own code, over the fields it updates: Setup with its nested
 loops, Notify, and one cue of the periodic report.  Each method is proved to be
 the step, or the run of steps, of the metering machine that it stands for.
 */
module ExecutorCode {
  import opened Int64
  import opened Wrappers
  import opened Catalogue
  import opened Registry
  import Metering

  /**
   Setup has gone from b to b' through the paths ps, or through as many of them
   as the master answered calls; `left` calls are still answered.
   */
  ghost predicate Progress(b: Build, app: int, ps: seq<Path>, answered: nat, ok: bool, b': Build, left: nat) {
    && (ok <==> |ps| <= answered)
    && left == (if ok then answered - |ps| else 0)
    && b' == RegisterAll(b, app, if ok then ps else ps[..answered])
  }

  lemma Further(b: Build, app: int, ps: seq<Path>, qs: seq<Path>, answered: nat,
                b1: Build, left: nat, ok: bool, b2: Build, left': nat)
    requires Progress(b, app, ps, answered, true, b1, left) && Progress(b1, app, qs, left, ok, b2, left')
    ensures Progress(b, app, ps + qs, answered, ok, b2, left')
  {
    if ok {
      RegisterAllConcat(b, app, ps, qs);
    } else {
      RegisterAllConcat(b, app, ps, qs[..left]);
      assert (ps + qs)[..answered] == ps + qs[..left];
    }
  }

  lemma Stopped(b: Build, app: int, ps: seq<Path>, qs: seq<Path>, answered: nat, b': Build, left: nat)
    requires Progress(b, app, ps, answered, false, b', left) && ps <= qs
    ensures Progress(b, app, qs, answered, false, b', left)
  {
    assert ps[..answered] == qs[..answered];
  }

  lemma OneCall(b: Build, app: int, p: Path, answered: nat)
    ensures answered == 0 ==> Progress(b, app, [p], answered, false, b, 0)
    ensures answered > 0 ==> Progress(b, app, [p], answered, true, Register(b, app, p), answered - 1)
  {
    RegisterAllSnoc(b, app, [], p);
    assert [] + [p] == [p];
    assert [p][..0] == [];
  }

  lemma {:induction false} MetricsPrefix(group: string, graph: Graph, metrics: seq<Metric>, k: nat)
    requires k <= |metrics|
    ensures FlattenMetrics(group, graph, metrics[..k]) <= FlattenMetrics(group, graph, metrics)
  {
    if k == |metrics| {
      assert metrics[..k] == metrics;
    } else {
      MetricsPrefix(group, graph, metrics[..|metrics| - 1], k);
      assert metrics[..|metrics| - 1][..k] == metrics[..k];
    }
  }

  lemma {:induction false} GraphsPrefix(group: string, graphs: seq<Graph>, k: nat)
    requires k <= |graphs|
    ensures FlattenGraphs(group, graphs[..k]) <= FlattenGraphs(group, graphs)
  {
    if k == |graphs| {
      assert graphs[..k] == graphs;
    } else {
      GraphsPrefix(group, graphs[..|graphs| - 1], k);
      assert graphs[..|graphs| - 1][..k] == graphs[..k];
    }
  }

  lemma {:induction false} GroupsPrefix(groups: seq<Group>, k: nat)
    requires k <= |groups|
    ensures Flatten(groups[..k]) <= Flatten(groups)
  {
    if k == |groups| {
      assert groups[..k] == groups;
    } else {
      GroupsPrefix(groups[..|groups| - 1], k);
      assert groups[..|groups| - 1][..k] == groups[..k];
    }
  }

  /** The paths of one metric, one graph or one group more. */
  lemma NextMetric(group: string, graph: Graph, k: nat)
    requires k < |graph.metrics|
    ensures FlattenMetrics(group, graph, graph.metrics[..k + 1])
         == FlattenMetrics(group, graph, graph.metrics[..k]) + [MetricOf(group, graph, k)]
  {
    assert graph.metrics[..k + 1][..k] == graph.metrics[..k];
  }

  function MetricOf(group: string, graph: Graph, k: nat): Path
    requires k < |graph.metrics|
  {
    MetricPath(group, graph.title, graph.dim, graph.metrics[k].title, graph.metrics[k].mtype)
  }

  lemma NextGraph(group: string, graphs: seq<Graph>, k: nat)
    requires k < |graphs|
    ensures FlattenGraphs(group, graphs[..k + 1])
         == FlattenGraphs(group, graphs[..k]) + PathsOfGraph(group, graphs[k])
  {
    assert graphs[..k + 1][..k] == graphs[..k];
  }

  lemma NextGroup(groups: seq<Group>, k: nat)
    requires k < |groups|
    ensures Flatten(groups[..k + 1]) == Flatten(groups[..k]) + PathsOfGroup(groups[k])
  {
    assert groups[..k + 1][..k] == groups[..k];
  }

  /** A new instrument of the metric's type stands at the end, under the metric's title, with a new unit. */
  predicate Added(m: Metric, reg: map<string, nat>, store: seq<Instrument>, local: map<string, Unit>,
                  reg': map<string, nat>, store': seq<Instrument>, local': map<string, Unit>)
  {
    && reg' == reg[m.title := |store|]
    && |store'| == |store| + 1 && store'[..|store|] == store && UnusedOfType(store'[|store|], m.mtype)
    && local'.Keys == local.Keys + {m.title}
    && local'[m.title].mtype == m.mtype && local'[m.title].inst == |store|
  }

  class Executor {
    const appID: int
    const log: MetricLog             // the master behind the agent's socket
    var reg: map<string, nat>        // the global go-metrics registry
    var store: seq<Instrument>       // the instruments of the process
    var units: map<string, Unit>
    var samples: seq<Metering.Sample>  // the rows stored through the agent
    ghost var todo: set<string>
    ghost var notified: map<string, seq<int64>>
    ghost var source: seq<string>
    ghost var seen: seq<nat>

    constructor (app: int, master: MetricLog)
      ensures appID == app && log == master && View() == Metering.Init(app, master.t)
    {
      appID, log := app, master;
      reg, store, units, samples := map[], [], map[], [];
      todo, notified, source, seen := {}, map[], [], [];
    }

    ghost function View(): Metering.State
      reads this, log
    {
      Metering.State(appID, log.t, reg, store, units, todo, samples, notified, source, seen)
    }

    /** The fields and Setup's local map are what b has built. */
    ghost predicate At(b: Build, local: map<string, Unit>)
      reads this, log
    {
      log.jobApp == appID && log.t == b.w.t && reg == b.reg && store == b.store && local == b.local
    }

    /** One metric of a graph: find or create its row, and register an instrument unless the title has one. */
    method SetupMetric(m: Metric, graphId: nat, local: map<string, Unit>, ghost b: Build, ghost p: Path)
      returns (local': map<string, Unit>)
      requires At(b, local) && b.w.graph == graphId
      requires p.MetricPath? && p.title == m.title && p.mtype == m.mtype
      modifies this`reg, this`store, log`t
      ensures At(Register(b, appID, p), local')
      ensures if m.mtype in {"counter", "histogram", "gauge"} && m.title !in old(reg)
              then Added(m, old(reg), old(store), local, reg, store, local')
              else reg == old(reg) && store == old(store) && local' == local
    {
      local' := local;
      var id := log.FindCreateMetric(m.title, m.mtype, graphId);
      if m.mtype == COUNTER || m.mtype == HISTOGRAM || m.mtype == GAUGE {
        if m.title in reg {
          return;
        }
        reg := reg[m.title := |store|];
        local' := local[m.title := Unit(m.title, m.mtype, id, |store|)];
        store := store + [NewInstrument(m.mtype)];
      }
    }

    /** The call for metric k of a graph, if it is still answered, and what Setup does with the answer. */
    method SetupNextMetric(group: string, graph: Graph, k: nat, graphId: nat, local: map<string, Unit>, left: nat,
                           ghost b: Build)
      returns (ok: bool, local': map<string, Unit>, left': nat, ghost b': Build)
      requires At(b, local) && b.w.graph == graphId && k < |graph.metrics|
      modifies this`reg, this`store, log`t
      ensures At(b', local') && b'.w.graph == graphId && b'.w.group == b.w.group
      ensures Progress(b, appID, [MetricOf(group, graph, k)], left, ok, b', left')
    {
      ghost var p := MetricOf(group, graph, k);
      OneCall(b, appID, p, left);
      ok, local', left', b' := left > 0, local, 0, b;
      if ok {
        left' := left - 1;
        local' := SetupMetric(graph.metrics[k], graphId, local, b, p);
        b' := Register(b, appID, p);
      }
    }

    /** The innermost loop; `answered` is the number of calls the master still answers. */
    method SetupMetrics(group: string, graph: Graph, graphId: nat, local: map<string, Unit>, answered: nat,
                        ghost b: Build)
      returns (ok: bool, local': map<string, Unit>, left: nat, ghost b': Build)
      requires At(b, local) && b.w.graph == graphId
      modifies this`reg, this`store, log`t
      ensures At(b', local') && b'.w.group == b.w.group
      ensures Progress(b, appID, FlattenMetrics(group, graph, graph.metrics), answered, ok, b', left)
    {
      ok, local', left, b' := true, local, answered, b;
      for k := 0 to |graph.metrics|
        invariant At(b', local') && b'.w.graph == graphId && b'.w.group == b.w.group
        invariant Progress(b, appID, FlattenMetrics(group, graph, graph.metrics[..k]), answered, true, b', left)
      {
        ghost var before, left0 := b', left;
        ghost var done, ps := FlattenMetrics(group, graph, graph.metrics[..k]), [MetricOf(group, graph, k)];
        NextMetric(group, graph, k);
        ok, local', left, b' := SetupNextMetric(group, graph, k, graphId, local', left, b');
        Further(b, appID, done, ps, answered, before, left0, ok, b', left);
        if !ok {
          MetricsPrefix(group, graph, graph.metrics, k + 1);
          Stopped(b, appID, done + ps, FlattenMetrics(group, graph, graph.metrics), answered, b', left);
          return;
        }
      }
      assert graph.metrics[..|graph.metrics|] == graph.metrics;
    }

    method SetupGraphRow(group: string, graph: Graph, groupId: nat, local: map<string, Unit>, ghost b: Build)
      returns (id: nat)
      requires At(b, local) && b.w.group == groupId
      modifies log`t
      ensures At(Register(b, appID, GraphPath(group, graph.title, graph.dim)), local)
      ensures Register(b, appID, GraphPath(group, graph.title, graph.dim)).w.graph == id
      ensures Register(b, appID, GraphPath(group, graph.title, graph.dim)).w.group == groupId
    {
      id := log.FindCreateGraph(graph.title, graph.dim, groupId);
    }

    /** One graph: its row, then its metrics. */
    method SetupGraph(group: string, graph: Graph, groupId: nat, local: map<string, Unit>, answered: nat,
                      ghost b: Build)
      returns (ok: bool, local': map<string, Unit>, left: nat, ghost b': Build)
      requires At(b, local) && b.w.group == groupId
      modifies this`reg, this`store, log`t
      ensures At(b', local') && b'.w.group == groupId
      ensures Progress(b, appID, PathsOfGraph(group, graph), answered, ok, b', left)
    {
      ghost var p := GraphPath(group, graph.title, graph.dim);
      ghost var ms := FlattenMetrics(group, graph, graph.metrics);
      OneCall(b, appID, p, answered);
      if answered == 0 {
        Stopped(b, appID, [p], PathsOfGraph(group, graph), answered, b, 0);
        return false, local, 0, b;
      }
      var id := SetupGraphRow(group, graph, groupId, local, b);
      ghost var b1 := Register(b, appID, p);
      ok, local', left, b' := SetupMetrics(group, graph, id, local, answered - 1, b1);
      Further(b, appID, [p], ms, answered, b1, answered - 1, ok, b', left);
    }

    method SetupGraphs(group: Group, groupId: nat, local: map<string, Unit>, answered: nat, ghost b: Build)
      returns (ok: bool, local': map<string, Unit>, left: nat, ghost b': Build)
      requires At(b, local) && b.w.group == groupId
      modifies this`reg, this`store, log`t
      ensures At(b', local')
      ensures Progress(b, appID, FlattenGraphs(group.name, group.graphs), answered, ok, b', left)
    {
      ok, local', left, b' := true, local, answered, b;
      for k := 0 to |group.graphs|
        invariant At(b', local') && b'.w.group == groupId
        invariant Progress(b, appID, FlattenGraphs(group.name, group.graphs[..k]), answered, true, b', left)
      {
        ghost var before, left0 := b', left;
        ghost var done := FlattenGraphs(group.name, group.graphs[..k]);
        ghost var ps := PathsOfGraph(group.name, group.graphs[k]);
        NextGraph(group.name, group.graphs, k);
        ok, local', left, b' := SetupGraph(group.name, group.graphs[k], groupId, local', left, b');
        Further(b, appID, done, ps, answered, before, left0, ok, b', left);
        if !ok {
          GraphsPrefix(group.name, group.graphs, k + 1);
          Stopped(b, appID, done + ps, FlattenGraphs(group.name, group.graphs), answered, b', left);
          return;
        }
      }
      assert group.graphs[..|group.graphs|] == group.graphs;
    }

    method SetupGroupRow(name: string, local: map<string, Unit>, ghost b: Build) returns (id: nat)
      requires At(b, local)
      modifies log`t
      ensures At(Register(b, appID, GroupPath(name)), local)
      ensures Register(b, appID, GroupPath(name)).w.group == id
    {
      id := log.FindCreateGroup(appID, name);
    }

    /** One group: its row, then its graphs. */
    method SetupGroup(group: Group, local: map<string, Unit>, answered: nat, ghost b: Build)
      returns (ok: bool, local': map<string, Unit>, left: nat, ghost b': Build)
      requires At(b, local)
      modifies this`reg, this`store, log`t
      ensures At(b', local')
      ensures Progress(b, appID, PathsOfGroup(group), answered, ok, b', left)
    {
      ghost var p := GroupPath(group.name);
      OneCall(b, appID, p, answered);
      if answered == 0 {
        Stopped(b, appID, [p], PathsOfGroup(group), answered, b, 0);
        return false, local, 0, b;
      }
      var id := SetupGroupRow(group.name, local, b);
      ghost var b1 := Register(b, appID, p);
      ok, local', left, b' := SetupGraphs(group, id, local, answered - 1, b1);
      Further(b, appID, [p], FlattenGraphs(group.name, group.graphs), answered, b1, answered - 1, ok, b', left);
    }

    method SetupGroups(groups: seq<Group>, answered: nat, ghost b: Build)
      returns (ok: bool, local: map<string, Unit>, ghost b': Build, ghost left: nat)
      requires At(b, map[])
      modifies this`reg, this`store, log`t
      ensures At(b', local)
      ensures Progress(b, appID, Flatten(groups), answered, ok, b', left)
    {
      var calls := answered;
      ok, local, b' := true, map[], b;
      for k := 0 to |groups|
        invariant At(b', local)
        invariant Progress(b, appID, Flatten(groups[..k]), answered, true, b', calls)
      {
        ghost var before, calls0 := b', calls;
        ghost var done := Flatten(groups[..k]);
        NextGroup(groups, k);
        ok, local, calls, b' := SetupGroup(groups[k], local, calls, b');
        Further(b, appID, done, PathsOfGroup(groups[k]), answered, before, calls0, ok, b', calls);
        if !ok {
          GroupsPrefix(groups, k + 1);
          Stopped(b, appID, done + PathsOfGroup(groups[k]), Flatten(groups), answered, b', calls);
          left := calls;
          return;
        }
      }
      assert groups[..|groups|] == groups;
      left := calls;
    }

    /**
     Setup, with a master that answers the first `answered` calls and fails the
     next one.  It returns nil exactly if that is enough for the whole tree.
     */
    method Setup(groups: seq<Group>, answered: nat) returns (ok: bool)
      requires log.jobApp == appID
      modifies this, log`t
      ensures View() == Metering.Apply(old(View()), Metering.Setup(groups, answered))
      ensures ok <==> Metering.Complete(groups, answered)
    {
      var local: map<string, Unit>;
      ghost var b, left;
      ok, local, b, left := SetupGroups(groups, answered, Metering.Start(View()));
      if ok {
        units := MergeUnits(units, local);
        notified := notified + map t | t in local :: [];
      }
    }

    /** Notify: false stands for ErrIDNotFound. */
    method Notify(title: string, value: int64) returns (found: bool)
      requires Metering.Inv(View())
      modifies `store, `notified
      ensures View() == Metering.Apply(old(View()), Metering.Notify(title, value))
      ensures found <==> title in units
      ensures !found ==> store == old(store)
      ensures found ==>
                var i := units[title].inst;
                && i < |store| == |old(store)| && store == old(store)[i := store[i]]
                && (old(store)[i].Counter? ==> store[i] == Counter(Wrap(old(store)[i].count + value)))
                && (old(store)[i].Histogram? ==> store[i] == Histogram(Wrap(old(store)[i].observed + 1)))
                && (old(store)[i].Gauge? ==> store[i] == Gauge(value))
    {
      found := title in units;
      if found {
        var u := units[title];
        assert Metering.ValueOk(View(), title);
        store := store[u.inst := Observe(store[u.inst], value)];
        notified := notified[title := notified[title] + [value]];
      }
    }

    /** Every unit points to an instrument, as it does in every state of a run. */
    ghost predicate Ready()
      reads `units, `store, `notified
    {
      forall t | t in units :: units[t].inst < |store| && t in notified
    }

    ghost method StartCue() returns (acts: seq<Metering.Action>)
      requires todo == {}
      modifies `todo
      ensures todo == units.Keys && Leads(old(View()), acts, View())
    {
      acts := [Metering.Cue];
      FirstStep(View(), Metering.Cue);
      todo := units.Keys;
    }

    /** The report of one unit of the current cue. */
    method ReportUnit(title: string, now: int, saved: bool, ghost s: Metering.State, ghost acts: seq<Metering.Action>)
      returns (ghost acts': seq<Metering.Action>)
      requires Ready() && title in todo && title in units && Leads(s, acts, View())
      modifies `samples, `todo, `source, `seen
      ensures Leads(s, acts', View()) && todo == old(todo) - {title}
      ensures source == if saved then old(source) + [title] else old(source)
      ensures Appended(old(samples), samples, if saved then 1 else 0, now)
    {
      acts' := acts + [Metering.Report(title, now, saved)];
      NextStep(s, acts, View(), Metering.Report(title, now, saved));
      todo := todo - {title};
      if saved {
        var u := units[title];
        samples := samples + [Metering.Sample(u.mtype, u.metricID, now, Content(store[u.inst]))];
        source := source + [title];
        seen := seen + [|notified[title]|];
      }
    }

    /** What the driver notifies between two reports. */
    method NotifyAll(values: seq<(string, int64)>, ghost s: Metering.State, ghost acts: seq<Metering.Action>)
      returns (ghost acts': seq<Metering.Action>)
      requires Metering.Inv(s) && Leads(s, acts, View())
      modifies `store, `notified
      ensures Leads(s, acts', View()) && Ready()
    {
      acts' := acts;
      Metering.BindingsAreStable(s, acts');
      for k := 0 to |values|
        invariant Leads(s, acts', View()) && Metering.Inv(View())
      {
        ghost var before := View();
        var found := Notify(values[k].0, values[k].1);
        NextStep(s, acts', before, Metering.Notify(values[k].0, values[k].1));
        acts' := acts' + [Metering.Notify(values[k].0, values[k].1)];
        Metering.BindingsAreStable(s, acts');
      }
    }

    /** Some notifications, and the next report. */
    method ReportNext(title: string, now: int, saved: bool, values: seq<(string, int64)>,
                      ghost s: Metering.State, ghost acts: seq<Metering.Action>)
      returns (ghost acts': seq<Metering.Action>)
      requires Metering.Inv(s) && title in todo && title in units && Leads(s, acts, View())
      modifies `store, `notified, `samples, `todo, `source, `seen
      ensures Leads(s, acts', View()) && todo == old(todo) - {title}
      ensures source == if saved then old(source) + [title] else old(source)
      ensures Appended(old(samples), samples, if saved then 1 else 0, now)
    {
      acts' := NotifyAll(values, s, acts);
      acts' := ReportUnit(title, now, saved, s, acts');
    }

    /** The loop over the units of the cue, in the map's own order. */
    method LogUnits(now: int, failing: set<string>, arriving: map<string, seq<(string, int64)>>,
                    ghost s: Metering.State, ghost acts: seq<Metering.Action>)
      returns (ghost acts': seq<Metering.Action>, ghost logged: seq<string>)
      requires Metering.Inv(s) && Leads(s, acts, View()) && todo == units.Keys
      modifies `store, `notified, `samples, `todo, `source, `seen
      ensures Leads(s, acts', View()) && todo == {}
      ensures source == old(source) + logged && Logged(logged, units.Keys, failing, {})
      ensures Appended(old(samples), samples, |logged|, now)
    {
      acts', logged := acts, [];
      var rest := units.Keys;
      while rest != {}
        invariant rest == todo <= units.Keys && Leads(s, acts', View())
        invariant source == old(source) + logged && Logged(logged, units.Keys, failing, rest)
        invariant Appended(old(samples), samples, |logged|, now)
        decreases rest
      {
        var title :| title in rest;
        var values := if title in arriving then arriving[title] else [];
        acts' := ReportNext(title, now, title !in failing, values, s, acts');
        logged := LogOne(logged, units.Keys, failing, rest, title);
        rest := rest - {title};
      }
    }

    /**
     One cue of logScaledOnCue: every unit present at the cue is reported once, and
     before each report the driver notifies what it has in `arriving`; the rows of
     the titles in `failing` are not stored.
     */
    method LogOnCue(now: int, failing: set<string>, arriving: map<string, seq<(string, int64)>>)
      returns (ghost acts: seq<Metering.Action>, ghost logged: seq<string>)
      requires Metering.Inv(View()) && todo == {}
      modifies `store, `notified, `samples, `todo, `source, `seen
      ensures Leads(old(View()), acts, View()) && todo == {}
      ensures source == old(source) + logged && Logged(logged, units.Keys, failing, {})
      ensures Appended(old(samples), samples, |logged|, now)
    {
      ghost var s := View();
      acts := StartCue();
      acts, logged := LogUnits(now, failing, arriving, s, acts);
    }
  }

  /** So many samples with this time have been appended. */
  ghost predicate Appended(before: seq<Metering.Sample>, after: seq<Metering.Sample>, n: nat, now: int) {
    before <= after && |after| == |before| + n && CuedAt(after, |before|, now)
  }

  /** From position `from` on the samples carry this time. */
  ghost predicate CuedAt(samples: seq<Metering.Sample>, from: nat, now: int) {
    forall k | from <= k < |samples| :: samples[k].time == now
  }

  function Count(ts: seq<string>, t: string): nat {
    if ts == [] then 0 else Count(ts[..|ts| - 1], t) + if ts[|ts| - 1] == t then 1 else 0
  }

  /** The units that do not fail have been logged once each, except those in `rest`, and nothing else has. */
  ghost predicate Logged(logged: seq<string>, units: set<string>, failing: set<string>, rest: set<string>) {
    forall t :: Count(logged, t) == if t in units && t !in failing && t !in rest then 1 else 0
  }

  lemma LogOne(logged: seq<string>, units: set<string>, failing: set<string>, rest: set<string>, title: string)
    returns (more: seq<string>)
    requires Logged(logged, units, failing, rest) && title in rest && rest <= units
    ensures more == if title in failing then logged else logged + [title]
    ensures Logged(more, units, failing, rest - {title})
  {
    more := if title in failing then logged else logged + [title];
    assert (logged + [title])[..|logged|] == logged;
  }

  ghost predicate Leads(s: Metering.State, acts: seq<Metering.Action>, s': Metering.State) {
    Metering.Valid(s, acts) && Metering.After(s, acts) == s'
  }

  lemma FirstStep(s: Metering.State, a: Metering.Action)
    requires Metering.Enabled(s, a)
    ensures Leads(s, [a], Metering.Apply(s, a))
  {
    Metering.Extend(s, [], a);
    assert [] + [a] == [a];
  }

  lemma NextStep(s: Metering.State, acts: seq<Metering.Action>, s': Metering.State, a: Metering.Action)
    requires Leads(s, acts, s') && Metering.Enabled(s', a)
    ensures Leads(s, acts + [a], Metering.Apply(s', a))
  {
    Metering.Extend(s, acts, a);
  }

  /** The loop that aggregates the local units. */
  method MergeUnits(units: map<string, Unit>, local: map<string, Unit>) returns (merged: map<string, Unit>)
    ensures merged == units + local
  {
    merged := units;
    var rest := local.Keys;
    while rest != {}
      invariant rest <= local.Keys
      invariant merged == units + (map t | t in local && t !in rest :: local[t])
      decreases rest
    {
      var k :| k in rest;
      merged := merged[k := local[k]];
      rest := rest - {k};
    }
    assert (map t | t in local && t !in rest :: local[t]) == local;
  }
}
